/** How the stack blocks of a sub-program are made (riscv_directed_instr_lib.py,
    riscv_push_stack_instr and riscv_pop_stack_instr). */
module StackBlocks {
  import opened IntRegisters
  import opened InstrBase
  import opened InstrStream
  import opened StackDiscipline

  // ---------------------------------------------------------------- the pieces

  /** A fresh branch instruction, any solution of its constraints. */
  method FreshBranch() returns (i: Instr)
    ensures i.name == OTHER && i.category == BRANCH && Unlabelled(i)
  {
    var rd, src1, src2: Reg, imm: int :| true;
    i := Fresh(OTHER, BRANCH, rd, src1, src2, imm);
  }

  predicate IsPushBranch(i: Instr, start: Label) {
    i.name == OTHER && i.category == BRANCH && i.target == start && i.branchAssigned
    && i.tag == NoLabel && !i.isLocalNumericLabel
  }

  /** The stack length constraint (riscv_instr_sequence.py lines 67-75). */
  predicate StackLen(len: nat) {
    40 <= len <= 64 && len % 4 == 0
  }

  /** Lines 333-336. */
  function SealPush(i: Instr): Instr {
    i.(atomic := true, hasLabel := i.hasLabel && i.tag != NoLabel)
  }

  /** Lines 457-459. */
  function SealPop(i: Instr): Instr {
    i.(atomic := true, hasLabel := false)
  }

  predicate SameCode(a: Instr, b: Instr) {
    a.name == b.name && a.category == b.category && a.rd == b.rd && a.src1 == b.src1 && a.src2 == b.src2 && a.imm == b.imm
  }

  ghost predicate SealedFrom(list: seq<Instr>, before: seq<Instr>, push: bool) {
    && |list| == |before|
    && forall k :: 0 <= k < |list| ==> list[k] == if push then SealPush(before[k]) else SealPop(before[k])
  }

  /** The loop at the end of both generators. */
  method Seal(stream: RandInstrStream, push: bool)
    modifies stream
    ensures SealedFrom(stream.instrList, old(stream.instrList), push)
  {
    for i := 0 to |stream.instrList|
      invariant |stream.instrList| == |old(stream.instrList)|
      invariant forall k :: i <= k < |stream.instrList| ==> stream.instrList[k] == old(stream.instrList)[k]
      invariant SealedFrom(stream.instrList[..i], old(stream.instrList)[..i], push)
    {
      var item := stream.instrList[i];
      stream.instrList := stream.instrList[i := if push then SealPush(item) else SealPop(item)];
    }
  }

  /** The 3 to 10 random instructions between the operations; nothing is reserved. */
  method Redundant(stream: RandInstrStream)
    modifies stream
    ensures RandomStream(stream.instrList, true, {}) && 3 <= |stream.instrList| <= 10
  {
    var count: nat :| 3 <= count <= 10;
    var none: set<Reg> := {};
    assert ZERO !in none;
    stream.GenInstr(count, true, none);
  }

  class PushStackInstr {
    const stream: RandInstrStream
    var pushStackInstr: seq<Instr>

    constructor ()
      ensures fresh(stream)
    {
      stream := new RandInstrStream();
      pushStackInstr := [];
    }

    /** Lines 214-311: addi sp,sp,-len and one sw for each saved register. */
    method CreatePushInstr(stackLen: nat)
      modifies `pushStackInstr
      ensures pushStackInstr == PushOps(stackLen)
      ensures pushStackInstr == [Fresh(ADDI, ARITHMETIC, SP, SP, ZERO, 0 - stackLen),
                                 Fresh(SW, STORE, ZERO, SP, RA, 4), Fresh(SW, STORE, ZERO, SP, T0, 8)]
    {
      var savedRegs := [RA, T0];
      pushStackInstr := [Fresh(ADDI, ARITHMETIC, SP, SP, ZERO, 0 - stackLen)];
      for i := 0 to |savedRegs|
        invariant pushStackInstr == PushOps(stackLen)[..i + 1]
      {
        pushStackInstr := pushStackInstr + [Fresh(SW, STORE, ZERO, SP, savedRegs[i], 4 * (i + 1))];
      }
    }

    /** Lines 316-331: a branch to the first operation, which gets the label. */
    method AddBranch(pushStartLabel: Label)
      requires pushStackInstr != []
      modifies `pushStackInstr
      ensures |pushStackInstr| == |old(pushStackInstr)| + 1
      ensures IsPushBranch(pushStackInstr[0], pushStartLabel)
      ensures pushStackInstr[1] == old(pushStackInstr)[0].(tag := pushStartLabel, hasLabel := true)
      ensures pushStackInstr[2..] == old(pushStackInstr)[1..]
    {
      var branchInstr := FreshBranch();
      branchInstr := branchInstr.(target := pushStartLabel, branchAssigned := true);
      pushStackInstr := [branchInstr, pushStackInstr[0].(tag := pushStartLabel, hasLabel := true)] + pushStackInstr[1..];
    }

    /** `gen_push_stack_instr`. */
    method GenPushStackInstr(stackLen: nat, pushStartLabel: Label, allowBranch: bool)
      modifies this, stream
      ensures PushList(pushStackInstr, stackLen, pushStartLabel)
      ensures !allowBranch ==> pushStackInstr == PushOps(stackLen)
      ensures MixedBlock(true, stream.instrList, pushStackInstr)
    {
      Redundant(stream);
      ghost var others := stream.instrList;
      CreatePushInstr(stackLen);
      var enableBranch: bool := *;
      if allowBranch && enableBranch {
        AddBranch(pushStartLabel);
      }
      var mixed, sol := stream.MixInstrStream(pushStackInstr, false);
      assert Mixing(stream.instrList, others, pushStackInstr, sol);
      Seal(stream, true);
    }
  }

  class PopStackInstr {
    const stream: RandInstrStream
    var popStackInstr: seq<Instr>

    constructor ()
      ensures fresh(stream)
    {
      stream := new RandInstrStream();
      popStackInstr := [];
    }

    /** Lines 363-455: one lw for each saved register and addi sp,sp,len. */
    method CreatePopInstr(stackLen: nat)
      modifies `popStackInstr
      ensures popStackInstr == PopOps(stackLen)
      ensures popStackInstr == [Fresh(LW, LOAD, RA, SP, ZERO, 4), Fresh(LW, LOAD, T0, SP, ZERO, 8),
                                Fresh(ADDI, ARITHMETIC, SP, SP, ZERO, stackLen)]
    {
      var savedRegs := [RA, T0];
      popStackInstr := [];
      for i := 0 to |savedRegs|
        invariant popStackInstr == PopOps(stackLen)[..i]
      {
        popStackInstr := popStackInstr + [Fresh(LW, LOAD, savedRegs[i], SP, ZERO, 4 * (i + 1))];
      }
      popStackInstr := popStackInstr + [Fresh(ADDI, ARITHMETIC, SP, SP, ZERO, stackLen)];
    }

    /** `gen_pop_stack_instr`, with the registers the push block saved. */
    method GenPopStackInstr(stackLen: nat)
      modifies this, stream
      ensures popStackInstr == PopOps(stackLen) && MixedBlock(false, stream.instrList, popStackInstr)
    {
      Redundant(stream);
      ghost var others := stream.instrList;
      CreatePopInstr(stackLen);
      var mixed, sol := stream.MixInstrStream(popStackInstr, false);
      assert Mixing(stream.instrList, others, popStackInstr, sol);
      Seal(stream, false);
    }
  }

  // ---------------------------------------------------------------- what the methods produce

  function PushOps(len: nat): seq<Instr> {
    [Fresh(ADDI, ARITHMETIC, SP, SP, ZERO, 0 - len), Fresh(SW, STORE, ZERO, SP, RA, SLOT_RA), Fresh(SW, STORE, ZERO, SP, T0, SLOT_T0)]
  }

  function PopOps(len: nat): seq<Instr> {
    [Fresh(LW, LOAD, RA, SP, ZERO, SLOT_RA), Fresh(LW, LOAD, T0, SP, ZERO, SLOT_T0), Fresh(ADDI, ARITHMETIC, SP, SP, ZERO, len)]
  }

  /** The push operations, or a branch to the first of them, then the operations. */
  predicate PushList(ops: seq<Instr>, len: nat, start: Label) {
    ops == PushOps(len)
    || (|ops| == 4 && IsPushBranch(ops[0], start) && ops[1] == PushOps(len)[0].(tag := start) && ops[2..] == PushOps(len)[1..])
  }

  ghost predicate Mixing(mixed: seq<Instr>, others: seq<Instr>, ops: seq<Instr>, sol: seq<nat>) {
    && RandomStream(others, true, {})
    && Solution(sol, |ops|, |others|) && mixed == Merged(others, ops, sol)
  }

  /** The operations mixed into random instructions, sealed. */
  ghost predicate MixedBlock(push: bool, list: seq<Instr>, ops: seq<Instr>) {
    exists before, others, sol :: SealedFrom(list, before, push) && Mixing(before, others, ops, sol)
  }

  // ---------------------------------------------------------------- they have the shape of blocks

  predicate Fits(push: bool, x: Instr, k: nat, len: nat, e: nat) {
    if x.name == OTHER then x.category !in {STORE, JUMP} && e == k else IsOp(push, x, k, len) && e == k + 1
  }

  predicate Plain(list: seq<Instr>) {
    forall k :: 0 <= k < |list| ==> list[k].name == OTHER && list[k].category !in {STORE, JUMP}
  }

  lemma {:induction false} PlainSteps(push: bool, list: seq<Instr>, k: nat, len: nat)
    requires Plain(list)
    ensures Steps(push, list, k, len, k)
  {
    if list != [] {
      forall n | 0 <= n < |list| - 1 ensures list[1..][n].name == OTHER && list[1..][n].category !in {STORE, JUMP} {
        assert list[1..][n] == list[n + 1];
      }
      PlainSteps(push, list[1..], k, len);
    }
  }

  /** One more operation after all the others. */
  lemma {:induction false} StepsExtend(push: bool, front: seq<Instr>, x: Instr, back: seq<Instr>, k: nat, len: nat, e: nat, e': nat)
    requires Steps(push, front + back, k, len, e) && Plain(back) && Fits(push, x, e, len, e')
    ensures Steps(push, front + [x] + back, k, len, e')
    decreases front
  {
    var list, longer := front + back, front + [x] + back;
    if front == [] {
      assert list == back && longer[1..] == back;
      PlainSteps(push, back, k, len);
      PlainSteps(push, back, e', len);
      StepsEnd(push, back, k, len, e, k);
    } else {
      var k' := if front[0].name == OTHER then k else k + 1;
      assert list[1..] == front[1..] + back && longer[1..] == front[1..] + [x] + back;
      StepsExtend(push, front[1..], x, back, k', len, e, e');
    }
  }

  lemma {:induction false} StepsEnd(push: bool, list: seq<Instr>, k: nat, len: nat, e: nat, e': nat)
    requires Steps(push, list, k, len, e) && Steps(push, list, k, len, e')
    ensures e == e'
    decreases list
  {
    if list != [] {
      StepsEnd(push, list[1..], if list[0].name == OTHER then k else k + 1, len, e, e');
    }
  }

  lemma {:induction false} StepsLast(push: bool, ops: seq<Instr>, k: nat, len: nat, e: nat) returns (m: nat)
    requires Steps(push, ops, k, len, e) && ops != []
    ensures Steps(push, ops[..|ops| - 1], k, len, m) && Fits(push, ops[|ops| - 1], m, len, e)
    decreases ops
  {
    if |ops| == 1 {
      m := k;
    } else {
      m := StepsLast(push, ops[1..], if ops[0].name == OTHER then k else k + 1, len, e);
      assert ops[1..][..|ops| - 2] == ops[..|ops| - 1][1..];
    }
  }

  /** Behind the place of the last new instruction there are only original ones. */
  lemma TailIsPlain(others: seq<Instr>, ops: seq<Instr>, sol: seq<nat>, at: nat)
    requires RandomStream(others, true, {}) && Solution(sol, |ops|, |others|)
    requires at <= |others| + |ops| && (ops != [] ==> at >= sol[|ops| - 1] + |ops|)
    ensures Plain(Merged(others, ops, sol)[at..])
  {
    var r := Merged(others, ops, sol);
    forall k | 0 <= k < |r[at..]| ensures r[at..][k].name == OTHER && r[at..][k].category !in {STORE, JUMP} {
      Origin(others, ops, sol, at + k);
      assert forall i :: 0 <= i < |ops| ==> sol[i] + i < at + k + 1 && sol[i] + i != at + k;
    }
  }

  lemma {:induction false} MergedSteps(push: bool, others: seq<Instr>, ops: seq<Instr>, sol: seq<nat>, len: nat, e: nat)
    requires RandomStream(others, true, {}) && Solution(sol, |ops|, |others|) && Steps(push, ops, 0, len, e)
    ensures Steps(push, Merged(others, ops, sol), 0, len, e)
    decreases |ops|
  {
    if ops == [] {
      TailIsPlain(others, ops, sol, 0);
      PlainSteps(push, others, 0, len);
    } else {
      var n := |ops| - 1;
      var m := StepsLast(push, ops, 0, len, e);
      MergedSteps(push, others, ops[..n], sol[..n], len, m);
      var before, at := Merged(others, ops[..n], sol[..n]), sol[n] + n;
      TailIsPlain(others, ops[..n], sol[..n], at);
      assert before == before[..at] + before[at..];
      StepsExtend(push, before[..at], ops[n], before[at..], 0, len, m, e);
    }
  }

  lemma {:induction false} SameCodeSteps(push: bool, a: seq<Instr>, b: seq<Instr>, k: nat, len: nat, e: nat)
    requires |a| == |b| && forall n :: 0 <= n < |a| ==> SameCode(a[n], b[n])
    requires Steps(push, a, k, len, e)
    ensures Steps(push, b, k, len, e)
    decreases a
  {
    if a != [] {
      assert SameCode(a[0], b[0]);
      forall n | 0 <= n < |a| - 1 ensures SameCode(a[1..][n], b[1..][n]) {
        assert SameCode(a[n + 1], b[n + 1]);
      }
      SameCodeSteps(push, a[1..], b[1..], if a[0].name == OTHER then k else k + 1, len, e);
    }
  }

  lemma ThreeSteps(push: bool, ops: seq<Instr>, len: nat)
    requires |ops| == 3 && forall k :: 0 <= k < 3 ==> ops[k].name != OTHER && IsOp(push, ops[k], k, len)
    ensures Shape(push, ops, 0, len)
  {
    var ops1, ops2, ops3 := ops[1..], ops[1..][1..], ops[1..][1..][1..];
    assert Steps(push, ops3, 3, len, 3);
    assert ops2[0] == ops[2] && Steps(push, ops2, 2, len, 3);
    assert ops1[0] == ops[1] && Steps(push, ops1, 1, len, 3);
  }

  lemma OpsSteps(len: nat, ops: seq<Instr>, start: Label)
    ensures Shape(false, PopOps(len), 0, len)
    ensures PushList(ops, len, start) ==> Shape(true, ops, 0, len)
  {
    ThreeSteps(false, PopOps(len), len);
    if PushList(ops, len, start) {
      if |ops| == 4 {
        assert forall k :: 0 <= k < 2 ==> ops[2..][k] == PushOps(len)[1..][k];
        ThreeSteps(true, ops[1..], len);
      } else {
        ThreeSteps(true, ops, len);
      }
    }
  }

  /** What the two generators make are blocks: the operations in order, among random
      instructions. So RestoresIff applies to them, for every stack length. */
  lemma MixedHasShape(push: bool, list: seq<Instr>, ops: seq<Instr>, len: nat)
    requires MixedBlock(push, list, ops) && Shape(push, ops, 0, len)
    ensures Shape(push, list, 0, len)
    ensures forall k :: 0 <= k < |list| ==> list[k].atomic
  {
    var before, others, sol :| SealedFrom(list, before, push) && Mixing(before, others, ops, sol);
    MergedSteps(push, others, ops, sol, len, 3);
    SameCodeSteps(push, before, list, 0, len, 3);
  }

  lemma {:induction false} SafeAvoidsSp(push: bool, list: seq<Instr>, k: nat, n: nat)
    requires Safe(push, list, k) && n < |list| && list[n].name == OTHER && list[n].category != BRANCH
    ensures list[n].rd != SP
    decreases list
  {
    if n > 0 {
      SafeAvoidsSp(push, list[1..], if list[0].name == OTHER then k else k + 1, n - 1);
    }
  }

  /** The generator reserves no register for the instructions it mixes in, so it can make a
      block that is not safe. */
  lemma UnsafeBlockIsPossible(len: nat) returns (list: seq<Instr>)
    ensures MixedBlock(true, list, PushOps(len)) && !Safe(true, list, 0)
  {
    var x := Fresh(OTHER, LOGICAL, SP, ZERO, ZERO, 0);
    var others, ops, sol: seq<nat> := [x, x, x], PushOps(len), [0, 0, 0];
    assert RandomInstr(x, true);
    var before := Merged(others, ops, sol);
    list := seq(|before|, k requires 0 <= k < |before| => SealPush(before[k]));
    assert Mixing(before, others, ops, sol) && SealedFrom(list, before, true);
    OldPositions(others, ops, sol, 0);
    if Safe(true, list, 0) {
      SafeAvoidsSp(true, list, 0, CountUpTo(sol, 0));
    }
  }
}
