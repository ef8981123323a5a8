/** The jump stream that calls a sub-program (riscv_directed_instr_lib.py, riscv_jump_instr):
    `la`, `addi`, a branch and the jump, mixed into random instructions. */
module JumpStream {
  import opened IntRegisters
  import opened InstrBase
  import opened InstrStream
  import opened Machine

  // ---------------------------------------------------------------- making the stream

  /** Lines 173-175. */
  function Seal(i: Instr): Instr {
    i.(atomic := true, hasLabel := false)
  }

  class JumpInstr {
    const stream: RandInstrStream
    var la: Instr
    var addi: Instr
    var jump: Instr
    var branch: Instr

    constructor ()
      ensures fresh(stream)
    {
      stream := new RandInstrStream();
      la := Fresh(LA, LOAD, ZERO, ZERO, ZERO, 0);
      addi := Fresh(ADDI, ARITHMETIC, ZERO, ZERO, ZERO, 0);
      jump := Fresh(JAL, JUMP, ZERO, ZERO, ZERO, 0);
      branch := Fresh(OTHER, BRANCH, ZERO, ZERO, ZERO, 0);
    }

    /** `problem_definition`: any solution of its constraints. The immediate of `addi` is
        drawn from 0 to 0xfffe, so the test against 0xFFFFFC00 never excludes anything;
        the immediate of `jump` is its negation. Both are then truncated. A base register
        of zero has no solution. */
    method ProblemDefinition() returns (base: Reg, a: nat)
      modifies this
      ensures base != ZERO && a < 0xffff
      ensures la == Fresh(LA, LOAD, base, ZERO, ZERO, 0)
      ensures addi == Fresh(ADDI, ARITHMETIC, base, base, ZERO, Imm11(a))
      ensures jump == Fresh(JAL, JUMP, RA, base, ZERO, 0) || jump == Fresh(JALR, JUMP, RA, base, ZERO, Imm11(0 - a))
      ensures branch.name == OTHER && branch.category == BRANCH && Unlabelled(branch)
    {
      assert T0 != ZERO;
      base :| base != ZERO;
      a :| a < 0xffff;
      la := Fresh(LA, LOAD, base, ZERO, ZERO, 0);
      addi := Fresh(ADDI, ARITHMETIC, base, base, ZERO, Imm11(a));
      var jal: bool := *;
      jump := if jal then Fresh(JAL, JUMP, RA, base, ZERO, 0) else Fresh(JALR, JUMP, RA, base, ZERO, Imm11(0 - a));
      var rd, src1: Reg, imm: int :| true;
      branch := Fresh(OTHER, BRANCH, rd, src1, ZERO, imm);
    }

    /** `post_randomize`. The source fills in the branch's target at the end, through the
        object that is already in the list. */
    method PostRandomize(callee: nat, idx: nat) returns (ghost others: seq<Instr>, sol: seq<nat>)
      modifies this, stream
      ensures la == old(la).(target := Program(callee)) && addi == old(addi)
      ensures branch == old(branch).(target := JumpPoint(callee, idx), branchAssigned := true)
      ensures jump == old(jump).(target := if old(jump).name == JAL then Program(callee) else old(jump).target,
                                 tag := JumpPoint(callee, idx), hasLabel := true, atomic := true)
      ensures 5 <= |others| <= 10 && RandomStream(others, true, {addi.src1})
      ensures Solution(sol, |Ops(la, addi, branch, jump)|, |others|)
      ensures stream.instrList == Sealed(Merged(others, Ops(la, addi, branch, jump), sol)) + [jump]
    {
      var count: nat :| 5 <= count <= 10;
      SomeFree(addi.src1);
      stream.GenInstr(count, true, {addi.src1});
      others := stream.instrList;
      la := la.(target := Program(callee));
      branch := branch.(target := JumpPoint(callee, idx), branchAssigned := true);
      var instr := [branch];
      if jump.name == JAL {
        jump := jump.(target := Program(callee));
      } else {
        instr := [la, addi] + instr;
      }
      assert instr == Ops(la, addi, branch, jump);
      var mixed;
      mixed, sol := stream.MixInstrStream(instr, false);
      ghost var before := stream.instrList;
      for i := 0 to |stream.instrList|
        modifies stream
        invariant |stream.instrList| == |before|
        invariant forall k :: i <= k < |before| ==> stream.instrList[k] == before[k]
        invariant forall k :: 0 <= k < i ==> stream.instrList[k] == Seal(before[k])
      {
        stream.instrList := stream.instrList[i := Seal(stream.instrList[i])];
      }
      assert stream.instrList == Sealed(before);
      jump := jump.(tag := JumpPoint(callee, idx), hasLabel := true, atomic := true);
      stream.instrList := stream.instrList + [jump];
    }
  }

  function Ops(la: Instr, addi: Instr, branch: Instr, jump: Instr): seq<Instr> {
    if jump.name == JAL then [branch] else [la, addi, branch]
  }

  function Sealed(list: seq<Instr>): seq<Instr> {
    seq(|list|, k requires 0 <= k < |list| => Seal(list[k]))
  }

  /** A stream as the two methods above leave it. */
  ghost predicate MadeFrom(list: seq<Instr>, callee: nat, idx: nat, base: Reg, a: nat, others: seq<Instr>, sol: seq<nat>,
                           branch: Instr, jump: Instr)
  {
    var la := Fresh(LA, LOAD, base, ZERO, ZERO, 0).(target := Program(callee));
    var addi := Fresh(ADDI, ARITHMETIC, base, base, ZERO, Imm11(a));
    && base != ZERO && a < 0xffff
    && branch.name == OTHER && branch.category == BRANCH && branch.branchAssigned && !branch.isLocalNumericLabel
    && branch.target == JumpPoint(callee, idx) && branch.tag == NoLabel
    && jump.category == JUMP && jump.rd == RA && jump.src1 == base && jump.atomic && !jump.isLocalNumericLabel
    && jump.hasLabel && jump.tag == JumpPoint(callee, idx)
    && (if jump.name == JAL then jump.target == Program(callee)
        else jump.name == JALR && jump.target == NoLabel && jump.imm == Imm11(0 - a))
    && others != [] && RandomStream(others, true, {base})
    && Solution(sol, |Ops(la, addi, branch, jump)|, |others|)
    && list == Sealed(Merged(others, Ops(la, addi, branch, jump), sol)) + [jump]
  }

  ghost predicate CallStream(list: seq<Instr>, callee: nat, idx: nat) {
    exists base, a, others, sol, branch, jump :: MadeFrom(list, callee, idx, base, a, others, sol, branch, jump)
  }

  // ---------------------------------------------------------------- where the jump goes

  predicate Leaves(i: Instr, r: Reg) {
    (i.category in {BRANCH, STORE, JUMP} && i.name !in {ADDI, LW}) || i.rd != r
  }

  lemma {:induction false} RunLeaves(list: seq<Instr>, vals: seq<Word>, s: State, r: Reg)
    requires |vals| == |list| && forall k :: 0 <= k < |list| ==> Leaves(list[k], r)
    ensures Get(Run(list, vals, s), r) == Get(s, r)
    decreases list
  {
    if list != [] {
      assert Leaves(list[0], r);
      forall k | 0 <= k < |list| - 1 ensures Leaves(list[1..][k], r) {
        assert Leaves(list[k + 1], r);
      }
      RunLeaves(list[1..], vals[1..], Exec(list[0], vals[0], s), r);
    }
  }

  lemma {:induction false} RunSplit(list: seq<Instr>, vals: seq<Word>, s: State, at: nat)
    requires |vals| == |list| && at <= |list|
    ensures Run(list, vals, s) == Run(list[at..], vals[at..], Run(list[..at], vals[..at], s))
    decreases list
  {
    if at == 0 {
      assert list[0..] == list && vals[0..] == vals;
    } else {
      RunSplit(list[1..], vals[1..], Exec(list[0], vals[0], s), at - 1);
      assert list[1..][at - 1..] == list[at..] && vals[1..][at - 1..] == vals[at..];
      assert list[1..][..at - 1] == list[..at][1..] && vals[1..][..at - 1] == vals[..at][1..];
    }
  }

  /** The last instruction that writes a register decides. */
  lemma LastWrite(list: seq<Instr>, vals: seq<Word>, s: State, at: nat, r: Reg)
    requires |vals| == |list| && at < |list| && forall k :: at < k < |list| ==> Leaves(list[k], r)
    ensures Get(Run(list, vals, s), r) == Get(Exec(list[at], vals[at], Run(list[..at], vals[..at], s)), r)
  {
    RunSplit(list, vals, s, at);
    var tail := list[at..];
    forall k | 0 <= k < |tail| - 1 ensures Leaves(tail[1..][k], r) {
      assert Leaves(list[at + 1 + k], r);
    }
    RunLeaves(tail[1..], vals[at..][1..], Exec(list[at], vals[at], Run(list[..at], vals[..at], s)), r);
  }

  /** JALR clears the lowest bit of the address (RISC-V Unprivileged ISA, section 2.5). */
  function JalrAddress(base: Word, imm: int): Word {
    var sum := Wrap(base + imm);
    sum - sum % 2
  }

  /** Everything the stream's run depends on: `la` and `addi` at la < addi < branch, nothing
      else touching the base register, and the jump at the end. */
  predicate IsJalrStream(list: seq<Instr>, base: Reg, a: nat, la: nat, addi: nat, branch: nat) {
    && base != ZERO && la < addi < branch < |list| - 1
    && list[la].name == LA && list[la].category == LOAD && list[la].rd == base
    && list[addi].name == ADDI && list[addi].rd == base && list[addi].src1 == base && list[addi].imm == Imm11(a)
    && (forall k :: 0 <= k < |list| - 1 && k != la && k != addi ==> Leaves(list[k], base))
    && list[|list| - 1].name == JALR && list[|list| - 1].src1 == base && list[|list| - 1].imm == Imm11(0 - a)
  }

  /** Where the stream jumps to, when `la` yields the address of the target and the branch is
      taken (it goes to the jump) or not. */
  function Destination(list: seq<Instr>, vals: seq<Word>, s: State, branch: nat, taken: bool): Word
    requires |vals| == |list| && branch < |list| - 1
  {
    var stop := if taken then branch + 1 else |list| - 1;
    var jump := list[|list| - 1];
    JalrAddress(Get(Run(list[..stop], vals[..stop], s), jump.src1), jump.imm)
  }

  lemma BaseAtJump(list: seq<Instr>, vals: seq<Word>, s: State, base: Reg, a: nat,
                   la: nat, addi: nat, branch: nat, stop: nat, t: Word)
    requires IsJalrStream(list, base, a, la, addi, branch) && |vals| == |list| && vals[la] == t
    requires addi < stop < |list|
    ensures Get(Run(list[..stop], vals[..stop], s), base) == Wrap(t + Imm11(a))
  {
    var l, v := list[..stop], vals[..stop];
    LastWrite(l, v, s, addi, base);
    LastWrite(l[..addi], v[..addi], s, la, base);
  }

  lemma NegatedLowBits(a: nat)
    ensures (0 - a) % 2048 == if a % 2048 == 0 then 0 else 2048 - a % 2048
  {
  }

  /** The two immediates cancel unless the truncated one is -1024. */
  lemma ImmediatesCancelIff(a: nat)
    ensures Imm11(a) + Imm11(0 - a) == if a % 2048 == 1024 then -2048 else 0
    ensures Imm11(a) == -1024 <==> a % 2048 == 1024
  {
    Imm11Facts(a);
    Imm11Facts(0 - a);
    NegatedLowBits(a);
  }

  lemma WrapTwice(t: Word, m: int, n: int)
    ensures Wrap(Wrap(t + m) + n) == Wrap(t + m + n)
  {
  }

  lemma JumpLands(t: Word, m: int, n: int)
    requires t % 2 == 0
    ensures m + n == 0 ==> JalrAddress(Wrap(t + m), n) == t
    ensures m + n == -2048 ==> JalrAddress(Wrap(t + m), n) == Wrap(t - 2048) != t
  {
    WrapTwice(t, m, n);
    if m + n == -2048 {
      assert Wrap(t - 2048) == if t < 2048 then t - 2048 + WORD else t - 2048;
    }
  }

  /** Whatever the random instructions write and whether or not the branch is taken, the jump
      reaches the target exactly when the immediate of `addi` is not 1024 modulo 2048; in
      that case it lands 2048 bytes below the target. */
  lemma ReachesTargetIff(list: seq<Instr>, vals: seq<Word>, s: State, base: Reg, a: nat,
                         la: nat, addi: nat, branch: nat, taken: bool, t: Word)
    requires IsJalrStream(list, base, a, la, addi, branch) && |vals| == |list| && vals[la] == t && t % 2 == 0
    ensures Destination(list, vals, s, branch, taken) == t <==> a % 2048 != 1024
    ensures a % 2048 == 1024 ==> Destination(list, vals, s, branch, taken) == Wrap(t - 2048)
  {
    var stop := if taken then branch + 1 else |list| - 1;
    BaseAtJump(list, vals, s, base, a, la, addi, branch, stop, t);
    ImmediatesCancelIff(a);
    JumpLands(t, Imm11(a), Imm11(0 - a));
  }

  lemma OthersLeave(base: Reg, others: seq<Instr>, ops: seq<Instr>, sol: seq<nat>, k: nat)
    requires RandomStream(others, true, {base}) && Solution(sol, |ops|, |others|) && |ops| == 3
    requires ops[2].name == OTHER && ops[2].category == BRANCH
    requires k < |others| + 3 && k != sol[0] && k != sol[1] + 1
    ensures Leaves(Seal(Merged(others, ops, sol)[k]), base)
  {
    if k == sol[2] + 2 {
      NewPositions(others, ops, sol, 2);
    } else {
      Origin(others, ops, sol, k);
      assert forall i :: 0 <= i < 3 ==> k != sol[i] + i;
      var m :| 0 <= m < |others| && others[m] == Merged(others, ops, sol)[k];
    }
  }

  /** The JALR streams that are made are of this kind. */
  lemma MadeStreams(list: seq<Instr>, callee: nat, idx: nat, base: Reg, a: nat, others: seq<Instr>, sol: seq<nat>,
                    branch: Instr, jump: Instr)
    requires MadeFrom(list, callee, idx, base, a, others, sol, branch, jump) && jump.name == JALR
    ensures IsJalrStream(list, base, a, sol[0], sol[1] + 1, sol[2] + 2)
  {
    var la := Fresh(LA, LOAD, base, ZERO, ZERO, 0).(target := Program(callee));
    var ops := [la, Fresh(ADDI, ARITHMETIC, base, base, ZERO, Imm11(a)), branch];
    var mixed := Merged(others, ops, sol);
    assert list == Sealed(mixed) + [jump];
    NewPositions(others, ops, sol, 0);
    NewPositions(others, ops, sol, 1);
    forall k | 0 <= k < |mixed| && k != sol[0] && k != sol[1] + 1 ensures Leaves(list[k], base) {
      OthersLeave(base, others, ops, sol, k);
    }
  }
}
