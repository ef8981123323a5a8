/** What the stack blocks of a sub-program (riscv_directed_instr_lib.py, the push and pop
    streams) do to SP, RA and T0. */
module StackDiscipline {
  import opened IntRegisters
  import opened InstrBase
  import opened Machine

  const SLOT_RA: nat := 4
  const SLOT_T0: nat := 8

  // ---------------------------------------------------------------- the shape of the blocks

  /** Operation k of the push block: `addi sp,sp,-len`, `sw ra,4(sp)`, `sw t0,8(sp)`. */
  predicate IsPushOp(i: Instr, k: nat, len: nat) {
    if k == 0 then i.name == ADDI && i.rd == SP && i.src1 == SP && i.imm == 0 - len
    else i.name == SW && i.src1 == SP && (if k == 1 then i.src2 == RA && i.imm == SLOT_RA
                                          else k == 2 && i.src2 == T0 && i.imm == SLOT_T0)
  }

  /** Operation k of the pop block: `lw ra,4(sp)`, `lw t0,8(sp)`, `addi sp,sp,len`. */
  predicate IsPopOp(i: Instr, k: nat, len: nat) {
    if k == 2 then i.name == ADDI && i.rd == SP && i.src1 == SP && i.imm == len
    else i.name == LW && i.src1 == SP && (if k == 0 then i.rd == RA && i.imm == SLOT_RA
                                          else k == 1 && i.rd == T0 && i.imm == SLOT_T0)
  }

  predicate IsOp(push: bool, i: Instr, k: nat, len: nat) {
    if push then IsPushOp(i, k, len) else IsPopOp(i, k, len)
  }

  /** Operations k to e-1 in order, with random instructions between. */
  predicate Steps(push: bool, list: seq<Instr>, k: nat, len: nat, e: nat)
    decreases list
  {
    if list == [] then k == e
    else if list[0].name == OTHER then list[0].category !in {STORE, JUMP} && Steps(push, list[1..], k, len, e)
    else IsOp(push, list[0], k, len) && Steps(push, list[1..], k + 1, len, e)
  }

  /** A block: the three operations, from number k on. */
  predicate Shape(push: bool, list: seq<Instr>, k: nat, len: nat) {
    Steps(push, list, k, len, 3)
  }

  /** A random instruction is harmless after k operations if it writes neither SP nor a
      saved register that still holds its only copy. */
  predicate Harmless(push: bool, i: Instr, k: nat) {
    i.category == BRANCH
    || (&& i.rd != SP
        && (i.rd == RA ==> if push then k >= 2 else k < 1)
        && (i.rd == T0 ==> if push then k >= 3 else k < 2))
  }

  predicate Safe(push: bool, list: seq<Instr>, k: nat)
    decreases list
  {
    list != [] ==>
      if list[0].name == OTHER then Harmless(push, list[0], k) && Safe(push, list[1..], k)
      else Safe(push, list[1..], k + 1)
  }

  // ---------------------------------------------------------------- what has to hold on the way

  /** The values a block has to carry: the stack pointer outside it, and RA and T0. */
  datatype Kept = Kept(sp: Word, ra: Word, t0: Word)

  function KeptBy(s: State): Kept {
    Kept(Get(s, SP), Get(s, RA), Get(s, T0))
  }

  function Inner(sp: Word, len: nat): Word {
    Wrap(sp - len)
  }

  /** Either the register or its slot holds the value. */
  predicate Holds(inSlot: bool, s: State, r: Reg, at: nat, v: Word) {
    if inSlot then Load(s, at) == v else Get(s, r) == v
  }

  /** After k operations of a push (pop) block. */
  predicate Carried(push: bool, k: nat, len: nat, kept: Kept, s: State) {
    var inner := Inner(kept.sp, len);
    && Get(s, SP) == (if (if push then k == 0 else k == 3) then kept.sp else inner)
    && Holds(if push then k >= 2 else k < 1, s, RA, Wrap(inner + SLOT_RA), kept.ra)
    && Holds(if push then k >= 3 else k < 2, s, T0, Wrap(inner + SLOT_T0), kept.t0)
  }

  lemma SlotsDiffer(x: Word)
    ensures Wrap(x + SLOT_RA) != Wrap(x + SLOT_T0)
  {
  }

  lemma InnerIsInjective(a: Word, b: Word, len: nat)
    ensures Inner(a, len) == Inner(b, len) <==> a == b
    ensures Wrap(Inner(a, len) + len) == a
  {
    var r := Inner(a, len);
    assert (a - len - r) % WORD == 0;
    assert (r + len) % WORD == a;
    assert (Inner(b, len) + len) % WORD == b;
  }

  lemma OuterIsInjective(a: Word, b: Word, len: nat)
    ensures Wrap(a + len) == b <==> a == Inner(b, len)
  {
    InnerIsInjective(b, b, len);
    InnerIsInjective(Wrap(a + len), b, len);
    assert Inner(Wrap(a + len), len) == a;
  }


  /** An operation of a block neither mends nor breaks anything. */
  lemma OpCarries(push: bool, i: Instr, k: nat, len: nat, kept: Kept, v: Word, s: State)
    requires IsOp(push, i, k, len)
    ensures Carried(push, k + 1, len, kept, Exec(i, v, s)) <==> Carried(push, k, len, kept, s)
  {
    var inner := Inner(kept.sp, len);
    SlotsDiffer(inner);
    InnerIsInjective(kept.sp, Get(s, SP), len);
    OuterIsInjective(Get(s, SP), kept.sp, len);
  }

  /** Writing back what a register holds changes nothing; a harmless instruction may write
      anything; any other one can be given a value that breaks the block. */
  lemma NeutralCarries(i: Instr, s: State)
    requires i.name == OTHER && i.category !in {STORE, JUMP}
    ensures Exec(i, Get(s, i.rd), s) == s
  {
    if i.rd != ZERO {
      assert s.regs[i.rd := s.regs[i.rd]] == s.regs;
    }
  }

  lemma HarmlessCarries(push: bool, i: Instr, k: nat, len: nat, kept: Kept, v: Word, s: State)
    requires i.name == OTHER && i.category !in {STORE, JUMP} && Harmless(push, i, k)
    requires Carried(push, k, len, kept, s)
    ensures Carried(push, k, len, kept, Exec(i, v, s))
  {
  }

  lemma HarmfulBreaks(push: bool, i: Instr, k: nat, len: nat, kept: Kept, s: State)
    requires i.name == OTHER && i.category !in {STORE, JUMP} && !Harmless(push, i, k)
    requires Carried(push, k, len, kept, s)
    ensures !Carried(push, k, len, kept, Exec(i, Wrap(Get(s, i.rd) + 1), s))
  {
  }

  // ---------------------------------------------------------------- runs of a block

  /** Every run of a block: random instructions write anything, and a branch may be taken, to
      the first label of its name behind it. */
  ghost predicate BlockRuns(list: seq<Instr>, s: State, s': State)
    decreases |list|
  {
    if list == [] then s' == s
    else if list[0].category == BRANCH then
      || BlockRuns(list[1..], s, s')
      || (BranchStays(list) && BlockRuns(list[Find(list, 1, list[0].target)..], s, s'))
    else exists v :: BlockRuns(list[1..], Exec(list[0], v, s), s')
  }

  /** Its label is in the block. */
  predicate BranchStays(list: seq<Instr>): (b: bool)
    requires list != []
    ensures b ==> 1 <= Find(list, 1, list[0].target) < |list|
  {
    FindIsBehind(list, 1, list[0].target);
    Find(list, 1, list[0].target) < |list|
  }

  lemma {:induction false} FindIsBehind(list: seq<Instr>, from: nat, tag: Label)
    ensures Find(list, from, tag) >= from
    decreases |list| - from
  {
    if from < |list| && !Bears(list[from], tag) {
      FindIsBehind(list, from + 1, tag);
    }
  }

  /** No branch leaves the block or skips one of its operations. */
  predicate SparesOps(list: seq<Instr>)
    decreases list
  {
    list != [] ==>
      && SparesOps(list[1..])
      && (list[0].category == BRANCH ==>
            && list[0].name == OTHER && BranchStays(list)
            && forall m :: 1 <= m < Find(list, 1, list[0].target) ==> list[m].name == OTHER)
  }

  lemma {:induction false} SparesTail(list: seq<Instr>, e: nat)
    requires SparesOps(list) && e <= |list|
    ensures SparesOps(list[e..])
    decreases list
  {
    if e == 0 {
      assert list[0..] == list;
    } else {
      SparesTail(list[1..], e - 1);
      assert list[1..][e - 1..] == list[e..];
    }
  }

  /** Cutting out random instructions, as a taken branch does, leaves a block of the same
      kind. */
  lemma {:induction false} SkippingKeeps(push: bool, list: seq<Instr>, k: nat, len: nat, b: nat, e: nat)
    requires Shape(push, list, k, len) && Safe(push, list, k)
    requires b <= e <= |list| && forall m :: b <= m < e ==> list[m].name == OTHER
    ensures Shape(push, list[..b] + list[e..], k, len) && Safe(push, list[..b] + list[e..], k)
    decreases list
  {
    var cut := list[..b] + list[e..];
    if e == 0 {
      assert cut == list;
    } else {
      var tail, k' := list[1..], if list[0].name == OTHER then k else k + 1;
      forall m | 0 <= m < |tail| && b <= m + 1 < e ensures tail[m].name == OTHER {
        assert tail[m] == list[m + 1];
      }
      if b == 0 {
        assert list[0].name == OTHER;
        SkippingKeeps(push, tail, k, len, 0, e - 1);
        assert tail[..0] + tail[e - 1..] == cut;
      } else {
        SkippingKeeps(push, tail, k', len, b - 1, e - 1);
        assert tail[..b - 1] + tail[e - 1..] == cut[1..];
      }
    }
  }

  // ---------------------------------------------------------------- whole blocks

  /** What a taken branch goes on with is again a safe block, with as many operations to come. */
  lemma BranchLeaves(push: bool, list: seq<Instr>, k: nat, len: nat)
    requires list != [] && Shape(push, list, k, len) && Safe(push, list, k) && SparesOps(list)
    requires list[0].category == BRANCH && BranchStays(list)
    ensures var rest := list[Find(list, 1, list[0].target)..];
      |rest| < |list| && Shape(push, rest, k, len) && Safe(push, rest, k) && SparesOps(rest)
  {
    var e := Find(list, 1, list[0].target);
    forall m | 0 <= m < e ensures list[m].name == OTHER {
    }
    SkippingKeeps(push, list, k, len, 0, e);
    assert list[..0] + list[e..] == list[e..];
    SparesTail(list, e);
  }

  /** A safe block carries everything on every run. */
  lemma {:induction false} SafeCarries(push: bool, list: seq<Instr>, k: nat, len: nat, kept: Kept, s: State, s': State)
    requires Shape(push, list, k, len) && Safe(push, list, k) && SparesOps(list) && BlockRuns(list, s, s')
    requires Carried(push, k, len, kept, s)
    ensures Carried(push, 3, len, kept, s')
    decreases |list|
  {
    if list != [] {
      if list[0].category == BRANCH {
        if BlockRuns(list[1..], s, s') {
          SafeCarries(push, list[1..], k, len, kept, s, s');
        } else {
          BranchLeaves(push, list, k, len);
          SafeCarries(push, list[Find(list, 1, list[0].target)..], k, len, kept, s, s');
        }
      } else {
        var v :| BlockRuns(list[1..], Exec(list[0], v, s), s');
        if list[0].name == OTHER {
          HarmlessCarries(push, list[0], k, len, kept, v, s);
          SafeCarries(push, list[1..], k, len, kept, Exec(list[0], v, s), s');
        } else {
          OpCarries(push, list[0], k, len, kept, v, s);
          SafeCarries(push, list[1..], k + 1, len, kept, Exec(list[0], v, s), s');
        }
      }
    }
  }

  /** Falling through every branch is a run. */
  lemma {:induction false} FallingThroughRuns(list: seq<Instr>, vals: seq<Word>, s: State)
    requires SparesOps(list) && |vals| == |list|
    ensures BlockRuns(list, s, Run(list, vals, s))
    decreases list
  {
    if list != [] {
      FallingThroughRuns(list[1..], vals[1..], Exec(list[0], vals[0], s));
      if list[0].category == BRANCH {
        assert Exec(list[0], vals[0], s) == s;
      }
    }
  }

  /** With every random instruction writing back what its destination holds, a block
      carries exactly what it was given. */
  lemma {:induction false} NeutralRun(push: bool, list: seq<Instr>, k: nat, len: nat, kept: Kept, s: State) returns (vals: seq<Word>)
    requires Shape(push, list, k, len)
    ensures |vals| == |list|
    ensures Carried(push, 3, len, kept, Run(list, vals, s)) <==> Carried(push, k, len, kept, s)
    decreases list
  {
    if list == [] {
      vals := [];
    } else {
      var v := Get(s, list[0].rd);
      var rest;
      if list[0].name == OTHER {
        NeutralCarries(list[0], s);
        rest := NeutralRun(push, list[1..], k, len, kept, s);
      } else {
        OpCarries(push, list[0], k, len, kept, v, s);
        rest := NeutralRun(push, list[1..], k + 1, len, kept, Exec(list[0], v, s));
      }
      vals := [v] + rest;
      assert vals[1..] == rest;
    }
  }

  /** A block that is not safe breaks for some values. */
  lemma {:induction false} UnsafeBreaks(push: bool, list: seq<Instr>, k: nat, len: nat, kept: Kept, s: State) returns (vals: seq<Word>)
    requires Shape(push, list, k, len) && !Safe(push, list, k)
    requires Carried(push, k, len, kept, s)
    ensures |vals| == |list| && !Carried(push, 3, len, kept, Run(list, vals, s))
    decreases list
  {
    var v := Get(s, list[0].rd);
    var rest;
    if list[0].name != OTHER {
      OpCarries(push, list[0], k, len, kept, v, s);
      rest := UnsafeBreaks(push, list[1..], k + 1, len, kept, Exec(list[0], v, s));
    } else if Harmless(push, list[0], k) {
      NeutralCarries(list[0], s);
      rest := UnsafeBreaks(push, list[1..], k, len, kept, s);
    } else {
      HarmfulBreaks(push, list[0], k, len, kept, s);
      v := Wrap(Get(s, list[0].rd) + 1);
      rest := NeutralRun(push, list[1..], k, len, kept, Exec(list[0], v, s));
    }
    vals := [v] + rest;
    assert vals[1..] == rest;
  }

  // ---------------------------------------------------------------- push, body, pop

  /** A body that leaves SP and the two slots of the frame as the push block left them. */
  predicate BodyKeeps(before: State, after: State) {
    var sp := Get(before, SP);
    && Get(after, SP) == sp
    && Load(after, Wrap(sp + SLOT_RA)) == Load(before, Wrap(sp + SLOT_RA))
    && Load(after, Wrap(sp + SLOT_T0)) == Load(before, Wrap(sp + SLOT_T0))
  }

  /** Push block, body, pop block: the three parts of a sub-program's run. */
  ghost predicate FrameRun(push: seq<Instr>, pop: seq<Instr>, s: State, pushed: State, body: State, popped: State) {
    BlockRuns(push, s, pushed) && BodyKeeps(pushed, body) && BlockRuns(pop, body, popped)
  }

  /** What a push block carries is what a pop block needs. */
  lemma PushMeetsPop(len: nat, kept: Kept, s: State)
    ensures Carried(true, 3, len, kept, s) <==> Carried(false, 0, len, kept, s)
    ensures Carried(true, 0, len, kept, s) <==> kept == KeptBy(s)
    ensures Carried(false, 3, len, kept, s) <==> kept == KeptBy(s)
  {
  }

  lemma BodyCarries(len: nat, kept: Kept, before: State, after: State)
    requires Carried(true, 3, len, kept, before) && BodyKeeps(before, after)
    ensures Carried(false, 0, len, kept, after)
  {
  }

  ghost predicate Restores(push: seq<Instr>, pop: seq<Instr>, s: State) {
    forall pushed, body, popped | FrameRun(push, pop, s, pushed, body, popped) :: KeptBy(popped) == KeptBy(s)
  }

  lemma SafeRestores(push: seq<Instr>, pop: seq<Instr>, len: nat, s: State, pushed: State, body: State, popped: State)
    requires Shape(true, push, 0, len) && Shape(false, pop, 0, len) && SparesOps(push) && SparesOps(pop)
    requires Safe(true, push, 0) && Safe(false, pop, 0)
    requires FrameRun(push, pop, s, pushed, body, popped)
    ensures KeptBy(popped) == KeptBy(s)
  {
    var kept := KeptBy(s);
    PushMeetsPop(len, kept, s);
    SafeCarries(true, push, 0, len, kept, s, pushed);
    BodyCarries(len, kept, pushed, body);
    SafeCarries(false, pop, 0, len, kept, body, popped);
    PushMeetsPop(len, kept, popped);
  }

  /** Values for the random instructions with which some register is lost. */
  lemma SomeRunLoses(push: seq<Instr>, pop: seq<Instr>, len: nat, s: State) returns (pushVals: seq<Word>, popVals: seq<Word>)
    requires Shape(true, push, 0, len) && Shape(false, pop, 0, len)
    requires !(Safe(true, push, 0) && Safe(false, pop, 0))
    ensures |pushVals| == |push| && |popVals| == |pop|
    ensures KeptBy(Run(pop, popVals, Run(push, pushVals, s))) != KeptBy(s)
  {
    var kept := KeptBy(s);
    PushMeetsPop(len, kept, s);
    if Safe(true, push, 0) {
      pushVals := NeutralRun(true, push, 0, len, kept, s);
      var pushed := Run(push, pushVals, s);
      PushMeetsPop(len, kept, pushed);
      popVals := UnsafeBreaks(false, pop, 0, len, kept, pushed);
    } else {
      pushVals := UnsafeBreaks(true, push, 0, len, kept, s);
      var pushed := Run(push, pushVals, s);
      PushMeetsPop(len, kept, pushed);
      popVals := NeutralRun(false, pop, 0, len, kept, pushed);
    }
    PushMeetsPop(len, kept, Run(pop, popVals, Run(push, pushVals, s)));
  }

  /** From any state: SP, RA and T0 are restored on every run, whichever branches are taken and
      whatever the random instructions write, whose body keeps SP and the frame slots, if and
      only if no random instruction of the two blocks writes SP, or writes RA or T0 before it
      is saved or after it is restored. */
  lemma RestoresIff(push: seq<Instr>, pop: seq<Instr>, len: nat, s: State)
    requires Shape(true, push, 0, len) && Shape(false, pop, 0, len) && SparesOps(push) && SparesOps(pop)
    ensures Restores(push, pop, s) <==> Safe(true, push, 0) && Safe(false, pop, 0)
  {
    if Safe(true, push, 0) && Safe(false, pop, 0) {
      forall pushed, body, popped | FrameRun(push, pop, s, pushed, body, popped) ensures KeptBy(popped) == KeptBy(s) {
        SafeRestores(push, pop, len, s, pushed, body, popped);
      }
    } else {
      var pushVals, popVals := SomeRunLoses(push, pop, len, s);
      var pushed := Run(push, pushVals, s);
      var popped := Run(pop, popVals, pushed);
      FallingThroughRuns(push, pushVals, s);
      FallingThroughRuns(pop, popVals, pushed);
      assert FrameRun(push, pop, s, pushed, pushed, popped);
    }
  }
}
