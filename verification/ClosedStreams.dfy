/** The streams the generator puts into a sequence are finished atomic streams, and a list of
    random instructions is ready to take them. */
module ClosedStreams {
  import opened IntRegisters
  import opened InstrBase
  import opened Machine
  import opened StackDiscipline
  import opened InstrStream
  import opened StackBlocks
  import opened JumpStream
  import opened SequenceLabels
  import opened Segments

  /** No instruction bears a name. */
  predicate Nameless(list: seq<Instr>) {
    forall k :: 0 <= k < |list| && list[k].hasLabel ==> list[k].tag == NoLabel
  }

  /** The only name in the list. */
  predicate OnlyName(list: seq<Instr>, tag: Label) {
    forall k :: 0 <= k < |list| && list[k].hasLabel ==> list[k].tag == tag || list[k].tag == NoLabel
  }

  /** Every jump is a call of one of these programs, and each of them is called. */
  predicate CallsExactly(list: seq<Instr>, calls: seq<nat>) {
    && (forall k :: 0 <= k < |list| && list[k].category == JUMP ==>
          && list[k].name in {JAL, JALR} && list[k].atomic
          && list[k].tag.JumpPoint? && list[k].tag.callee in calls)
    && forall q :: q in calls ==> HasCall(list, q)
  }

  predicate HasCall(list: seq<Instr>, q: nat) {
    exists k :: 0 <= k < |list| && IsCall(list[k], q)
  }

  predicate IsCall(i: Instr, q: nat) {
    i.category == JUMP && i.tag.JumpPoint? && i.tag.callee == q
  }

  /** Only these programs are named as targets. */
  predicate TargetsIn(list: seq<Instr>, calls: seq<nat>) {
    forall k :: 0 <= k < |list| && list[k].target.Program? ==> list[k].target.id in calls
  }

  /** A directed stream: finished, without names and calls, and with its stores accounted for. */
  ghost predicate Directed(stream: seq<Instr>) {
    Closed(stream) && Nameless(stream) && CallsExactly(stream, []) && TargetsIn(stream, []) && Equipped(stream, 0)
  }

  lemma RandomReady(list: seq<Instr>, reserved: set<Reg>)
    requires RandomStream(list, false, reserved) && list != []
    ensures Ready(list) && HasPlace(list) && Nameless(list) && CallsExactly(list, []) && TargetsIn(list, []) && Equipped(list, 0)
  {
    var last := |list| - 1;
    assert RandomInstr(list[last], true) && Numbered(list[last]);
    forall k | 0 <= k < |list| && Open(list[k]) ensures Numbered(list[k]) && NumberAfter(list, k) {
      assert RandomInstr(list[k], k == last);
    }
    assert !list[last].atomic;
  }

  /** What is at position k of a mix: new instruction i, or (i = -1) an original one. */
  lemma MergedItem<T>(others: seq<T>, ops: seq<T>, sol: seq<nat>, k: nat) returns (i: int)
    requires Solution(sol, |ops|, |others|) && k < |others| + |ops|
    ensures -1 <= i < |ops|
    ensures i == -1 ==> Merged(others, ops, sol)[k] in others
    ensures i >= 0 ==> k == sol[i] + i && Merged(others, ops, sol)[k] == ops[i]
  {
    if n :| 0 <= n < |ops| && k == sol[n] + n {
      NewPositions(others, ops, sol, n);
      i := n;
    } else {
      Origin(others, ops, sol, k);
      i := -1;
    }
  }

  // ---------------------------------------------------------------- stack blocks

  /** What is at position k of a stack block. */
  predicate BlockItem(x: Instr, ops: seq<Instr>, i: int) {
    && -1 <= i < |ops| && x.atomic
    && (i == -1 ==> x.name == OTHER && x.category !in {STORE, BRANCH, JUMP})
    && (i == -1 ==> !x.hasLabel && !x.isLocalNumericLabel && x.tag == NoLabel && x.target == NoLabel)
    && (i >= 0 ==> x.name == ops[i].name && x.category == ops[i].category && x.branchAssigned == ops[i].branchAssigned && x.target == ops[i].target
                   && x.tag == ops[i].tag && x.isLocalNumericLabel == ops[i].isLocalNumericLabel
                   && (x.hasLabel ==> ops[i].tag != NoLabel))
  }

  lemma BlockItemAt(push: bool, list: seq<Instr>, before: seq<Instr>, others: seq<Instr>, ops: seq<Instr>, sol: seq<nat>, k: nat)
    returns (i: int)
    requires SealedFrom(list, before, push) && Mixing(before, others, ops, sol) && k < |list|
    ensures BlockItem(list[k], ops, i) && (i >= 0 ==> k == sol[i] + i)
    ensures list[k] == if push then SealPush(before[k]) else SealPop(before[k])
    ensures i >= 0 ==> before[k] == ops[i]
  {
    i := MergedItem(others, ops, sol, k);
    if i == -1 {
      var m :| 0 <= m < |others| && others[m] == before[k];
      assert RandomInstr(others[m], true);
    }
  }

  lemma PopClosed(list: seq<Instr>, len: nat)
    requires MixedBlock(false, list, PopOps(len))
    ensures Closed(list) && Nameless(list) && CallsExactly(list, []) && TargetsIn(list, []) && list != []
    ensures forall k :: 0 <= k < |list| ==> !list[k].hasLabel && list[k].category !in {BRANCH, JUMP}
    ensures Equipped(list, 0)
  {
    var ops := PopOps(len);
    var before, others, sol :| SealedFrom(list, before, false) && Mixing(before, others, ops, sol);
    forall k | 0 <= k < |list|
      ensures list[k].atomic && !list[k].hasLabel && list[k].category !in {BRANCH, JUMP} && !IsStore(list[k].name)
      ensures !list[k].tag.Numeric? && !list[k].isLocalNumericLabel && !list[k].target.Program?
    {
      var i := BlockItemAt(false, list, before, others, ops, sol, k);
    }
  }

  /** The operations of a push block: at most the first is a branch, to the second, which
      bears the only name. */
  predicate PushItem(x: Instr, i: int, start: Label) {
    && x.atomic && !x.isLocalNumericLabel && x.tag in {NoLabel, start} && x.target in {NoLabel, start} && x.category != JUMP
    && (x.category == BRANCH ==> i == 0 && x.branchAssigned && x.target == start)
    && (x.hasLabel ==> i == 1 && x.tag == start)
    && (i == -1 || x.category == BRANCH ==> x.name == OTHER)
  }

  lemma PushItemAt(list: seq<Instr>, before: seq<Instr>, others: seq<Instr>, ops: seq<Instr>, sol: seq<nat>,
                   len: nat, start: Label, k: nat) returns (i: int)
    requires PushList(ops, len, start) && !start.Numeric? && start != NoLabel
    requires SealedFrom(list, before, true) && Mixing(before, others, ops, sol) && k < |list|
    ensures PushItem(list[k], i, start) && -1 <= i < |ops| && (i >= 0 ==> k == sol[i] + i)
    ensures list[k].category == BRANCH ==> |ops| == 4
  {
    i := BlockItemAt(true, list, before, others, ops, sol, k);
    if |ops| == 4 && i >= 2 {
      assert ops[i] == ops[2..][i - 2] == PushOps(len)[1..][i - 2];
    }
  }

  lemma PushClosed(list: seq<Instr>, ops: seq<Instr>, len: nat, start: Label)
    requires PushList(ops, len, start) && !start.Numeric? && start != NoLabel
    requires MixedBlock(true, list, ops)
    ensures Closed(list) && OnlyName(list, start) && CallsExactly(list, []) && Equipped(list, |list|) && list != []
    ensures !start.Program? ==> TargetsIn(list, [])
  {
    var before, others, sol :| SealedFrom(list, before, true) && Mixing(before, others, ops, sol);
    forall k | 0 <= k < |list|
      ensures list[k].atomic && !list[k].tag.Numeric? && !list[k].isLocalNumericLabel && list[k].category != JUMP
      ensures list[k].target in {NoLabel, start}
      ensures list[k].hasLabel ==> k == sol[1] + 1 && list[k].tag == start
      ensures list[k].category == BRANCH ==> list[k].branchAssigned && LandsLater(list, k)
    {
      var i := PushItemAt(list, before, others, ops, sol, len, start, k);
      if list[k].category == BRANCH {
        NewPositions(others, ops, sol, 1);
        assert before[sol[1] + 1] == ops[1] && list[sol[1] + 1] == SealPush(ops[1]);
        assert Bears(list[sol[1] + 1], start);
      }
    }
  }

  // ---------------------------------------------------------------- blocks with their branches

  lemma {:induction false} NoBranchSpares(list: seq<Instr>)
    requires forall k :: 0 <= k < |list| ==> list[k].category != BRANCH
    ensures SparesOps(list)
  {
    if list != [] {
      forall k | 0 <= k < |list| - 1 ensures list[1..][k].category != BRANCH {
        assert list[1..][k] == list[k + 1];
      }
      NoBranchSpares(list[1..]);
    }
  }

  lemma PopSpares(list: seq<Instr>, len: nat)
    requires MixedBlock(false, list, PopOps(len))
    ensures SparesOps(list)
  {
    PopClosed(list, len);
    NoBranchSpares(list);
  }

  /** Between the branch and the first operation of a push block there are random instructions. */
  lemma BetweenIsPlain(list: seq<Instr>, before: seq<Instr>, others: seq<Instr>, ops: seq<Instr>, sol: seq<nat>,
                       len: nat, start: Label, m: nat)
    requires PushList(ops, len, start) && !start.Numeric? && start != NoLabel
    requires SealedFrom(list, before, true) && Mixing(before, others, ops, sol)
    requires m < |list| && |ops| > 1 && sol[0] < m < sol[1] + 1
    ensures list[m].name == OTHER
  {
    var i := PushItemAt(list, before, others, ops, sol, len, start, m);
  }

  lemma PushBranchAt(list: seq<Instr>, before: seq<Instr>, others: seq<Instr>, ops: seq<Instr>, sol: seq<nat>,
                     len: nat, start: Label, n: nat)
    requires PushList(ops, len, start) && !start.Numeric? && start != NoLabel
    requires SealedFrom(list, before, true) && Mixing(before, others, ops, sol)
    requires n < |list| && list[n].category == BRANCH
    ensures list[n].name == OTHER && list[n].target == start && |ops| == 4 && n == sol[0]
    ensures n < sol[1] + 1 < |list| && Bears(list[sol[1] + 1], start)
  {
    var i := PushItemAt(list, before, others, ops, sol, len, start, n);
    NewPositions(others, ops, sol, 1);
    assert before[sol[1] + 1] == ops[1] && list[sol[1] + 1] == SealPush(ops[1]);
  }

  /** The branch of a push block goes to the first operation, with random instructions only on
      the way. */
  lemma PushBranch(list: seq<Instr>, before: seq<Instr>, others: seq<Instr>, ops: seq<Instr>, sol: seq<nat>,
                   len: nat, start: Label, n: nat)
    requires PushList(ops, len, start) && !start.Numeric? && start != NoLabel
    requires SealedFrom(list, before, true) && Mixing(before, others, ops, sol)
    requires n < |list| && list[n].category == BRANCH
    ensures list[n].name == OTHER && list[n].target == start && BranchStays(list[n..])
    ensures forall m :: 1 <= m < Find(list[n..], 1, start) ==> list[n..][m].name == OTHER
  {
    var rest, q := list[n..], sol[1] + 1;
    PushBranchAt(list, before, others, ops, sol, len, start, n);
    assert rest[q - n] == list[q];
    FindFinds(rest, 1, start, q - n);
    forall m | 1 <= m < q - n ensures rest[m].name == OTHER {
      BetweenIsPlain(list, before, others, ops, sol, len, start, n + m);
      assert rest[m] == list[n + m];
    }
  }

  lemma {:induction false} PushSparesFrom(list: seq<Instr>, before: seq<Instr>, others: seq<Instr>, ops: seq<Instr>, sol: seq<nat>,
                                          len: nat, start: Label, n: nat)
    requires PushList(ops, len, start) && !start.Numeric? && start != NoLabel
    requires SealedFrom(list, before, true) && Mixing(before, others, ops, sol) && n <= |list|
    ensures SparesOps(list[n..])
    decreases |list| - n
  {
    if n < |list| {
      PushSparesFrom(list, before, others, ops, sol, len, start, n + 1);
      assert list[n..][1..] == list[n + 1..];
      if list[n].category == BRANCH {
        PushBranch(list, before, others, ops, sol, len, start, n);
      }
    }
  }

  lemma PushSpares(list: seq<Instr>, ops: seq<Instr>, len: nat, start: Label)
    requires PushList(ops, len, start) && !start.Numeric? && start != NoLabel
    requires MixedBlock(true, list, ops)
    ensures SparesOps(list)
  {
    var before, others, sol :| SealedFrom(list, before, true) && Mixing(before, others, ops, sol);
    PushSparesFrom(list, before, others, ops, sol, len, start, 0);
    assert list[0..] == list;
  }

  /** The blocks the generators make, in any pairing and from any state: on every run, with
      every branch taken or not, they restore SP, RA and T0 around every body that keeps the
      frame exactly when both are safe. */
  lemma GeneratedBlocksRestoreIff(push: seq<Instr>, pushOps: seq<Instr>, pop: seq<Instr>, len: nat, program: nat, s: State)
    requires PushList(pushOps, len, PushStart(program)) && MixedBlock(true, push, pushOps) && MixedBlock(false, pop, PopOps(len))
    ensures Restores(push, pop, s) <==> Safe(true, push, 0) && Safe(false, pop, 0)
  {
    OpsSteps(len, pushOps, PushStart(program));
    MixedHasShape(true, push, pushOps, len);
    MixedHasShape(false, pop, PopOps(len), len);
    PushSpares(push, pushOps, len, PushStart(program));
    PopSpares(pop, len);
    RestoresIff(push, pop, len, s);
  }

  // ---------------------------------------------------------------- call streams

  /** The items of a call stream in front of the jump. */
  predicate CallItem(x: Instr, callee: nat, call: nat) {
    && x.atomic && !x.hasLabel && x.tag == NoLabel && !x.isLocalNumericLabel && x.category != JUMP && !IsStore(x.name)
    && (x.category == BRANCH ==> x.branchAssigned && x.target == JumpPoint(callee, call))
    && (x.target.Program? ==> x.target == Program(callee))
  }

  /** Only the last of the operations is a branch. */
  lemma CallItemAt(list: seq<Instr>, callee: nat, idx: nat, base: Reg, a: nat, others: seq<Instr>, sol: seq<nat>,
                   branch: Instr, jump: Instr, k: nat)
    requires MadeFrom(list, callee, idx, base, a, others, sol, branch, jump) && k < |list| - 1
    ensures CallItem(list[k], callee, idx)
    ensures list[k].category == BRANCH ==> k == sol[|sol| - 1] + |sol| - 1
  {
    var la := Fresh(LA, LOAD, base, ZERO, ZERO, 0).(target := Program(callee));
    var addi := Fresh(ADDI, ARITHMETIC, base, base, ZERO, Imm11(a));
    var ops := Ops(la, addi, branch, jump);
    assert list[k] == JumpStream.Seal(Merged(others, ops, sol)[k]);
    var i := MergedItem(others, ops, sol, k);
    if i == -1 {
      var m :| 0 <= m < |others| && others[m] == Merged(others, ops, sol)[k];
      assert RandomInstr(others[m], true);
    }
  }

  /** The jump at the end. */
  predicate CallEnd(x: Instr, callee: nat, call: nat) {
    && x.category == JUMP && x.name in {JAL, JALR} && x.rd == RA && x.atomic && !x.isLocalNumericLabel
    && x.hasLabel && x.tag == JumpPoint(callee, call)
    && x.target == (if x.name == JAL then Program(callee) else NoLabel)
  }

  predicate CallList(list: seq<Instr>, callee: nat, call: nat) {
    && list != [] && CallEnd(list[|list| - 1], callee, call)
    && forall k :: 0 <= k < |list| - 1 ==> CallItem(list[k], callee, call)
  }

  lemma MadeIsCallList(list: seq<Instr>, callee: nat, idx: nat, base: Reg, a: nat, others: seq<Instr>, sol: seq<nat>,
                       branch: Instr, jump: Instr)
    requires MadeFrom(list, callee, idx, base, a, others, sol, branch, jump)
    ensures CallList(list, callee, idx)
  {
    assert list[|list| - 1] == jump;
    forall k | 0 <= k < |list| - 1 ensures CallItem(list[k], callee, idx) {
      CallItemAt(list, callee, idx, base, a, others, sol, branch, jump, k);
    }
  }

  lemma CallListClosed(list: seq<Instr>, callee: nat, idx: nat)
    requires CallList(list, callee, idx)
    ensures Closed(list) && OnlyName(list, JumpPoint(callee, idx)) && CallsExactly(list, [callee])
    ensures TargetsIn(list, [callee])
  {
    var last := |list| - 1;
    assert IsCall(list[last], callee);
    forall k | 0 <= k < |list| && Assigned(list[k]) ensures LandsLater(list, k) {
      assert Bears(list[last], list[k].target);
    }
  }

  /** A JALR stream: `la` at p, `addi` at q, the branch at r. */
  predicate CallShape(list: seq<Instr>, callee: nat, call: nat, base: Reg, a: nat, p: nat, q: nat, r: nat) {
    && IsJalrStream(list, base, a, p, q, r)
    && (forall m :: 0 <= m < |list| - 1 ==> CallItem(list[m], callee, call) && (list[m].category == BRANCH ==> m == r))
    && list[p].target == Program(callee) && list[q].category == ARITHMETIC
    && list[|list| - 1].atomic && list[|list| - 1].category == JUMP && list[|list| - 1].tag == JumpPoint(callee, call)
  }

  lemma MadeCallShape(list: seq<Instr>, callee: nat, idx: nat, base: Reg, a: nat, others: seq<Instr>, sol: seq<nat>,
                      branch: Instr, jump: Instr)
    requires MadeFrom(list, callee, idx, base, a, others, sol, branch, jump) && jump.name == JALR
    ensures CallShape(list, callee, idx, base, a, sol[0], sol[1] + 1, sol[2] + 2)
  {
    var la := Fresh(LA, LOAD, base, ZERO, ZERO, 0).(target := Program(callee));
    var addi := Fresh(ADDI, ARITHMETIC, base, base, ZERO, Imm11(a));
    var ops := [la, addi, branch];
    MadeStreams(list, callee, idx, base, a, others, sol, branch, jump);
    NewPositions(others, ops, sol, 0);
    NewPositions(others, ops, sol, 1);
    assert list[sol[0]] == JumpStream.Seal(la) && list[sol[1] + 1] == JumpStream.Seal(addi) && list[|list| - 1] == jump;
    forall m | 0 <= m < |list| - 1
      ensures CallItem(list[m], callee, idx)
      ensures list[m].category == BRANCH ==> m == sol[2] + 2
    {
      CallItemAt(list, callee, idx, base, a, others, sol, branch, jump, m);
    }
  }

  lemma CallSegments(list: seq<Instr>, callee: nat, call: nat, base: Reg, a: nat, p: nat, q: nat, r: nat)
    requires CallShape(list, callee, call, base, a, p, q, r)
    ensures Segment(list, p, q, base) && Segment(list, q, |list| - 1, base)
  {
    var last := |list| - 1;
    forall m, j | q < m <= last && 0 <= j < |list| && Assigned(list[j]) && Bears(list[m], list[j].target) ensures q < j < last {
      assert j == r;
    }
  }

  lemma JalrBase(list: seq<Instr>, callee: nat, idx: nat, base: Reg, a: nat, others: seq<Instr>, sol: seq<nat>,
                 branch: Instr, jump: Instr)
    requires MadeFrom(list, callee, idx, base, a, others, sol, branch, jump) && jump.name == JALR
    ensures BaseMade(list, sol[0], sol[1] + 1, |list| - 1, a)
  {
    MadeCallShape(list, callee, idx, base, a, others, sol, branch, jump);
    CallSegments(list, callee, idx, base, a, sol[0], sol[1] + 1, sol[2] + 2);
  }

  lemma LastIsMade(list: seq<Instr>, callee: nat, idx: nat, base: Reg, a: nat, others: seq<Instr>, sol: seq<nat>,
                   branch: Instr, jump: Instr)
    requires MadeFrom(list, callee, idx, base, a, others, sol, branch, jump)
    ensures JumpMade(list, |list| - 1)
  {
    assert list[|list| - 1] == jump;
    if jump.name == JALR {
      JalrBase(list, callee, idx, base, a, others, sol, branch, jump);
    }
  }

  lemma CallListEquipped(list: seq<Instr>, callee: nat, idx: nat)
    requires CallList(list, callee, idx) && JumpMade(list, |list| - 1)
    ensures Equipped(list, 0)
  {
  }

  lemma CallStreamClosed(list: seq<Instr>, callee: nat, idx: nat)
    requires CallStream(list, callee, idx)
    ensures Closed(list) && OnlyName(list, JumpPoint(callee, idx)) && CallsExactly(list, [callee]) && list != []
    ensures Equipped(list, 0)
    ensures TargetsIn(list, [callee])
  {
    var base, a, others, sol, branch, jump :| MadeFrom(list, callee, idx, base, a, others, sol, branch, jump);
    MadeIsCallList(list, callee, idx, base, a, others, sol, branch, jump);
    CallListClosed(list, callee, idx);
    LastIsMade(list, callee, idx, base, a, others, sol, branch, jump);
    CallListEquipped(list, callee, idx);
  }

  // ---------------------------------------------------------------- splicing

  lemma NamelessApart(list: seq<Instr>, stream: seq<Instr>)
    requires Nameless(stream)
    ensures Apart(list, stream)
  {
  }

  lemma CallStays(list: seq<Instr>, idx: nat, stream: seq<Instr>, q: nat)
    requires idx <= |list| && (HasCall(list, q) || HasCall(stream, q))
    ensures HasCall(Splice(list, idx, stream), q)
  {
    var r := Splice(list, idx, stream);
    if HasCall(list, q) {
      var k :| 0 <= k < |list| && IsCall(list[k], q);
      PlaceHolds(list, idx, stream, k);
      assert IsCall(r[Place(idx, |stream|, k)], q);
    } else {
      var k :| 0 <= k < |stream| && IsCall(stream[k], q);
      StreamHolds(list, idx, stream, k);
      assert IsCall(r[idx + k], q);
    }
  }

  lemma SpliceCalls(list: seq<Instr>, idx: nat, stream: seq<Instr>, calls: seq<nat>, more: seq<nat>)
    requires idx <= |list| && CallsExactly(list, calls) && CallsExactly(stream, more)
    ensures CallsExactly(Splice(list, idx, stream), calls + more)
  {
    var r := Splice(list, idx, stream);
    forall k | 0 <= k < |r| && r[k].category == JUMP
      ensures r[k].name in {JAL, JALR} && r[k].atomic && r[k].tag.JumpPoint? && r[k].tag.callee in calls + more
    {
      if idx <= k < idx + |stream| {
        StreamHolds(list, idx, stream, k - idx);
      } else {
        PlaceHolds(list, idx, stream, if k < idx then k else k - |stream|);
      }
    }
    forall q | q in calls + more ensures HasCall(r, q) {
      CallStays(list, idx, stream, q);
    }
  }
}
