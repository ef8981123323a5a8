/** An instruction sequence from its first random instructions to the finished list: what every
    splice keeps, and what post-processing makes of it. */
module SequenceGrowth {
  import opened IntRegisters
  import opened InstrBase
  import opened Sequences
  import opened StackDiscipline
  import opened InstrStream
  import opened StackBlocks
  import opened JumpStream
  import opened SequenceLabels
  import opened BranchTargets
  import opened Segments
  import opened ClosedStreams
  import opened InstrSequence
  import opened MachineRun

  // ---------------------------------------------------------------- names, calls and branches

  /** The names a sequence may use: its program's, and those of calls numbered from `first` up
      to `next`. */
  datatype Scope = Scope(program: nat, first: nat, next: nat)

  predicate NamesIn(list: seq<Instr>, scope: Scope) {
    forall k :: 0 <= k < |list| && list[k].hasLabel ==> InScope(list[k].tag, scope)
  }

  predicate InScope(tag: Label, scope: Scope) {
    tag == NoLabel || tag == PushStart(scope.program) || (tag.JumpPoint? && scope.first <= tag.call < scope.next)
  }

  ghost predicate Growing(list: seq<Instr>, isMain: bool, calls: seq<nat>, scope: Scope) {
    && Ready(list) && HasPlace(list) && ReturnFree(list, isMain)
    && CallsExactly(list, calls) && TargetsIn(list, calls) && NamesIn(list, scope)
  }

  lemma SpliceNames(list: seq<Instr>, idx: nat, stream: seq<Instr>, calls: seq<nat>, more: seq<nat>, scope: Scope)
    requires idx <= |list| && NamesIn(list, scope) && NamesIn(stream, scope)
    requires TargetsIn(list, calls) && TargetsIn(stream, more)
    ensures NamesIn(Splice(list, idx, stream), scope) && TargetsIn(Splice(list, idx, stream), calls + more)
  {
    var r := Splice(list, idx, stream);
    forall k | 0 <= k < |r|
      ensures r[k].hasLabel ==> InScope(r[k].tag, scope)
      ensures r[k].target.Program? ==> r[k].target.id in calls + more
    {
      if idx <= k < idx + |stream| {
        StreamHolds(list, idx, stream, k - idx);
      } else {
        PlaceHolds(list, idx, stream, if k < idx then k else k - |stream|);
      }
    }
  }

  lemma SplicePlaces(list: seq<Instr>, idx: nat, stream: seq<Instr>, isMain: bool)
    requires idx <= |list| && HasPlace(list)
    requires ReturnFree(list, isMain) || (stream != [] && AllAtomic(stream))
    ensures HasPlace(Splice(list, idx, stream)) && ReturnFree(Splice(list, idx, stream), isMain)
  {
    var r := Splice(list, idx, stream);
    var k :| 0 <= k < |list| && !list[k].atomic;
    PlaceHolds(list, idx, stream, k);
    assert !r[Place(idx, |stream|, k)].atomic;
    if !isMain && ReturnFree(list, isMain) {
      var m :| 0 <= m < |list| && !Numbered(list[m]);
      PlaceHolds(list, idx, stream, m);
      assert !Numbered(r[Place(idx, |stream|, m)]);
    } else if !isMain {
      StreamHolds(list, idx, stream, 0);
      assert !Numbered(r[idx]);
    }
  }

  /** Any finished stream with new names may be spliced in anywhere. */
  lemma SpliceGrows(list: seq<Instr>, idx: nat, stream: seq<Instr>, isMain: bool, wasMain: bool,
                    calls: seq<nat>, more: seq<nat>, scope: Scope)
    requires idx <= |list| && Growing(list, wasMain, calls, scope)
    requires Closed(stream) && Apart(list, stream) && CallsExactly(stream, more) && TargetsIn(stream, more) && NamesIn(stream, scope)
    requires wasMain == isMain || stream != []
    ensures Growing(Splice(list, idx, stream), isMain, calls + more, scope)
  {
    SpliceReady(list, idx, stream);
    SpliceCalls(list, idx, stream, calls, more);
    SpliceNames(list, idx, stream, calls, more, scope);
    SplicePlaces(list, idx, stream, isMain);
  }

  lemma CallGrows(list: seq<Instr>, idx: nat, stream: seq<Instr>, isMain: bool, calls: seq<nat>, callee: nat,
                  scope: Scope)
    requires idx <= |list| && Growing(list, isMain, calls, scope) && CallStream(stream, callee, scope.next) && scope.first <= scope.next
    ensures Growing(Splice(list, idx, stream), isMain, calls + [callee], scope.(next := scope.next + 1))
    ensures Separate(list, stream) && Equipped(stream, 0)
  {
    CallStreamClosed(stream, callee, scope.next);
    var more := scope.(next := scope.next + 1);
    assert NamesIn(list, more);
    SpliceGrows(list, idx, stream, isMain, isMain, calls, [callee], more);
  }

  lemma DirectedGrows(list: seq<Instr>, idx: nat, stream: seq<Instr>, isMain: bool, calls: seq<nat>, scope: Scope)
    requires idx <= |list| && Growing(list, isMain, calls, scope) && Directed(stream)
    ensures Growing(Splice(list, idx, stream), isMain, calls, scope)
    ensures Separate(list, stream)
  {
    NamelessApart(list, stream);
    SpliceGrows(list, idx, stream, isMain, isMain, calls, [], scope);
    assert calls + [] == calls;
  }

  // ---------------------------------------------------------------- the stack blocks at the ends

  /** The stack blocks are the ends of the list, and behind the first one every store has its
      data page. */
  ghost predicate Between(list: seq<Instr>, enter: seq<Instr>, exit: seq<Instr>) {
    && AllAtomic(enter) && AllAtomic(exit) && |enter| + |exit| <= |list|
    && list[..|enter|] == enter && list[|list| - |exit|..] == exit
    && Equipped(list, |enter|)
  }

  lemma SpliceBetween(list: seq<Instr>, idx: nat, stream: seq<Instr>, enter: seq<Instr>, exit: seq<Instr>)
    requires Between(list, enter, exit) && Separate(list, stream) && Equipped(stream, 0)
    requires idx < |list| && !list[idx].atomic
    ensures Between(Splice(list, idx, stream), enter, exit)
  {
    NotInEnds(list, idx, enter, exit);
    SpliceEquipped(list, idx, stream, |enter|, 0, |enter|);
  }

  lemma NotInEnds(list: seq<Instr>, idx: nat, enter: seq<Instr>, exit: seq<Instr>)
    requires Between(list, enter, exit) && idx < |list| && !list[idx].atomic
    ensures |enter| <= idx < |list| - |exit|
  {
    forall k | 0 <= k < |enter| ensures list[k].atomic {
      assert list[k] == enter[k];
    }
    forall k | |list| - |exit| <= k < |list| ensures list[k].atomic {
      assert list[k] == list[|list| - |exit|..][k - (|list| - |exit|)];
    }
  }

  /** One more call. */
  lemma CallKeeps(list: seq<Instr>, idx: nat, stream: seq<Instr>, after: seq<Instr>, isMain: bool, calls: seq<nat>, callee: nat,
                  scope: Scope, enter: seq<Instr>, exit: seq<Instr>)
    requires Growing(list, isMain, calls, scope) && Between(list, enter, exit) && scope.first <= scope.next
    requires CallStream(stream, callee, scope.next) && SplicedAt(list, idx, stream, after)
    ensures Growing(after, isMain, calls + [callee], scope.(next := scope.next + 1)) && Between(after, enter, exit)
  {
    CallGrows(list, idx, stream, isMain, calls, callee, scope);
    SpliceBetween(list, idx, stream, enter, exit);
  }

  lemma {:induction false} RunGrows(run: seq<seq<Instr>>, streams: seq<seq<Instr>>, places: seq<nat>, n: nat,
                                    isMain: bool, calls: seq<nat>, scope: Scope, enter: seq<Instr>, exit: seq<Instr>)
    requires SpliceRun(run, streams, places) && n <= |streams|
    requires Growing(run[0], isMain, calls, scope) && Between(run[0], enter, exit)
    requires forall k :: 0 <= k < |streams| ==> Directed(streams[k])
    ensures Growing(run[n], isMain, calls, scope) && Between(run[n], enter, exit)
  {
    if n > 0 {
      RunGrows(run, streams, places, n - 1, isMain, calls, scope, enter, exit);
      assert SplicedAt(run[n - 1], places[n - 1], streams[n - 1], run[n - 1 + 1]);
      DirectedGrows(run[n - 1], places[n - 1], streams[n - 1], isMain, calls, scope);
      SpliceBetween(run[n - 1], places[n - 1], streams[n - 1], enter, exit);
    }
  }

  // ---------------------------------------------------------------- how it starts

  /** A fresh main program, and a fresh sub-program between its stack blocks. */
  lemma MainStarts(random: seq<Instr>, reserved: set<Reg>, scope: Scope)
    requires RandomStream(random, false, reserved) && random != []
    ensures Growing(random, true, [], scope) && Between(random, [], [])
  {
    RandomReady(random, reserved);
    assert random[|random|..] == [];
  }

  lemma EnterGrows(enter: seq<Instr>, random: seq<Instr>, reserved: set<Reg>, len: nat, ops: seq<Instr>, scope: Scope)
    requires RandomStream(random, false, reserved) && random != []
    requires PushList(ops, len, PushStart(scope.program)) && MixedBlock(true, enter, ops)
    ensures Growing(enter + random, false, [], scope) && Between(enter + random, enter, [])
  {
    MainStarts(random, reserved, scope);
    RandomReady(random, reserved);
    PushClosed(enter, ops, len, PushStart(scope.program));
    SpliceGrows(random, 0, enter, false, true, [], [], scope);
    SpliceEquipped(random, 0, enter, 0, |enter|, |enter|);
    assert Splice(random, 0, enter) == enter + random;
    assert (enter + random)[|enter + random|..] == [];
  }

  lemma ExitGrows(list: seq<Instr>, enter: seq<Instr>, exit: seq<Instr>, len: nat, scope: Scope)
    requires Growing(list, false, [], scope) && Between(list, enter, []) && MixedBlock(false, exit, PopOps(len))
    ensures Growing(list + exit, false, [], scope) && Between(list + exit, enter, exit)
  {
    PopClosed(exit, len);
    NamelessApart(list, exit);
    SpliceGrows(list, |list|, exit, false, false, [], [], scope);
    SpliceEquipped(list, |list|, exit, |enter|, 0, |enter|);
    assert Splice(list, |list|, exit) == list + exit;
    assert (list + exit)[|list|..] == exit;
  }

  lemma SubStarts(enter: seq<Instr>, random: seq<Instr>, exit: seq<Instr>, reserved: set<Reg>, len: nat, scope: Scope)
    requires RandomStream(random, false, reserved) && random != [] && EnterAndExit(scope.program, len, enter, exit)
    ensures Growing(enter + random + exit, false, [], scope) && Between(enter + random + exit, enter, exit)
  {
    var ops :| PushList(ops, len, PushStart(scope.program)) && MixedBlock(true, enter, ops);
    EnterGrows(enter, random, reserved, len, ops, scope);
    ExitGrows(enter + random, enter, exit, len, scope);
  }

  /** However many calls and directed streams go into a sub-program, its push block stays in
      front of everything and its pop block behind everything, and all instructions, old
      and new, are there exactly once. */
  lemma StackBlocksStayAtTheEnds(run: seq<seq<Instr>>, streams: seq<seq<Instr>>, places: seq<nat>,
                                 enter: seq<Instr>, random: seq<Instr>, exit: seq<Instr>)
    requires SpliceRun(run, streams, places) && run[0] == enter + random + exit
    requires enter != [] && exit != [] && AllAtomic(enter) && AllAtomic(exit)
    ensures var last := run[|streams|];
      && |last| >= |enter| + |exit|
      && last[..|enter|] == enter && last[|last| - |exit|..] == exit
      && multiset(last) == multiset(enter) + multiset(random) + multiset(exit) + multiset(Flatten(streams))
  {
    var last := run[|streams|];
    assert Block(run[0], 0, enter) && Block(run[0], |enter| + |random|, exit);
    var front := RunKeepsBlock(run, streams, places, 0, 0, enter);
    var back := RunKeepsBlock(run, streams, places, 0, |enter| + |random|, exit);
    RunConserves(run, streams, places);
    RunGrowsLonger(run, streams, places, |streams|);
  }

  lemma {:induction false} RunGrowsLonger(run: seq<seq<Instr>>, streams: seq<seq<Instr>>, places: seq<nat>, n: nat)
    requires SpliceRun(run, streams, places) && n <= |streams|
    ensures |run[n]| >= |run[0]|
  {
    if n > 0 {
      RunGrowsLonger(run, streams, places, n - 1);
      assert SplicedAt(run[n - 1], places[n - 1], streams[n - 1], run[n - 1 + 1]);
    }
  }

  // ---------------------------------------------------------------- what post-processing leaves

  lemma PassKeepsCalls(list: seq<Instr>, numbered: seq<Instr>, after: seq<Instr>, calls: seq<nat>)
    requires Passed(list, numbered, after) && NoNumbers(list) && CallsExactly(list, calls) && TargetsIn(list, calls)
    ensures CallsExactly(after, calls) && TargetsIn(after, calls)
  {
    forall k | 0 <= k < |after|
      ensures after[k].target.Program? ==> after[k].target.id in calls
      ensures after[k].category == JUMP ==>
        after[k].name in {JAL, JALR} && after[k].atomic && after[k].tag.JumpPoint? && after[k].tag.callee in calls
    {
      PassedItem(list, numbered, after, k);
    }
    forall q | q in calls ensures HasCall(after, q) {
      var k :| 0 <= k < |list| && IsCall(list[k], q);
      PassedItem(list, numbered, after, k);
      assert IsCall(after[k], q);
    }
  }

  /** Post-processing a grown sequence never fails, and leaves it finished. */
  lemma PassFinishes(list: seq<Instr>, numbered: seq<Instr>, after: seq<Instr>, isMain: bool, calls: seq<nat>, scope: Scope)
    requires Growing(list, isMain, calls, scope) && Numbering(list, numbered)
    ensures AllRoom(numbered, LabelIdx(list, |list|))
    ensures Passed(list, numbered, after) ==> Finished(after, calls) && TargetsIn(after, calls)
  {
    SucceedsIff(list, numbered);
    if Passed(list, numbered, after) {
      AllForward(list, numbered, after);
      PassKeepsCalls(list, numbered, after, calls);
    }
  }

  /** What the pass leaves alone in the stack blocks. */
  predicate SameLine(a: Instr, b: Instr) {
    SameCode(a, b) && a.target == b.target && a.hasLabel == b.hasLabel && a.tag == b.tag
  }

  predicate SameLines(a: seq<Instr>, b: seq<Instr>) {
    |a| == |b| && forall k :: 0 <= k < |a| ==> SameLine(a[k], b[k])
  }

  lemma {:induction false} SameFind(a: seq<Instr>, b: seq<Instr>, from: nat, tag: Label)
    requires SameLines(a, b)
    ensures Find(a, from, tag) == Find(b, from, tag)
    decreases |a| - from
  {
    if from < |a| {
      assert SameLine(a[from], b[from]);
      SameFind(a, b, from + 1, tag);
    }
  }

  lemma {:induction false} SameSpares(a: seq<Instr>, b: seq<Instr>)
    requires SameLines(a, b) && SparesOps(a)
    ensures SparesOps(b)
    decreases a
  {
    if a != [] {
      assert SameLine(a[0], b[0]);
      forall k | 0 <= k < |a| - 1 ensures SameLine(a[1..][k], b[1..][k]) {
        assert SameLine(a[k + 1], b[k + 1]);
      }
      SameSpares(a[1..], b[1..]);
      SameFind(a, b, 1, a[0].target);
    }
  }

  /** An atomic piece of a list without open branches. */
  lemma PieceStays(list: seq<Instr>, numbered: seq<Instr>, after: seq<Instr>, at: nat, block: seq<Instr>)
    requires Passed(list, numbered, after) && NoNumbers(list) && Closed(block) && Block(list, at, block)
    ensures SameLines(block, after[at..at + |block|])
  {
    forall k | 0 <= k < |block| ensures SameLine(block[k], after[at + k]) {
      assert list[at..at + |block|][k] == block[k];
      PassedItem(list, numbered, after, at + k);
    }
  }

  lemma EnterFramed(enter: seq<Instr>, after: seq<Instr>, program: nat, len: nat, ops: seq<Instr>)
    requires PushList(ops, len, PushStart(program)) && MixedBlock(true, enter, ops)
    requires |enter| <= |after| && SameLines(enter, after[..|enter|])
    ensures Shape(true, after[..|enter|], 0, len) && SparesOps(after[..|enter|])
    ensures forall k :: 0 <= k < |enter| ==> after[k].category != JUMP
  {
    var front := after[..|enter|];
    OpsSteps(len, ops, PushStart(program));
    MixedHasShape(true, enter, ops, len);
    SameCodeSteps(true, enter, front, 0, len, 3);
    PushSpares(enter, ops, len, PushStart(program));
    SameSpares(enter, front);
    PushClosed(enter, ops, len, PushStart(program));
    forall k | 0 <= k < |enter| ensures after[k].category != JUMP {
      assert SameLine(enter[k], front[k]);
    }
  }

  lemma ExitFramed(exit: seq<Instr>, after: seq<Instr>, len: nat)
    requires MixedBlock(false, exit, PopOps(len))
    requires |exit| <= |after| && SameLines(exit, after[|after| - |exit|..])
    ensures Shape(false, after[|after| - |exit|..], 0, len)
    ensures forall k :: |after| - |exit| <= k < |after| ==> after[k].category !in {BRANCH, JUMP} && !after[k].hasLabel
  {
    var at := |after| - |exit|;
    var back := after[at..];
    OpsSteps(len, [], NoLabel);
    MixedHasShape(false, exit, PopOps(len), len);
    SameCodeSteps(false, exit, back, 0, len, 3);
    PopClosed(exit, len);
    forall k | at <= k < |after| ensures after[k].category !in {BRANCH, JUMP} && !after[k].hasLabel {
      assert SameLine(exit[k - at], back[k - at]);
    }
  }

  ghost predicate StartedWith(program: nat, enter: seq<Instr>, exit: seq<Instr>, len: nat) {
    if program == 0 then enter == exit == [] && len == 0 else EnterAndExit(program, len, enter, exit)
  }

  lemma EndsClosed(program: nat, enter: seq<Instr>, exit: seq<Instr>, len: nat)
    requires EnterAndExit(program, len, enter, exit)
    ensures Closed(enter) && Closed(exit)
  {
    var ops :| PushList(ops, len, PushStart(program)) && MixedBlock(true, enter, ops);
    PushClosed(enter, ops, len, PushStart(program));
    PopClosed(exit, len);
  }

  lemma EndsStay(list: seq<Instr>, numbered: seq<Instr>, after: seq<Instr>, enter: seq<Instr>, exit: seq<Instr>)
    requires Passed(list, numbered, after) && NoNumbers(list) && Closed(enter) && Closed(exit) && |enter| + |exit| <= |list|
    requires list[..|enter|] == enter && list[|list| - |exit|..] == exit
    ensures |after| == |list| && SameLines(enter, after[..|enter|]) && SameLines(exit, after[|after| - |exit|..])
  {
    var at := |list| - |exit|;
    assert list[at..] == list[at..at + |exit|] && after[at..] == after[at..at + |exit|];
    assert list[..|enter|] == list[0..0 + |enter|] && after[..|enter|] == after[0..0 + |enter|];
    PieceStays(list, numbered, after, 0, enter);
    PieceStays(list, numbered, after, at, exit);
  }

  lemma FrontFramed(after: seq<Instr>, program: nat, enter: seq<Instr>, exit: seq<Instr>, len: nat)
    requires EnterAndExit(program, len, enter, exit) && |enter| <= |after| && SameLines(enter, after[..|enter|])
    ensures 40 <= len <= FRAME && Shape(true, after[..|enter|], 0, len) && SparesOps(after[..|enter|])
    ensures forall k :: 0 <= k < |enter| ==> after[k].category != JUMP
  {
    var ops :| PushList(ops, len, PushStart(program)) && MixedBlock(true, enter, ops);
    EnterFramed(enter, after, program, len, ops);
  }

  lemma BackFramed(after: seq<Instr>, program: nat, enter: seq<Instr>, exit: seq<Instr>, len: nat)
    requires EnterAndExit(program, len, enter, exit) && |exit| <= |after| && SameLines(exit, after[|after| - |exit|..])
    ensures Shape(false, after[|after| - |exit|..], 0, len)
    ensures forall k :: |after| - |exit| <= k < |after| ==> after[k].category !in {BRANCH, JUMP} && !after[k].hasLabel
  {
    ExitFramed(exit, after, len);
  }

  lemma Assembled(list: seq<Instr>, program: nat, f: Layout)
    requires program != 0 && f.enter <= f.exit <= |list| && 40 <= f.len <= FRAME
    requires Shape(true, list[..f.enter], 0, f.len) && SparesOps(list[..f.enter]) && Shape(false, list[f.exit..], 0, f.len)
    requires forall k :: 0 <= k < f.enter ==> list[k].category != JUMP
    requires forall k :: f.exit <= k < |list| ==> list[k].category !in {BRANCH, JUMP} && !list[k].hasLabel
    ensures Framed(list, program, f)
  {
  }

  lemma EndsFramed(after: seq<Instr>, program: nat, enter: seq<Instr>, exit: seq<Instr>, len: nat)
    requires program != 0 && EnterAndExit(program, len, enter, exit) && |enter| + |exit| <= |after|
    requires SameLines(enter, after[..|enter|]) && SameLines(exit, after[|after| - |exit|..])
    ensures Framed(after, program, Layout(|enter|, |after| - |exit|, len))
  {
    FrontFramed(after, program, enter, exit, len);
    BackFramed(after, program, enter, exit, len);
    Assembled(after, program, Layout(|enter|, |after| - |exit|, len));
  }

  /** However many streams went in: the finished sequence has its push block in front, its pop
      block at the end, and everything a jump or a store needs in between. */
  lemma PassFrames(list: seq<Instr>, numbered: seq<Instr>, after: seq<Instr>, program: nat,
                   enter: seq<Instr>, exit: seq<Instr>, len: nat, calls: seq<nat>)
    requires Passed(list, numbered, after) && NoNumbers(list) && CallsExactly(list, calls)
    requires Between(list, enter, exit) && StartedWith(program, enter, exit, len)
    ensures |enter| + |exit| <= |after|
    ensures Framed(after, program, Layout(|enter|, |after| - |exit|, len)) && Equipped(after, |enter|)
  {
    PassEquipped(list, numbered, after, |enter|);
    if program != 0 {
      EndsClosed(program, enter, exit, len);
      EndsStay(list, numbered, after, enter, exit);
      EndsFramed(after, program, enter, exit, len);
    }
  }

  // ---------------------------------------------------------------- the text

  ghost predicate TextResolves(list: seq<Instr>, text: seq<TextLine>) {
    forall k :: 0 <= k < |list| && list[k].category == BRANCH ==>
      k < |text| && text[k].code.Code? && Resolves(text, |list|, k)
  }

  lemma GrownTextResolves(list: seq<Instr>, numbered: seq<Instr>, after: seq<Instr>, isMain: bool,
                          calls: seq<nat>, scope: Scope)
    requires Growing(list, isMain, calls, scope) && Passed(list, numbered, after)
    ensures TextResolves(after, Text(scope.program, after, isMain))
  {
    forall k | 0 <= k < |after| && after[k].category == BRANCH ensures Resolves(Text(scope.program, after, isMain), |after|, k) {
      BranchLinesResolve(scope.program, list, numbered, after, isMain, k);
    }
  }

  predicate Named(tag: Label) {
    tag.Program? || tag.PushStart? || tag.JumpPoint?
  }

  /** The program's name is on the first line, and no name is on two lines. */
  predicate OwnNames(text: seq<TextLine>, scope: Scope) {
    && text != [] && text[0].tag == Program(scope.program)
    && (forall i :: 0 < i < |text| && Named(text[i].tag) ==> InScope(text[i].tag, scope))
    && (forall i, j :: 0 <= i < j < |text| && Named(text[i].tag) ==> text[i].tag != text[j].tag)
  }

  lemma PassedNames(list: seq<Instr>, numbered: seq<Instr>, after: seq<Instr>, scope: Scope, k: nat)
    requires Passed(list, numbered, after) && NoNumbers(list) && NamesIn(list, scope) && k < |list| && after[k].hasLabel
    ensures Named(after[k].tag) ==> InScope(after[k].tag, scope)
  {
    assert ItemDone(numbered[k], after[k], LabelIdx(list, |list|), Targeted(numbered, after, k, numbered[k].tag));
  }

  lemma NamesOnce(program: nat, list: seq<Instr>, isMain: bool, i: nat, j: nat)
    requires DistinctLabels(list) && i < j < |Text(program, list, isMain)| && Named(Text(program, list, isMain)[i].tag)
    requires i == 0 ==> Text(program, list, isMain)[j].tag != Program(program)
    ensures Text(program, list, isMain)[i].tag != Text(program, list, isMain)[j].tag
  {
    if 0 < i && j < |list| {
      assert Bears(list[i], list[i].tag);
    }
  }

  /** The names in the text of a sequence. */
  lemma GrownTextNames(list: seq<Instr>, numbered: seq<Instr>, after: seq<Instr>, isMain: bool, calls: seq<nat>, scope: Scope)
    requires Growing(list, isMain, calls, scope) && Passed(list, numbered, after)
    ensures OwnNames(Text(scope.program, after, isMain), scope)
  {
    var text := Text(scope.program, after, isMain);
    forall i | 0 < i < |text| && Named(text[i].tag) ensures InScope(text[i].tag, scope) {
      PassedNames(list, numbered, after, scope, i);
    }
    StillDistinct(list, numbered, after);
    forall i, j | 0 <= i < j < |text| && Named(text[i].tag) ensures text[i].tag != text[j].tag {
      NamesOnce(scope.program, after, isMain, i, j);
    }
  }
}
