/** Instruction streams (riscv_instr_stream.py): random instructions, splicing one stream
    into another, and the order-preserving mix. */
module InstrStream {
  import opened IntRegisters
  import opened InstrBase
  import opened Sequences

  class RandInstrStream {
    var instrList: seq<Instr>

    constructor ()
      ensures instrList == []
    {
      instrList := [];
    }

    /** `initialize_instr_list` and `gen_instr`: count random instructions, the last of
        which is no branch. */
    method GenInstr(count: nat, notBranch: bool, reserved: set<Reg>)
      requires SomeRegister(reserved)
      modifies this
      ensures |instrList| == count && RandomStream(instrList, notBranch, reserved)
    {
      instrList := [];
      for n := 0 to count
        invariant |instrList| == n
        invariant forall k :: 0 <= k < n ==>
                    RandomInstr(instrList[k], notBranch || k == count - 1) && Avoids(instrList[k], reserved)
      {
        var i := Randomize(notBranch || n == count - 1, reserved);
        instrList := instrList + [i];
      }
    }

    /** `insert_instr_stream`. Without an index it goes in front of a random instruction that
        is not atomic; with `replace` it takes that instruction's place and label. The loop
        that draws indices ends only if some instruction is not atomic. */
    method InsertInstrStream(newInstr: seq<Instr>, replace: bool) returns (idx: nat)
      requires HasPlace(instrList)
      requires replace ==> newInstr != []
      modifies this
      ensures idx < |old(instrList)| && !old(instrList)[idx].atomic
      ensures !replace ==> instrList == Splice(old(instrList), idx, newInstr)
      ensures replace ==>
        var head := newInstr[0].(tag := old(instrList)[idx].tag, hasLabel := old(instrList)[idx].hasLabel);
        instrList == old(instrList)[..idx] + [head] + newInstr[1..] + old(instrList)[idx + 1..]
    {
      var k :| 0 <= k < |instrList| && !instrList[k].atomic;
      idx := k;
      if replace {
        var head := newInstr[0].(tag := instrList[idx].tag, hasLabel := instrList[idx].hasLabel);
        instrList := instrList[..idx] + [head] + newInstr[1..] + instrList[idx + 1..];
      } else {
        instrList := instrList[..idx] + newInstr + instrList[idx..];
      }
    }

    /** `insert_instr` at a given index (Python's list insertion stops at the end). */
    method InsertInstrAt(instr: Instr, idx: nat)
      modifies this
      ensures instrList == InsertAt(old(instrList), idx, instr)
    {
      var at := if idx <= |instrList| then idx else |instrList|;
      instrList := instrList[..at] + [instr] + instrList[at..];
    }

    /** The solution of `mix_instr_stream`: any non-decreasing list of positions, the first
        and last of which `contained` then fixes. */
    method Solve(count: nat, size: nat, contained: bool) returns (sol: seq<nat>)
      requires count > 0 && size > 0
      ensures Solution(sol, count, size)
      ensures contained ==> sol[0] == 0 && (count > 1 ==> sol[count - 1] == size - 1)
    {
      var zeros := seq(count, _ => 0);
      assert Solution(zeros, count, size);
      sol :| Solution(sol, count, size);
      assert Solution(sol, count, size);
      if contained {
        sol := sol[0 := 0];
        if count > 1 {
          sol := sol[count - 1 := size - 1];
        }
      }
    }

    /** `mix_instr_stream`. The constraint library fails (ok is false, nothing changes) when
        there is something to mix into an empty list, and `contained` needs something to
        mix. */
    method MixInstrStream(newInstr: seq<Instr>, contained: bool) returns (ok: bool, sol: seq<nat>)
      modifies this
      ensures ok <==> if newInstr == [] then !contained else old(instrList) != []
      ensures ok ==> Solution(sol, |newInstr|, |old(instrList)|) && instrList == Merged(old(instrList), newInstr, sol)
      ensures ok && contained ==> sol[0] == 0 && (|sol| > 1 ==> sol[|sol| - 1] == |old(instrList)| - 1)
      ensures !ok ==> instrList == old(instrList)
    {
      ok, sol := newInstr == [] && !contained, [];
      if newInstr != [] && instrList != [] {
        ok := true;
        sol := Solve(|newInstr|, |instrList|, contained);
        for i := 0 to |newInstr|
          invariant instrList == Merged(old(instrList), newInstr[..i], sol[..i])
        {
          InsertInstrAt(newInstr[i], sol[i] + i);
          assert newInstr[..i + 1][..i] == newInstr[..i] && sol[..i + 1][..i] == sol[..i];
        }
        assert newInstr[..|newInstr|] == newInstr && sol[..|newInstr|] == sol;
      }
    }
  }

  predicate HasPlace(list: seq<Instr>) {
    exists k :: 0 <= k < |list| && !list[k].atomic
  }

  ghost predicate RandomStream(list: seq<Instr>, notBranch: bool, reserved: set<Reg>) {
    forall k :: 0 <= k < |list| ==> RandomInstr(list[k], notBranch || k == |list| - 1) && Avoids(list[k], reserved)
  }

  // ---------------------------------------------------------------- splicing

  function Splice<T>(list: seq<T>, idx: nat, more: seq<T>): seq<T>
    requires idx <= |list|
  {
    list[..idx] + more + list[idx..]
  }

  ghost predicate Block<T>(list: seq<T>, at: nat, block: seq<T>) {
    at + |block| <= |list| && list[at..at + |block|] == block
  }

  predicate AllAtomic(block: seq<Instr>) {
    forall k :: 0 <= k < |block| ==> block[k].atomic
  }

  /** One random splice: the new stream goes in front of an instruction that is not atomic. */
  predicate SplicedAt(before: seq<Instr>, idx: nat, more: seq<Instr>, after: seq<Instr>) {
    idx < |before| && !before[idx].atomic && after == Splice(before, idx, more)
  }

  /** Where a block ends up after one splice. */
  function Moved(at: nat, idx: nat, count: nat): nat {
    if idx <= at then at + count else at
  }

  /** A splice keeps every atomic block whole and in order; a block at the very front stays
      there, a block at the very end stays there. */
  lemma SpliceKeepsBlock(before: seq<Instr>, idx: nat, more: seq<Instr>, after: seq<Instr>, at: nat, block: seq<Instr>)
    requires SplicedAt(before, idx, more, after)
    requires block != [] && AllAtomic(block) && Block(before, at, block)
    ensures Block(after, Moved(at, idx, |more|), block)
    ensures at == 0 ==> Moved(at, idx, |more|) == 0
    ensures at + |block| == |before| ==> Moved(at, idx, |more|) + |block| == |after|
  {
    forall k | 0 <= k < |block| ensures before[at + k] == block[k] {
      assert before[at..at + |block|][k] == block[k];
    }
    if at <= idx < at + |block| {
      assert before[idx] == block[idx - at];
    }
  }

  /** A run of splices: list k+1 comes from list k by splicing in stream k at place k. */
  ghost predicate SpliceRun(run: seq<seq<Instr>>, streams: seq<seq<Instr>>, places: seq<nat>) {
    && |run| == |streams| + 1 && |places| == |streams|
    && forall k :: 0 <= k < |streams| ==> SplicedAt(run[k], places[k], streams[k], run[k + 1])
  }

  /** Across any number of random splices, an atomic block of any list of the run is still
      there, whole and in order, in the last one: at the front if it was at the front, at
      the end if it was at the end. */
  lemma {:induction false} RunKeepsBlock(run: seq<seq<Instr>>, streams: seq<seq<Instr>>, places: seq<nat>,
                                         from: nat, at: nat, block: seq<Instr>) returns (at': nat)
    requires SpliceRun(run, streams, places) && from < |run|
    requires block != [] && AllAtomic(block) && Block(run[from], at, block)
    ensures Block(run[|streams|], at', block)
    ensures at == 0 ==> at' == 0
    ensures at + |block| == |run[from]| ==> at' + |block| == |run[|streams|]|
    decreases |run| - from
  {
    if from == |streams| {
      at' := at;
    } else {
      assert SplicedAt(run[from], places[from], streams[from], run[from + 1]);
      SpliceKeepsBlock(run[from], places[from], streams[from], run[from + 1], at, block);
      at' := RunKeepsBlock(run, streams, places, from + 1, Moved(at, places[from], |streams[from]|), block);
    }
  }

  /** No instruction is lost or duplicated, and every spliced-in atomic stream survives the
      splices after it. */
  lemma {:induction false} RunConserves(run: seq<seq<Instr>>, streams: seq<seq<Instr>>, places: seq<nat>)
    requires SpliceRun(run, streams, places)
    ensures multiset(run[|streams|]) == multiset(run[0]) + multiset(Flatten(streams))
    decreases |streams|
  {
    if streams != [] {
      var n := |streams| - 1;
      assert SplicedAt(run[n], places[n], streams[n], run[n + 1]);
      SpliceConserves(run[n], places[n], streams[n]);
      forall k | 0 <= k < n ensures SplicedAt(run[..n + 1][k], places[..n][k], streams[..n][k], run[..n + 1][k + 1]) {
        assert SplicedAt(run[k], places[k], streams[k], run[k + 1]);
      }
      RunConserves(run[..n + 1], streams[..n], places[..n]);
    }
  }

  lemma SpliceConserves<T>(list: seq<T>, idx: nat, more: seq<T>)
    requires idx <= |list|
    ensures multiset(Splice(list, idx, more)) == multiset(list) + multiset(more)
  {
    assert list == list[..idx] + list[idx..];
  }

  lemma InsertedStreamsSurvive(run: seq<seq<Instr>>, streams: seq<seq<Instr>>, places: seq<nat>, k: nat) returns (at: nat)
    requires SpliceRun(run, streams, places) && k < |streams|
    requires streams[k] != [] && AllAtomic(streams[k])
    ensures Block(run[|streams|], at, streams[k])
  {
    assert SplicedAt(run[k], places[k], streams[k], run[k + 1]);
    assert Block(run[k + 1], places[k], streams[k]);
    at := RunKeepsBlock(run, streams, places, k + 1, places[k], streams[k]);
  }

  // ---------------------------------------------------------------- mixing

  predicate Solution(sol: seq<nat>, count: nat, size: nat) {
    && |sol| == count
    && (forall k :: 0 <= k < count ==> sol[k] < size)
    && (forall k, m :: 0 <= k < m < count ==> sol[k] <= sol[m])
  }

  function InsertAt<T>(list: seq<T>, idx: nat, x: T): seq<T> {
    if idx <= |list| then Splice(list, idx, [x]) else list + [x]
  }

  /** The result of inserting the new instructions one after the other, number i at
      position sol[i] + i. */
  function Merged<T>(list: seq<T>, new': seq<T>, sol: seq<nat>): (r: seq<T>)
    requires |sol| == |new'|
    ensures |r| == |list| + |new'|
    decreases |new'|
  {
    if new' == [] then list
    else
      var n := |new'| - 1;
      InsertAt(Merged(list, new'[..n], sol[..n]), sol[n] + n, new'[n])
  }

  lemma InsertAtMoves<T>(list: seq<T>, idx: nat, x: T)
    requires idx <= |list|
    ensures InsertAt(list, idx, x)[idx] == x
    ensures forall k :: 0 <= k < |list| ==> InsertAt(list, idx, x)[if k < idx then k else k + 1] == list[k]
    ensures InsertAt(list, idx, x)[..idx] + InsertAt(list, idx, x)[idx + 1..] == list
  {
  }

  lemma InsertAtMoved<T>(list: seq<T>, idx: nat, x: T, k: nat)
    requires idx <= |list| && k < |list|
    ensures k < idx ==> InsertAt(list, idx, x)[k] == list[k]
    ensures k >= idx ==> InsertAt(list, idx, x)[k + 1] == list[k]
  {
  }

  /** New instruction i ends up at position sol[i] + i. */
  lemma {:induction false} NewPositions<T>(list: seq<T>, new': seq<T>, sol: seq<nat>, i: nat)
    requires Solution(sol, |new'|, |list|) && i < |new'|
    ensures Merged(list, new', sol)[sol[i] + i] == new'[i]
    decreases |new'|
  {
    var n := |new'| - 1;
    InsertAtMoves(Merged(list, new'[..n], sol[..n]), sol[n] + n, new'[n]);
    if i < n {
      NewPositions(list, new'[..n], sol[..n], i);
    }
  }

  /** Deleting those positions, the last one first. */
  function Unmixed<T>(merged: seq<T>, sol: seq<nat>): seq<T>
    decreases |sol|
  {
    if sol == [] then merged
    else
      var n := |sol| - 1;
      var at := sol[n] + n;
      Unmixed(if at < |merged| then merged[..at] + merged[at + 1..] else merged, sol[..n])
  }

  /** ... gives back the original list. */
  lemma {:induction false} UnmixMerged<T>(list: seq<T>, new': seq<T>, sol: seq<nat>)
    requires Solution(sol, |new'|, |list|)
    ensures Unmixed(Merged(list, new', sol), sol) == list
    decreases |new'|
  {
    if new' != [] {
      var n := |new'| - 1;
      InsertAtMoves(Merged(list, new'[..n], sol[..n]), sol[n] + n, new'[n]);
      UnmixMerged(list, new'[..n], sol[..n]);
    }
  }

  function CountUpTo(sol: seq<nat>, j: nat): (c: nat)
    ensures c <= |sol|
  {
    if sol == [] then 0
    else CountUpTo(sol[..|sol| - 1], j) + if sol[|sol| - 1] <= j then 1 else 0
  }

  lemma {:induction false} CountAll(sol: seq<nat>, j: nat)
    requires forall k :: 0 <= k < |sol| ==> sol[k] <= j
    ensures CountUpTo(sol, j) == |sol|
  {
    if sol != [] {
      CountAll(sol[..|sol| - 1], j);
    }
  }

  lemma SolutionPrefix(sol: seq<nat>, count: nat, size: nat, j: nat)
    requires Solution(sol, count, size) && count > 0
    ensures Solution(sol[..count - 1], count - 1, size) && sol[count - 1] < size
    ensures sol[count - 1] <= j ==> CountUpTo(sol[..count - 1], j) == count - 1
  {
    if sol[count - 1] <= j {
      CountAll(sol[..count - 1], j);
    }
  }

  lemma OldStep<T>(before: seq<T>, x: T, place: nat, n: nat, j: nat, c: nat, v: T)
    requires place + n <= |before| && j + c < |before| && before[j + c] == v
    requires c <= n && (place <= j ==> c == n)
    ensures j + c + (if place <= j then 1 else 0) < |InsertAt(before, place + n, x)|
    ensures InsertAt(before, place + n, x)[j + c + if place <= j then 1 else 0] == v
  {
    InsertAtMoved(before, place + n, x, j + c);
  }

  /** Original instruction j moves back by the number of new ones placed at or before it. */
  lemma {:induction false} OldPositions<T>(list: seq<T>, new': seq<T>, sol: seq<nat>, j: nat)
    requires Solution(sol, |new'|, |list|) && j < |list|
    ensures Merged(list, new', sol)[j + CountUpTo(sol, j)] == list[j]
    decreases |new'|
  {
    if new' != [] {
      var n := |new'| - 1;
      var new'', sol' := new'[..n], sol[..n];
      SolutionPrefix(sol, n + 1, |list|, j);
      OldPositions(list, new'', sol', j);
      OldStep(Merged(list, new'', sol'), new'[n], sol[n], n, j, CountUpTo(sol', j), list[j]);
    }
  }

  /** Every position holds a new instruction at its place, or an original one. */
  lemma {:induction false} Origin<T>(list: seq<T>, new': seq<T>, sol: seq<nat>, p: nat)
    requires Solution(sol, |new'|, |list|) && p < |list| + |new'|
    ensures (exists i :: 0 <= i < |new'| && p == sol[i] + i) || Merged(list, new', sol)[p] in list
    decreases |new'|
  {
    if new' != [] {
      var n := |new'| - 1;
      var at := sol[n] + n;
      if p != at {
        var p' := if p < at then p else p - 1;
        Origin(list, new'[..n], sol[..n], p');
        if i :| 0 <= i < n && p' == sol[..n][i] + i {
          assert p == sol[i] + i;
        }
      } else {
        assert p == sol[n] + n;
      }
    }
  }

  /** Whatever the solution, the last original instruction stays the last one. In particular
      `contained` does not enclose the original list: its last new instruction ends up just
      in front of the last original one. */
  lemma LastStaysLast<T>(list: seq<T>, new': seq<T>, sol: seq<nat>)
    requires Solution(sol, |new'|, |list|) && list != []
    ensures var r := Merged(list, new', sol);
      && r[|r| - 1] == list[|list| - 1]
      && (new' != [] && sol[0] == 0 ==> r[0] == new'[0])
      && (new' != [] && sol[|sol| - 1] == |list| - 1 ==> r[|r| - 2] == new'[|new'| - 1])
  {
    CountAll(sol, |list| - 1);
    OldPositions(list, new', sol, |list| - 1);
    if new' != [] {
      NewPositions(list, new', sol, 0);
      NewPositions(list, new', sol, |new'| - 1);
    }
  }
}
