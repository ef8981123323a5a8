/** Labels and branches of an instruction list: what keeps every branch going forward. */
module SequenceLabels {
  import opened InstrBase
  import opened InstrStream

  /** An instruction that gets a local number. */
  predicate Numbered(i: Instr) {
    i.hasLabel && !i.atomic
  }

  /** A branch whose target is still to be chosen. */
  predicate Open(i: Instr) {
    i.category == BRANCH && !i.branchAssigned
  }

  predicate Assigned(i: Instr) {
    i.category == BRANCH && i.branchAssigned
  }

  ghost predicate DistinctLabels(list: seq<Instr>) {
    forall j, k :: 0 <= j < k < |list| && Bears(list[j], list[j].tag) && list[k].hasLabel ==> list[k].tag != list[j].tag
  }

  /** The target of instruction k is the label of a later one. */
  ghost predicate LandsLater(list: seq<Instr>, k: nat)
    requires k < |list|
  {
    exists j :: k < j < |list| && Bears(list[j], list[k].target)
  }

  ghost predicate Forward(list: seq<Instr>) {
    forall k :: 0 <= k < |list| && Assigned(list[k]) ==> LandsLater(list, k)
  }

  ghost predicate NumberAfter(list: seq<Instr>, k: nat) {
    exists j :: k < j < |list| && Numbered(list[j])
  }

  ghost predicate OpenCovered(list: seq<Instr>) {
    forall k :: 0 <= k < |list| && Open(list[k]) ==> Numbered(list[k]) && NumberAfter(list, k)
  }

  predicate NoNumbers(list: seq<Instr>) {
    forall k :: 0 <= k < |list| ==> !list[k].tag.Numeric? && !list[k].isLocalNumericLabel
  }

  /** Only instructions of atomic streams have names. */
  predicate NamedAreAtomic(list: seq<Instr>) {
    forall k :: 0 <= k < |list| && Bears(list[k], list[k].tag) ==> list[k].atomic
  }

  /** A list before post-processing. */
  ghost predicate Ready(list: seq<Instr>) {
    DistinctLabels(list) && Forward(list) && OpenCovered(list) && NoNumbers(list) && NamedAreAtomic(list)
  }

  /** A finished atomic stream: its branches, if any, go forward inside it. */
  ghost predicate Closed(stream: seq<Instr>) {
    && AllAtomic(stream) && NoNumbers(stream) && DistinctLabels(stream) && Forward(stream)
    && forall k :: 0 <= k < |stream| ==> !Open(stream[k])
  }

  /** No label of one list occurs in the other. */
  ghost predicate Apart(list: seq<Instr>, stream: seq<Instr>) {
    forall j, k :: 0 <= j < |list| && 0 <= k < |stream| && Bears(list[j], list[j].tag) && stream[k].hasLabel ==>
      list[j].tag != stream[k].tag
  }

  // ---------------------------------------------------------------- splicing keeps it

  /** Where element k of the list, or of the stream spliced in at idx, ends up. */
  function Place(idx: nat, count: nat, k: nat): nat {
    if k < idx then k else k + count
  }

  lemma PlaceHolds(list: seq<Instr>, idx: nat, stream: seq<Instr>, k: nat)
    requires idx <= |list| && k < |list|
    ensures Place(idx, |stream|, k) < |Splice(list, idx, stream)|
    ensures Splice(list, idx, stream)[Place(idx, |stream|, k)] == list[k]
  {
  }

  lemma StreamHolds(list: seq<Instr>, idx: nat, stream: seq<Instr>, k: nat)
    requires idx <= |list| && k < |stream|
    ensures Splice(list, idx, stream)[idx + k] == stream[k]
  {
  }

  lemma SpliceForward(list: seq<Instr>, idx: nat, stream: seq<Instr>)
    requires idx <= |list| && Forward(list) && Forward(stream)
    ensures Forward(Splice(list, idx, stream))
  {
    var r := Splice(list, idx, stream);
    forall k | 0 <= k < |r| && Assigned(r[k]) ensures LandsLater(r, k) {
      if idx <= k < idx + |stream| {
        StreamHolds(list, idx, stream, k - idx);
        assert LandsLater(stream, k - idx);
        var j :| k - idx < j < |stream| && Bears(stream[j], stream[k - idx].target);
        StreamHolds(list, idx, stream, j);
      } else {
        var k' := if k < idx then k else k - |stream|;
        PlaceHolds(list, idx, stream, k');
        assert LandsLater(list, k');
        var j :| k' < j < |list| && Bears(list[j], list[k'].target);
        PlaceHolds(list, idx, stream, j);
      }
    }
  }

  lemma SpliceOpenCovered(list: seq<Instr>, idx: nat, stream: seq<Instr>)
    requires idx <= |list| && OpenCovered(list) && Closed(stream)
    ensures OpenCovered(Splice(list, idx, stream))
  {
    var r := Splice(list, idx, stream);
    forall k | 0 <= k < |r| && Open(r[k]) ensures Numbered(r[k]) && NumberAfter(r, k) {
      if k < idx || k >= idx + |stream| {
        var k' := if k < idx then k else k - |stream|;
        PlaceHolds(list, idx, stream, k');
        assert NumberAfter(list, k');
        var j :| k' < j < |list| && Numbered(list[j]);
        PlaceHolds(list, idx, stream, j);
      }
    }
  }

  lemma SpliceDistinct(list: seq<Instr>, idx: nat, stream: seq<Instr>)
    requires idx <= |list| && DistinctLabels(list) && DistinctLabels(stream) && Apart(list, stream)
    ensures DistinctLabels(Splice(list, idx, stream))
  {
    var r := Splice(list, idx, stream);
    forall j, k | 0 <= j < k < |r| && Bears(r[j], r[j].tag) && r[k].hasLabel ensures r[k].tag != r[j].tag {
      var inJ, inK := idx <= j < idx + |stream|, idx <= k < idx + |stream|;
      var j' := if inJ then j - idx else if j < idx then j else j - |stream|;
      var k' := if inK then k - idx else if k < idx then k else k - |stream|;
      if inJ { StreamHolds(list, idx, stream, j'); } else { PlaceHolds(list, idx, stream, j'); }
      if inK { StreamHolds(list, idx, stream, k'); } else { PlaceHolds(list, idx, stream, k'); }
    }
  }

  lemma SpliceReady(list: seq<Instr>, idx: nat, stream: seq<Instr>)
    requires idx <= |list| && Ready(list) && Closed(stream) && Apart(list, stream)
    ensures Ready(Splice(list, idx, stream))
  {
    SpliceForward(list, idx, stream);
    SpliceOpenCovered(list, idx, stream);
    SpliceDistinct(list, idx, stream);
  }

  lemma {:induction false} RunNoNumbers(run: seq<seq<Instr>>, streams: seq<seq<Instr>>, places: seq<nat>, n: nat)
    requires SpliceRun(run, streams, places) && n <= |streams| && NoNumbers(run[0])
    requires forall k :: 0 <= k < |streams| ==> NoNumbers(streams[k])
    ensures NoNumbers(run[n])
  {
    if n > 0 {
      RunNoNumbers(run, streams, places, n - 1);
      assert SplicedAt(run[n - 1], places[n - 1], streams[n - 1], run[n - 1 + 1]);
      assert NoNumbers(streams[n - 1]);
    }
  }
}
