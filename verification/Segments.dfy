/** Stretches of an instruction list that control cannot enter from the side, and in which a
    register keeps what was put into it: where the base registers of calls and stores come from. */
module Segments {
  import opened IntRegisters
  import opened InstrBase
  import opened InstrStream
  import opened JumpStream
  import opened SequenceLabels
  import opened BranchTargets

  /** Behind instruction `from`, up to and including `to`: one atomic piece without jumps, which
      leaves register r alone until `to`, and into which only its own branches go. */
  ghost predicate Segment(list: seq<Instr>, from: nat, to: nat, r: Reg) {
    && from < to < |list| && list[from].category !in {STORE, BRANCH, JUMP}
    && (forall m :: from < m <= to ==> list[m].atomic)
    && (forall m :: from < m < to ==> Leaves(list[m], r) && list[m].category != JUMP)
    && (forall m, j :: from < m <= to && 0 <= j < |list| && Assigned(list[j]) && Bears(list[m], list[j].target) ==>
          from < j < to)
  }

  /** The base of the JALR at k: `la` at p, `addi` at q, with immediates made from a. */
  ghost predicate BaseMade(list: seq<Instr>, p: nat, q: nat, k: nat, a: nat) {
    && k < |list| && list[k].tag.JumpPoint?
    && var base := list[k].src1;
       && base != ZERO && Segment(list, p, q, base) && Segment(list, q, k, base)
       && list[p].name == LA && list[p].rd == base && list[p].target == Program(list[k].tag.callee)
       && list[q].name == ADDI && list[q].rd == base && list[q].src1 == base
       && list[q].imm == Imm11(a) && list[k].imm == Imm11(0 - a)
  }

  /** The jump at k is a call as it is made. */
  ghost predicate JumpMade(list: seq<Instr>, k: nat)
    requires k < |list|
  {
    && list[k].rd == RA && list[k].tag.JumpPoint? && list[k].name in {JAL, JALR}
    && (list[k].name == JAL ==> list[k].target == Program(list[k].tag.callee))
    && (list[k].name == JALR ==> exists p, q, a :: BaseMade(list, p, q, k, a))
  }

  /** The base of the store at k: a data page from `la` at p. The store stays inside the page. */
  ghost predicate PageMade(list: seq<Instr>, p: nat, k: nat) {
    && k < |list| && list[k].src1 != ZERO && Segment(list, p, k, list[k].src1)
    && list[p].name == LA && list[p].rd == list[k].src1 && list[p].target.DataPage? && list[p].target.page < PAGES
    && 0 <= list[p].target.offset + list[k].imm
    && list[p].target.offset + list[k].imm + Size(list[k].name) <= PAGE_SIZE
  }

  ghost predicate StoreMade(list: seq<Instr>, k: nat) {
    exists p :: PageMade(list, p, k)
  }

  /** Every jump is a call, and every store from position e on goes to a data page. */
  ghost predicate Equipped(list: seq<Instr>, e: nat) {
    && (forall k :: 0 <= k < |list| && list[k].category == JUMP ==> JumpMade(list, k))
    && (forall k :: e <= k < |list| && IsStore(list[k].name) ==> StoreMade(list, k))
  }

  // ---------------------------------------------------------------- splicing keeps it

  predicate SplicePlace(list: seq<Instr>, idx: nat) {
    idx == |list| || (idx < |list| && !list[idx].atomic)
  }

  /** The labels of the two lists, and so the targets of their branches, have nothing in common. */
  ghost predicate Separate(list: seq<Instr>, stream: seq<Instr>) {
    Forward(list) && Forward(stream) && Apart(list, stream)
  }

  lemma TargetsApart(list: seq<Instr>, stream: seq<Instr>, j: nat, m: nat)
    requires Separate(list, stream)
    ensures j < |stream| && m < |list| && Assigned(stream[j]) ==> !Bears(list[m], stream[j].target)
    ensures j < |list| && m < |stream| && Assigned(list[j]) ==> !Bears(stream[m], list[j].target)
  {
    if j < |stream| && m < |list| && Assigned(stream[j]) {
      assert LandsLater(stream, j);
    }
    if j < |list| && m < |stream| && Assigned(list[j]) {
      assert LandsLater(list, j);
    }
  }

  /** No branch of a stream spliced into the list goes to the list. */
  lemma InsideStaysIn(list: seq<Instr>, idx: nat, stream: seq<Instr>, j: nat, m: nat)
    requires idx <= |list| && Separate(list, stream) && m < |list|
    requires idx <= j < idx + |stream|
    ensures var after := Splice(list, idx, stream); Assigned(after[j]) ==> !Bears(list[m], after[j].target)
  {
    StreamHolds(list, idx, stream, j - idx);
    TargetsApart(list, stream, j - idx, m);
  }

  lemma SegmentMoves(list: seq<Instr>, idx: nat, stream: seq<Instr>, from: nat, to: nat, r: Reg)
    requires SplicePlace(list, idx) && Separate(list, stream) && Segment(list, from, to, r)
    ensures var n := |stream|; Segment(Splice(list, idx, stream), Place(idx, n, from), Place(idx, n, to), r)
    ensures Place(idx, |stream|, to) - Place(idx, |stream|, from) == to - from
  {
    var after, n := Splice(list, idx, stream), |stream|;
    var from', to' := Place(idx, n, from), Place(idx, n, to);
    assert !(from < idx <= to);
    forall m | from' <= m <= to' ensures after[m] == list[m - from' + from] {
      PlaceHolds(list, idx, stream, m - from' + from);
    }
    forall m, j | from' < m <= to' && 0 <= j < |after|
      ensures Assigned(after[j]) && Bears(after[m], after[j].target) ==> from' < j < to'
    {
      if idx <= j < idx + n {
        InsideStaysIn(list, idx, stream, j, m - from' + from);
      } else {
        PlaceHolds(list, idx, stream, if j < idx then j else j - n);
      }
    }
  }

  /** No branch of the list goes into a stream spliced into it. */
  lemma OutsideStaysOut(list: seq<Instr>, idx: nat, stream: seq<Instr>, j: nat, m: nat)
    requires idx <= |list| && Separate(list, stream) && m < |stream|
    requires j < |Splice(list, idx, stream)|
    ensures var after := Splice(list, idx, stream);
      !(idx <= j < idx + |stream|) && Assigned(after[j]) ==> !Bears(stream[m], after[j].target)
  {
    if !(idx <= j < idx + |stream|) {
      var j' := if j < idx then j else j - |stream|;
      PlaceHolds(list, idx, stream, j');
      TargetsApart(list, stream, j', m);
    }
  }

  lemma SegmentEnters(list: seq<Instr>, idx: nat, stream: seq<Instr>, from: nat, to: nat, r: Reg)
    requires idx <= |list| && Separate(list, stream) && Segment(stream, from, to, r)
    ensures Segment(Splice(list, idx, stream), idx + from, idx + to, r)
  {
    var after := Splice(list, idx, stream);
    forall m | from <= m <= to ensures after[idx + m] == stream[m] {
      StreamHolds(list, idx, stream, m);
    }
    forall m, j | idx + from < m <= idx + to && 0 <= j < |after|
      ensures Assigned(after[j]) && Bears(after[m], after[j].target) ==> idx + from < j < idx + to
    {
      OutsideStaysOut(list, idx, stream, j, m - idx);
      if idx <= j < idx + |stream| {
        StreamHolds(list, idx, stream, j - idx);
      }
    }
  }

  lemma JumpMoves(list: seq<Instr>, idx: nat, stream: seq<Instr>, k: nat)
    requires SplicePlace(list, idx) && Separate(list, stream) && k < |list| && JumpMade(list, k)
    ensures Place(idx, |stream|, k) < |Splice(list, idx, stream)| && JumpMade(Splice(list, idx, stream), Place(idx, |stream|, k))
  {
    var n, after := |stream|, Splice(list, idx, stream);
    PlaceHolds(list, idx, stream, k);
    if list[k].name == JALR {
      var p, q, a :| BaseMade(list, p, q, k, a);
      SegmentMoves(list, idx, stream, p, q, list[k].src1);
      SegmentMoves(list, idx, stream, q, k, list[k].src1);
      PlaceHolds(list, idx, stream, p);
      PlaceHolds(list, idx, stream, q);
      assert BaseMade(after, Place(idx, n, p), Place(idx, n, q), Place(idx, n, k), a);
    }
  }

  lemma JumpEnters(list: seq<Instr>, idx: nat, stream: seq<Instr>, k: nat)
    requires idx <= |list| && Separate(list, stream) && k < |stream| && JumpMade(stream, k)
    ensures JumpMade(Splice(list, idx, stream), idx + k)
  {
    StreamHolds(list, idx, stream, k);
    if stream[k].name == JALR {
      var p, q, a :| BaseMade(stream, p, q, k, a);
      SegmentEnters(list, idx, stream, p, q, stream[k].src1);
      SegmentEnters(list, idx, stream, q, k, stream[k].src1);
      StreamHolds(list, idx, stream, p);
      StreamHolds(list, idx, stream, q);
      assert BaseMade(Splice(list, idx, stream), idx + p, idx + q, idx + k, a);
    }
  }

  lemma StoreMoves(list: seq<Instr>, idx: nat, stream: seq<Instr>, k: nat)
    requires SplicePlace(list, idx) && Separate(list, stream) && StoreMade(list, k)
    ensures StoreMade(Splice(list, idx, stream), Place(idx, |stream|, k))
  {
    var p :| PageMade(list, p, k);
    SegmentMoves(list, idx, stream, p, k, list[k].src1);
    PlaceHolds(list, idx, stream, k);
    PlaceHolds(list, idx, stream, p);
    assert PageMade(Splice(list, idx, stream), Place(idx, |stream|, p), Place(idx, |stream|, k));
  }

  lemma StoreEnters(list: seq<Instr>, idx: nat, stream: seq<Instr>, k: nat)
    requires idx <= |list| && Separate(list, stream) && StoreMade(stream, k)
    ensures StoreMade(Splice(list, idx, stream), idx + k)
  {
    var p :| PageMade(stream, p, k);
    SegmentEnters(list, idx, stream, p, k, stream[k].src1);
    StreamHolds(list, idx, stream, k);
    StreamHolds(list, idx, stream, p);
    assert PageMade(Splice(list, idx, stream), idx + p, idx + k);
  }

  /** Where the stores of the result have to be accounted for: behind a stack block that is put
      in front, and behind the one that is there already. */
  predicate Thresholds(idx: nat, e: nat, f: nat, count: nat, e': nat) {
    (e <= idx && f == 0 && e' == e) || (idx == 0 && e == 0 && f == count && e' == count)
  }

  ghost predicate ItemEquipped(list: seq<Instr>, e: nat, k: nat)
    requires k < |list|
  {
    && (list[k].category == JUMP ==> JumpMade(list, k))
    && (k >= e && IsStore(list[k].name) ==> StoreMade(list, k))
  }

  lemma OldEquipped(list: seq<Instr>, idx: nat, stream: seq<Instr>, e: nat, k: nat)
    requires SplicePlace(list, idx) && Separate(list, stream) && k < |list| && ItemEquipped(list, e, k)
    ensures Place(idx, |stream|, k) < |Splice(list, idx, stream)|
    ensures e <= idx ==> ItemEquipped(Splice(list, idx, stream), e, Place(idx, |stream|, k))
    ensures idx == 0 && e == 0 ==> ItemEquipped(Splice(list, idx, stream), |stream|, Place(idx, |stream|, k))
  {
    PlaceHolds(list, idx, stream, k);
    if list[k].category == JUMP {
      JumpMoves(list, idx, stream, k);
    }
    if k >= e && IsStore(list[k].name) {
      StoreMoves(list, idx, stream, k);
    }
  }

  lemma NewEquipped(list: seq<Instr>, idx: nat, stream: seq<Instr>, f: nat, e: nat, k: nat)
    requires idx <= |list| && Separate(list, stream) && k < |stream| && ItemEquipped(stream, f, k)
    requires f == 0 || idx + k < e
    ensures ItemEquipped(Splice(list, idx, stream), e, idx + k)
  {
    StreamHolds(list, idx, stream, k);
    if stream[k].category == JUMP {
      JumpEnters(list, idx, stream, k);
    }
    if k >= f && IsStore(stream[k].name) {
      StoreEnters(list, idx, stream, k);
    }
  }

  lemma SpliceEquipped(list: seq<Instr>, idx: nat, stream: seq<Instr>, e: nat, f: nat, e': nat)
    requires SplicePlace(list, idx) && Separate(list, stream)
    requires Equipped(list, e) && Equipped(stream, f) && Thresholds(idx, e, f, |stream|, e')
    ensures Equipped(Splice(list, idx, stream), e')
  {
    var after, n := Splice(list, idx, stream), |stream|;
    forall k | 0 <= k < |after| ensures ItemEquipped(after, e', k) {
      if idx <= k < idx + n {
        assert ItemEquipped(stream, f, k - idx);
        NewEquipped(list, idx, stream, f, e', k - idx);
      } else {
        var k' := if k < idx then k else k - n;
        assert ItemEquipped(list, e, k');
        OldEquipped(list, idx, stream, e, k');
      }
    }
    AllEquipped(after, e');
  }

  lemma AllEquipped(list: seq<Instr>, e: nat)
    requires forall k :: 0 <= k < |list| ==> ItemEquipped(list, e, k)
    ensures Equipped(list, e)
  {
    forall k | 0 <= k < |list|
      ensures list[k].category == JUMP ==> JumpMade(list, k)
      ensures e <= k && IsStore(list[k].name) ==> StoreMade(list, k)
    {
      assert ItemEquipped(list, e, k);
    }
  }

  // ---------------------------------------------------------------- post-processing keeps it

  lemma PassedItem(list: seq<Instr>, numbered: seq<Instr>, after: seq<Instr>, k: nat)
    requires Passed(list, numbered, after) && NoNumbers(list) && k < |list|
    ensures k < |after| && after[k].name == list[k].name && after[k].category == list[k].category
    ensures after[k].rd == list[k].rd && after[k].src1 == list[k].src1 && after[k].src2 == list[k].src2
    ensures after[k].imm == list[k].imm && after[k].atomic == list[k].atomic
    ensures !Open(list[k]) ==> after[k].target == list[k].target && after[k].branchAssigned == list[k].branchAssigned
    ensures Open(list[k]) ==> after[k].target.Numeric?
    ensures list[k].atomic ==> after[k].hasLabel == list[k].hasLabel && after[k].tag == list[k].tag
  {
    assert ItemDone(numbered[k], after[k], LabelIdx(list, |list|), Targeted(numbered, after, k, numbered[k].tag));
  }

  lemma SegmentPasses(list: seq<Instr>, numbered: seq<Instr>, after: seq<Instr>, from: nat, to: nat, r: Reg)
    requires Passed(list, numbered, after) && NoNumbers(list) && Segment(list, from, to, r)
    ensures Segment(after, from, to, r)
  {
    forall m | from <= m <= to
      ensures after[m].category == list[m].category && after[m].atomic == list[m].atomic
      ensures Leaves(after[m], r) == Leaves(list[m], r)
      ensures list[m].atomic ==> after[m].hasLabel == list[m].hasLabel && after[m].tag == list[m].tag
    {
      PassedItem(list, numbered, after, m);
    }
    forall m, j | from < m <= to && 0 <= j < |after|
      ensures Assigned(after[j]) && Bears(after[m], after[j].target) ==> from < j < to
    {
      PassedItem(list, numbered, after, j);
    }
  }

  lemma PassEquipped(list: seq<Instr>, numbered: seq<Instr>, after: seq<Instr>, e: nat)
    requires Passed(list, numbered, after) && NoNumbers(list) && Equipped(list, e)
    requires forall k :: 0 <= k < |list| && list[k].category == JUMP ==> list[k].atomic
    ensures Equipped(after, e)
  {
    forall k | 0 <= k < |after|
      ensures after[k].category == JUMP ==> JumpMade(after, k)
      ensures k >= e && IsStore(after[k].name) ==> StoreMade(after, k)
    {
      PassedItem(list, numbered, after, k);
      if list[k].category == JUMP {
        JumpPasses(list, numbered, after, k);
      }
      if k >= e && IsStore(list[k].name) {
        StorePasses(list, numbered, after, k);
      }
    }
  }

  lemma JumpPasses(list: seq<Instr>, numbered: seq<Instr>, after: seq<Instr>, k: nat)
    requires Passed(list, numbered, after) && NoNumbers(list)
    requires k < |list| && list[k].category == JUMP && list[k].atomic && JumpMade(list, k)
    ensures JumpMade(after, k)
  {
    PassedItem(list, numbered, after, k);
    if list[k].name == JALR {
      var p, q, a :| BaseMade(list, p, q, k, a);
      SegmentPasses(list, numbered, after, p, q, list[k].src1);
      SegmentPasses(list, numbered, after, q, k, list[k].src1);
      PassedItem(list, numbered, after, p);
      PassedItem(list, numbered, after, q);
      assert BaseMade(after, p, q, k, a);
    }
  }

  lemma StorePasses(list: seq<Instr>, numbered: seq<Instr>, after: seq<Instr>, k: nat)
    requires Passed(list, numbered, after) && NoNumbers(list) && k < |list| && StoreMade(list, k)
    ensures StoreMade(after, k)
  {
    var p :| PageMade(list, p, k);
    SegmentPasses(list, numbered, after, p, k, list[k].src1);
    PassedItem(list, numbered, after, p);
    PassedItem(list, numbered, after, k);
    assert PageMade(after, p, k);
  }
}
