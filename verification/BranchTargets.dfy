/** The post-processing pass over an instruction list (riscv_instr_sequence.py lines
    121-176): local numbers, forward branch targets and erased labels. */
module BranchTargets {
  import opened InstrBase
  import opened SequenceLabels

  const MAX_BRANCH_STEP: nat := 20

  // ---------------------------------------------------------------- numbering

  /** The value of the running counter at instruction k. */
  function LabelIdx(list: seq<Instr>, k: nat): nat
    requires k <= |list|
  {
    if k == 0 then 0 else LabelIdx(list, k - 1) + if Numbered(list[k - 1]) then 1 else 0
  }

  function WithNumber(i: Instr, n: nat): Instr {
    if Numbered(i) then i.(idx := n, tag := Numeric(n), isLocalNumericLabel := true) else i.(idx := n)
  }

  /** The first n instructions have their numbers. */
  ghost predicate NumberedUpTo(before: seq<Instr>, after: seq<Instr>, n: nat) {
    && |after| == |before|
    && (forall k :: 0 <= k < n && k < |before| ==> after[k] == WithNumber(before[k], LabelIdx(before, k)))
    && (forall k :: n <= k < |before| ==> after[k] == before[k])
  }

  ghost predicate Numbering(before: seq<Instr>, after: seq<Instr>) {
    NumberedUpTo(before, after, |before|)
  }

  lemma NumberStep(before: seq<Instr>, after: seq<Instr>, n: nat)
    requires NumberedUpTo(before, after, n) && n < |before|
    ensures NumberedUpTo(before, after[n := WithNumber(before[n], LabelIdx(before, n))], n + 1)
  {
  }

  lemma {:induction false} LabelIdxGrows(list: seq<Instr>, j: nat, k: nat)
    requires j <= k <= |list|
    ensures LabelIdx(list, j) <= LabelIdx(list, k)
    ensures j < k && Numbered(list[j]) ==> LabelIdx(list, j) < LabelIdx(list, k)
  {
    if j < k {
      LabelIdxGrows(list, j, k - 1);
    }
  }

  /** Every number below the counter is on exactly one instruction. */
  lemma {:induction false} NumberFound(list: seq<Instr>, n: nat, k: nat) returns (j: nat)
    requires k <= |list| && n < LabelIdx(list, k)
    ensures j < k && Numbered(list[j]) && LabelIdx(list, j) == n
  {
    if n < LabelIdx(list, k - 1) {
      j := NumberFound(list, n, k - 1);
    } else {
      j := k - 1;
    }
  }

  lemma NumberUnique(list: seq<Instr>, j: nat, k: nat)
    requires j < |list| && k < |list| && Numbered(list[j]) && Numbered(list[k])
    requires LabelIdx(list, j) == LabelIdx(list, k)
    ensures j == k
  {
    if j < k {
      LabelIdxGrows(list, j, k);
    } else if k < j {
      LabelIdxGrows(list, k, j);
    }
  }

  // ---------------------------------------------------------------- targets

  function Min(a: int, b: int): int {
    if a < b then a else b
  }

  /** The range handed to `randint` is not empty. */
  predicate Room(idx: int, total: int) {
    idx + 1 <= Min(total - 1, idx + MAX_BRANCH_STEP)
  }

  /** A number a branch may be given. */
  predicate Choice(idx: int, total: int, n: int) {
    idx + 1 <= n <= Min(total - 1, idx + MAX_BRANCH_STEP)
  }

  ghost predicate AllRoom(list: seq<Instr>, total: int) {
    forall k :: 0 <= k < |list| && Open(list[k]) ==> Room(list[k].idx, total)
  }

  /** One of the first n instructions was given this target. */
  ghost predicate Targeted(before: seq<Instr>, after: seq<Instr>, n: nat, tag: Label) {
    exists j :: 0 <= j < n && j < |before| && j < |after| && Open(before[j]) && after[j].target == tag
  }

  /** What the pass does to one instruction, given which labels are targeted. */
  predicate ItemDone(b: Instr, a: Instr, total: int, targeted: bool) {
    && a == b.(target := a.target, branchAssigned := b.branchAssigned || Open(b),
               hasLabel := b.hasLabel && (b.isLocalNumericLabel ==> targeted))
    && (if Open(b) then a.target.Numeric? && Choice(b.idx, total, a.target.n) else a.target == b.target)
  }

  ghost predicate ItemsDone(before: seq<Instr>, after: seq<Instr>, total: int, count: nat)
    requires count <= |before| == |after|
  {
    forall k :: 0 <= k < count ==> ItemDone(before[k], after[k], total, Targeted(before, after, k, before[k].tag))
  }

  ghost predicate Processed(before: seq<Instr>, after: seq<Instr>, total: int) {
    |after| == |before| && ItemsDone(before, after, total, |before|)
  }

  /** The pass has reached instruction n, with these targets so far. */
  ghost predicate Reached(before: seq<Instr>, after: seq<Instr>, total: int, n: nat, targets: set<int>) {
    && |after| == |before| && n <= |before|
    && ItemsDone(before, after, total, n)
    && (forall k :: n <= k < |before| ==> after[k] == before[k])
    && (forall t: int :: t in targets <==> Targeted(before, after, n, Numeric(t)))
  }

  lemma SameTargeted(before: seq<Instr>, after: seq<Instr>, item: Instr, n: nat, k: nat, tag: Label)
    requires |after| == |before| && k <= n < |before|
    ensures Targeted(before, after[n := item], k, tag) == Targeted(before, after, k, tag)
  {
    if Targeted(before, after, k, tag) {
      var j :| 0 <= j < k && Open(before[j]) && after[j].target == tag;
      assert after[n := item][j].target == tag;
    }
  }

  /** One more instruction. */
  lemma ReachedStep(before: seq<Instr>, after: seq<Instr>, total: int, n: nat, targets: set<int>, item: Instr, more: set<int>)
    requires Reached(before, after, total, n, targets) && n < |before|
    requires ItemDone(before[n], item, total, Targeted(before, after, n, before[n].tag))
    requires more == if Open(before[n]) then targets + {item.target.n} else targets
    ensures Reached(before, after[n := item], total, n + 1, more)
  {
    var next := after[n := item];
    forall k | 0 <= k < n + 1
      ensures ItemDone(before[k], next[k], total, Targeted(before, next, k, before[k].tag))
    {
      SameTargeted(before, after, item, n, k, before[k].tag);
    }
    forall t: int ensures t in more <==> Targeted(before, next, n + 1, Numeric(t)) {
      SameTargeted(before, after, item, n, n, Numeric(t));
      if Open(before[n]) && item.target == Numeric(t) {
        assert next[n].target == Numeric(t);
      }
      if Targeted(before, next, n + 1, Numeric(t)) && !Targeted(before, next, n, Numeric(t)) {
        var j :| 0 <= j < n + 1 && Open(before[j]) && next[j].target == Numeric(t);
      }
    }
  }

  // ---------------------------------------------------------------- what the targets are like

  /** The list before the pass, numbered, and after the pass. */
  ghost predicate Passed(list: seq<Instr>, numbered: seq<Instr>, after: seq<Instr>) {
    && Numbering(list, numbered)
    && Processed(numbered, after, LabelIdx(list, |list|))
  }

  /** There is room for the target of a numbered branch exactly when a later instruction is
      numbered. */
  lemma RoomIff(list: seq<Instr>, k: nat)
    requires k < |list| && Numbered(list[k])
    ensures Room(LabelIdx(list, k), LabelIdx(list, |list|)) <==> NumberAfter(list, k)
  {
    var idx := LabelIdx(list, k);
    LabelIdxGrows(list, k, |list|);
    if idx + 1 < LabelIdx(list, |list|) {
      var j := NumberFound(list, idx + 1, |list|);
      if j <= k {
        LabelIdxGrows(list, j, k);
      }
    }
    if NumberAfter(list, k) {
      var j :| k < j < |list| && Numbered(list[j]);
      LabelIdxGrows(list, k, j);
      LabelIdxGrows(list, j, |list|);
    }
  }

  /** Post-processing succeeds exactly when every branch it has to assign, all of them being
      numbered, has a numbered instruction behind it. */
  lemma SucceedsIff(list: seq<Instr>, numbered: seq<Instr>)
    requires Numbering(list, numbered)
    requires forall k :: 0 <= k < |list| && Open(list[k]) ==> Numbered(list[k])
    ensures AllRoom(numbered, LabelIdx(list, |list|)) <==> OpenCovered(list)
  {
    var total := LabelIdx(list, |list|);
    forall k | 0 <= k < |list| && Open(list[k])
      ensures Room(numbered[k].idx, total) <==> NumberAfter(list, k)
    {
      RoomIff(list, k);
    }
    if OpenCovered(list) {
      forall k | 0 <= k < |list| && Open(numbered[k]) ensures Room(numbered[k].idx, total) {
        assert Open(list[k]);
      }
    }
    if AllRoom(numbered, total) {
      forall k | 0 <= k < |list| && Open(list[k]) ensures Numbered(list[k]) && NumberAfter(list, k) {
        assert Open(numbered[k]);
      }
    }
  }

  /** The target of a branch assigned by the pass: the one instruction that bears its number
      is strictly later, at most 20 numbers ahead, starts no atomic stream, and keeps its
      label. */
  lemma TargetExists(list: seq<Instr>, numbered: seq<Instr>, after: seq<Instr>, k: nat) returns (j: nat)
    requires Passed(list, numbered, after) && k < |list| && Open(list[k])
    ensures k < j < |list| && Bears(after[j], after[k].target) && !list[j].atomic
    ensures LabelIdx(list, k) < LabelIdx(list, j) <= LabelIdx(list, k) + MAX_BRANCH_STEP
    ensures after[k].target == Numeric(LabelIdx(list, j))
  {
    assert Open(numbered[k]) && ItemDone(numbered[k], after[k], LabelIdx(list, |list|), Targeted(numbered, after, k, numbered[k].tag));
    var n := after[k].target.n;
    j := NumberFound(list, n, |list|);
    if j <= k {
      LabelIdxGrows(list, j, k);
    }
    assert Targeted(numbered, after, j, Numeric(n));
    assert ItemDone(numbered[j], after[j], LabelIdx(list, |list|), Targeted(numbered, after, j, numbered[j].tag));
  }

  /** A number keeps its label exactly when some branch, wherever it is, goes there. */
  lemma LabelKeptIff(list: seq<Instr>, numbered: seq<Instr>, after: seq<Instr>, j: nat)
    requires Passed(list, numbered, after) && j < |list| && Numbered(list[j])
    ensures after[j].hasLabel <==> Targeted(numbered, after, |list|, Numeric(LabelIdx(list, j)))
  {
    var n := LabelIdx(list, j);
    assert ItemDone(numbered[j], after[j], LabelIdx(list, |list|), Targeted(numbered, after, j, Numeric(n)));
    if Targeted(numbered, after, |list|, Numeric(n)) {
      var k :| 0 <= k < |list| && Open(numbered[k]) && after[k].target == Numeric(n);
      var j' := TargetExists(list, numbered, after, k);
      NumberUnique(list, j, j');
    }
  }

  /** All labels are still distinct. */
  lemma StillDistinct(list: seq<Instr>, numbered: seq<Instr>, after: seq<Instr>)
    requires Passed(list, numbered, after) && DistinctLabels(list) && NoNumbers(list)
    ensures DistinctLabels(after)
  {
    forall j, k | 0 <= j < k < |after| && Bears(after[j], after[j].tag) && after[k].hasLabel ensures after[k].tag != after[j].tag {
      assert ItemDone(numbered[j], after[j], LabelIdx(list, |list|), Targeted(numbered, after, j, numbered[j].tag));
      assert ItemDone(numbered[k], after[k], LabelIdx(list, |list|), Targeted(numbered, after, k, numbered[k].tag));
      if Numbered(list[j]) && Numbered(list[k]) {
        LabelIdxGrows(list, j, k);
      } else if !Numbered(list[j]) && !Numbered(list[k]) {
        assert Bears(list[j], list[j].tag);
      }
    }
  }

  /** After the pass every branch, assigned by it or before, goes to a later instruction. */
  lemma AllForward(list: seq<Instr>, numbered: seq<Instr>, after: seq<Instr>)
    requires Passed(list, numbered, after) && Forward(list) && NoNumbers(list) && NamedAreAtomic(list)
    ensures Forward(after)
    ensures forall k :: 0 <= k < |after| && after[k].category == BRANCH ==> after[k].branchAssigned
  {
    var total := LabelIdx(list, |list|);
    forall k | 0 <= k < |after|
      ensures Assigned(after[k]) ==> LandsLater(after, k)
      ensures after[k].category == BRANCH ==> after[k].branchAssigned
    {
      assert ItemDone(numbered[k], after[k], total, Targeted(numbered, after, k, numbered[k].tag));
      if Open(list[k]) {
        var j := TargetExists(list, numbered, after, k);
      } else if Assigned(list[k]) {
        assert LandsLater(list, k);
        var j :| k < j < |list| && Bears(list[j], list[k].target);
        assert ItemDone(numbered[j], after[j], total, Targeted(numbered, after, j, numbered[j].tag));
      }
    }
  }
}
