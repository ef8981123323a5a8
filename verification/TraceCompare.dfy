/** The in-order trace comparator (instr_trace_compare.py). `CompareTraceCsv` is the
    two-cursor loop; the rest says what its verdict means. */
module TraceCompare {
  import opened Wrappers
  import opened TraceCsv
  import opened HexValues

  type RegMap = map<string, string>

  // ---------------------------------------------------------------- register updates

  datatype Outcome = Step(changed: bool, regs: RegMap) | Fault

  /** One "rd:val" string. A wrong number of ':' ends the program (sys.exit); so does a
      non-hexadecimal value for a register that has no entry yet (ValueError). */
  function ApplyUpdate(update: string, regs: RegMap): Outcome {
    var item := Split(update, ':');
    if |item| != 2 then Fault
    else if item[0] in regs then Step(item[1] != regs[item[0]], regs[item[0] := item[1]])
    else
      match HexValue(item[1])
      case None => Fault
      case Some(v) => Step(v != 0, regs[item[0] := item[1]])
  }

  /** The effect of a whole update list, the last update first. An empty string ends the
      list at once and reports "no change". */
  function Update(updates: seq<string>, regs: RegMap): Outcome {
    if updates == [] then Step(false, regs)
    else
      var n := |updates| - 1;
      var before := Update(updates[..n], regs);
      if before.Fault? || "" in updates[..n] then before
      else if updates[n] == "" then Step(false, before.regs)
      else
        match ApplyUpdate(updates[n], before.regs)
        case Fault => Fault
        case Step(c, r) => Step(before.changed || c, r)
  }

  class GprState {
    var vals: RegMap

    constructor ()
      ensures vals == map[]
    {
      vals := map[];
    }

    /** `check_update_gpr`: updates the running register map, and says whether the
        architectural state changed. `ok` is false where the program would end. */
    method CheckUpdateGpr(updates: seq<string>) returns (ok: bool, changed: bool)
      modifies this
      ensures !ok <==> Update(updates, old(vals)).Fault?
      ensures ok ==> Update(updates, old(vals)) == Step(changed, vals)
    {
      changed := false;
      for n := 0 to |updates|
        invariant "" !in updates[..n]
        invariant Update(updates[..n], old(vals)) == Step(changed, vals)
      {
        assert updates[..n + 1][..n] == updates[..n];
        var item := Split(updates[n], ':');
        if updates[n] == "" {
          EmptyStringEnds(updates, n, old(vals));
          return true, false;
        }
        if |item| != 2 {
          FaultStays(updates, n + 1, old(vals));
          return false, false;
        }
        if item[0] in vals {
          if item[1] != vals[item[0]] {
            changed := true;
          }
        } else if HexValue(item[1]) == None {
          FaultStays(updates, n + 1, old(vals));
          return false, false;
        } else if HexValue(item[1]).value != 0 {
          changed := true;
        }
        vals := vals[item[0] := item[1]];
      }
      assert updates[..|updates|] == updates;
      return true, changed;
    }
  }

  lemma {:induction false} FaultStays(updates: seq<string>, n: nat, regs: RegMap)
    requires n <= |updates| && Update(updates[..n], regs).Fault?
    ensures Update(updates, regs).Fault?
  {
    if n < |updates| {
      var m := |updates| - 1;
      assert updates[..m][..n] == updates[..n];
      FaultStays(updates[..m], n, regs);
    } else {
      assert updates[..n] == updates;
    }
  }

  lemma {:induction false} EmptyStringEnds(updates: seq<string>, n: nat, regs: RegMap)
    requires n < |updates| && updates[n] == "" && "" !in updates[..n]
    requires !Update(updates[..n], regs).Fault?
    ensures Update(updates, regs) == Step(false, Update(updates[..n], regs).regs)
  {
    var m := |updates| - 1;
    if n < m {
      assert updates[..m][..n] == updates[..n];
      EmptyStringEnds(updates[..m], n, regs);
      assert updates[..m][n] == "";
    }
  }

  // ---------------------------------------------------------------- one trace alone

  /** A register-changing entry: its position in the trace and its update list. */
  datatype Change = Change(at: nat, gpr: seq<string>)

  /** What reading a prefix of a trace leads to: the running register map and the
      changing entries met, or an aborted program. */
  datatype Scan = Running(changes: seq<Change>, regs: RegMap) | Aborted(changes: seq<Change>)

  function ScanOf(trace: seq<Entry>): Scan {
    if trace == [] then Running([], map[])
    else
      var n := |trace| - 1;
      match ScanOf(trace[..n])
      case Aborted(changes) => Aborted(changes)
      case Running(changes, regs) =>
        match Update(trace[n].gpr, regs)
        case Fault => Aborted(changes)
        case Step(changed, regs') =>
          Running(if changed then changes + [Change(n, trace[n].gpr)] else changes, regs')
  }

  /** The changing updates alone, without their positions. */
  function Updates(trace: seq<Entry>): seq<seq<string>> {
    var changes := ScanOf(trace).changes;
    seq(|changes|, k requires 0 <= k < |changes| => changes[k].gpr)
  }

  predicate Reads(trace: seq<Entry>) {
    ScanOf(trace).Running?
  }

  predicate EndsOnChange(trace: seq<Entry>) {
    var s := ScanOf(trace);
    s.Running? && s.changes != [] && s.changes[|s.changes| - 1].at == |trace| - 1
  }

  lemma {:induction false} ScanPrefix(trace: seq<Entry>, n: nat)
    requires n <= |trace|
    ensures ScanOf(trace[..n]).changes <= ScanOf(trace).changes
    ensures ScanOf(trace[..n]).Aborted? ==> ScanOf(trace) == ScanOf(trace[..n])
    decreases |trace|
  {
    if n == |trace| {
      assert trace[..n] == trace;
    } else {
      assert trace[..|trace| - 1][..n] == trace[..n];
      ScanPrefix(trace[..|trace| - 1], n);
    }
  }

  /** A cursor that has read `index` entries and met `k` changing ones. */
  ghost predicate At(trace: seq<Entry>, index: nat, k: nat, regs: RegMap) {
    && index <= |trace|
    && k <= |ScanOf(trace).changes|
    && ScanOf(trace[..index]) == Running(ScanOf(trace).changes[..k], regs)
  }

  lemma AtStep(trace: seq<Entry>, index: nat, k: nat, regs: RegMap)
    requires At(trace, index, k, regs) && index < |trace|
    ensures match Update(trace[index].gpr, regs)
            case Fault => ScanOf(trace).Aborted? && |ScanOf(trace).changes| == k
            case Step(false, r) => At(trace, index + 1, k, r)
            case Step(true, r) =>
              && At(trace, index + 1, k + 1, r)
              && ScanOf(trace).changes[k].at == index && ScanOf(trace).changes[k].gpr == trace[index].gpr
  {
    assert trace[..index + 1][..index] == trace[..index];
    ScanPrefix(trace, index + 1);
  }

  lemma AtEnd(trace: seq<Entry>, k: nat, regs: RegMap)
    requires At(trace, |trace|, k, regs)
    ensures ScanOf(trace) == Running(ScanOf(trace).changes, regs) && k == |ScanOf(trace).changes|
  {
    assert trace[..|trace|] == trace;
  }

  // ---------------------------------------------------------------- the comparator

  datatype Result = Verdict(matched: nat, mismatch: nat, stop1: nat) | Exit

  function Agreements(a: seq<Change>, b: seq<Change>, n: nat): (c: nat)
    requires n <= |a| && n <= |b|
    ensures c <= n
  {
    if n == 0 then 0
    else Agreements(a, b, n - 1) + if a[n - 1].gpr == b[n - 1].gpr then 1 else 0
  }

  lemma {:induction false} AllAgree(a: seq<Change>, b: seq<Change>, n: nat)
    requires n <= |a| && n <= |b|
    ensures Agreements(a, b, n) == n <==> forall k :: 0 <= k < n ==> a[k].gpr == b[k].gpr
  {
    if n > 0 {
      AllAgree(a, b, n - 1);
    }
  }

  function Min(a: nat, b: nat): nat { if a < b then a else b }

  /** Exactly when the run meets an entry that ends the program: an entry beyond the
      point where the other trace stopped the comparison is never looked at. */
  predicate MeetsFault(trace1: seq<Entry>, trace2: seq<Entry>) {
    var s1, s2 := ScanOf(trace1), ScanOf(trace2);
    if s2.Aborted? then s1.Aborted? || |s1.changes| >= |s2.changes|
    else s1.Aborted? && if EndsOnChange(trace2) then |s1.changes| < |s2.changes|
                        else |s1.changes| <= |s2.changes|
  }

  function MismatchCount(trace1: seq<Entry>, trace2: seq<Entry>): int {
    var c1, c2 := ScanOf(trace1).changes, ScanOf(trace2).changes;
    var rounds := Min(|c1|, |c2|);
    rounds - Agreements(c1, c2, rounds)
    + (if |c1| > |c2| && !EndsOnChange(trace2) then 1 else 0)
    + (if |c1| < |c2| then |trace2| - c2[|c1|].at else 0)
  }

  /** Two lists of register updates compared field by field, as lines 88-105 do. */
  method SameUpdates(gpr1: seq<string>, gpr2: seq<string>) returns (same: bool)
    ensures same <==> gpr1 == gpr2
  {
    if |gpr1| != |gpr2| {
      return false;
    }
    for i := 0 to |gpr1|
      invariant gpr1[..i] == gpr2[..i]
    {
      if gpr1[i] != gpr2[i] {
        return false;
      }
    }
    return true;
  }

  /** Moves a cursor just past its next register-changing entry: trace 2 on lines 75-80,
      trace 1 on lines 65-72. */
  method Advance(trace: seq<Entry>, start: nat, gprVal: GprState, ghost k: nat)
    returns (ok: bool, changed: bool, index: nat)
    requires At(trace, start, k, gprVal.vals)
    modifies gprVal
    ensures index <= |trace|
    ensures !ok ==> ScanOf(trace).Aborted? && |ScanOf(trace).changes| == k
    ensures ok && !changed ==> At(trace, index, k, gprVal.vals) && index == |trace|
    ensures ok && changed ==> At(trace, index, k + 1, gprVal.vals) && start < index
    ensures ok && changed ==>
              ScanOf(trace).changes[k].at == index - 1 && ScanOf(trace).changes[k].gpr == trace[index - 1].gpr
  {
    index := start;
    ok, changed := true, false;
    while !changed && index < |trace|
      invariant start <= index <= |trace|
      invariant At(trace, index, if changed then k + 1 else k, gprVal.vals)
      invariant changed ==> start < index
      invariant changed ==>
        ScanOf(trace).changes[k].at == index - 1 && ScanOf(trace).changes[k].gpr == trace[index - 1].gpr
      decreases |trace| - index
    {
      AtStep(trace, index, k, gprVal.vals);
      ok, changed := gprVal.CheckUpdateGpr(trace[index].gpr);
      if !ok {
        return;
      }
      index := index + 1;
    }
  }

  /** Trace 2 has been read to its end in the round that met the last of its k changes. */
  ghost predicate StoppedAt(trace2: seq<Entry>, k: nat, missing: bool) {
    Reads(trace2) && |ScanOf(trace2).changes| == k && EndsOnChange(trace2) != missing
  }

  /** One changing entry of trace 1 against the next one of trace 2 (lines 75-117). */
  method CompareEntry(gpr1: seq<string>, trace2: seq<Entry>, start: nat, gprVal2: GprState,
                      ghost c1: seq<Change>, ghost k: nat)
    returns (ok: bool, matched: bool, index: nat, ghost k': nat)
    requires At(trace2, start, k, gprVal2.vals)
    requires k < |c1| && c1[k].gpr == gpr1
    requires k > 0 ==> k <= |ScanOf(trace2).changes| && ScanOf(trace2).changes[k - 1].at < |trace2| - 1
    modifies gprVal2
    ensures k <= k' <= k + 1 && k' <= |ScanOf(trace2).changes| && index <= |trace2|
    ensures !ok ==> ScanOf(trace2).Aborted? && |ScanOf(trace2).changes| == k' == k
    ensures ok ==> Agreements(c1, ScanOf(trace2).changes, k')
                   == Agreements(c1, ScanOf(trace2).changes, k) + (if matched then 1 else 0)
    ensures ok && index == |trace2| ==> StoppedAt(trace2, k', k' == k)
    ensures ok && index < |trace2| ==>
      && k' == k + 1 && ScanOf(trace2).changes[k' - 1].at == index - 1
      && At(trace2, index, k', gprVal2.vals)
  {
    var changed2;
    ok, changed2, index := Advance(trace2, start, gprVal2, k);
    matched, k' := false, k;
    if ok {
      if changed2 {
        matched := SameUpdates(gpr1, trace2[index - 1].gpr);
        k' := k + 1;
      }
      if index == |trace2| {
        AtEnd(trace2, k', gprVal2.vals);
      }
    }
  }

  /** The check for changes left in trace 2 (lines 122-132). */
  method Leftover(trace2: seq<Entry>, start: nat, gprVal2: GprState, ghost k: nat)
    returns (ok: bool, count: nat)
    requires At(trace2, start, k, gprVal2.vals)
    modifies gprVal2
    ensures !ok ==> ScanOf(trace2).Aborted? && |ScanOf(trace2).changes| == k
    ensures ok && k == |ScanOf(trace2).changes| ==> count == 0 && Reads(trace2)
    ensures ok && k < |ScanOf(trace2).changes| ==> count == |trace2| - ScanOf(trace2).changes[k].at > 0
  {
    var changed2, index;
    ok, changed2, index := Advance(trace2, start, gprVal2, k);
    count := 0;
    if ok && changed2 {
      count := |trace2| - (index - 1);
    } else if ok {
      AtEnd(trace2, k, gprVal2.vals);
    }
  }

  /** The loop over trace 1 (lines 65-120). It stops early when trace 2 is used up. In the
      end k1 changes of trace 1 have met k changes of trace 2, with k1 == k, or k1 == k + 1
      when trace 2 had no change left. */
  method CompareLoop(trace1: seq<Entry>, trace2: seq<Entry>, gprVal1: GprState, gprVal2: GprState)
    returns (ok: bool, matched: nat, mismatch: nat, index1: nat, index2: nat, ghost k1: nat, ghost k: nat)
    requires gprVal1 != gprVal2 && gprVal1.vals == gprVal2.vals == map[]
    modifies gprVal1, gprVal2
    ensures k <= k1 <= |ScanOf(trace1).changes| && k <= |ScanOf(trace2).changes|
    ensures ok ==>
      && matched + mismatch == k1
      && matched == Agreements(ScanOf(trace1).changes, ScanOf(trace2).changes, k)
      && At(trace1, index1, k1, gprVal1.vals)
    ensures ok && index2 == |trace2| ==>
              StoppedAt(trace2, k, k1 == k + 1) || (k1 == k == 0 && index1 == |trace1| && trace2 == [])
    ensures ok && index2 != |trace2| ==> index1 == |trace1| && k1 == k && At(trace2, index2, k, gprVal2.vals)
    ensures ok ==> k1 <= k + 1
    ensures !ok && k1 == k ==>
      && ScanOf(trace1).Aborted? && |ScanOf(trace1).changes| == k
      && (k > 0 ==> ScanOf(trace2).changes[k - 1].at < |trace2| - 1)
    ensures !ok && k1 != k ==> ScanOf(trace2).Aborted? && |ScanOf(trace2).changes| == k
  {
    ok, matched, mismatch, index1, index2, k1, k := true, 0, 0, 0, 0, 0, 0;
    while index1 < |trace1|
      invariant At(trace1, index1, k, gprVal1.vals)
      invariant At(trace2, index2, k, gprVal2.vals)
      invariant k == 0 ==> index2 == 0
      invariant k > 0 ==> ScanOf(trace2).changes[k - 1].at == index2 - 1 && index2 < |trace2|
      invariant matched + mismatch == k == k1
      invariant matched == Agreements(ScanOf(trace1).changes, ScanOf(trace2).changes, k)
    {
      var changed1;
      ok, changed1, index1 := Advance(trace1, index1, gprVal1, k);
      if !ok || !changed1 {
        return;
      }
      k1 := k + 1;
      var same;
      ok, same, index2, k := CompareEntry(trace1[index1 - 1].gpr, trace2, index2, gprVal2, ScanOf(trace1).changes, k);
      if !ok {
        return;
      }
      if same {
        matched := matched + 1;
      } else {
        mismatch := mismatch + 1;
      }
      if index2 == |trace2| {
        break;
      }
    }
  }

  /** `compare_trace_csv` in order. The verdict carries both counters and the number of
      entries of trace 1 that were read; logging is left out. */
  method CompareTraceCsv(trace1: seq<Entry>, trace2: seq<Entry>) returns (result: Result)
    ensures result.Exit? <==> MeetsFault(trace1, trace2)
    ensures result.Verdict? ==>
      && result.mismatch == MismatchCount(trace1, trace2)
      && var c1, c2 := ScanOf(trace1).changes, ScanOf(trace2).changes;
         result.matched == Agreements(c1, c2, Min(|c1|, |c2|))
    ensures result.Verdict? && result.mismatch == 0 ==>
      && Reads(trace2)
      && (exists regs :: At(trace1, result.stop1, |ScanOf(trace2).changes|, regs))
      && (result.stop1 == |trace1| || EndsOnChange(trace2))
  {
    var gprVal1 := new GprState();
    var gprVal2 := new GprState();
    var ok, matched, mismatch, index1, index2, k1, k := CompareLoop(trace1, trace2, gprVal1, gprVal2);
    if !ok {
      return Exit;
    }
    if index1 == |trace1| {
      AtEnd(trace1, k1, gprVal1.vals);
    }
    if index2 != |trace2| {
      var ok', count := Leftover(trace2, index2, gprVal2, k);
      if !ok' {
        return Exit;
      }
      mismatch := mismatch + count;
    }
    return Verdict(matched, mismatch, index1);
  }
}
