/** What a verdict of the trace comparator means: which pairs of traces pass, what a pass
    says about the registers, and which entries cannot influence it. */
module TraceVerdict {
  import opened Wrappers
  import opened TraceCsv
  import opened HexValues
  import opened TraceCompare

  predicate Passes(trace1: seq<Entry>, trace2: seq<Entry>) {
    !MeetsFault(trace1, trace2) && MismatchCount(trace1, trace2) == 0
  }

  lemma {:induction false} ChangesInside(trace: seq<Entry>)
    ensures forall k :: 0 <= k < |ScanOf(trace).changes| ==> ScanOf(trace).changes[k].at < |trace|
  {
    if trace != [] {
      ChangesInside(trace[..|trace| - 1]);
    }
  }

  /** PASSED means: the two traces make the same register-changing updates, or trace 2 ends
      on a changing entry and its updates are a prefix of those of trace 1. */
  lemma PassesIff(trace1: seq<Entry>, trace2: seq<Entry>)
    ensures Passes(trace1, trace2) <==>
      && !MeetsFault(trace1, trace2)
      && (Updates(trace1) == Updates(trace2)
          || (EndsOnChange(trace2) && Updates(trace2) <= Updates(trace1)))
  {
    var c1, c2 := ScanOf(trace1).changes, ScanOf(trace2).changes;
    var rounds := Min(|c1|, |c2|);
    AllAgree(c1, c2, rounds);
    ChangesInside(trace2);
    var u1, u2 := Updates(trace1), Updates(trace2);
    if Agreements(c1, c2, rounds) == rounds {
      assert u1[..rounds] == u2[..rounds];
      assert u1[..|u1|] == u1 && u2[..|u2|] == u2;
    } else {
      var k :| 0 <= k < rounds && c1[k].gpr != c2[k].gpr;
      assert u1[k] != u2[k];
    }
  }

  // ---------------------------------------------------------------- registers

  /** The number a register holds; a register without an entry holds zero. */
  function Value(regs: RegMap, rd: string): Option<int> {
    if rd in regs then HexValue(regs[rd]) else Some(0)
  }

  predicate WellFormed(update: string) {
    var item := Split(update, ':');
    |item| == 2 && HexValue(item[1]).Some?
  }

  /** Nothing stands before an empty string in the list. */
  predicate NothingHidden(updates: seq<string>) {
    "" in updates ==> updates[0] == ""
  }

  predicate Honest(trace: seq<Entry>) {
    forall i :: 0 <= i < |trace| ==> NothingHidden(trace[i].gpr)
  }

  /** Every "no change" verdict on this list leaves every register value as it was. */
  ghost predicate SilentIsSafe(updates: seq<string>) {
    forall regs: RegMap, rd: string ::
      Update(updates, regs).Step? && !Update(updates, regs).changed
      ==> Value(Update(updates, regs).regs, rd) == Value(regs, rd)
  }

  lemma {:induction false} LeadingEmpty(updates: seq<string>, regs: RegMap)
    requires updates != [] && updates[0] == ""
    ensures Update(updates, regs) == Step(false, regs)
  {
    EmptyStringEnds(updates, 0, regs);
    assert updates[..0] == [];
  }

  lemma {:induction false} QuietListKeepsValues(updates: seq<string>, regs: RegMap, rd: string)
    requires "" !in updates && Update(updates, regs).Step? && !Update(updates, regs).changed
    ensures Value(Update(updates, regs).regs, rd) == Value(regs, rd)
  {
    if updates != [] {
      var n := |updates| - 1;
      assert updates[n] in updates;
      QuietListKeepsValues(updates[..n], regs, rd);
    }
  }

  function Register(update: string): string { Split(update, ':')[0] }

  lemma {:induction false} WellFormedListApplies(updates: seq<string>, regs: RegMap)
    requires "" !in updates && forall i :: 0 <= i < |updates| ==> WellFormed(updates[i])
    ensures Update(updates, regs).Step?
    ensures updates != [] ==>
      var last := updates[|updates| - 1];
      Register(last) in Update(updates, regs).regs && Update(updates, regs).regs[Register(last)] == Split(last, ':')[1]
  {
    if updates != [] {
      var n := |updates| - 1;
      assert updates[n] in updates;
      WellFormedListApplies(updates[..n], regs);
    }
  }

  /** The flag of `check_update_gpr` can be trusted exactly when no update stands in front
      of an empty string: such updates take effect and are reported as "no change". */
  lemma SilentIsSafeIff(updates: seq<string>)
    requires forall i :: 0 <= i < |updates| ==> updates[i] == "" || WellFormed(updates[i])
    ensures SilentIsSafe(updates) <==> NothingHidden(updates)
  {
    if "" !in updates {
      forall regs: RegMap, rd: string | Update(updates, regs).Step? && !Update(updates, regs).changed
        ensures Value(Update(updates, regs).regs, rd) == Value(regs, rd)
      {
        QuietListKeepsValues(updates, regs, rd);
      }
    } else if updates[0] == "" {
      forall regs: RegMap ensures Update(updates, regs) == Step(false, regs) {
        LeadingEmpty(updates, regs);
      }
    } else {
      var n := FirstEmpty(updates);
      var last := updates[n - 1];
      var other := if HexValue(Split(last, ':')[1]) == Some(0) then "1" else "0";
      var regs := map[Register(last) := other];
      OneDigit("0");
      OneDigit("1");
      WellFormedListApplies(updates[..n], regs);
      assert updates[..n][n - 1] == last;
      EmptyStringEnds(updates, n, regs);
      assert Value(Update(updates, regs).regs, Register(last)) != Value(regs, Register(last));
    }
  }

  lemma FirstEmpty(updates: seq<string>) returns (n: nat)
    requires "" in updates && updates[0] != ""
    ensures 0 < n < |updates| && updates[n] == "" && "" !in updates[..n]
  {
    n := 1;
    while updates[n] != ""
      invariant 0 < n < |updates| && "" !in updates[..n]
      invariant "" in updates[n..]
      decreases |updates| - n
    {
      n := n + 1;
    }
  }

  /** The update list written into the map without looking at it. */
  function Assign(updates: seq<string>, regs: RegMap): RegMap {
    if updates == [] then regs
    else
      var n := |updates| - 1;
      var item := Split(updates[n], ':');
      Assign(updates[..n], regs)[item[0] := if |item| > 1 then item[1] else ""]
  }

  lemma {:induction false} UpdateAssigns(updates: seq<string>, regs: RegMap)
    requires "" !in updates && Update(updates, regs).Step?
    ensures Update(updates, regs).regs == Assign(updates, regs)
  {
    if updates != [] {
      assert updates[|updates| - 1] in updates;
      UpdateAssigns(updates[..|updates| - 1], regs);
    }
  }

  lemma {:induction false} AssignRespectsValues(updates: seq<string>, a: RegMap, b: RegMap, rd: string)
    requires Value(a, rd) == Value(b, rd)
    ensures Value(Assign(updates, a), rd) == Value(Assign(updates, b), rd)
  {
    if updates != [] {
      AssignRespectsValues(updates[..|updates| - 1], a, b, rd);
    }
  }

  /** The register map reached by the changing updates alone. */
  function Replay(log: seq<seq<string>>): RegMap {
    if log == [] then map[] else Assign(log[|log| - 1], Replay(log[..|log| - 1]))
  }

  lemma {:induction false} ChangingListHasNoEmpty(updates: seq<string>, regs: RegMap)
    requires Update(updates, regs).Step? && Update(updates, regs).changed
    ensures "" !in updates
  {
    if "" in updates {
      if updates[0] == "" {
        LeadingEmpty(updates, regs);
      } else {
        var n := FirstEmpty(updates);
        if Update(updates[..n], regs).Fault? {
          FaultStays(updates, n, regs);
        } else {
          EmptyStringEnds(updates, n, regs);
        }
      }
    }
  }

  /** In an honest trace the values of the running map are those of the changing updates. */
  lemma {:induction false} ValuesFollowUpdates(trace: seq<Entry>, rd: string)
    requires Reads(trace) && Honest(trace)
    ensures Value(ScanOf(trace).regs, rd) == Value(Replay(Updates(trace)), rd)
  {
    if trace != [] {
      var n := |trace| - 1;
      ValuesFollowUpdates(trace[..n], rd);
      var gpr, before := trace[n].gpr, ScanOf(trace[..n]).regs;
      if Update(gpr, before).changed {
        ChangingListHasNoEmpty(gpr, before);
        UpdateAssigns(gpr, before);
        AssignRespectsValues(gpr, before, Replay(Updates(trace[..n])), rd);
        assert Updates(trace) == Updates(trace[..n]) + [gpr];
      } else {
        if "" in gpr {
          LeadingEmpty(gpr, before);
        } else {
          QuietListKeepsValues(gpr, before, rd);
        }
        assert Updates(trace) == Updates(trace[..n]);
      }
    }
  }

  /** Two honest trace prefixes with the same changing updates leave every register with
      the same value. */
  lemma SameUpdatesSameRegisters(prefix1: seq<Entry>, prefix2: seq<Entry>, rd: string)
    requires Reads(prefix1) && Reads(prefix2) && Honest(prefix1) && Honest(prefix2)
    requires Updates(prefix1) == Updates(prefix2)
    ensures Value(ScanOf(prefix1).regs, rd) == Value(ScanOf(prefix2).regs, rd)
  {
    ValuesFollowUpdates(prefix1, rd);
    ValuesFollowUpdates(prefix2, rd);
  }

  /** While no mismatch has been counted, the two running maps denote the same register
      file after each matched pair: cursors that have both met k changes agree. */
  lemma CursorsAgree(trace1: seq<Entry>, trace2: seq<Entry>, index1: nat, index2: nat, k: nat,
                     regs1: RegMap, regs2: RegMap, rd: string)
    requires At(trace1, index1, k, regs1) && At(trace2, index2, k, regs2)
    requires Agreements(ScanOf(trace1).changes, ScanOf(trace2).changes, k) == k
    requires Honest(trace1) && Honest(trace2)
    ensures Value(regs1, rd) == Value(regs2, rd)
  {
    AllAgree(ScanOf(trace1).changes, ScanOf(trace2).changes, k);
    assert Updates(trace1[..index1]) == Updates(trace2[..index2]);
    SameUpdatesSameRegisters(trace1[..index1], trace2[..index2], rd);
  }

  /** A PASSED verdict means equal registers where the comparison stopped: after `stop1`
      entries of trace 1 and all of trace 2. */
  lemma PassMeansEqualRegisters(trace1: seq<Entry>, trace2: seq<Entry>, stop1: nat, regs1: RegMap, rd: string)
    requires Passes(trace1, trace2) && Reads(trace2)
    requires At(trace1, stop1, |ScanOf(trace2).changes|, regs1)
    requires Honest(trace1) && Honest(trace2)
    ensures Value(regs1, rd) == Value(ScanOf(trace2).regs, rd)
  {
    var k := |ScanOf(trace2).changes|;
    ChangesInside(trace2);
    assert trace2[..|trace2|] == trace2;
    assert ScanOf(trace2).changes[..k] == ScanOf(trace2).changes;
    CursorsAgree(trace1, trace2, stop1, |trace2|, k, regs1, ScanOf(trace2).regs, rd);
  }

  function GprOnly(gpr: seq<string>): Entry {
    Entry("", "", gpr, [""], "", "", "", "")
  }

  /** Without honesty a pass says nothing: a hidden write to a0 in trace 1 is not seen. */
  lemma HiddenUpdatePasses()
    ensures Passes([GprOnly(["a0:5", ""])], [GprOnly([""])])
    ensures Value(ScanOf([GprOnly(["a0:5", ""])]).regs, "a0") == Some(5)
    ensures Value(ScanOf([GprOnly([""])]).regs, "a0") == Some(0)
  {
    SplitOfPlain("a0", ':');
    SplitOfPlain("5", ':');
    SplitAtSeparator("a0", "5", ':');
    assert "a0" + [':'] + "5" == "a0:5";
    var u := ["a0:5", ""];
    assert u[..1] == ["a0:5"] && u[..1][..0] == [];
    OneDigit("5");
    assert Update(u[..1], map[]) == Step(true, map["a0" := "5"]);
    EmptyStringEnds(u, 1, map[]);
    LeadingEmpty([""], map[]);
    assert [GprOnly(u)][..0] == [] && [GprOnly([""])][..0] == [];
  }

  /** Every entry is honest or has this update list. */
  predicate Uses(trace: seq<Entry>, updates: seq<string>) {
    forall i :: 0 <= i < |trace| ==> NothingHidden(trace[i].gpr) || trace[i].gpr == updates
  }

  /** Two such traces pass, and where the comparison stopped, at the end of trace 1 or earlier
      if trace 2 ends on a change, a register differs. */
  ghost predicate UnequalPass(updates: seq<string>, trace1: seq<Entry>, trace2: seq<Entry>, stop1: nat, regs1: RegMap, rd: string) {
    && Uses(trace1, updates) && Uses(trace2, updates) && Passes(trace1, trace2) && Reads(trace2)
    && At(trace1, stop1, |ScanOf(trace2).changes|, regs1) && (stop1 == |trace1| || EndsOnChange(trace2))
    && Value(regs1, rd) != Value(ScanOf(trace2).regs, rd)
  }

  /** With this update list allowed, PASSED still means equal registers. */
  ghost predicate PassIsSafe(updates: seq<string>) {
    forall trace1, trace2, stop1, regs1, rd :: !UnequalPass(updates, trace1, trace2, stop1, regs1, rd)
  }

  lemma OneUpdate(rd: string, val: string, regs: RegMap)
    requires ':' !in rd && ':' !in val && HexValue(val).Some?
    ensures var u := [rd + [':'] + val];
      u[0] != "" && Update(u, regs) == Step(if rd in regs then val != regs[rd] else HexValue(val) != Some(0), regs[rd := val])
  {
    SplitOfPlain(val, ':');
    SplitAtSeparator(rd, val, ':');
    var u := [rd + [':'] + val];
    assert u[..0] == [];
  }

  lemma WellFormedParts(update: string)
    requires WellFormed(update)
    ensures ':' !in Register(update)
  {
    SplitIsSeparable(update, ':');
  }

  lemma {:induction false} TwoEntries(a: Entry, b: Entry, regs: RegMap, regs': RegMap)
    requires Update(a.gpr, map[]) == Step(true, regs) && Update(b.gpr, regs) == Step(false, regs')
    ensures ScanOf([a, b]) == Running([Change(0, a.gpr)], regs')
  {
    assert [a, b][..1] == [a] && [a][..0] == [];
    assert ScanOf([a]) == Running([Change(0, a.gpr)], regs);
  }

  /** The last hidden update, and a value of its register that it changes. */
  lemma HiddenUpdate(updates: seq<string>) returns (rd: string, other: string, regs1: RegMap)
    requires forall i :: 0 <= i < |updates| ==> updates[i] == "" || WellFormed(updates[i])
    requires !NothingHidden(updates)
    ensures ':' !in rd && other in {"1", "2"}
    ensures Update(updates, map[rd := other]) == Step(false, regs1)
    ensures Value(regs1, rd) != HexValue(other)
  {
    var n := FirstEmpty(updates);
    var last := updates[n - 1];
    assert last in updates[..n];
    rd := Register(last);
    other := if HexValue(Split(last, ':')[1]) == Some(1) then "2" else "1";
    OneDigit("1");
    OneDigit("2");
    WellFormedParts(last);
    var regs := map[rd := other];
    WellFormedListApplies(updates[..n], regs);
    assert updates[..n][n - 1] == last;
    EmptyStringEnds(updates, n, regs);
    regs1 := Update(updates, regs).regs;
  }

  /** Every list that hides an update makes two traces pass that leave a register different. */
  lemma HiddenPasses(updates: seq<string>) returns (trace1: seq<Entry>, trace2: seq<Entry>, regs1: RegMap, rd: string)
    requires forall i :: 0 <= i < |updates| ==> updates[i] == "" || WellFormed(updates[i])
    requires !NothingHidden(updates)
    ensures UnequalPass(updates, trace1, trace2, |trace1|, regs1, rd)
  {
    var other;
    rd, other, regs1 := HiddenUpdate(updates);
    OneDigit("1");
    OneDigit("2");
    var set', none: RegMap := [rd + [':'] + other], map[];
    OneUpdate(rd, other, none);
    assert none[rd := other] == map[rd := other];
    LeadingEmpty([""], map[rd := other]);
    trace1, trace2 := [GprOnly(set'), GprOnly(updates)], [GprOnly(set'), GprOnly([""])];
    SamePass(trace1, trace2, map[rd := other], regs1);
  }

  lemma SamePass(trace1: seq<Entry>, trace2: seq<Entry>, regs: RegMap, regs1: RegMap)
    requires |trace1| == |trace2| == 2 && trace1[0] == trace2[0] && Update(trace1[0].gpr, map[]) == Step(true, regs)
    requires Update(trace1[1].gpr, regs) == Step(false, regs1) && Update(trace2[1].gpr, regs) == Step(false, regs)
    ensures Passes(trace1, trace2) && Reads(trace2) && ScanOf(trace2).regs == regs
    ensures At(trace1, 2, |ScanOf(trace2).changes|, regs1)
  {
    TwoEntries(trace1[0], trace1[1], regs, regs1);
    TwoEntries(trace2[0], trace2[1], regs, regs);
    assert trace1 == [trace1[0], trace1[1]] && trace2 == [trace2[0], trace2[1]] && trace1[..2] == trace1;
    PassesIff(trace1, trace2);
  }

  /** So a pass can be trusted in the presence of an update list exactly when nothing in it
      stands in front of an empty string. */
  lemma PassIsSafeIff(updates: seq<string>)
    requires forall i :: 0 <= i < |updates| ==> updates[i] == "" || WellFormed(updates[i])
    ensures PassIsSafe(updates) <==> NothingHidden(updates)
  {
    if NothingHidden(updates) {
      forall trace1, trace2, stop1, regs1, rd ensures !UnequalPass(updates, trace1, trace2, stop1, regs1, rd) {
        if UnequalPass(updates, trace1, trace2, stop1, regs1, rd) {
          PassMeansEqualRegisters(trace1, trace2, stop1, regs1, rd);
        }
      }
    } else {
      var trace1, trace2, regs1, rd := HiddenPasses(updates);
    }
  }

  // ---------------------------------------------------------------- entries without effect

  /** Every value that is zero is written as the one string `zero`. */
  predicate CanonicalUpdate(update: string, zero: string) {
    update == "" || (WellFormed(update) && (HexValue(Split(update, ':')[1]) == Some(0) ==> Split(update, ':')[1] == zero))
  }

  predicate CanonicalList(updates: seq<string>, zero: string) {
    forall i :: 0 <= i < |updates| ==> CanonicalUpdate(updates[i], zero)
  }

  predicate Canonical(trace: seq<Entry>, zero: string) {
    HexValue(zero) == Some(0) && forall i :: 0 <= i < |trace| ==> CanonicalList(trace[i].gpr, zero)
  }

  function Filter(trace: seq<Entry>, keep: seq<bool>): seq<Entry>
    requires |keep| == |trace|
  {
    if trace == [] then []
    else
      var n := |trace| - 1;
      if keep[n] then Filter(trace[..n], keep[..n]) + [trace[n]] else Filter(trace[..n], keep[..n])
  }

  /** Entry i of the trace changes no register, and hides nothing. */
  predicate QuietAt(trace: seq<Entry>, i: nat)
    requires i < |trace|
  {
    && NothingHidden(trace[i].gpr)
    && ScanOf(trace[..i]).Running?
    && Update(trace[i].gpr, ScanOf(trace[..i]).regs).Step?
    && !Update(trace[i].gpr, ScanOf(trace[..i]).regs).changed
  }

  predicate DropsQuiet(trace: seq<Entry>, keep: seq<bool>) {
    |keep| == |trace| && forall i :: 0 <= i < |trace| && !keep[i] ==> QuietAt(trace, i)
  }

  lemma PrefixDropsQuiet(trace: seq<Entry>, keep: seq<bool>, zero: string)
    requires Canonical(trace, zero) && DropsQuiet(trace, keep) && trace != []
    ensures Canonical(trace[..|trace| - 1], zero) && DropsQuiet(trace[..|trace| - 1], keep[..|trace| - 1])
  {
    var n := |trace| - 1;
    forall i | 0 <= i < n && !keep[i] ensures QuietAt(trace[..n], i) {
      assert trace[..n][..i] == trace[..i];
      assert QuietAt(trace, i);
    }
  }

  /** The two maps differ only in registers that one knows as `zero` and the other not at all. */
  ghost predicate SameButZeros(full: RegMap, reduced: RegMap, zero: string) {
    && (forall rd :: rd in reduced ==> rd in full && full[rd] == reduced[rd])
    && (forall rd :: rd in full && rd !in reduced ==> full[rd] == zero)
  }

  lemma {:induction false} UpdateBoth(updates: seq<string>, full: RegMap, reduced: RegMap, zero: string)
    requires CanonicalList(updates, zero) && HexValue(zero) == Some(0)
    requires SameButZeros(full, reduced, zero)
    ensures var a, b := Update(updates, full), Update(updates, reduced);
      a.Step? && b.Step? && a.changed == b.changed && SameButZeros(a.regs, b.regs, zero)
  {
    if updates != [] {
      UpdateBoth(updates[..|updates| - 1], full, reduced, zero);
    }
  }

  lemma {:induction false} DropKeeps(updates: seq<string>, full: RegMap, reduced: RegMap, zero: string)
    requires CanonicalList(updates, zero) && "" !in updates
    requires SameButZeros(full, reduced, zero)
    requires Update(updates, full).Step? && !Update(updates, full).changed
    ensures SameButZeros(Update(updates, full).regs, reduced, zero)
  {
    if updates != [] {
      assert updates[|updates| - 1] in updates;
      DropKeeps(updates[..|updates| - 1], full, reduced, zero);
    }
  }

  /** The two traces read so far make the same changing updates and agree up to zeros. */
  ghost predicate Follows(full: seq<Entry>, short: seq<Entry>, zero: string) {
    && Reads(full) && Reads(short)
    && Updates(full) == Updates(short)
    && SameButZeros(ScanOf(full).regs, ScanOf(short).regs, zero)
  }

  lemma UpdatesStep(trace: seq<Entry>, e: Entry)
    requires Reads(trace) && Update(e.gpr, ScanOf(trace).regs).Step?
    ensures var changed := Update(e.gpr, ScanOf(trace).regs).changed;
      && Reads(trace + [e])
      && ScanOf(trace + [e]).regs == Update(e.gpr, ScanOf(trace).regs).regs
      && EndsOnChange(trace + [e]) == changed
      && Updates(trace + [e]) == Updates(trace) + if changed then [e.gpr] else []
  {
    assert (trace + [e])[..|trace|] == trace;
    ChangesInside(trace);
  }

  lemma KeepStep(full: seq<Entry>, short: seq<Entry>, e: Entry, zero: string)
    requires Follows(full, short, zero) && CanonicalList(e.gpr, zero) && HexValue(zero) == Some(0)
    ensures Follows(full + [e], short + [e], zero)
    ensures EndsOnChange(full + [e]) == EndsOnChange(short + [e])
  {
    UpdateBoth(e.gpr, ScanOf(full).regs, ScanOf(short).regs, zero);
    UpdatesStep(full, e);
    UpdatesStep(short, e);
  }

  lemma DropStep(full: seq<Entry>, short: seq<Entry>, e: Entry, zero: string)
    requires Follows(full, short, zero) && CanonicalList(e.gpr, zero) && NothingHidden(e.gpr)
    requires Update(e.gpr, ScanOf(full).regs).Step? && !Update(e.gpr, ScanOf(full).regs).changed
    ensures Follows(full + [e], short, zero)
  {
    UpdatesStep(full, e);
    if "" in e.gpr {
      LeadingEmpty(e.gpr, ScanOf(full).regs);
    } else {
      DropKeeps(e.gpr, ScanOf(full).regs, ScanOf(short).regs, zero);
    }
  }

  lemma {:induction false} FilterFollows(trace: seq<Entry>, keep: seq<bool>, zero: string)
    requires Canonical(trace, zero) && DropsQuiet(trace, keep)
    ensures Follows(trace, Filter(trace, keep), zero)
  {
    if trace != [] {
      var n := |trace| - 1;
      PrefixDropsQuiet(trace, keep, zero);
      FilterFollows(trace[..n], keep[..n], zero);
      FilterStep(trace, keep, zero);
    }
  }

  lemma FilterStep(trace: seq<Entry>, keep: seq<bool>, zero: string)
    requires |keep| == |trace| > 0
    requires CanonicalList(trace[|trace| - 1].gpr, zero) && HexValue(zero) == Some(0)
    requires keep[|trace| - 1] || QuietAt(trace, |trace| - 1)
    requires Follows(trace[..|trace| - 1], Filter(trace[..|trace| - 1], keep[..|trace| - 1]), zero)
    ensures Follows(trace, Filter(trace, keep), zero)
    ensures keep[|trace| - 1] ==> EndsOnChange(Filter(trace, keep)) == EndsOnChange(trace)
  {
    var n := |trace| - 1;
    var pre, last, short := trace[..n], trace[n], Filter(trace[..n], keep[..n]);
    assert trace == pre + [last];
    if keep[n] {
      KeepStep(pre, short, last, zero);
    } else {
      DropStep(pre, short, last, zero);
    }
  }

  lemma FilterKeepsEnding(trace: seq<Entry>, keep: seq<bool>, zero: string)
    requires Canonical(trace, zero) && DropsQuiet(trace, keep)
    requires trace != [] ==> keep[|trace| - 1]
    ensures EndsOnChange(Filter(trace, keep)) == EndsOnChange(trace)
  {
    if trace != [] {
      PrefixDropsQuiet(trace, keep, zero);
      FilterFollows(trace[..|trace| - 1], keep[..|trace| - 1], zero);
      FilterStep(trace, keep, zero);
    }
  }

  /** For canonical traces, dropping entries that change nothing, anywhere in trace 1 and
      anywhere but at the end of trace 2, does not change the verdict. Read backwards: nor
      does adding such entries. */
  lemma QuietEntriesDoNotMatter(trace1: seq<Entry>, keep1: seq<bool>, trace2: seq<Entry>, keep2: seq<bool>,
                                zero: string)
    requires Canonical(trace1, zero) && DropsQuiet(trace1, keep1)
    requires Canonical(trace2, zero) && DropsQuiet(trace2, keep2)
    requires trace2 != [] ==> keep2[|trace2| - 1]
    ensures Passes(Filter(trace1, keep1), Filter(trace2, keep2)) <==> Passes(trace1, trace2)
  {
    FilterFollows(trace1, keep1, zero);
    FilterFollows(trace2, keep2, zero);
    FilterKeepsEnding(trace2, keep2, zero);
    PassesIff(trace1, trace2);
    PassesIff(Filter(trace1, keep1), Filter(trace2, keep2));
  }
}
