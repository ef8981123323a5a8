/** From simulator log to verdict: the two forms of the trace CSV, full and reduced, and
    why the ecall at the end of a log makes them interchangeable. */
module TracePipeline {
  import opened Wrappers
  import opened TraceCsv
  import opened HexValues
  import opened TraceCompare
  import opened TraceVerdict
  import opened SimLog

  /** Written to the CSV: everything in a full trace, else what updates a register or is a
      wfi or ecall. */
  predicate Writes(e: Entry, full: bool) {
    full || e.gpr != [] || e.instrStr == "wfi" || e.instrStr == "ecall"
  }

  function Written(items: seq<Item>, full: bool): seq<Entry> {
    if items == [] then []
    else
      var n := |items| - 1;
      if Writes(items[n].entry, full) then Written(items[..n], full) + [items[n].entry]
      else Written(items[..n], full)
  }

  /** `process_spike_sim_log` and `process_verilator_sim_log`, after the reader. */
  method ProcessSimLog(items: seq<Item>, full: bool) returns (csv: seq<Row>, instrsOut: nat)
    ensures csv == WriteAll(Written(items, full)) && instrsOut == |csv|
  {
    csv, instrsOut := [], 0;
    for n := 0 to |items|
      invariant csv == WriteAll(Written(items[..n], full)) && instrsOut == |csv|
    {
      assert items[..n + 1][..n] == items[..n];
      if !(full || items[n].entry.gpr != [] || items[n].entry.instrStr in ["wfi", "ecall"]) {
        continue;
      }
      csv, instrsOut := csv + [WriteEntry(items[n].entry)], instrsOut + 1;
    }
    assert items[..|items|] == items;
  }

  /** What the comparator reads back from the CSV of a log. */
  function CsvTrace(items: seq<Item>, full: bool): seq<Entry> {
    ReadAll(WriteAll(Written(items, full)))
  }

  /** The items that go into the CSV. */
  ghost function WrittenItems(items: seq<Item>, full: bool): set<nat> {
    set k: nat | k < |items| && (full || items[k].entry.gpr != [] || items[k].entry.instrStr in ["wfi", "ecall"])
  }

  /** The row has the fields of the entry, and its gpr and csr columns the joined lists. */
  predicate RowOf(row: Row, e: Entry) {
    && row.pc == e.pc && row.instr == e.instr && row.binary == e.binary && row.mode == e.mode
    && row.instrStr == e.instrStr && row.operand == e.operand
    && row.gpr == Join(e.gpr, ';') && row.csr == Join(e.csr, ';')
  }

  /** Row j is made of the j-th item that goes into the CSV. */
  lemma {:induction false} WrittenAt(items: seq<Item>, full: bool) returns (at: seq<nat>)
    ensures Lists(at, WrittenItems(items, full)) && |at| == |Written(items, full)|
    ensures forall j :: 0 <= j < |at| ==>
              at[j] < |items| && RowOf(WriteAll(Written(items, full))[j], items[at[j]].entry)
    decreases |items|
  {
    at := [];
    if items != [] {
      var n := |items| - 1;
      at := WrittenAt(items[..n], full);
      assert WrittenItems(items, full)
             == WrittenItems(items[..n], full) + if Writes(items[n].entry, full) then {n} else {};
      if Writes(items[n].entry, full) {
        forall i | 0 <= i < |at| ensures at[i] < n {
          assert at[i] in at;
        }
        at := at + [n];
      }
    }
  }

  // ---------------------------------------------------------------- full and reduced traces

  ghost predicate SameEffect(a: seq<Entry>, b: seq<Entry>) {
    && Updates(a) == Updates(b)
    && Reads(a) == Reads(b)
    && (Reads(a) ==> ScanOf(a).regs == ScanOf(b).regs)
  }

  lemma SameStep(a: seq<Entry>, b: seq<Entry>, x: Entry, y: Entry)
    requires SameEffect(a, b) && x.gpr == y.gpr
    ensures SameEffect(a + [x], b + [y]) && EndsOnChange(a + [x]) == EndsOnChange(b + [y])
  {
    assert (a + [x])[..|a|] == a && (b + [y])[..|b|] == b;
    if Reads(a) && Update(x.gpr, ScanOf(a).regs).Step? {
      UpdatesStep(a, x);
      UpdatesStep(b, y);
    }
  }

  lemma BlankStep(a: seq<Entry>, b: seq<Entry>, x: Entry)
    requires SameEffect(a, b) && x.gpr == [""]
    ensures SameEffect(a + [x], b)
  {
    assert (a + [x])[..|a|] == a;
    if Reads(a) {
      LeadingEmpty(x.gpr, ScanOf(a).regs);
      UpdatesStep(a, x);
    }
  }

  /** The full and the reduced reading of one log, item by item. */
  ghost predicate TwinItems(full: seq<Item>, reduced: seq<Item>) {
    && |full| == |reduced|
    && forall i :: 0 <= i < |full| ==>
         && full[i].entry.gpr == reduced[i].entry.gpr
         && full[i].entry.instrStr == reduced[i].entry.instrStr
  }

  lemma CsvTraceStep(items: seq<Item>, full: bool)
    requires items != []
    ensures var n := |items| - 1;
      CsvTrace(items, full)
      == if Writes(items[n].entry, full) then CsvTrace(items[..n], full) + [ReadRow(WriteEntry(items[n].entry))]
         else CsvTrace(items[..n], full)
  {
  }

  lemma {:induction false} ReducedFollowsFull(full: seq<Item>, reduced: seq<Item>)
    requires TwinItems(full, reduced)
    ensures SameEffect(CsvTrace(full, true), CsvTrace(reduced, false))
    ensures full != [] && Writes(reduced[|full| - 1].entry, false) ==>
              EndsOnChange(CsvTrace(full, true)) == EndsOnChange(CsvTrace(reduced, false))
  {
    if full != [] {
      var n := |full| - 1;
      ReducedFollowsFull(full[..n], reduced[..n]);
      CsvTraceStep(full, true);
      CsvTraceStep(reduced, false);
      var a, b := CsvTrace(full[..n], true), CsvTrace(reduced[..n], false);
      var x, y := ReadRow(WriteEntry(full[n].entry)), ReadRow(WriteEntry(reduced[n].entry));
      if Writes(reduced[n].entry, false) {
        SameStep(a, b, x, y);
      } else {
        ColumnRoundTrip([], ';');
        BlankStep(a, b, x);
      }
    }
  }

  lemma {:induction false} TwinGroups(a: Entry, b: Entry, group: seq<Line>)
    requires a.gpr == b.gpr && a.instrStr == b.instrStr
    ensures WithCommits(a, group).gpr == WithCommits(b, group).gpr
    ensures WithCommits(a, group).instrStr == WithCommits(b, group).instrStr == a.instrStr
    decreases group
  {
    if group != [] && !group[0].trap {
      var c := group[0].commit;
      TwinGroups(if c.Some? then AddCommit(a, c.value) else a, if c.Some? then AddCommit(b, c.value) else b, group[1..]);
    }
  }

  lemma {:induction false} TwinReadings(lines: seq<Line>)
    ensures TwinItems(Items(lines, true), Items(lines, false))
  {
    if lines != [] {
      TwinReadings(lines[1..]);
      if lines[0].core.Some? {
        var c := lines[0].core.value;
        TwinGroups(ReadInstr(c, true), ReadInstr(c, false), Tail(lines[1..]));
      }
    }
  }

  /** The log reaches an ecall after its trampoline. */
  predicate ReachesEcall(lines: seq<Line>) {
    exists i :: 0 <= i < |lines| && lines[i].core.Some? && IsEcall(lines[i].core.value)
  }

  predicate EndsInEcall(items: seq<Item>) {
    items != [] && items[|items| - 1].entry.instrStr == "ecall"
  }

  lemma EcallAlone(line: Line, full: bool)
    requires line.core.Some? && IsEcall(line.core.value)
    ensures EndsInEcall(Items([line], full))
  {
    var e := ReadInstr(line.core.value, full);
    assert [line][1..] == [] && Items([], full) == [];
    assert Items([line], full) == [GroupItem(e, [])];
    assert WithCommits(e, []) == e;
  }

  lemma EcallLater(line: Line, lines: seq<Line>, full: bool)
    requires EndsInEcall(Items(lines, full))
    ensures EndsInEcall(Items([line] + lines, full))
  {
    assert ([line] + lines)[1..] == lines;
  }

  lemma {:induction false} LastItemIsEcall(lines: seq<Line>, full: bool)
    requires ReachesEcall(lines)
    ensures EndsInEcall(Items(UpToEcall(lines), full))
  {
    if lines[0].core.Some? && IsEcall(lines[0].core.value) {
      EcallAlone(lines[0], full);
    } else {
      var i :| 0 <= i < |lines| && lines[i].core.Some? && IsEcall(lines[i].core.value);
      assert lines[1..][i - 1] == lines[i];
      LastItemIsEcall(lines[1..], full);
      EcallLater(lines[0], UpToEcall(lines[1..]), full);
    }
  }

  /** Full and reduced traces of two logs give the same verdict, whatever the logs hold,
      when the second log ends in an ecall. The lines are those after the trampoline and
      outside debug windows, so this covers both readers in either place. */
  lemma FullAndReducedAgree(lines1: seq<Line>, lines2: seq<Line>)
    requires ReachesEcall(lines2)
    ensures var full1, full2 := Items(UpToEcall(lines1), true), Items(UpToEcall(lines2), true);
      var reduced1, reduced2 := Items(UpToEcall(lines1), false), Items(UpToEcall(lines2), false);
      Passes(CsvTrace(full1, true), CsvTrace(full2, true))
      <==> Passes(CsvTrace(reduced1, false), CsvTrace(reduced2, false))
  {
    var full1, full2 := Items(UpToEcall(lines1), true), Items(UpToEcall(lines2), true);
    var reduced1, reduced2 := Items(UpToEcall(lines1), false), Items(UpToEcall(lines2), false);
    TwinReadings(UpToEcall(lines1));
    TwinReadings(UpToEcall(lines2));
    LastItemIsEcall(lines2, false);
    ReducedFollowsFull(full1, reduced1);
    ReducedFollowsFull(full2, reduced2);
    SameVerdict(CsvTrace(full1, true), CsvTrace(reduced1, false), CsvTrace(full2, true), CsvTrace(reduced2, false));
  }

  lemma SameVerdict(a1: seq<Entry>, b1: seq<Entry>, a2: seq<Entry>, b2: seq<Entry>)
    requires SameEffect(a1, b1) && SameEffect(a2, b2) && EndsOnChange(a2) == EndsOnChange(b2)
    ensures Passes(a1, a2) <==> Passes(b1, b2)
  {
    PassesIff(a1, a2);
    PassesIff(b1, b2);
    assert |ScanOf(a1).changes| == |Updates(a1)| && |ScanOf(b1).changes| == |Updates(b1)|;
    assert |ScanOf(a2).changes| == |Updates(a2)| && |ScanOf(b2).changes| == |Updates(b2)|;
  }

  /** Without the ecall they can differ: a log whose last instruction writes no register
      fails in full against a longer one, and passes when reduced. */
  lemma EcallIsNeeded(first: Entry, second: Entry, quiet: Entry)
    requires first.gpr == ["a0:1"] && second.gpr == ["a0:2"] && quiet.gpr == []
    requires quiet.instrStr != "wfi" && quiet.instrStr != "ecall"
    ensures var long, short := [Item(first, false), Item(second, false)], [Item(first, false), Item(quiet, false)];
      && Passes(CsvTrace(long, false), CsvTrace(short, false))
      && !Passes(CsvTrace(long, true), CsvTrace(short, true))
  {
    var long, short := [Item(first, false), Item(second, false)], [Item(first, false), Item(quiet, false)];
    forall full: bool
      ensures Updates(CsvTrace(long, full)) == [["a0:1"], ["a0:2"]] && Reads(CsvTrace(long, full))
      ensures Updates(CsvTrace(short, full)) == [["a0:1"]] && Reads(CsvTrace(short, full))
      ensures EndsOnChange(CsvTrace(short, full)) == !full
    {
      AfterFirst(first, full);
      AfterSecond(first, second, full);
      AfterQuiet(first, quiet, full);
    }
    PassesIff(CsvTrace(long, true), CsvTrace(short, true));
    PassesIff(CsvTrace(long, false), CsvTrace(short, false));
  }

  ghost predicate FormsAgree(lines1: seq<Line>, lines2: seq<Line>) {
    Passes(FullTrace(lines1), FullTrace(lines2)) <==> Passes(ReducedTrace(lines1), ReducedTrace(lines2))
  }

  function FullTrace(lines: seq<Line>): seq<Entry> {
    CsvTrace(Items(UpToEcall(lines), true), true)
  }

  function ReducedTrace(lines: seq<Line>): seq<Entry> {
    CsvTrace(Items(UpToEcall(lines), false), false)
  }

  /** The last item of the log, if any, is in the reduced trace. */
  predicate LastIsWritten(lines: seq<Line>) {
    var items := Items(UpToEcall(lines), false);
    items != [] ==> Writes(items[|items| - 1].entry, false)
  }

  lemma BlankEnd(trace: seq<Entry>, x: Entry)
    requires x.gpr == [""]
    ensures !EndsOnChange(trace + [x])
  {
    assert (trace + [x])[..|trace|] == trace;
    if Reads(trace) {
      LeadingEmpty(x.gpr, ScanOf(trace).regs);
      UpdatesStep(trace, x);
    }
  }

  /** A full trace whose last item the reduced one leaves out does not end on a change. */
  lemma UnwrittenEnd(items: seq<Item>)
    requires items != [] && !Writes(items[|items| - 1].entry, false)
    ensures !EndsOnChange(CsvTrace(items, true))
  {
    var n := |items| - 1;
    CsvTraceStep(items, true);
    ColumnRoundTrip([], ';');
    BlankEnd(CsvTrace(items[..n], true), ReadRow(WriteEntry(items[n].entry)));
  }

  /** Both forms end alike. */
  lemma EndsAlikeIff(lines: seq<Line>)
    ensures SameEffect(FullTrace(lines), ReducedTrace(lines))
    ensures EndsOnChange(FullTrace(lines)) == EndsOnChange(ReducedTrace(lines))
       <==> LastIsWritten(lines) || !EndsOnChange(ReducedTrace(lines))
  {
    var full, reduced := Items(UpToEcall(lines), true), Items(UpToEcall(lines), false);
    TwinReadings(UpToEcall(lines));
    ReducedFollowsFull(full, reduced);
    if !LastIsWritten(lines) {
      UnwrittenEnd(full);
    }
  }

  lemma {:induction false} NoEcallNoCut(lines: seq<Line>)
    requires !ReachesEcall(lines)
    ensures UpToEcall(lines) == lines
  {
    if lines != [] {
      assert !(lines[0].core.Some? && IsEcall(lines[0].core.value));
      forall i | 0 <= i < |lines| - 1 ensures !(lines[1..][i].core.Some? && IsEcall(lines[1..][i].core.value)) {
        assert lines[1..][i] == lines[i + 1];
      }
      NoEcallNoCut(lines[1..]);
    }
  }

  lemma {:induction false} TailStops(lines: seq<Line>, more: seq<Line>)
    requires more != [] && more[0].core.Some?
    ensures Tail(lines + more) == Tail(lines)
  {
    if lines == [] {
      assert lines + more == more;
    } else {
      assert (lines + more)[1..] == lines[1..] + more;
      TailStops(lines[1..], more);
    }
  }

  lemma {:induction false} ItemsAppend(lines: seq<Line>, more: seq<Line>, full: bool)
    requires more != [] && more[0].core.Some?
    ensures Items(lines + more, full) == Items(lines, full) + Items(more, full)
  {
    if lines == [] {
      assert lines + more == more;
    } else {
      assert (lines + more)[1..] == lines[1..] + more;
      ItemsAppend(lines[1..], more, full);
      TailStops(lines[1..], more);
    }
  }

  /** An instruction that writes a0. */
  function WriteA0(digit: string): seq<Line> {
    [Line(false, false, false, Some(Core("", "", "addi", "addi", "")), false, None),
     Line(false, false, false, None, false, Some(Commit("3", "a0", digit)))]
  }

  lemma WriteA0Item(digit: string, full: bool)
    ensures |Items(WriteA0(digit), full)| == 1
    ensures Items(WriteA0(digit), full)[0].entry.gpr == ["a0" + [':'] + digit] && !Items(WriteA0(digit), full)[0].illegal
  {
    var lines := WriteA0(digit);
    var e := ReadInstr(lines[0].core.value, full);
    var group := [lines[1]];
    assert lines[1..] == group && group[1..] == [];
    assert Tail(group) == group && Items(group[1..], full) == [];
    assert Items(group, full) == Items(group[1..], full);
    assert WithCommits(e, group) == WithCommits(AddCommit(e, lines[1].commit.value), group[1..]);
    assert "a0" + ":" + digit == "a0" + [':'] + digit;
  }

  lemma A0Appended(items: seq<Item>, item: Item, digit: string, full: bool)
    requires item.entry.gpr == ["a0" + [':'] + digit] && !item.illegal && digit in {"1", "2"}
    requires Reads(CsvTrace(items, full))
    requires var regs := ScanOf(CsvTrace(items, full)).regs; "a0" in regs ==> regs["a0"] != digit
    ensures Reads(CsvTrace(items + [item], full))
    ensures Updates(CsvTrace(items + [item], full)) == Updates(CsvTrace(items, full)) + [item.entry.gpr]
  {
    var regs := ScanOf(CsvTrace(items, full)).regs;
    OneWrite(item.entry.gpr, digit, regs);
    AppendWritten(items, item.entry, full, item.entry.gpr, regs["a0" := digit], true);
    assert item == Item(item.entry, false);
  }

  /** The first log that tells the two forms apart: the second one and one more write. */
  lemma OneMoreWrite(lines: seq<Line>) returns (longer: seq<Line>)
    requires !LastIsWritten(lines) && EndsOnChange(ReducedTrace(lines))
    ensures !FormsAgree(longer, lines)
  {
    if ReachesEcall(lines) {
      LastItemIsEcall(lines, false);
    }
    NoEcallNoCut(lines);
    EndsAlikeIff(lines);
    var regs := ScanOf(ReducedTrace(lines)).regs;
    var digit := if "a0" in regs && regs["a0"] == "1" then "2" else "1";
    longer := lines + WriteA0(digit);
    forall i | 0 <= i < |longer| ensures !(longer[i].core.Some? && IsEcall(longer[i].core.value)) {
      assert i < |lines| ==> longer[i] == lines[i];
    }
    NoEcallNoCut(longer);
    forall full: bool
      ensures Reads(CsvTrace(Items(longer, full), full))
      ensures Updates(CsvTrace(Items(longer, full), full)) == Updates(CsvTrace(Items(lines, full), full)) + [["a0" + [':'] + digit]]
    {
      ItemsAppend(lines, WriteA0(digit), full);
      WriteA0Item(digit, full);
      var item := Items(WriteA0(digit), full)[0];
      assert Items(longer, full) == Items(lines, full) + [item];
      A0Appended(Items(lines, full), item, digit, full);
    }
    PassesIff(FullTrace(longer), FullTrace(lines));
    PassesIff(ReducedTrace(longer), ReducedTrace(lines));
  }

  /** For every second log: full and reduced traces give the same verdict against all first
      logs if and only if its last item is in the reduced trace (as an ecall is), or the
      reduced trace does not end on a change. */
  lemma FormsAgreeIff(lines2: seq<Line>)
    ensures (forall lines1 :: FormsAgree(lines1, lines2)) <==> LastIsWritten(lines2) || !EndsOnChange(ReducedTrace(lines2))
  {
    EndsAlikeIff(lines2);
    if LastIsWritten(lines2) || !EndsOnChange(ReducedTrace(lines2)) {
      forall lines1 ensures FormsAgree(lines1, lines2) {
        EndsAlikeIff(lines1);
        SameVerdict(FullTrace(lines1), ReducedTrace(lines1), FullTrace(lines2), ReducedTrace(lines2));
      }
    } else {
      var longer := OneMoreWrite(lines2);
    }
  }

  /** Appending one written item to a log whose CSV reads well. */
  lemma AppendWritten(items: seq<Item>, e: Entry, full: bool, column: seq<string>, regs: RegMap, changed: bool)
    requires Writes(e, full) && Reads(CsvTrace(items, full))
    requires column == (if e.gpr == [] then [""] else e.gpr) && (e.gpr != [] ==> Separable(e.gpr, ';'))
    requires Update(column, ScanOf(CsvTrace(items, full)).regs) == Step(changed, regs)
    ensures var t := CsvTrace(items + [Item(e, false)], full);
      && Reads(t) && ScanOf(t).regs == regs && EndsOnChange(t) == changed
      && Updates(t) == Updates(CsvTrace(items, full)) + if changed then [column] else []
  {
    ColumnRoundTrip(e.gpr, ';');
    CsvTraceStep(items + [Item(e, false)], full);
    assert (items + [Item(e, false)])[..|items|] == items;
    UpdatesStep(CsvTrace(items, full), ReadRow(WriteEntry(e)));
  }

  lemma AfterFirst(first: Entry, full: bool)
    requires first.gpr == ["a0:1"]
    ensures var t := CsvTrace([Item(first, false)], full);
      Reads(t) && Updates(t) == [["a0:1"]] && EndsOnChange(t) && ScanOf(t).regs == map["a0" := "1"]
  {
    var regs: RegMap := map[];
    assert "a0:1" == "a0" + [':'] + "1";
    OneWrite(first.gpr, "1", regs);
    assert [] + [Item(first, false)] == [Item(first, false)];
    AppendWritten([], first, full, first.gpr, regs["a0" := "1"], true);
  }

  lemma AfterSecond(first: Entry, second: Entry, full: bool)
    requires first.gpr == ["a0:1"] && second.gpr == ["a0:2"]
    ensures var t := CsvTrace([Item(first, false), Item(second, false)], full);
      Reads(t) && Updates(t) == [["a0:1"], ["a0:2"]]
  {
    AfterFirst(first, full);
    assert "a0:2" == "a0" + [':'] + "2";
    OneWrite(second.gpr, "2", map["a0" := "1"]);
    assert [Item(first, false)] + [Item(second, false)] == [Item(first, false), Item(second, false)];
    AppendWritten([Item(first, false)], second, full, second.gpr, map["a0" := "1"]["a0" := "2"], true);
  }

  lemma AfterQuiet(first: Entry, quiet: Entry, full: bool)
    requires first.gpr == ["a0:1"] && quiet.gpr == []
    requires quiet.instrStr != "wfi" && quiet.instrStr != "ecall"
    ensures var t := CsvTrace([Item(first, false), Item(quiet, false)], full);
      Reads(t) && Updates(t) == [["a0:1"]] && EndsOnChange(t) == !full
  {
    AfterFirst(first, full);
    var both := [Item(first, false), Item(quiet, false)];
    assert both[..1] == [Item(first, false)] && [Item(first, false)] + [Item(quiet, false)] == both;
    if full {
      LeadingEmpty([""], map["a0" := "1"]);
      AppendWritten([Item(first, false)], quiet, full, [""], map["a0" := "1"], false);
    } else {
      CsvTraceStep(both, full);
    }
  }

  lemma OneWrite(gpr: seq<string>, digit: string, regs: RegMap)
    requires digit == "1" || digit == "2"
    requires |gpr| == 1 && gpr[0] == "a0" + [':'] + digit
    requires "a0" in regs ==> regs["a0"] != digit
    ensures Separable(gpr, ';')
    ensures Update(gpr, regs) == Step(true, regs["a0" := digit])
  {
    SplitOfPlain(digit, ':');
    SplitAtSeparator("a0", digit, ':');
    OneDigit("1");
    OneDigit("2");
    assert gpr[..0] == [];
  }
}
