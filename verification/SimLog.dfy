/** The simulator log readers (spike_log_to_trace_csv.py, verilator_log_to_trace_csv.py).
    A log line is what the reader's regular expressions say about it. */
module SimLog {
  import opened Wrappers
  import opened TraceCsv

  /** A CORE_RE match; opcode and operands are those of the lowered instruction. */
  datatype Core = Core(addr: string, bin: string, disasm: string, opcode: string, operands: string)

  /** An RD_RE match: privilege, ABI register name and value. */
  datatype Commit = Commit(pri: string, reg: string, val: string)

  datatype Line = Line(
    trampolineEnd: bool, debugStart: bool, debugStop: bool,
    core: Option<Core>, trap: bool, commit: Option<Commit>)

  datatype Item = Item(entry: Entry, illegal: bool)

  function ReadInstr(core: Core, full: bool): Entry {
    Entry(core.addr, if full then core.opcode else "", [], [], core.bin, "",
          core.disasm, if full then core.operands else "")
  }

  predicate IsEcall(core: Core) { core.disasm == "ecall" }

  function AddCommit(e: Entry, c: Commit): Entry {
    e.(gpr := e.gpr + [c.reg + ":" + c.val], mode := c.pri)
  }

  // ---------------------------------------------------------------- the declarative split

  /** The lines after the one that ends the trampoline (none, if no line does). */
  function AfterTrampoline(lines: seq<Line>): seq<Line> {
    if lines == [] then []
    else if lines[0].trampolineEnd then lines[1..]
    else AfterTrampoline(lines[1..])
  }

  /** The same with that line included, as the Verilator reader has it. */
  function FromTrampoline(lines: seq<Line>): seq<Line> {
    if lines == [] then []
    else if lines[0].trampolineEnd then lines
    else FromTrampoline(lines[1..])
  }

  /** The lines outside debug windows; a window is closed by its stop line. */
  function CutDebug(lines: seq<Line>, inDebug: bool): seq<Line> {
    if lines == [] then []
    else if inDebug then CutDebug(lines[1..], !lines[0].debugStop)
    else if lines[0].debugStart then CutDebug(lines[1..], true)
    else [lines[0]] + CutDebug(lines[1..], false)
  }

  /** Everything up to and including the first ecall. */
  function UpToEcall(lines: seq<Line>): seq<Line> {
    if lines == [] then []
    else if lines[0].core.Some? && IsEcall(lines[0].core.value) then [lines[0]]
    else [lines[0]] + UpToEcall(lines[1..])
  }

  /** The lines before the next instruction line. */
  function Tail(lines: seq<Line>): seq<Line> {
    if lines == [] || lines[0].core.Some? then [] else [lines[0]] + Tail(lines[1..])
  }

  /** An instruction owns the commit lines of its group that come before a trap line. */
  function WithCommits(e: Entry, group: seq<Line>): Entry
    decreases group
  {
    if group == [] || group[0].trap then e
    else WithCommits(if group[0].commit.Some? then AddCommit(e, group[0].commit.value) else e, group[1..])
  }

  predicate HasTrap(group: seq<Line>) {
    exists i :: 0 <= i < |group| && group[i].trap
  }

  function GroupItem(e: Entry, group: seq<Line>): Item {
    Item(WithCommits(e, group), HasTrap(group))
  }

  /** One item per instruction line, each with the lines up to the next one. */
  function Items(lines: seq<Line>, full: bool): seq<Item> {
    if lines == [] then []
    else if lines[0].core.Some? then
      [GroupItem(ReadInstr(lines[0].core.value, full), Tail(lines[1..]))] + Items(lines[1..], full)
    else Items(lines[1..], full)
  }

  function SpikeItems(log: seq<Line>, full: bool): seq<Item> {
    Items(UpToEcall(AfterTrampoline(log)), full)
  }

  function VerilatorItems(log: seq<Line>, full: bool): seq<Item> {
    Items(UpToEcall(CutDebug(FromTrampoline(log), false)), full)
  }

  function CoreCount(lines: seq<Line>): nat {
    if lines == [] then 0 else (if lines[0].core.Some? then 1 else 0) + CoreCount(lines[1..])
  }

  /** Read by position: the items are as many as the instruction lines, and the item of the
      instruction line at p is made of that line and of what follows it up to the next. */
  lemma {:induction false} ItemOfLine(lines: seq<Line>, p: nat, full: bool)
    requires p < |lines| && lines[p].core.Some?
    ensures |Items(lines, full)| == CoreCount(lines)
    ensures CoreCount(lines[..p]) < CoreCount(lines)
    ensures Items(lines, full)[CoreCount(lines[..p])]
            == GroupItem(ReadInstr(lines[p].core.value, full), Tail(lines[p + 1..]))
  {
    ItemCount(lines, full);
    if p > 0 {
      ItemOfLine(lines[1..], p - 1, full);
      assert lines[..p][1..] == lines[1..][..p - 1];
      assert lines[1..][p..] == lines[p + 1..];
    }
  }

  lemma {:induction false} ItemCount(lines: seq<Line>, full: bool)
    ensures |Items(lines, full)| == CoreCount(lines)
  {
    if lines != [] {
      ItemCount(lines[1..], full);
    }
  }

  // ---------------------------------------------------------------- where in the log the items come from

  /** The first line that ends the trampoline. */
  ghost predicate TrampolineEnd(log: seq<Line>, t: nat) {
    t < |log| && log[t].trampolineEnd && forall i :: 0 <= i < t ==> !log[i].trampolineEnd
  }

  predicate EcallAt(log: seq<Line>, j: nat) {
    j < |log| && log[j].core.Some? && log[j].core.value.disasm == "ecall"
  }

  /** Strictly behind the end of the trampoline, and not behind an ecall that is itself behind it. */
  ghost predicate SpikeReads(log: seq<Line>, p: nat) {
    exists t: nat :: TrampolineEnd(log, t) && t < p < |log| && forall j: nat :: t < j < p ==> !EcallAt(log, j)
  }

  /** A debug window is open in front of line p: the last line that opened one was not followed by
      one that closes it. */
  predicate InDebug(log: seq<Line>, t: nat, p: nat)
    requires p <= |log|
  {
    p > t && if InDebug(log, t, p - 1) then !log[p - 1].debugStop else log[p - 1].debugStart
  }

  /** In no debug window; the lines that open and close one are in it. */
  predicate Outside(log: seq<Line>, t: nat, p: nat) {
    p < |log| && !InDebug(log, t, p) && !log[p].debugStart
  }

  /** At or behind the end of the trampoline, outside all debug windows, and not behind an ecall
      to which this applies as well. */
  ghost predicate VerilatorReads(log: seq<Line>, p: nat) {
    exists t: nat ::
      && TrampolineEnd(log, t) && t <= p && Outside(log, t, p)
      && forall j: nat :: t <= j < p && Outside(log, t, j) ==> !EcallAt(log, j)
  }

  ghost function SpikeSeen(log: seq<Line>): set<nat> {
    set p: nat | p < |log| && SpikeReads(log, p)
  }

  ghost function VerilatorSeen(log: seq<Line>): set<nat> {
    set p: nat | p < |log| && VerilatorReads(log, p)
  }

  ghost predicate Increasing(at: seq<nat>) {
    forall i, j :: 0 <= i < j < |at| ==> at[i] < at[j]
  }

  /** The numbers of a set in order. */
  ghost predicate Lists(at: seq<nat>, s: set<nat>) {
    Increasing(at) && forall p :: p in at <==> p in s
  }

  ghost function Instructions(log: seq<Line>, seen: set<nat>): set<nat> {
    set p | p in seen && p < |log| && log[p].core.Some?
  }

  ghost function Later(seen: set<nat>, p: nat): set<nat> {
    set q | q in seen && q > p
  }

  /** The commit lines up to the next instruction or trap line. */
  ghost function Owned(log: seq<Line>, later: set<nat>): set<nat> {
    set c | c in later && c < |log| && log[c].commit.Some?
            && forall i :: i in later && i <= c ==> log[i].core.None? && !log[i].trap
  }

  /** A trap line comes before the next instruction line. */
  ghost predicate Trapped(log: seq<Line>, later: set<nat>) {
    exists c :: TrapIn(log, later, c)
  }

  ghost predicate TrapIn(log: seq<Line>, later: set<nat>, c: nat) {
    c in later && c < |log| && log[c].trap && forall i :: i in later && i <= c ==> log[i].core.None?
  }

  predicate AllCommits(log: seq<Line>, cs: seq<nat>) {
    forall i :: 0 <= i < |cs| ==> cs[i] < |log| && log[cs[i]].commit.Some?
  }

  function UpdatesAt(log: seq<Line>, cs: seq<nat>): seq<string>
    requires AllCommits(log, cs)
  {
    seq(|cs|, i requires 0 <= i < |cs| => log[cs[i]].commit.value.reg + ":" + log[cs[i]].commit.value.val)
  }

  /** The item of instruction line p: pc, binary and disassembly are that line's, the updates are
      the commits it owns, in order, and the mode is that of the last one. */
  ghost predicate ItemAt(log: seq<Line>, later: set<nat>, p: nat, full: bool, item: Item) {
    p < |log| && log[p].core.Some? && exists cs :: ItemWith(log, later, log[p].core.value, full, item, cs)
  }

  ghost predicate ItemWith(log: seq<Line>, later: set<nat>, core: Core, full: bool, item: Item, cs: seq<nat>) {
    && Lists(cs, Owned(log, later)) && AllCommits(log, cs)
    && item.entry == Entry(core.addr, if full then core.opcode else "", UpdatesAt(log, cs), [], core.bin,
                           if cs == [] then "" else log[cs[|cs| - 1]].commit.value.pri,
                           core.disasm, if full then core.operands else "")
    && item.illegal == Trapped(log, later)
  }

  /** The k-th item belongs to the k-th instruction line that is read. */
  ghost predicate DeliveredAt(log: seq<Line>, seen: set<nat>, full: bool, out: seq<Item>, at: seq<nat>) {
    && Lists(at, Instructions(log, seen)) && |at| == |out|
    && forall k :: 0 <= k < |at| ==> ItemAt(log, Later(seen, at[k]), at[k], full, out[k])
  }

  ghost predicate Delivered(log: seq<Line>, seen: set<nat>, full: bool, out: seq<Item>) {
    exists at :: DeliveredAt(log, seen, full, out, at)
  }

  ghost predicate Picks(log: seq<Line>, at: seq<nat>) {
    Increasing(at) && forall i :: 0 <= i < |at| ==> at[i] < |log|
  }

  function LinesAt(log: seq<Line>, at: seq<nat>): seq<Line>
    requires forall i :: 0 <= i < |at| ==> at[i] < |log|
  {
    seq(|at|, i requires 0 <= i < |at| => log[at[i]])
  }

  ghost function Places(at: seq<nat>): set<nat> {
    set p | p in at
  }

  lemma PicksRest(log: seq<Line>, at: seq<nat>)
    requires Picks(log, at) && at != []
    ensures Picks(log, at[1..]) && LinesAt(log, at)[1..] == LinesAt(log, at[1..])
    ensures Later(Places(at), at[0]) == Places(at[1..])
    ensures Places(at) == {at[0]} + Places(at[1..])
    ensures forall p :: p in at[1..] ==> at[0] < p && Later(Places(at), p) == Later(Places(at[1..]), p)
  {
    assert at == [at[0]] + at[1..];
    forall p | p in at[1..] ensures at[0] < p && Later(Places(at), p) == Later(Places(at[1..]), p) {
      var i :| 0 <= i < |at| - 1 && at[1..][i] == p;
      assert at[i + 1] == p;
    }
  }

  lemma ListsMore(at: seq<nat>, s: set<nat>, p: nat)
    requires Lists(at, s) && forall q :: q in s ==> p < q
    ensures Lists([p] + at, {p} + s)
  {
    var all := [p] + at;
    forall i, j | 0 <= i < j < |all| ensures all[i] < all[j] {
      assert all[j] == at[j - 1] && at[j - 1] in at;
    }
  }

  lemma OwnedFirst(log: seq<Line>, at: seq<nat>)
    requires Picks(log, at) && at != []
    ensures Owned(log, Places(at))
            == if log[at[0]].core.Some? || log[at[0]].trap then {}
               else (if log[at[0]].commit.Some? then {at[0]} else {}) + Owned(log, Places(at[1..]))
  {
    PicksRest(log, at);
    var here, rest := Places(at), Places(at[1..]);
    assert at[0] in here && forall p :: p in here ==> at[0] <= p;
    forall c ensures c in Owned(log, here) <==>
      !(log[at[0]].core.Some? || log[at[0]].trap) && ((c == at[0] && log[at[0]].commit.Some?) || c in Owned(log, rest))
    {
    }
  }

  function Committed(e: Entry, log: seq<Line>, cs: seq<nat>): Entry
    requires AllCommits(log, cs)
  {
    e.(gpr := e.gpr + UpdatesAt(log, cs), mode := if cs == [] then e.mode else log[cs[|cs| - 1]].commit.value.pri)
  }

  lemma CommittedFirst(e: Entry, log: seq<Line>, c: nat, cs: seq<nat>)
    requires c < |log| && log[c].commit.Some? && AllCommits(log, cs)
    ensures AllCommits(log, [c] + cs)
    ensures Committed(AddCommit(e, log[c].commit.value), log, cs) == Committed(e, log, [c] + cs)
  {
    var one := log[c].commit.value.reg + ":" + log[c].commit.value.val;
    assert UpdatesAt(log, [c] + cs) == [one] + UpdatesAt(log, cs);
    assert e.gpr + [one] + UpdatesAt(log, cs) == e.gpr + ([one] + UpdatesAt(log, cs));
  }

  /** The lines of one group, by position. */
  lemma {:induction false} GroupAt(log: seq<Line>, at: seq<nat>, e: Entry) returns (cs: seq<nat>)
    requires Picks(log, at)
    ensures Lists(cs, Owned(log, Places(at))) && AllCommits(log, cs)
    ensures WithCommits(e, Tail(LinesAt(log, at))) == Committed(e, log, cs)
    decreases |at|
  {
    cs := [];
    if at == [] {
      return;
    }
    PicksRest(log, at);
    OwnedFirst(log, at);
    var line := log[at[0]];
    if line.core.None? && !line.trap {
      cs := GroupAt(log, at[1..], if line.commit.Some? then AddCommit(e, line.commit.value) else e);
      if line.commit.Some? {
        ListsMore(cs, Owned(log, Places(at[1..])), at[0]);
        CommittedFirst(e, log, at[0], cs);
        cs := [at[0]] + cs;
      }
    }
  }

  lemma TrappedFirst(log: seq<Line>, at: seq<nat>)
    requires Picks(log, at) && at != []
    ensures Trapped(log, Places(at))
       <==> log[at[0]].core.None? && (log[at[0]].trap || Trapped(log, Places(at[1..])))
  {
    PicksRest(log, at);
    var here, rest := Places(at), Places(at[1..]);
    assert at[0] in here && forall p :: p in here ==> at[0] <= p;
    if Trapped(log, here) {
      var c :| TrapIn(log, here, c);
      assert c == at[0] || TrapIn(log, rest, c);
    }
    if log[at[0]].core.None? {
      if log[at[0]].trap {
        assert TrapIn(log, here, at[0]);
      }
      if Trapped(log, rest) {
        var c :| TrapIn(log, rest, c);
        assert TrapIn(log, here, c);
      }
    }
  }

  lemma {:induction false} TrapAt(log: seq<Line>, at: seq<nat>)
    requires Picks(log, at)
    ensures HasTrap(Tail(LinesAt(log, at))) <==> Trapped(log, Places(at))
    decreases |at|
  {
    if at != [] {
      PicksRest(log, at);
      TrappedFirst(log, at);
      if log[at[0]].core.None? {
        TrapAt(log, at[1..]);
        TrapInFront(log[at[0]], Tail(LinesAt(log, at[1..])));
      }
    }
  }

  /** One line in front: nothing changes for the items behind it. */
  lemma DeliveredBehind(log: seq<Line>, all: seq<nat>, full: bool, out: seq<Item>, at: seq<nat>)
    requires Picks(log, all) && all != [] && DeliveredAt(log, Places(all[1..]), full, out, at)
    ensures forall k :: 0 <= k < |at| ==> ItemAt(log, Later(Places(all), at[k]), at[k], full, out[k])
    ensures Instructions(log, Places(all))
            == (if log[all[0]].core.Some? then {all[0]} else {}) + Instructions(log, Places(all[1..]))
    ensures forall p :: p in Instructions(log, Places(all[1..])) ==> all[0] < p
  {
    PicksRest(log, all);
    forall k | 0 <= k < |at| ensures ItemAt(log, Later(Places(all), at[k]), at[k], full, out[k]) {
      assert at[k] in at;
      assert ItemAt(log, Later(Places(all[1..]), at[k]), at[k], full, out[k]);
    }
  }

  lemma DeliveredFirst(log: seq<Line>, all: seq<nat>, full: bool, out: seq<Item>, at: seq<nat>)
    requires Picks(log, all) && all != [] && log[all[0]].core.Some? && DeliveredAt(log, Places(all[1..]), full, out, at)
    ensures var first := GroupItem(ReadInstr(log[all[0]].core.value, full), Tail(LinesAt(log, all[1..])));
      DeliveredAt(log, Places(all), full, [first] + out, [all[0]] + at)
  {
    DeliveredBehind(log, all, full, out, at);
    PicksRest(log, all);
    ListsMore(at, Instructions(log, Places(all[1..])), all[0]);
    FirstItem(log, all, full);
  }

  lemma FirstItem(log: seq<Line>, all: seq<nat>, full: bool)
    requires Picks(log, all) && all != [] && log[all[0]].core.Some?
    ensures ItemAt(log, Later(Places(all), all[0]), all[0], full,
                   GroupItem(ReadInstr(log[all[0]].core.value, full), Tail(LinesAt(log, all[1..]))))
  {
    PicksRest(log, all);
    var core := log[all[0]].core.value;
    var e := ReadInstr(core, full);
    var cs := GroupAt(log, all[1..], e);
    TrapAt(log, all[1..]);
    assert [] + UpdatesAt(log, cs) == UpdatesAt(log, cs);
    assert ItemWith(log, Places(all[1..]), core, full, GroupItem(e, Tail(LinesAt(log, all[1..]))), cs);
  }

  /** The items of the lines at these positions. */
  lemma {:induction false} ItemsAt(log: seq<Line>, all: seq<nat>, full: bool) returns (at: seq<nat>)
    requires Picks(log, all)
    ensures DeliveredAt(log, Places(all), full, Items(LinesAt(log, all), full), at)
    decreases |all|
  {
    at := [];
    if all != [] {
      PicksRest(log, all);
      at := ItemsAt(log, all[1..], full);
      DeliveredBehind(log, all, full, Items(LinesAt(log, all[1..]), full), at);
      if log[all[0]].core.Some? {
        DeliveredFirst(log, all, full, Items(LinesAt(log, all[1..]), full), at);
        at := [all[0]] + at;
      }
    }
  }

  lemma SameLists(a: seq<nat>, b: seq<nat>, s: set<nat>)
    requires Lists(a, s) && Lists(b, s)
    ensures a == b
    decreases |a|
  {
    ListsEmpty(a, s);
    ListsEmpty(b, s);
    if a != [] {
      assert a[0] in s && b[0] in s;
      var i :| 0 <= i < |b| && b[i] == a[0];
      var j :| 0 <= j < |a| && a[j] == b[0];
      assert a[0] == b[0];
      ListsRest(a, s);
      ListsRest(b, s);
      SameLists(a[1..], b[1..], s - {a[0]});
    }
  }

  lemma ListsEmpty(a: seq<nat>, s: set<nat>)
    requires Lists(a, s)
    ensures a == [] <==> s == {}
  {
    if a != [] {
      assert a[0] in s;
    }
    if s != {} {
      var p :| p in s;
      assert p in a;
    }
  }

  lemma ListsRest(a: seq<nat>, s: set<nat>)
    requires Lists(a, s) && a != []
    ensures Lists(a[1..], s - {a[0]})
  {
    assert a == [a[0]] + a[1..];
  }

  /** Only one list of items fits this description. */
  lemma DeliveredOnce(log: seq<Line>, seen: set<nat>, full: bool, a: seq<Item>, b: seq<Item>)
    requires Delivered(log, seen, full, a) && Delivered(log, seen, full, b)
    ensures a == b
  {
    var p :| DeliveredAt(log, seen, full, a, p);
    var q :| DeliveredAt(log, seen, full, b, q);
    SameLists(p, q, Instructions(log, seen));
    forall k | 0 <= k < |a| ensures a[k] == b[k] {
      var later, core := Later(seen, p[k]), log[p[k]].core.value;
      assert ItemAt(log, later, p[k], full, a[k]) && ItemAt(log, later, q[k], full, b[k]);
      var c :| ItemWith(log, later, core, full, a[k], c);
      var d :| ItemWith(log, later, core, full, b[k], d);
      SameLists(c, d, Owned(log, later));
    }
  }

  // ---------------------------------------------------------------- what the cuts leave

  function Upto(from: nat, to: nat): seq<nat>
    requires from <= to
  {
    seq(to - from, i => from + i)
  }

  /** The trampoline ends at t, or never. */
  lemma {:induction false} TrampolineCut(log: seq<Line>, n: nat) returns (t: nat)
    requires n <= |log| && forall i :: 0 <= i < n ==> !log[i].trampolineEnd
    ensures n <= t <= |log| && forall i :: 0 <= i < t ==> !log[i].trampolineEnd
    ensures t < |log| ==> TrampolineEnd(log, t)
    ensures AfterTrampoline(log[n..]) == if t < |log| then log[t + 1..] else []
    ensures FromTrampoline(log[n..]) == log[t..]
    decreases |log| - n
  {
    if n == |log| || log[n].trampolineEnd {
      t := n;
      assert n < |log| ==> log[n..][1..] == log[n + 1..];
    } else {
      assert log[n..][1..] == log[n + 1..];
      t := TrampolineCut(log, n + 1);
    }
  }

  /** The first of the lines up to and with the first ecall. */
  ghost predicate UpToFirst(log: seq<Line>, at: seq<nat>, n: nat) {
    && n <= |at| && (forall i :: 0 <= i < n - 1 ==> !EcallAt(log, at[i]))
    && (n == |at| || (n > 0 && EcallAt(log, at[n - 1])))
  }

  lemma {:induction false} EcallCut(log: seq<Line>, at: seq<nat>) returns (n: nat)
    requires Picks(log, at)
    ensures UpToFirst(log, at, n)
    ensures Picks(log, at[..n]) && UpToEcall(LinesAt(log, at)) == LinesAt(log, at[..n])
    decreases |at|
  {
    if at == [] {
      n := 0;
    } else if EcallAt(log, at[0]) {
      n := 1;
    } else {
      PicksRest(log, at);
      var m := EcallCut(log, at[1..]);
      n := m + 1;
      assert at[..n] == [at[0]] + at[1..][..m];
      assert forall i :: 0 <= i < |at| - 1 ==> at[1..][i] == at[i + 1];
    }
  }

  lemma FirstEndIsOne(log: seq<Line>, t: nat, u: nat)
    requires TrampolineEnd(log, t) && TrampolineEnd(log, u)
    ensures t == u
  {
  }

  lemma SpikeReadsFrom(log: seq<Line>, t: nat, p: nat)
    requires TrampolineEnd(log, t)
    ensures SpikeReads(log, p) <==> t < p < |log| && forall j: nat :: t < j < p ==> !EcallAt(log, j)
  {
    forall u: nat | TrampolineEnd(log, u) ensures u == t {
      FirstEndIsOne(log, t, u);
    }
  }

  lemma VerilatorReadsFrom(log: seq<Line>, t: nat, p: nat)
    requires TrampolineEnd(log, t)
    ensures VerilatorReads(log, p)
       <==> t <= p && Outside(log, t, p) && forall j: nat :: t <= j < p && Outside(log, t, j) ==> !EcallAt(log, j)
  {
    forall u: nat | TrampolineEnd(log, u) ensures u == t {
      FirstEndIsOne(log, t, u);
    }
  }

  lemma SuffixAt(log: seq<Line>, from: nat)
    requires from <= |log|
    ensures Picks(log, Upto(from, |log|)) && LinesAt(log, Upto(from, |log|)) == log[from..]
    ensures forall p :: p in Upto(from, |log|) <==> from <= p < |log|
  {
    forall p | from <= p < |log| ensures p in Upto(from, |log|) {
      assert Upto(from, |log|)[p - from] == p;
    }
  }

  /** What Spike's reader delivers, by position in the log. */
  lemma SpikeItemsAt(log: seq<Line>, full: bool)
    ensures Delivered(log, SpikeSeen(log), full, SpikeItems(log, full))
  {
    assert log[0..] == log;
    var t := TrampolineCut(log, 0);
    var from := if t < |log| then t + 1 else t;
    var all := Upto(from, |log|);
    SuffixAt(log, from);
    var n := EcallCut(log, all);
    SpikePlaces(log, t, all, n);
    var at := ItemsAt(log, all[..n], full);
  }

  lemma SpikePlaces(log: seq<Line>, t: nat, all: seq<nat>, n: nat)
    requires t <= |log| && (forall i :: 0 <= i < t ==> !log[i].trampolineEnd) && (t < |log| ==> TrampolineEnd(log, t))
    requires Picks(log, all) && UpToFirst(log, all, n)
    requires forall p :: p in all <==> t < p < |log|
    ensures Places(all[..n]) == SpikeSeen(log)
  {
    forall p: nat ensures p in all[..n] <==> p in SpikeSeen(log) {
      InPrefix(log, all, n, p);
      if t < |log| {
        SpikeReadsFrom(log, t, p);
      }
    }
  }

  /** A position is kept unless an ecall is kept in front of it. */
  lemma InPrefix(log: seq<Line>, all: seq<nat>, n: nat, p: nat)
    requires Picks(log, all) && UpToFirst(log, all, n)
    ensures p in all[..n] <==> p in all && forall j :: j in all && j < p ==> !EcallAt(log, j)
  {
    if p in all {
      var i :| 0 <= i < |all| && all[i] == p;
      if i < n {
        assert all[..n][i] == p;
        forall j | j in all && j < p ensures !EcallAt(log, j) {
          var k :| 0 <= k < |all| && all[k] == j;
          assert k < i;
        }
      } else {
        assert all[n - 1] in all && all[n - 1] < p;
        assert forall k :: 0 <= k < n ==> all[..n][k] < all[i];
      }
    }
  }

  /** The lines outside all debug windows, from n on. */
  lemma {:induction false} DebugCut(log: seq<Line>, t: nat, n: nat) returns (at: seq<nat>)
    requires t <= n <= |log|
    ensures Picks(log, at) && (forall p :: p in at <==> n <= p && Outside(log, t, p))
    ensures CutDebug(log[n..], InDebug(log, t, n)) == LinesAt(log, at)
    decreases |log| - n
  {
    if n == |log| {
      at := [];
    } else {
      assert log[n..][1..] == log[n + 1..] && log[n..][0] == log[n];
      at := DebugCut(log, t, n + 1);
      if Outside(log, t, n) {
        ListsMore(at, Places(at), n);
        at := [n] + at;
      }
    }
  }

  /** What the Verilator reader delivers, by position in the log. */
  lemma VerilatorItemsAt(log: seq<Line>, full: bool)
    ensures Delivered(log, VerilatorSeen(log), full, VerilatorItems(log, full))
  {
    assert log[0..] == log;
    var t := TrampolineCut(log, 0);
    var all := DebugCut(log, t, t);
    var n := EcallCut(log, all);
    VerilatorPlaces(log, t, all, n);
    var at := ItemsAt(log, all[..n], full);
  }

  lemma VerilatorPlaces(log: seq<Line>, t: nat, all: seq<nat>, n: nat)
    requires t <= |log| && (forall i :: 0 <= i < t ==> !log[i].trampolineEnd) && (t < |log| ==> TrampolineEnd(log, t))
    requires Picks(log, all) && UpToFirst(log, all, n)
    requires forall p :: p in all <==> t <= p && Outside(log, t, p)
    ensures Places(all[..n]) == VerilatorSeen(log)
  {
    forall p: nat ensures p in all[..n] <==> p in VerilatorSeen(log) {
      InPrefix(log, all, n, p);
      if t < |log| {
        VerilatorReadsFrom(log, t, p);
      }
    }
  }

  /** In a log in which no line both opens and closes a window: line p is inside one if and only
      if some line opened one and none since has closed it. */
  lemma {:induction false} InDebugIff(log: seq<Line>, t: nat, p: nat)
    requires p <= |log| && forall i :: t <= i < p ==> !(log[i].debugStart && log[i].debugStop)
    ensures InDebug(log, t, p) <==> exists s: nat :: OpenSince(log, t, s, p)
  {
    if p > t {
      InDebugIff(log, t, p - 1);
      if InDebug(log, t, p - 1) && !log[p - 1].debugStop {
        var s: nat :| OpenSince(log, t, s, p - 1);
        assert OpenSince(log, t, s, p);
      }
      if log[p - 1].debugStart {
        assert OpenSince(log, t, p - 1, p);
      }
      if s: nat :| OpenSince(log, t, s, p) && s < p - 1 {
        assert OpenSince(log, t, s, p - 1);
      }
    }
  }

  ghost predicate OpenSince(log: seq<Line>, t: nat, s: nat, p: nat) {
    t <= s < p <= |log| && log[s].debugStart && forall i :: s < i < p ==> !log[i].debugStop
  }

  // ---------------------------------------------------------------- the readers

  /** What is still to come: an instruction in hand first takes its own lines. */
  function Rest(instr: Option<Entry>, lines: seq<Line>, full: bool): seq<Item> {
    match instr
    case None => Items(lines, full)
    case Some(e) => [GroupItem(e, Tail(lines))] + Items(lines, full)
  }

  /** What the reader still has to deliver, with `lines` to come. */
  function Pending(instr: Option<Entry>, lines: seq<Line>, full: bool): seq<Item> {
    Rest(instr, UpToEcall(lines), full)
  }

  lemma TrapInFront(line: Line, group: seq<Line>)
    ensures HasTrap([line] + group) <==> line.trap || HasTrap(group)
    ensures ([line] + group)[1..] == group
  {
    var all := [line] + group;
    if line.trap {
      assert all[0].trap;
    }
    if HasTrap(group) {
      var i :| 0 <= i < |group| && group[i].trap;
      assert all[i + 1].trap;
    }
  }

  lemma InstructionLine(instr: Option<Entry>, lines: seq<Line>, full: bool)
    requires lines != [] && lines[0].core.Some?
    ensures var e := ReadInstr(lines[0].core.value, full);
      Pending(instr, lines, full)
      == (if instr.Some? then [Item(instr.value, false)] else [])
         + (if IsEcall(lines[0].core.value) then [Item(e, false)] else Pending(Some(e), lines[1..], full))
  {
    var cut := UpToEcall(lines);
    assert cut[1..] == if IsEcall(lines[0].core.value) then [] else UpToEcall(lines[1..]);
    assert Tail(cut) == [] && Tail([]) == [];
    assert forall x: Entry :: GroupItem(x, []) == Item(x, false);
    assert Items(cut, full) == [GroupItem(ReadInstr(lines[0].core.value, full), Tail(cut[1..]))] + Items(cut[1..], full);
  }

  lemma OtherLine(instr: Option<Entry>, lines: seq<Line>, full: bool)
    requires lines != [] && lines[0].core.None?
    ensures instr.None? ==> Pending(instr, lines, full) == Pending(None, lines[1..], full)
    ensures instr.Some? && lines[0].trap ==>
              Pending(instr, lines, full) == [Item(instr.value, true)] + Pending(None, lines[1..], full)
    ensures instr.Some? && !lines[0].trap ==>
              var e := if lines[0].commit.Some? then AddCommit(instr.value, lines[0].commit.value) else instr.value;
              Pending(instr, lines, full) == Pending(Some(e), lines[1..], full)
  {
    var rest := UpToEcall(lines[1..]);
    assert UpToEcall(lines)[1..] == rest;
    assert Tail(UpToEcall(lines)) == [lines[0]] + Tail(rest);
    TrapInFront(lines[0], Tail(rest));
  }

  /** One line in state INSTR (no instruction in hand) or EFFECT. `stop` is the break at an
      ecall. */
  method FollowLine(instr: Option<Entry>, line: Line, full: bool, ghost lines: seq<Line>)
    returns (instr': Option<Entry>, out: seq<Item>, stop: bool)
    requires lines != [] && lines[0] == line
    ensures stop ==> instr'.Some? && out + [Item(instr'.value, false)] == Pending(instr, lines, full)
    ensures !stop ==> out + Pending(instr', lines[1..], full) == Pending(instr, lines, full)
  {
    instr', out, stop := instr, [], false;
    if line.core.Some? {
      InstructionLine(instr, lines, full);
      if instr.Some? {
        out := [Item(instr.value, false)];
      }
      instr' := Some(ReadInstr(line.core.value, full));
      stop := line.core.value.disasm == "ecall";
      return;
    }
    OtherLine(instr, lines, full);
    if instr.Some? {
      if line.trap {
        out := [Item(instr.value, true)];
        instr' := None;
      } else if line.commit.Some? {
        instr' := Some(AddCommit(instr.value, line.commit.value));
      }
    }
  }

  method ReadSpikeTrace(log: seq<Line>, full: bool) returns (out: seq<Item>)
    ensures out == SpikeItems(log, full) && Delivered(log, SpikeSeen(log), full, out)
  {
    out := [];
    var inTrampoline, instr := true, None;
    for n := 0 to |log|
      invariant inTrampoline ==> instr == None && out == [] && AfterTrampoline(log) == AfterTrampoline(log[n..])
      invariant !inTrampoline ==> out + Pending(instr, log[n..], full) == SpikeItems(log, full)
    {
      assert log[n..][1..] == log[n + 1..];
      if inTrampoline {
        inTrampoline := !log[n].trampolineEnd;
        continue;
      }
      var more, stop;
      instr, more, stop := FollowLine(instr, log[n], full, log[n..]);
      out := out + more;
      if stop {
        break;
      }
    }
    if instr.Some? {
      out := out + [Item(instr.value, false)];
    }
    SpikeItemsAt(log, full);
  }

  method ReadVerilatorTrace(log: seq<Line>, full: bool) returns (out: seq<Item>)
    ensures out == VerilatorItems(log, full) && Delivered(log, VerilatorSeen(log), full, out)
  {
    out := [];
    var inTrampoline, inDebug, instr := true, false, None;
    for n := 0 to |log|
      invariant inTrampoline ==>
        !inDebug && instr == None && out == [] && FromTrampoline(log) == FromTrampoline(log[n..])
      invariant !inTrampoline ==>
        out + Pending(instr, CutDebug(log[n..], inDebug), full) == VerilatorItems(log, full)
    {
      assert log[n..][1..] == log[n + 1..];
      if inTrampoline {
        if log[n].trampolineEnd {
          inTrampoline := false;
        } else {
          continue;
        }
      }
      if inDebug {
        if log[n].debugStop {
          inDebug := false;
        }
        continue;
      } else if log[n].debugStart {
        inDebug := true;
        continue;
      }
      var more, stop;
      instr, more, stop := FollowLine(instr, log[n], full, CutDebug(log[n..], false));
      out := out + more;
      if stop {
        break;
      }
    }
    if instr.Some? {
      out := out + [Item(instr.value, false)];
    }
    VerilatorItemsAt(log, full);
  }
}
