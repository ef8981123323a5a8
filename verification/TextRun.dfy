/** Runs of the whole printed text (riscv_asm_program_gen.py, gen_program): the main program,
    `test_done`, the sub-programs, `write_tohost`. The main program comes to its end, but
    `test_done` does not end the run: control falls into the first sub-program, whose return
    goes to whatever address RA holds. */
module TextRun {
  import opened IntRegisters
  import opened InstrBase
  import opened Machine
  import opened StackDiscipline
  import opened JumpStream
  import opened Segments
  import opened ClosedStreams
  import opened CallstackGen
  import opened ProgramRun
  import opened MachineRun

  ghost predicate MovesOn(w: World, run: seq<Config>, from: nat)
    requires LaidOut(w)
  {
    forall n :: from <= n < |run| - 1 ==> MovesAt(w, run, n)
  }

  ghost predicate MovesAt(w: World, run: seq<Config>, n: nat)
    requires LaidOut(w) && n + 1 < |run|
  {
    Moves(w, run[n], run[n + 1])
  }

  /** A run of the text, from the first instruction of the main program. */
  ghost predicate IsTextRun(w: World, start: State, run: seq<Config>)
    requires LaidOut(w)
  {
    run != [] && run[0] == Running(0, 0, start) && MovesOn(w, run, 0)
  }

  /** The main program is through. */
  predicate AtTestDone(w: World, c: Config) {
    c.Running? && c.program == 0 && |w.code| > 0 && c.at == |w.code[0]|
  }

  // ---------------------------------------------------------------- one program, from its start to its end

  /** The state with which the first of the programs was entered. */
  function Base(acts: Acts): State
    requires acts.Act?
  {
    if acts.below.Act? then Base(acts.below) else acts.entry
  }

  /** Every waiting program made its call in step `call`, which entered the one it waits for. */
  ghost predicate Recorded(u: Setup, run: seq<Config>, n: nat, acts: Acts) {
    match acts
    case NoAct => true
    case Act(q, _, entry, call, below) =>
      (below.Act? ==> call < n < |run| && CallAt(u, run[call], q, entry, below)) && Recorded(u, run, n, below)
  }

  /** A configuration from which `below` calls program q, entering it with `entry`. */
  predicate CallAt(u: Setup, c: Config, q: nat, entry: State, below: Acts)
    requires below.Act?
  {
    && c.Running? && c.program == below.program < |u.w.code| && c.at < |u.w.code[c.program]| && c.at + 1 == below.at
    && ControlAt(u.w.code[c.program], c.at) == CallTo(q)
    && InText(u.w, c.program, c.at + 1) && entry == Set(c.state, RA, u.w.addr[c.program][c.at + 1])
  }

  lemma {:induction false} RecordedLater(u: Setup, run: seq<Config>, n: nat, acts: Acts)
    requires Recorded(u, run, n, acts) && n + 1 < |run|
    ensures Recorded(u, run, n + 1, acts)
    decreases acts
  {
    if acts.Act? {
      RecordedLater(u, run, n, acts.below);
    }
  }

  lemma StepRecords(u: Setup, run: seq<Config>, n: nat, acts: Acts, acts': Acts)
    requires n + 1 < |run| && Follows(u.w, run[n], acts, acts', n) && Recorded(u, run, n, acts)
    requires acts'.Act?
    ensures Recorded(u, run, n + 1, acts') && Base(acts') == Base(acts)
  {
    RecordedLater(u, run, n, acts);
    var c := run[n];
    if c.at < |u.w.code[c.program]| && ControlAt(u.w.code[c.program], c.at).CallTo? {
      assert Recorded(u, run, n + 1, acts.(at := c.at + 1));
      assert Base(acts.(at := c.at + 1)) == Base(acts);
    }
  }

  /** What the measure of the call stack leaves for the programs that are active. */
  ghost predicate Affordable(u: Setup, acts: Acts, budget: int)
    requires Good(u)
  {
    GoodIsSound(u);
    Within(u.w.code, StackOf(acts)) && Total(u.levels, u.graph, u.w.code, StackOf(acts)) <= budget
  }

  /** In step n `root`, entered with `base`, and what it calls are active. */
  ghost predicate OnTrack(u: Setup, root: nat, base: State, run: seq<Config>, n: nat, acts: Acts, budget: int)
    requires Good(u)
  {
    && n < |run| && acts.Act? && Inv(u, acts, run[n]) && Base(acts) == base
    && Nested(u.levels, root, StackOf(acts)) && Recorded(u, run, n, acts) && Affordable(u, acts, budget)
  }

  lemma StepOnTrack(u: Setup, root: nat, base: State, run: seq<Config>, n: nat, acts: Acts, budget: int) returns (acts': Acts)
    requires Good(u) && n + 1 < |run| && OnTrack(u, root, base, run, n, acts, budget) && !Through(u, acts)
    requires Moves(u.w, run[n], run[n + 1])
    ensures OnTrack(u, root, base, run, n + 1, acts', budget - 1) && Follows(u.w, run[n], acts, acts', n)
  {
    acts' := StepKeeps(u, root, acts, n, run[n], run[n + 1]);
    StepRecords(u, run, n, acts, acts');
    GoodIsSound(u);
    StepFalls(u.levels, u.graph, u.w.code, root, StackOf(acts), StackOf(acts'));
  }

  lemma BudgetLeft(u: Setup, acts: Acts, budget: int)
    requires Good(u) && acts.Act? && Affordable(u, acts, budget)
    ensures budget >= 1
  {
    GoodIsSound(u);
    assert StackOf(acts).Push?;
  }

  lemma RootIsActive(levels: seq<nat>, root: nat, acts: Acts)
    requires Levelled(levels) && acts.Act? && Nested(levels, root, StackOf(acts))
    ensures acts.below.NoAct? ==> acts.program == root
    ensures acts.below.Act? ==> acts.program != 0
  {
    assert StackOf(acts).below == StackOf(acts.below);
    if acts.below.Act? {
      WaitedForIsSub(levels, root, acts);
    }
  }

  /** At an instruction of the program, before `test_done`, with the stack pointer in the stack. */
  predicate Inside(u: Setup, c: Config)
    requires u.levels != []
  {
    && c.Running? && InText(u.w, c.program, c.at) && !AtTestDone(u.w, c)
    && u.hi - FRAME * LastLevel(u.levels) <= Get(c.state, SP) <= u.hi
  }

  lemma TrackInside(u: Setup, root: nat, base: State, run: seq<Config>, n: nat, acts: Acts, budget: int)
    requires Good(u) && OnTrack(u, root, base, run, n, acts, budget) && !Through(u, acts)
    ensures Inside(u, run[n])
  {
    RootIsActive(u.levels, root, acts);
    SpInStack(u, acts.program, acts.at, acts.entry, run[n].state);
  }

  /** From a point on the track: the program comes to its end within the budget, unless the run
      is broken off before. */
  lemma RunToEnd(u: Setup, root: nat, base: State, run: seq<Config>, from: nat, acts: Acts, budget: int)
    returns (stop: nat, acts': Acts, left: int)
    requires Good(u) && from < |run| && MovesOn(u.w, run, from) && OnTrack(u, root, base, run, from, acts, budget)
    ensures from <= stop < |run| && OnTrack(u, root, base, run, stop, acts', left)
    ensures left == budget - (stop - from) >= 1 && (stop < |run| - 1 ==> Through(u, acts'))
    ensures AllInside(u, run, from, stop)
  {
    stop, acts', left := from, acts, budget;
    TrackLeft(u, root, base, run, stop, acts', left);
    while stop < |run| - 1 && !Through(u, acts')
      invariant from <= stop < |run| && OnTrack(u, root, base, run, stop, acts', left)
      invariant left == budget - (stop - from) >= 1 && AllInside(u, run, from, stop)
      decreases |run| - stop
    {
      acts', left := StepFrom(u, root, base, run, from, stop, acts', left);
      stop := stop + 1;
    }
  }

  ghost predicate AllInside(u: Setup, run: seq<Config>, from: nat, to: nat)
    requires u.levels != [] && to <= |run|
  {
    forall i :: from <= i < to ==> Inside(u, run[i])
  }

  lemma StepFrom(u: Setup, root: nat, base: State, run: seq<Config>, from: nat, n: nat, acts: Acts, budget: int)
    returns (acts': Acts, left: int)
    requires Good(u) && from <= n && n + 1 < |run| && OnTrack(u, root, base, run, n, acts, budget) && !Through(u, acts)
    requires MovesOn(u.w, run, from) && AllInside(u, run, from, n)
    ensures OnTrack(u, root, base, run, n + 1, acts', left) && left == budget - 1 >= 1 && AllInside(u, run, from, n + 1)
  {
    assert MovesAt(u.w, run, n);
    TrackInside(u, root, base, run, n, acts, budget);
    acts' := StepOnTrack(u, root, base, run, n, acts, budget);
    left := budget - 1;
    TrackLeft(u, root, base, run, n + 1, acts', left);
  }

  lemma TrackLeft(u: Setup, root: nat, base: State, run: seq<Config>, n: nat, acts: Acts, budget: int)
    requires Good(u) && OnTrack(u, root, base, run, n, acts, budget)
    ensures budget >= 1
  {
    BudgetLeft(u, acts, budget);
  }

  lemma MainOnTrack(u: Setup, run: seq<Config>, n: nat)
    requires Good(u) && n < |run| && run[n].Running? && run[n].program == 0 && Get(run[n].state, SP) == u.hi
    requires run[n].at <= |u.w.code[0]| && (run[n].at == 0 || u.w.code[0][run[n].at - 1].category == JUMP)
    ensures OnTrack(u, 0, run[n].state, run, n, Act(0, run[n].at, run[n].state, n, NoAct), CostFrom(u, 0, run[n].at))
  {
    var k, s := run[n].at, run[n].state;
    FramedAt(u, 0);
    HeldOutside(u.w, u.w.code[0], k, s);
    GoodIsSound(u);
    assert StackOf(Act(0, k, s, n, NoAct)) == Push(Frame(0, k), Empty);
    assert Total(u.levels, u.graph, u.w.code, Empty) == 0;
  }

  lemma SubOnTrack(u: Setup, run: seq<Config>, n: nat)
    requires Good(u) && n < |run| && run[n].Running? && 0 < run[n].program < |u.w.code| && run[n].at == 0
    requires Get(run[n].state, SP) == u.hi
    ensures OnTrack(u, run[n].program, run[n].state, run, n, Act(run[n].program, 0, run[n].state, n, NoAct),
                    CostFrom(u, run[n].program, 0))
  {
    var q, s := run[n].program, run[n].state;
    ProgramEnters(u, q, s);
    HeldOutside(u.w, u.w.code[q], 0, s);
    GoodIsSound(u);
    assert StackOf(Act(q, 0, s, n, NoAct)) == Push(Frame(q, 0), Empty);
    assert Total(u.levels, u.graph, u.w.code, Empty) == 0;
  }

  /** The bound of ProgramRun for the rest of program p. */
  ghost function CostFrom(u: Setup, p: nat, k: nat): nat
    requires Good(u) && p < |u.w.code|
  {
    GoodIsSound(u);
    Cost(u.levels, u.graph, u.w.code, p, k)
  }

  // ---------------------------------------------------------------- the main program, and what comes behind it

  /** Every run of a generated program reaches `test_done` within the bound, if its stack blocks
      are safe, nothing between them writes SP, its JALR calls do not have the immediate that
      misses, and there is stack for every level. Until then it is at an instruction of the
      program, with the stack pointer in the stack. */
  lemma MainReachesTestDone(u: Setup, start: State, run: seq<Config>) returns (m: nat)
    requires Good(u) && Get(start, SP) == u.hi && IsTextRun(u.w, start, run) && |run| > CostFrom(u, 0, 0)
    ensures m < CostFrom(u, 0, 0) && m < |run| && AtTestDone(u.w, run[m]) && Get(run[m].state, SP) == u.hi
    ensures AllInside(u, run, 0, m)
  {
    MainOnTrack(u, run, 0);
    var acts, left;
    m, acts, left := RunToEnd(u, 0, start, run, 0, Act(0, 0, start, 0, NoAct), CostFrom(u, 0, 0));
    RootIsActive(u.levels, 0, acts);
    EndOfMain(u, acts, run[m]);
  }

  lemma EndOfMain(u: Setup, acts: Acts, c: Config)
    requires Good(u) && acts.Act? && Inv(u, acts, c) && acts.program == 0
    ensures c.at <= |u.w.code[0]| && Get(c.state, SP) == u.hi
  {
    FramedAt(u, 0);
  }

  lemma EndOfRoot(u: Setup, acts: Acts, c: Config)
    requires Good(u) && acts.Act? && Inv(u, acts, c) && Through(u, acts) && acts.program != 0
    ensures c == Running(acts.program, |u.w.code[acts.program]|, c.state) && KeptBy(c.state) == KeptBy(Base(acts))
  {
    EndRestores(u, acts.program, acts.entry, c.state);
  }

  /** The sub-program printed first. */
  function First(w: World): (q: nat)
    requires LaidOut(w) && w.order != []
    ensures 0 < q < |w.code|
  {
    assert w.order[0] in w.order;
    w.order[0]
  }

  /** Behind `test_done`, with any sub-programs, control runs through the first printed one and
      what it calls. Its return, which no call made, goes to the address RA held at `test_done`. */
  lemma TestDoneFallsThrough(u: Setup, run: seq<Config>, m: nat) returns (r: nat)
    requires Good(u) && u.w.order != [] && m < |run| && MovesOn(u.w, run, m)
    requires AtTestDone(u.w, run[m]) && Get(run[m].state, SP) == u.hi
    requires |run| > m + 1 + CostFrom(u, First(u.w), 0)
    ensures m < r <= m + CostFrom(u, First(u.w), 0)
    ensures run[r] == Running(First(u.w), |u.w.code[First(u.w)]|, run[r].state)
    ensures KeptBy(run[r].state) == KeptBy(run[m].state)
    ensures forall i :: m < i <= r ==> run[i].Running? && !AtTestDone(u.w, run[i])
    ensures GoesTo(u.w, JalrAddress(Get(run[m].state, RA), 0), run[r].state, run[r + 1])
  {
    var q := First(u.w);
    assert MovesAt(u.w, run, m);
    SubOnTrack(u, run, m + 1);
    var base, acts := run[m + 1].state, Act(q, 0, run[m + 1].state, m + 1, NoAct);
    var left;
    r, acts, left := RunToEnd(u, q, base, run, m + 1, acts, CostFrom(u, q, 0));
    RootIsActive(u.levels, q, acts);
    EndOfRoot(u, acts, run[r]);
    assert MovesAt(u.w, run, r);
  }

  /** So whether the run ends there, or goes round again, depends on RA alone. */
  lemma LapEndsIff(u: Setup, run: seq<Config>, m: nat) returns (r: nat)
    requires Good(u) && u.w.order != [] && m < |run| && MovesOn(u.w, run, m)
    requires AtTestDone(u.w, run[m]) && Get(run[m].state, SP) == u.hi
    requires |run| > m + 1 + CostFrom(u, First(u.w), 0)
    ensures m < r <= m + CostFrom(u, First(u.w), 0) && forall i :: m < i <= r ==> run[i].Running?
    ensures var a := JalrAddress(Get(run[m].state, RA), 0);
      && (a == u.w.tohost ==> run[r + 1].Done?)
      && (forall p: nat, k: nat :: InText(u.w, p, k) && u.w.addr[p][k] == a ==> run[r + 1] == Running(p, k, run[r].state))
  {
    r := TestDoneFallsThrough(u, run, m);
  }

  // ---------------------------------------------------------------- laps

  /** Behind the last call. */
  predicate AfterCalls(list: seq<Instr>, k: nat) {
    forall j :: k <= j < |list| ==> list[j].category != JUMP
  }

  /** The address behind a call of the main program. */
  ghost predicate BehindCall(w: World, a: Word) {
    exists k: nat :: BehindCallAt(w, a, k)
  }

  predicate BehindCallAt(w: World, a: Word, k: nat) {
    |w.code| > 0 && 0 < k <= |w.code[0]| && w.code[0][k - 1].category == JUMP && InText(w, 0, k) && w.addr[0][k] == a
  }

  predicate MainAlone(acts: Acts)
    requires acts.Act?
  {
    acts.below.NoAct? && acts.program == 0
  }

  /** The main program, or the sub-program it fell into, with what they call. Behind the last call
      of the main program (or always) RA holds an address behind a call of it. */
  ghost predicate Lapping(u: Setup, always: bool, c: Config, root: nat, acts: Acts)
    requires Good(u)
  {
    && acts.Act? && Inv(u, acts, c) && Nested(u.levels, root, StackOf(acts)) && Within(u.w.code, StackOf(acts))
    && Get(Base(acts), SP) == u.hi
    && (root == 0 || (u.w.order != [] && root == First(u.w) && BehindCall(u.w, Get(Base(acts), RA))))
    && (MainAlone(acts) && (always || AfterCalls(u.w.code[0], acts.at)) ==> BehindCall(u.w, Get(c.state, RA)))
  }

  lemma MainLaps(u: Setup, always: bool, k: nat, s: State)
    requires Good(u) && Get(s, SP) == u.hi && k <= |u.w.code[0]|
    requires k == 0 || u.w.code[0][k - 1].category == JUMP
    requires always || AfterCalls(u.w.code[0], k) ==> BehindCall(u.w, Get(s, RA))
    ensures Lapping(u, always, Running(0, k, s), 0, Act(0, k, s, 0, NoAct))
  {
    FramedAt(u, 0);
    HeldOutside(u.w, u.w.code[0], k, s);
    assert StackOf(Act(0, k, s, 0, NoAct)) == Push(Frame(0, k), Empty);
  }

  lemma SubLaps(u: Setup, always: bool, s: State)
    requires Good(u) && u.w.order != [] && Get(s, SP) == u.hi && BehindCall(u.w, Get(s, RA))
    ensures Lapping(u, always, Running(First(u.w), 0, s), First(u.w), Act(First(u.w), 0, s, 0, NoAct))
  {
    var q := First(u.w);
    ProgramEnters(u, q, s);
    HeldOutside(u.w, u.w.code[q], 0, s);
    assert StackOf(Act(q, 0, s, 0, NoAct)) == Push(Frame(q, 0), Empty);
  }

  lemma FollowsBase(w: World, c: Config, acts: Acts, acts': Acts, n: nat)
    requires Follows(w, c, acts, acts', n) && acts'.Act?
    ensures Base(acts') == Base(acts)
  {
    assert Base(acts.(at := c.at + 1)) == Base(acts);
  }

  /** Main is through: the first sub-program is entered. */
  lemma MainThrough(u: Setup, always: bool, c: Config, root: nat, acts: Acts, c': Config)
    requires Good(u) && u.w.order != [] && Lapping(u, always, c, root, acts) && Moves(u.w, c, c')
    requires Through(u, acts) && acts.program == 0
    ensures c' == Running(First(u.w), 0, Set(c.state, GP, 1))
    ensures Lapping(u, always, c', First(u.w), Act(First(u.w), 0, c'.state, 0, NoAct))
  {
    EndOfMain(u, acts, c);
    SubLaps(u, always, Set(c.state, GP, 1));
  }

  /** The first sub-program is through: back behind a call of the main program. */
  lemma SubThrough(u: Setup, always: bool, c: Config, root: nat, acts: Acts, c': Config) returns (k: nat)
    requires Good(u) && Lapping(u, always, c, root, acts) && Moves(u.w, c, c')
    requires Through(u, acts) && acts.program != 0
    ensures c' == Running(0, k, c.state) && Lapping(u, always, c', 0, Act(0, k, c.state, 0, NoAct))
  {
    RootIsActive(u.levels, root, acts);
    EndOfRoot(u, acts, c);
    var a := Get(c.state, RA);
    k :| BehindCallAt(u.w, a, k);
    EvenReturn(a);
    MainLaps(u, always, k, c.state);
  }

  /** A return to the main program leaves RA behind the call. */
  lemma BackInMain(u: Setup, acts: Acts, c: Config, c': Config)
    requires Good(u) && acts.Act? && acts.below.Act? && MainAlone(acts.below) && Inv(u, acts, c) && acts.program != 0
    requires c.at >= |u.w.code[c.program]| && Moves(u.w, c, c')
    ensures BehindCall(u.w, Get(c'.state, RA))
  {
    ReturnStep(u, acts, 0, c, c');
    assert BehindCallAt(u.w, Get(c'.state, RA), acts.below.at);
  }

  /** On its own the main program does not lose the address. */
  ghost predicate KeepsAddress(u: Setup, always: bool, c: Config, acts: Acts, c': Config)
    requires Good(u) && acts.Act?
  {
    MainAlone(acts) && c'.Running? && c'.program == 0 && (always || AfterCalls(u.w.code[0], c'.at)) ==>
      BehindCall(u.w, Get(c'.state, RA))
  }

  lemma InnerLap(u: Setup, always: bool, c: Config, root: nat, acts: Acts, c': Config) returns (acts': Acts)
    requires Good(u) && Lapping(u, always, c, root, acts) && Moves(u.w, c, c')
    requires !Through(u, acts) && KeepsAddress(u, always, c, acts, c')
    ensures Lapping(u, always, c', root, acts')
  {
    GoodIsSound(u);
    acts' := StepKeeps(u, root, acts, 0, c, c');
    FollowsBase(u.w, c, acts, acts', 0);
    StepFalls(u.levels, u.graph, u.w.code, root, StackOf(acts), StackOf(acts'));
    if MainAlone(acts') && !MainAlone(acts) {
      RootIsActive(u.levels, root, acts);
      BackInMain(u, acts, c, c');
    }
  }

  /** Round and round. */
  lemma LapNext(u: Setup, always: bool, c: Config, root: nat, acts: Acts, c': Config) returns (root': nat, acts': Acts)
    requires Good(u) && u.w.order != [] && Lapping(u, always, c, root, acts) && Moves(u.w, c, c')
    requires !Through(u, acts) ==> KeepsAddress(u, always, c, acts, c')
    ensures Lapping(u, always, c', root', acts')
  {
    if !Through(u, acts) {
      root' := root;
      acts' := InnerLap(u, always, c, root, acts, c');
    } else if acts.program == 0 {
      MainThrough(u, always, c, root, acts, c');
      root', acts' := First(u.w), Act(First(u.w), 0, c'.state, 0, NoAct);
    } else {
      var k := SubThrough(u, always, c, root, acts, c');
      root', acts' := 0, Act(0, k, c.state, 0, NoAct);
    }
  }

  // ---------------------------------------------------------------- returns

  /** Whenever the run has come to `test_done`, RA held an address behind a call of the main
      program. */
  ghost predicate CameBack(w: World, run: seq<Config>, n: nat)
    requires n <= |run|
  {
    forall m :: 0 <= m < n && AtTestDone(w, run[m]) ==> BehindCall(w, Get(run[m].state, RA))
  }

  /** The sub-program behind `test_done` was entered in step m. */
  predicate FellIn(w: World, run: seq<Config>, m: nat, n: nat, root: nat, base: State)
    requires LaidOut(w) && n <= |run|
  {
    m < n && AtTestDone(w, run[m]) && w.order != [] && root == First(w) && base == Set(run[m].state, GP, 1)
  }

  ghost predicate Known(u: Setup, root: nat, base: State, run: seq<Config>, m: nat, n: nat, acts: Acts, left: int)
    requires Good(u) && n <= |run|
  {
    && OnTrack(u, root, base, run, n, acts, left) && Get(base, SP) == u.hi
    && (root == 0 || FellIn(u.w, run, m, n, root, base))
  }

  lemma KnownAfterMain(u: Setup, run: seq<Config>, n: nat, acts: Acts)
    requires Good(u) && n + 1 < |run| && acts.Act? && acts.program == 0 && Inv(u, acts, run[n]) && Through(u, acts)
    requires MovesAt(u.w, run, n) && run[n + 1].Running?
    ensures var q, s := run[n + 1].program, run[n + 1].state;
      0 < q < |u.w.code| && Known(u, q, s, run, n, n + 1, Act(q, 0, s, n + 1, NoAct), CostFrom(u, q, 0))
  {
    EndOfMain(u, acts, run[n]);
    assert u.w.order != [] && run[n + 1].program == First(u.w);
    SubOnTrack(u, run, n + 1);
  }

  lemma KnownAfterSub(u: Setup, root: nat, base: State, run: seq<Config>, m: nat, n: nat, acts: Acts)
    requires Good(u) && n + 1 < |run| && acts.Act? && acts.program != 0 && Inv(u, acts, run[n]) && Through(u, acts)
    requires FellIn(u.w, run, m, n, root, base) && Base(acts) == base && Get(base, SP) == u.hi
    requires MovesAt(u.w, run, n) && CameBack(u.w, run, n + 1)
    ensures run[n + 1].Running? && InText(u.w, 0, run[n + 1].at)
    ensures var k, s := run[n + 1].at, run[n + 1].state;
      Known(u, 0, s, run, m, n + 1, Act(0, k, s, n + 1, NoAct), CostFrom(u, 0, k))
  {
    EndOfRoot(u, acts, run[n]);
    var a := Get(run[n].state, RA);
    assert a == Get(run[m].state, RA) && BehindCall(u.w, a);
    var k: nat :| BehindCallAt(u.w, a, k);
    EvenReturn(a);
    MainOnTrack(u, run, n + 1);
  }

  lemma KnownInside(u: Setup, root: nat, base: State, run: seq<Config>, m: nat, n: nat, acts: Acts, left: int) returns (acts': Acts)
    requires Good(u) && n + 1 < |run| && Known(u, root, base, run, m, n, acts, left) && MovesAt(u.w, run, n) && !Through(u, acts)
    ensures Known(u, root, base, run, m, n + 1, acts', left - 1)
  {
    acts' := StepOnTrack(u, root, base, run, n, acts, left);
  }

  lemma NextKnown(u: Setup, root: nat, base: State, run: seq<Config>, m: nat, n: nat, acts: Acts, left: int)
    returns (root': nat, base': State, m': nat, acts': Acts, left': int)
    requires Good(u) && n + 1 < |run| && Known(u, root, base, run, m, n, acts, left) && MovesAt(u.w, run, n)
    requires CameBack(u.w, run, n + 1) && run[n + 1].Running?
    ensures Known(u, root', base', run, m', n + 1, acts', left')
  {
    if !Through(u, acts) {
      acts' := KnownInside(u, root, base, run, m, n, acts, left);
      root', base', m', left' := root, base, m, left - 1;
    } else {
      RootIsActive(u.levels, root, acts);
      base' := run[n + 1].state;
      if acts.program == 0 {
        KnownAfterMain(u, run, n, acts);
        root', m' := run[n + 1].program, n;
        acts', left' := Act(root', 0, base', n + 1, NoAct), CostFrom(u, root', 0);
      } else {
        KnownAfterSub(u, root, base, run, m, n, acts);
        root', m' := 0, m;
        acts', left' := Act(0, run[n + 1].at, base', n + 1, NoAct), CostFrom(u, 0, run[n + 1].at);
      }
    }
  }

  /** As long as it comes back to the main program, it is known where a run is. */
  lemma {:induction false} RunIsKnown(u: Setup, start: State, run: seq<Config>, n: nat)
    returns (root: nat, base: State, m: nat, acts: Acts, left: int)
    requires Good(u) && Get(start, SP) == u.hi && IsTextRun(u.w, start, run) && n < |run|
    requires CameBack(u.w, run, n) && run[n].Running?
    ensures Known(u, root, base, run, m, n, acts, left)
  {
    if n == 0 {
      MainOnTrack(u, run, 0);
      root, base, m, acts, left := 0, start, 0, Act(0, 0, start, 0, NoAct), CostFrom(u, 0, 0);
    } else {
      assert MovesAt(u.w, run, n - 1);
      root, base, m, acts, left := RunIsKnown(u, start, run, n - 1);
      root, base, m, acts, left := NextKnown(u, root, base, run, m, n - 1, acts, left);
    }
  }

  /** A return goes behind the call in step m, with the stack as it was there. */
  ghost predicate ReturnsToCall(u: Setup, run: seq<Config>, m: nat, n: nat)
    requires n + 1 < |run| && m < n && run[m].Running? && run[n].Running?
  {
    && run[m].program < |u.w.code| && run[m].at < |u.w.code[run[m].program]|
    && ControlAt(u.w.code[run[m].program], run[m].at) == CallTo(run[n].program)
    && run[n + 1] == Running(run[m].program, run[m].at + 1, run[n].state)
    && SameAbove(u, Get(run[m].state, SP), run[m].state, run[n].state)
  }

  /** A return goes behind the call of the main program whose address RA held in step m. */
  predicate ReturnsToMain(u: Setup, run: seq<Config>, m: nat, n: nat)
    requires LaidOut(u.w) && n + 1 < |run| && m < n && run[m].Running? && run[n].Running?
  {
    && AtTestDone(u.w, run[m]) && u.w.order != [] && run[n].program == First(u.w)
    && run[n + 1].Running? && run[n + 1] == Running(0, run[n + 1].at, run[n].state)
    && BehindCallAt(u.w, Get(run[m].state, RA), run[n + 1].at)
  }

  /** Every return of a sub-program goes to the instruction behind the jump that called it, with
      SP, T0 and the stack above SP as they were at that jump; or, if no jump did, behind some
      call of the main program, with SP and T0 as they were at `test_done`. */
  lemma CallComesBack(u: Setup, start: State, run: seq<Config>, n: nat) returns (m: nat)
    requires Good(u) && Get(start, SP) == u.hi && IsTextRun(u.w, start, run) && n + 1 < |run| && CameBack(u.w, run, n)
    requires run[n].Running? && run[n].program != 0 && run[n].program < |u.w.code| && run[n].at == |u.w.code[run[n].program]|
    ensures m < n && run[m].Running?
    ensures ReturnsToCall(u, run, m, n) || ReturnsToMain(u, run, m, n)
    ensures Get(run[n].state, SP) == Get(run[m].state, SP) && Get(run[n].state, T0) == Get(run[m].state, T0)
  {
    var root, base, visit, acts, left := RunIsKnown(u, start, run, n);
    assert MovesAt(u.w, run, n);
    if acts.below.Act? {
      m := acts.call;
      ReturnStep(u, acts, 0, run[n], run[n + 1]);
    } else {
      m := visit;
      RootIsActive(u.levels, root, acts);
      EndOfRoot(u, acts, run[n]);
      EvenReturn(Get(run[n].state, RA));
      var k: nat :| BehindCallAt(u.w, Get(run[m].state, RA), k);
    }
  }

  // ---------------------------------------------------------------- when runs end

  ghost predicate Bounded(w: World, start: State, bound: nat)
    requires LaidOut(w)
  {
    forall run :: IsTextRun(w, start, run) ==> |run| <= bound
  }

  ghost predicate SomeBound(w: World, start: State)
    requires LaidOut(w)
  {
    exists bound: nat :: Bounded(w, start, bound)
  }

  /** From every start state, every run ends. */
  ghost predicate AlwaysEnds(u: Setup)
    requires Good(u)
  {
    forall start :: Get(start, SP) == u.hi ==> SomeBound(u.w, start)
  }

  /** Behind the last call RA is written, if at all, by what is left to chance. */
  predicate RaSettled(list: seq<Instr>) {
    forall k :: 0 <= k < |list| && list[k].name in {LA, ADDI, LW} && !Leaves(list[k], RA) ==> !AfterCalls(list, k)
  }

  /** With sub-programs, the main program has a call. */
  lemma MainCalls(u: Setup) returns (k: nat)
    requires Good(u) && |u.levels| > 1
    ensures k < |u.w.code[0]| && u.w.code[0][k].category == JUMP
  {
    var p := HasCaller(u.levels, u.graph, 1);
    FinishedAt(u, 0);
    assert HasCall(u.w.code[0], 1);
    k :| 0 <= k < |u.w.code[0]| && IsCall(u.w.code[0][k], 1);
  }

  lemma OrderIff(u: Setup)
    requires Good(u)
    ensures u.w.order == [] <==> |u.levels| == 1
  {
    assert u.w.order != [] ==> u.w.order[0] in u.w.order;
    if |u.levels| > 1 {
      assert 1 in u.w.order;
    }
  }

  /** A next step that leaves the address in RA where it matters. */
  lemma ChooseNext(u: Setup, c: Config, root: nat, acts: Acts) returns (c': Config)
    requires Good(u) && Lapping(u, false, c, root, acts) && RaSettled(u.w.code[0])
    ensures Moves(u.w, c, c') && (!Through(u, acts) ==> KeepsAddress(u, false, c, acts, c'))
  {
    var main, k, s := u.w.code[0], c.at, c.state;
    if MainAlone(acts) && k < |main| && main[k].category != JUMP {
      var v := SomeValue(u.w, main[k], Get(s, RA));
      c' := Running(0, k + 1, if main[k].category == BRANCH then s else Exec(main[k], v, s));
      if AfterCalls(main, k + 1) {
        assert AfterCalls(main, k);
        KeepsRa(main[k], v, s);
      }
    } else {
      InvInText(u, acts, c);
      c' := MachineGoesOn(u.w, c);
      if MainAlone(acts) && k < |main| {
        CallLands(u, 0, k, acts.entry, s, c');
        CalleeIsSub(u, k, c'.program);
      }
    }
  }

  lemma InvInText(u: Setup, acts: Acts, c: Config)
    requires Good(u) && acts.Act? && Inv(u, acts, c)
    ensures InText(u.w, c.program, c.at)
  {
  }

  lemma CalleeIsSub(u: Setup, k: nat, q: nat)
    requires Good(u) && k < |u.w.code[0]| && ControlAt(u.w.code[0], k) == CallTo(q)
    ensures q != 0
  {
    FinishedAt(u, 0);
    CallsDescend(u.levels, u.graph, 0, q);
  }

  lemma KeepsRa(i: Instr, v: Word, s: State)
    requires Leaves(i, RA) || (i.name !in {LA, ADDI, LW} && v == Get(s, RA))
    ensures Get(Exec(i, v, s), RA) == Get(s, RA)
  {
  }

  /** Runs of any length that do not end. */
  lemma LongRun(u: Setup, start: State, n: nat) returns (run: seq<Config>)
    requires Good(u) && |u.levels| > 1 && RaSettled(u.w.code[0]) && Get(start, SP) == u.hi
    ensures IsTextRun(u.w, start, run) && |run| == n + 1
  {
    OrderIff(u);
    var k := MainCalls(u);
    MainLaps(u, false, 0, start);
    var c, root, acts := Running(0, 0, start), 0, Act(0, 0, start, 0, NoAct);
    run := [c];
    while |run| <= n
      invariant 0 < |run| <= n + 1 && IsTextRun(u.w, start, run) && run[|run| - 1] == c
      invariant Lapping(u, false, c, root, acts)
    {
      var c' := ChooseNext(u, c, root, acts);
      root, acts := LapNext(u, false, c, root, acts, c');
      LongerRun(u.w, start, run, c');
      run, c := run + [c'], c';
    }
  }

  lemma LongerRun(w: World, start: State, run: seq<Config>, c': Config)
    requires LaidOut(w) && IsTextRun(w, start, run) && Moves(w, run[|run| - 1], c')
    ensures IsTextRun(w, start, run + [c'])
  {
    var longer := run + [c'];
    forall n | 0 <= n < |longer| - 1 ensures MovesAt(w, longer, n) {
      if n < |run| - 1 {
        assert MovesAt(w, run, n);
      }
    }
  }

  /** Without sub-programs `test_done` is followed by `write_tohost`. */
  lemma AloneEnds(u: Setup, start: State)
    requires Good(u) && |u.levels| == 1 && Get(start, SP) == u.hi
    ensures Bounded(u.w, start, CostFrom(u, 0, 0) + 1)
  {
    OrderIff(u);
    forall run: seq<Config> | IsTextRun(u.w, start, run) ensures |run| <= CostFrom(u, 0, 0) + 1 {
      if |run| > CostFrom(u, 0, 0) {
        forall n | 0 <= n < |run| - 1 ensures run[n].Running? {
          assert MovesAt(u.w, run, n);
        }
        var m := MainReachesTestDone(u, start, run);
        assert m + 1 < |run| ==> MovesAt(u.w, run, m);
      }
    }
  }

  /** So every run of the text ends if and only if there is no sub-program. With sub-programs
      there are runs of every length from every start state. */
  lemma TextEndsIff(u: Setup)
    requires Good(u) && RaSettled(u.w.code[0])
    ensures AlwaysEnds(u) <==> |u.levels| == 1
    ensures |u.levels| > 1 ==> forall start :: Get(start, SP) == u.hi ==> !SomeBound(u.w, start)
  {
    assert |u.levels| >= 1;
    if |u.levels| == 1 {
      forall start | Get(start, SP) == u.hi ensures SomeBound(u.w, start) {
        AloneEnds(u, start);
      }
    } else {
      forall start | Get(start, SP) == u.hi ensures !SomeBound(u.w, start) {
        if SomeBound(u.w, start) {
          var bound: nat :| Bounded(u.w, start, bound);
          var run := LongRun(u, start, bound);
        }
      }
      var start := State(seq(32, _ => u.hi), map[]);
      assert Get(start, SP) == u.hi;
    }
  }

  /** A main program that sets RA to the address of `write_tohost` at its very end. */
  predicate SetsRaLast(w: World) {
    && |w.code| > 0 && w.code[0] != []
    && var last := w.code[0][|w.code[0]| - 1];
       last.name == ADDI && last.category == ARITHMETIC && last.rd == RA && last.src1 == ZERO && last.imm == w.tohost
  }

  /** The step that leads to the end of such a program is its last instruction. */
  lemma LastStep(u: Setup, run: seq<Config>, n: nat, acts: Acts, acts': Acts)
    requires Good(u) && n + 1 < |run| && SetsRaLast(u.w) && MovesAt(u.w, run, n)
    requires acts.Act? && Inv(u, acts, run[n]) && Follows(u.w, run[n], acts, acts', n)
    requires acts'.Act? && acts'.program == 0 && acts'.at == |u.w.code[0]|
    requires acts.program == 0 ==> acts.at < |u.w.code[0]|
    ensures acts.program == 0 && acts.at + 1 == |u.w.code[0]|
  {
    FinishedAt(u, acts.program);
    if acts.at < |u.w.code[acts.program]| && u.w.code[acts.program][acts.at].category == BRANCH {
      BranchFound(u.w.code[acts.program], u.graph[acts.program], acts.at);
    }
  }

  lemma RaIsTohost(u: Setup, start: State, run: seq<Config>, m: nat)
    requires Good(u) && Get(start, SP) == u.hi && IsTextRun(u.w, start, run) && SetsRaLast(u.w)
    requires m < |run| && AtTestDone(u.w, run[m]) && AllInside(u, run, 0, m)
    ensures Get(run[m].state, RA) == u.w.tohost
  {
    var n := m - 1;
    assert Inside(u, run[n]) && CameBack(u.w, run, n);
    var root, base, visit, acts, left := RunIsKnown(u, start, run, n);
    RootIsActive(u.levels, root, acts);
    assert MovesAt(u.w, run, n);
    assert root == 0 && !Through(u, acts);
    var acts' := StepOnTrack(u, root, base, run, n, acts, left);
    LastStep(u, run, n, acts, acts');
  }

  /** Every run of such a text ends, with sub-programs or without: what RA holds behind the last
      call decides. */
  lemma SettingRaEnds(u: Setup)
    requires Good(u) && SetsRaLast(u.w)
    ensures AlwaysEnds(u)
  {
    forall start | Get(start, SP) == u.hi ensures SomeBound(u.w, start) {
      if u.w.order == [] {
        OrderIff(u);
        AloneEnds(u, start);
      } else {
        SecondEnd(u, start);
      }
    }
  }

  lemma SecondEnd(u: Setup, start: State)
    requires Good(u) && SetsRaLast(u.w) && u.w.order != [] && Get(start, SP) == u.hi
    ensures Bounded(u.w, start, CostFrom(u, 0, 0) + CostFrom(u, First(u.w), 0) + 2)
  {
    var bound := CostFrom(u, 0, 0) + CostFrom(u, First(u.w), 0) + 2;
    forall run: seq<Config> | IsTextRun(u.w, start, run) ensures |run| <= bound {
      forall n | 0 <= n < |run| - 1 ensures run[n].Running? {
        assert MovesAt(u.w, run, n);
      }
      if |run| > CostFrom(u, 0, 0) {
        var m := MainReachesTestDone(u, start, run);
        RaIsTohost(u, start, run, m);
        EvenReturn(u.w.tohost);
        if |run| > m + 1 + CostFrom(u, First(u.w), 0) {
          var r := LapEndsIff(u, run, m);
        }
      }
    }
  }

  /** If the main program leaves RA to its calls, and RA starts behind one of them, no run at all
      ever ends. */
  lemma {:induction false} NoRunEnds(u: Setup, start: State, run: seq<Config>, n: nat) returns (root: nat, acts: Acts)
    requires Good(u) && |u.levels| > 1 && Get(start, SP) == u.hi && BehindCall(u.w, Get(start, RA))
    requires forall k :: 0 <= k < |u.w.code[0]| ==> u.w.code[0][k].category == JUMP || Leaves(u.w.code[0][k], RA)
    requires IsTextRun(u.w, start, run) && n < |run|
    ensures run[n].Running? && Lapping(u, true, run[n], root, acts)
  {
    OrderIff(u);
    if n == 0 {
      MainLaps(u, true, 0, start);
      root, acts := 0, Act(0, 0, start, 0, NoAct);
    } else {
      root, acts := NoRunEnds(u, start, run, n - 1);
      assert MovesAt(u.w, run, n - 1);
      if !Through(u, acts) {
        AddressKept(u, run[n - 1], root, acts, run[n]);
      }
      root, acts := LapNext(u, true, run[n - 1], root, acts, run[n]);
    }
  }

  lemma AddressKept(u: Setup, c: Config, root: nat, acts: Acts, c': Config)
    requires Good(u) && Lapping(u, true, c, root, acts) && Moves(u.w, c, c') && !Through(u, acts)
    requires forall k :: 0 <= k < |u.w.code[0]| ==> u.w.code[0][k].category == JUMP || Leaves(u.w.code[0][k], RA)
    ensures KeepsAddress(u, true, c, acts, c')
  {
    var main, k, s := u.w.code[0], c.at, c.state;
    if MainAlone(acts) {
      if main[k].category == JUMP {
        CallLands(u, 0, k, acts.entry, s, c');
        CalleeIsSub(u, k, c'.program);
      } else if main[k].category == BRANCH {
        FinishedAt(u, 0);
        BranchFound(main, u.graph[0], k);
      } else {
        var v :| Yields(u.w, main[k], v) && c' == Running(0, k + 1, Exec(main[k], v, s));
        KeepsRa(main[k], v, s);
      }
    }
  }
}
