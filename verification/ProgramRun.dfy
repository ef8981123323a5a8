/** Runs of a generated program: control only moves forward inside a sequence, and every call
    enters a program one level deeper, so every run ends. */
module ProgramRun {
  import opened InstrBase
  import opened CallstackGen

  // ---------------------------------------------------------------- control flow

  /** What an instruction does to control. A branch may be taken or not; a call returns to
      the next instruction; Wild is a jump to an unknown place. */
  datatype Control = Next | MayBranch(dest: nat) | CallTo(callee: nat) | Wild

  /** A call with JAL reaches its label. A call with JALR does unless its immediate is -1024
      (JumpStream.ReachesTargetIff). */
  predicate Reaches(jump: Instr) {
    jump.name == JAL || (jump.name == JALR && jump.imm != -1024)
  }

  function ControlAt(list: seq<Instr>, k: nat): Control
    requires k < |list|
  {
    if list[k].category == JUMP then
      if list[k].tag.JumpPoint? && Reaches(list[k]) then CallTo(list[k].tag.callee) else Wild
    else if list[k].category == BRANCH then
      var j := Find(list, k + 1, list[k].target);
      if j < |list| then MayBranch(j) else Wild
    else Next
  }

  /** Branches go forward, and the calls of program p are those of the call graph. */
  predicate Sound(list: seq<Instr>, calls: seq<nat>) {
    forall k :: 0 <= k < |list| ==>
      match ControlAt(list, k)
      case Next => true
      case MayBranch(dest) => k < dest < |list|
      case CallTo(callee) => callee in calls
      case Wild => false
  }

  ghost predicate SoundProgram(levels: seq<nat>, graph: CallGraph, code: seq<seq<Instr>>) {
    && CallTree(levels, graph) && |code| == |graph|
    && forall p :: 0 <= p < |code| ==> Sound(code[p], graph[p])
  }

  // ---------------------------------------------------------------- the machine

  datatype Frame = Frame(program: nat, at: nat)

  /** The frame in front is the running program, the others wait for it. */
  datatype Stack = Empty | Push(top: Frame, below: Stack)

  function Depth(s: Stack): nat {
    match s case Empty => 0 case Push(_, below) => 1 + Depth(below)
  }

  predicate Step(code: seq<seq<Instr>>, s: Stack, s': Stack) {
    && s.Push? && s.top.program < |code|
    && var list, p, k := code[s.top.program], s.top.program, s.top.at;
       if k >= |list| then s' == s.below
       else match ControlAt(list, k)
         case Next => s' == Push(Frame(p, k + 1), s.below)
         case MayBranch(dest) => s' == Push(Frame(p, k + 1), s.below) || s' == Push(Frame(p, dest), s.below)
         case CallTo(q) => s' == Push(Frame(q, 0), Push(Frame(p, k + 1), s.below))
         case Wild => true
  }

  /** A run of one program, from its first instruction. */
  ghost predicate IsRun(code: seq<seq<Instr>>, root: nat, run: seq<Stack>) {
    && run != [] && run[0] == Push(Frame(root, 0), Empty)
    && forall n :: 0 < n < |run| ==> Step(code, run[n - 1], run[n])
  }

  // ---------------------------------------------------------------- the measure

  /** Waiting frames belong to programs of strictly lower levels, the last of them to `root`. */
  predicate Nested(levels: seq<nat>, root: nat, s: Stack) {
    match s
    case Empty => true
    case Push(top, below) =>
      && top.program < |levels|
      && (below.Push? ==> below.top.program < |levels| && levels[below.top.program] + 1 == levels[top.program])
      && (below.Empty? ==> top.program == root)
      && Nested(levels, root, below)
  }

  lemma {:induction false} NestedDepth(levels: seq<nat>, root: nat, s: Stack)
    requires Levelled(levels) && root < |levels| && Nested(levels, root, s) && s.Push?
    ensures levels[root] + Depth(s) == levels[s.top.program] + 1 <= LastLevel(levels) + 1
  {
    LevelsGrow(levels, s.top.program, |levels| - 1);
    if s.below.Push? {
      NestedDepth(levels, root, s.below);
    } else {
      assert Depth(s.below) == 0;
    }
  }

  /** A bound on the steps from instruction k of program p to the end of p, with everything it
      calls: it falls with the levels left and, on one level, with the instructions left. */
  ghost function Cost(levels: seq<nat>, graph: CallGraph, code: seq<seq<Instr>>, p: nat, k: nat): nat
    requires SoundProgram(levels, graph, code) && p < |code|
    decreases LastLevel(levels) + 1 - levels[p], |code[p]| + 1 - k
  {
    if k >= |code[p]| then 1
    else
      var callee :=
        if ControlAt(code[p], k).CallTo? then
          var q := ControlAt(code[p], k).callee;
          CallsDescend(levels, graph, p, q);
          LevelsGrow(levels, q, |levels| - 1);
          Cost(levels, graph, code, q, 0)
        else 0;
      1 + callee + Cost(levels, graph, code, p, k + 1)
  }

  lemma {:induction false} CostFalls(levels: seq<nat>, graph: CallGraph, code: seq<seq<Instr>>, p: nat, k: nat, dest: nat)
    requires SoundProgram(levels, graph, code) && p < |code| && k < dest <= |code[p]|
    ensures Cost(levels, graph, code, p, dest) < Cost(levels, graph, code, p, k)
    decreases dest
  {
    if k + 1 < dest {
      CostFalls(levels, graph, code, p, k, dest - 1);
    }
  }

  ghost predicate Within(code: seq<seq<Instr>>, s: Stack) {
    s.Push? ==> s.top.program < |code| && s.top.at <= |code[s.top.program]| && Within(code, s.below)
  }

  ghost function Total(levels: seq<nat>, graph: CallGraph, code: seq<seq<Instr>>, s: Stack): nat
    requires SoundProgram(levels, graph, code) && Within(code, s)
  {
    match s
    case Empty => 0
    case Push(top, below) => Cost(levels, graph, code, top.program, top.at) + Total(levels, graph, code, below)
  }

  /** Every step keeps the nesting and lowers the measure. */
  lemma StepFalls(levels: seq<nat>, graph: CallGraph, code: seq<seq<Instr>>, root: nat, s: Stack, s': Stack)
    requires SoundProgram(levels, graph, code)
    requires Within(code, s) && Nested(levels, root, s) && Step(code, s, s')
    ensures Within(code, s') && Nested(levels, root, s')
    ensures Total(levels, graph, code, s') < Total(levels, graph, code, s)
  {
    var p, k := s.top.program, s.top.at;
    if k < |code[p]| {
      assert Sound(code[p], graph[p]);
      match ControlAt(code[p], k)
      case Next =>
      case MayBranch(dest) =>
        CostFalls(levels, graph, code, p, k, dest);
      case CallTo(q) =>
        CallsDescend(levels, graph, p, q);
      case Wild =>
    }
  }

  lemma {:induction false} RunFalls(levels: seq<nat>, graph: CallGraph, code: seq<seq<Instr>>, root: nat, run: seq<Stack>, n: nat)
    requires SoundProgram(levels, graph, code) && root < |code| && IsRun(code, root, run) && n < |run|
    ensures Within(code, run[n]) && Nested(levels, root, run[n])
    ensures Total(levels, graph, code, run[n]) + n <= Cost(levels, graph, code, root, 0)
  {
    if n == 0 {
      assert run[0].below == Empty;
      assert Total(levels, graph, code, Empty) == 0;
    } else {
      RunFalls(levels, graph, code, root, run, n - 1);
      StepFalls(levels, graph, code, root, run[n - 1], run[n]);
    }
  }

  /** No run of a program is longer than its cost, however its branches go, and never do more
      programs wait for each other than there are levels below it. */
  lemma EveryRunEnds(levels: seq<nat>, graph: CallGraph, code: seq<seq<Instr>>, root: nat, run: seq<Stack>, n: nat)
    requires SoundProgram(levels, graph, code) && root < |code| && IsRun(code, root, run) && n < |run|
    ensures |run| <= Cost(levels, graph, code, root, 0) + 1
    ensures levels[root] + Depth(run[n]) <= LastLevel(levels) + 1
  {
    RunFalls(levels, graph, code, root, run, |run| - 1);
    RunFalls(levels, graph, code, root, run, n);
    if run[n].Push? {
      NestedDepth(levels, root, run[n]);
    } else {
      LevelsGrow(levels, root, |levels| - 1);
    }
  }

  /** It never stops before the program is through. */
  lemma RunGoesOn(levels: seq<nat>, graph: CallGraph, code: seq<seq<Instr>>, s: Stack) returns (s': Stack)
    requires SoundProgram(levels, graph, code) && Within(code, s) && s.Push?
    ensures Step(code, s, s')
  {
    var p, k := s.top.program, s.top.at;
    if k >= |code[p]| {
      s' := s.below;
    } else {
      var next := Push(Frame(p, k + 1), s.below);
      s' := if ControlAt(code[p], k).CallTo? then Push(Frame(ControlAt(code[p], k).callee, 0), next) else next;
    }
  }
}
