/** The call stack generator (riscv_callstack_gen.py): given a level for every program, it
    hands every program of level i a list of programs of level i+1 to call. */
module CallstackGen {

  // ---------------------------------------------------------------- levels

  /** The level constraints: program 0 is on level 0, the others on level 1 or deeper, and
      the levels never fall and rise by at most one. */
  predicate Levelled(levels: seq<nat>) {
    && levels != [] && levels[0] == 0
    && forall i :: 0 < i < |levels| ==> levels[i] > 0 && levels[i - 1] <= levels[i] <= levels[i - 1] + 1
  }

  function LastLevel(levels: seq<nat>): nat
    requires levels != []
  {
    levels[|levels| - 1]
  }

  lemma {:induction false} LevelsGrow(levels: seq<nat>, i: nat, j: nat)
    requires Levelled(levels) && i <= j < |levels|
    ensures levels[i] <= levels[j]
  {
    if i < j {
      LevelsGrow(levels, i, j - 1);
    }
  }

  /** Every level up to the last is inhabited. */
  lemma {:induction false} LevelInhabited(levels: seq<nat>, level: nat) returns (p: nat)
    requires Levelled(levels) && level <= LastLevel(levels)
    ensures p < |levels| && levels[p] == level
  {
    p := |levels| - 1;
    while levels[p] > level
      invariant p < |levels| && level <= levels[p]
      decreases p
    {
      p := p - 1;
    }
  }

  /** The programs on one level, in order. */
  function Members(levels: seq<nat>, level: nat): seq<nat> {
    if levels == [] then []
    else
      var n := |levels| - 1;
      Members(levels[..n], level) + if levels[n] == level then [n] else []
  }

  predicate Ascending(m: seq<nat>) {
    forall k, n :: 0 <= k < n < |m| ==> m[k] < m[n]
  }

  lemma {:induction false} MemberIff(levels: seq<nat>, level: nat, p: nat)
    ensures p in Members(levels, level) <==> p < |levels| && levels[p] == level
  {
    if levels != [] {
      MemberIff(levels[..|levels| - 1], level, p);
    }
  }

  lemma {:induction false} MembersAscend(levels: seq<nat>, level: nat)
    ensures Ascending(Members(levels, level))
    ensures forall k :: 0 <= k < |Members(levels, level)| ==> Members(levels, level)[k] < |levels|
  {
    if levels != [] {
      MembersAscend(levels[..|levels| - 1], level);
    }
  }

  // ---------------------------------------------------------------- the call graph

  /** calls[p] lists the programs that p calls. */
  type CallGraph = seq<seq<nat>>

  function Calls(graph: CallGraph, p: nat): seq<nat> {
    if p < |graph| then graph[p] else []
  }

  /** All calls of some programs, one program after the other. */
  function CallsOf(graph: CallGraph, programs: seq<nat>): seq<nat> {
    if programs == [] then []
    else CallsOf(graph, programs[..|programs| - 1]) + Calls(graph, programs[|programs| - 1])
  }

  /** The pool of calls of one level: every program of the next level, and at most one of
      them a second time. */
  predicate Pool(pool: seq<nat>, next: seq<nat>) {
    multiset(pool) == multiset(next) || exists q :: q in next && OneTwice(pool, next, q)
  }

  predicate OneTwice(pool: seq<nat>, next: seq<nat>, q: nat) {
    multiset(pool) == multiset(next) + multiset{q}
  }

  /** Level by level, the calls are exactly a pool handed out in order. */
  ghost predicate LevelCalls(levels: seq<nat>, graph: CallGraph, level: nat) {
    Pool(CallsOf(graph, Members(levels, level)), Members(levels, level + 1))
  }

  ghost predicate CallTree(levels: seq<nat>, graph: CallGraph) {
    && |graph| == |levels| && Levelled(levels)
    && (forall level :: 0 <= level < LastLevel(levels) ==> LevelCalls(levels, graph, level))
    && (forall p :: 0 <= p < |graph| && levels[p] >= LastLevel(levels) ==> graph[p] == [])
  }

  datatype RiscvProgram = RiscvProgram(programId: nat, callStackLevel: nat, subProgramId: seq<nat>)

  function Graph(programs: seq<RiscvProgram>): CallGraph {
    seq(|programs|, p requires 0 <= p < |programs| => programs[p].subProgramId)
  }

  predicate SameProgram(a: RiscvProgram, b: RiscvProgram) {
    a.programId == b.programId && a.callStackLevel == b.callStackLevel
  }

  function Sum(s: seq<nat>): nat {
    if s == [] then 0 else Sum(s[..|s| - 1]) + s[|s| - 1]
  }

  lemma {:induction false} SumOfZeros(count: nat, first: nat)
    requires count > 0
    ensures Sum([first] + seq(count - 1, _ => 0)) == first
  {
    var s := [first] + seq(count - 1, _ => 0);
    if count == 1 {
      assert s[..0] == [];
    } else {
      assert s[..|s| - 1] == [first] + seq(count - 2, _ => 0);
      SumOfZeros(count - 1, first);
    }
  }

  lemma {:induction false} SumPrefix(s: seq<nat>, n: nat)
    requires n <= |s|
    ensures Sum(s[..n]) <= Sum(s)
  {
    if n < |s| {
      assert s[..|s| - 1][..n] == s[..n];
      SumPrefix(s[..|s| - 1], n);
    } else {
      assert s[..n] == s;
    }
  }

  class RiscvCallstackGen {
    var programH: seq<RiscvProgram>
    const stackLevel: seq<nat>

    /** One fresh program for each level given; nobody calls anybody yet. */
    constructor (levels: seq<nat>)
      ensures stackLevel == levels && |programH| == |levels|
      ensures forall p :: 0 <= p < |levels| ==> programH[p].subProgramId == []
    {
      stackLevel := levels;
      programH := seq(|levels|, _ => RiscvProgram(0, 0, []));
    }

    /** Lines 146-150: the programs of a level. */
    method MembersAt(level: nat) returns (list: seq<nat>)
      ensures list == Members(stackLevel, level)
    {
      list := [];
      for j := 0 to |stackLevel|
        invariant list == Members(stackLevel[..j], level)
      {
        assert stackLevel[..j + 1][..j] == stackLevel[..j];
        if stackLevel[j] == level {
          list := list + [j];
        }
      }
      assert stackLevel[..|stackLevel|] == stackLevel;
    }

    /** Lines 155-165: the next level, perhaps one of it twice, shuffled. */
    method MakePool(next: seq<nat>) returns (pool: seq<nat>)
      requires next != []
      ensures Pool(pool, next)
    {
      var total :| |next| <= total <= |next| + 1;
      var drawn := next;
      if total > |next| {
        var k :| 0 <= k < |next|;
        drawn := next + [next[k]];
      }
      pool :| multiset(pool) == multiset(drawn);
      assert total > |next| ==> OneTwice(pool, next, drawn[|next|]);
    }

    /** The constraint solver's answer: shares that add up to the size of the pool. */
    method Shares(count: nat, total: nat) returns (shares: seq<nat>)
      requires count > 0
      ensures |shares| == count && Sum(shares) == total
    {
      SumOfZeros(count, total);
      shares :| |shares| == count && Sum(shares) == total;
    }

    /** Lines 180-185: program `id` takes the next calls of the pool. */
    method AssignCalls(id: nat, pool: seq<nat>, start: nat, count: nat) returns (idx: nat)
      requires id < |programH| && start + count <= |pool|
      modifies this
      ensures idx == start + count
      ensures programH == old(programH)[id := old(programH)[id].(subProgramId := pool[start..idx])]
    {
      idx := start;
      var calls := [];
      for i := 0 to count
        invariant idx == start + i && calls == pool[start..idx]
      {
        calls := calls + [pool[idx]];
        idx := idx + 1;
      }
      programH := programH[id := programH[id].(subProgramId := calls)];
    }

    /** Lines 166-185: the pool handed out in order. Only the given programs change. */
    method Distribute(programs: seq<nat>, pool: seq<nat>)
      requires programs != [] && Ascending(programs)
      requires forall k :: 0 <= k < |programs| ==> programs[k] < |programH|
      modifies this
      ensures Handed(old(programH), programH, programs, pool)
    {
      var shares := Shares(|programs|, |pool|);
      var idx := 0;
      ghost var before := programH;
      for j := 0 to |programs|
        invariant idx == Sum(shares[..j]) && Sum(shares[..j]) <= |pool|
        invariant Handed(before, programH, programs[..j], pool[..idx])
      {
        idx := HandOneShare(before, programs, j, pool, idx, shares);
      }
      assert shares[..|shares|] == shares && programs[..|programs|] == programs && pool[..|pool|] == pool;
    }

    /** One program's turn. */
    method HandOneShare(ghost before: seq<RiscvProgram>, programs: seq<nat>, j: nat, pool: seq<nat>, idx: nat, shares: seq<nat>)
      returns (idx': nat)
      requires Ascending(programs) && j < |programs| == |shares| && programs[j] < |programH|
      requires idx == Sum(shares[..j]) <= Sum(shares) == |pool|
      requires Handed(before, programH, programs[..j], pool[..idx])
      modifies this
      ensures idx' == Sum(shares[..j + 1]) <= |pool|
      ensures Handed(before, programH, programs[..j + 1], pool[..idx'])
    {
      ShareStep(shares, j);
      HandedStep(before, programH, programs, j, pool, idx, shares[j]);
      idx' := AssignCalls(programs[j], pool, idx, shares[j]);
    }

    /** One round of the top-down generation (lines 140-185). */
    method GenerateLevel(level: nat)
      requires Levelled(stackLevel) && |programH| == |stackLevel| && level < LastLevel(stackLevel)
      modifies this
      ensures |programH| == |stackLevel| && LevelCalls(stackLevel, Graph(programH), level)
      ensures forall p :: 0 <= p < |programH| && stackLevel[p] != level ==> programH[p] == old(programH)[p]
      ensures forall p :: 0 <= p < |programH| ==> SameProgram(programH[p], old(programH)[p])
    {
      var programList := MembersAt(level);
      var nextProgramList := MembersAt(level + 1);
      ghost var p := LevelInhabited(stackLevel, level);
      ghost var q := LevelInhabited(stackLevel, level + 1);
      MemberIff(stackLevel, level, p);
      MemberIff(stackLevel, level + 1, q);
      MembersAscend(stackLevel, level);
      var pool := MakePool(nextProgramList);
      Distribute(programList, pool);
      forall p: nat ensures p in programList <==> p < |stackLevel| && stackLevel[p] == level {
        MemberIff(stackLevel, level, p);
      }
    }

    /** Lines 134-136. */
    method NumberPrograms()
      requires |programH| == |stackLevel|
      modifies this
      ensures |programH| == |stackLevel|
      ensures forall p :: 0 <= p < |programH| ==>
                programH[p] == RiscvProgram(p, stackLevel[p], old(programH)[p].subProgramId)
    {
      for i := 0 to |programH|
        invariant |programH| == |stackLevel|
        invariant forall p :: i <= p < |programH| ==> programH[p] == old(programH)[p]
        invariant forall p :: 0 <= p < i ==> programH[p] == RiscvProgram(p, stackLevel[p], old(programH)[p].subProgramId)
      {
        programH := programH[i := programH[i].(programId := i, callStackLevel := stackLevel[i])];
      }
    }

    /** `post_randomize` (lines 132-185). */
    method PostRandomize()
      requires Levelled(stackLevel) && |programH| == |stackLevel|
      requires forall p :: 0 <= p < |programH| ==> programH[p].subProgramId == []
      modifies this
      ensures CallTree(stackLevel, Graph(programH))
      ensures forall p :: 0 <= p < |programH| ==>
                programH[p].programId == p && programH[p].callStackLevel == stackLevel[p]
    {
      NumberPrograms();
      var lastLevel := stackLevel[|stackLevel| - 1];
      for level := 0 to lastLevel
        invariant Done(stackLevel, programH, level)
      {
        ghost var before := programH;
        GenerateLevel(level);
        LevelsDoneStep(stackLevel, before, programH, level);
      }
    }
  }

  lemma GraphUpdate(programs: seq<RiscvProgram>, id: nat, calls: seq<nat>)
    requires id < |programs|
    ensures Graph(programs[id := programs[id].(subProgramId := calls)]) == Graph(programs)[id := calls]
  {
  }

  /** Some programs have been handed these calls, the others are as before. */
  predicate Handed(before: seq<RiscvProgram>, after: seq<RiscvProgram>, programs: seq<nat>, calls: seq<nat>) {
    && |after| == |before|
    && CallsOf(Graph(after), programs) == calls
    && (forall p :: 0 <= p < |after| && p !in programs ==> after[p] == before[p])
    && (forall p :: 0 <= p < |after| ==> SameProgram(after[p], before[p]))
  }

  lemma ShareStep(shares: seq<nat>, j: nat)
    requires j < |shares|
    ensures Sum(shares[..j + 1]) == Sum(shares[..j]) + shares[j] <= Sum(shares)
  {
    assert shares[..j + 1][..j] == shares[..j];
    SumPrefix(shares, j + 1);
  }

  lemma HandedStep(before: seq<RiscvProgram>, after: seq<RiscvProgram>, programs: seq<nat>, j: nat,
                   pool: seq<nat>, idx: nat, count: nat)
    requires Ascending(programs) && j < |programs| && programs[j] < |after| && idx + count <= |pool|
    requires Handed(before, after, programs[..j], pool[..idx])
    ensures Handed(before, after[programs[j] := after[programs[j]].(subProgramId := pool[idx..idx + count])],
                   programs[..j + 1], pool[..idx + count])
  {
    var more := pool[idx..idx + count];
    assert pool[..idx + count] == pool[..idx] + more;
    GraphUpdate(after, programs[j], more);
    HandOut(Graph(after), programs, j, more);
    var next := after[programs[j] := after[programs[j]].(subProgramId := more)];
    forall p: nat | p < |next| && p !in programs[..j + 1] ensures next[p] == before[p] {
      PrefixGrows(programs, j, p);
    }
  }

  lemma PrefixGrows(programs: seq<nat>, j: nat, p: nat)
    requires j < |programs| && p !in programs[..j + 1]
    ensures p !in programs[..j] && p != programs[j]
  {
    assert programs[..j + 1][j] == programs[j];
    assert programs[..j + 1] == programs[..j] + [programs[j]];
  }

  /** Handing calls to the next program adds them at the end. */
  lemma HandOut(graph: CallGraph, programs: seq<nat>, j: nat, calls: seq<nat>)
    requires j < |programs| && programs[j] < |graph| && programs[j] !in programs[..j]
    ensures CallsOf(graph[programs[j] := calls], programs[..j + 1]) == CallsOf(graph, programs[..j]) + calls
  {
    var after := graph[programs[j] := calls];
    assert programs[..j + 1][..j] == programs[..j];
    forall p | p in programs[..j] ensures Calls(graph, p) == Calls(after, p) {
      assert p != programs[j];
    }
    SameCalls(graph, after, programs[..j]);
    assert Calls(after, programs[j]) == calls;
  }

  ghost predicate LevelsDone(levels: seq<nat>, graph: CallGraph, level: nat) {
    forall l :: 0 <= l < level ==> LevelCalls(levels, graph, l)
  }

  /** The levels above `level` have been generated, the others call nobody yet. */
  ghost predicate Done(levels: seq<nat>, programs: seq<RiscvProgram>, level: nat) {
    && |programs| == |levels|
    && LevelsDone(levels, Graph(programs), level)
    && (forall p :: 0 <= p < |levels| && levels[p] >= level ==> programs[p].subProgramId == [])
    && (forall p :: 0 <= p < |levels| ==> programs[p].programId == p && programs[p].callStackLevel == levels[p])
  }

  lemma LevelsDoneStep(levels: seq<nat>, before: seq<RiscvProgram>, after: seq<RiscvProgram>, level: nat)
    requires |after| == |before| == |levels|
    requires LevelsDone(levels, Graph(before), level) && LevelCalls(levels, Graph(after), level)
    requires forall p :: 0 <= p < |levels| && levels[p] != level ==> after[p] == before[p]
    ensures LevelsDone(levels, Graph(after), level + 1)
  {
    forall l | 0 <= l < level ensures LevelCalls(levels, Graph(after), l) {
      KeptBelow(levels, before, after, level, l);
    }
  }

  lemma KeptBelow(levels: seq<nat>, before: seq<RiscvProgram>, after: seq<RiscvProgram>, level: nat, l: nat)
    requires |after| == |before| == |levels| && l < level && LevelsDone(levels, Graph(before), level)
    requires forall p :: 0 <= p < |levels| && levels[p] != level ==> after[p] == before[p]
    ensures LevelCalls(levels, Graph(after), l)
  {
    assert LevelCalls(levels, Graph(before), l);
    LevelKept(levels, before, after, l);
  }

  lemma LevelKept(levels: seq<nat>, before: seq<RiscvProgram>, after: seq<RiscvProgram>, level: nat)
    requires |before| == |after| == |levels| && LevelCalls(levels, Graph(before), level)
    requires forall p :: 0 <= p < |levels| && levels[p] == level ==> before[p].subProgramId == after[p].subProgramId
    ensures LevelCalls(levels, Graph(after), level)
  {
    var members := Members(levels, level);
    forall p | p in members ensures Calls(Graph(before), p) == Calls(Graph(after), p) {
      MemberIff(levels, level, p);
    }
    SameCalls(Graph(before), Graph(after), members);
  }

  lemma {:induction false} SameCalls(a: CallGraph, b: CallGraph, programs: seq<nat>)
    requires forall p :: p in programs ==> Calls(a, p) == Calls(b, p)
    ensures CallsOf(a, programs) == CallsOf(b, programs)
  {
    if programs != [] {
      assert programs[|programs| - 1] in programs;
      SameCalls(a, b, programs[..|programs| - 1]);
    }
  }

  // ---------------------------------------------------------------- what the graph is good for

  lemma {:induction false} InCallsOf(graph: CallGraph, programs: seq<nat>, q: nat)
    ensures q in CallsOf(graph, programs) <==> exists p :: p in programs && q in Calls(graph, p)
  {
    if programs != [] {
      var n := |programs| - 1;
      InCallsOf(graph, programs[..n], q);
      forall p ensures p in programs <==> p in programs[..n] || p == programs[n] {
        LastOrBefore(programs, p);
      }
    }
  }

  lemma LastOrBefore(programs: seq<nat>, p: nat)
    requires programs != []
    ensures p in programs <==> p in programs[..|programs| - 1] || p == programs[|programs| - 1]
  {
    assert programs == programs[..|programs| - 1] + [programs[|programs| - 1]];
  }

  lemma PoolMembers(pool: seq<nat>, next: seq<nat>, q: nat)
    requires Pool(pool, next)
    ensures q in pool <==> q in next
  {
    assert q in pool <==> q in multiset(pool);
    assert q in next <==> q in multiset(next);
  }

  lemma LevelMembers(levels: seq<nat>, graph: CallGraph, level: nat, q: nat)
    requires LevelCalls(levels, graph, level)
    ensures (exists p :: p in Members(levels, level) && q in Calls(graph, p)) <==> q < |levels| && levels[q] == level + 1
  {
    InCallsOf(graph, Members(levels, level), q);
    PoolMembers(CallsOf(graph, Members(levels, level)), Members(levels, level + 1), q);
    MemberIff(levels, level + 1, q);
  }

  /** A program only calls programs of the next level. */
  lemma CallsDescend(levels: seq<nat>, graph: CallGraph, p: nat, q: nat)
    requires CallTree(levels, graph) && p < |graph| && q in graph[p]
    ensures q < |levels| && levels[q] == levels[p] + 1
  {
    assert LevelCalls(levels, graph, levels[p]);
    MemberIff(levels, levels[p], p);
    assert q in Calls(graph, p);
    LevelMembers(levels, graph, levels[p], q);
  }

  /** Every program but program 0 has a caller. */
  lemma HasCaller(levels: seq<nat>, graph: CallGraph, q: nat) returns (p: nat)
    requires CallTree(levels, graph) && 0 < q < |graph|
    ensures p < |graph| && q in graph[p] && levels[p] == levels[q] - 1
  {
    var level := levels[q] - 1;
    LevelsGrow(levels, q, |levels| - 1);
    LevelMembers(levels, graph, level, q);
    p :| p in Members(levels, level) && q in Calls(graph, p);
    MemberIff(levels, level, p);
  }

  predicate IsPath(graph: CallGraph, path: seq<nat>) {
    && path != []
    && (forall k :: 0 <= k < |path| ==> path[k] < |graph|)
    && (forall k :: 0 < k < |path| ==> path[k] in graph[path[k - 1]])
  }

  lemma {:induction false} PathDescends(levels: seq<nat>, graph: CallGraph, path: seq<nat>)
    requires CallTree(levels, graph) && IsPath(graph, path)
    ensures levels[path[|path| - 1]] == levels[path[0]] + |path| - 1 <= LastLevel(levels)
  {
    var n := |path| - 1;
    LevelsGrow(levels, path[n], |levels| - 1);
    if n > 0 {
      assert IsPath(graph, path[..n]);
      PathDescends(levels, graph, path[..n]);
      CallsDescend(levels, graph, path[n - 1], path[n]);
    }
  }

  lemma PathTail(graph: CallGraph, path: seq<nat>)
    requires IsPath(graph, path) && |path| > 1
    ensures IsPath(graph, path[1..]) && path[1] in graph[path[0]]
  {
    forall k | 0 < k < |path[1..]| ensures path[1..][k] in graph[path[1..][k - 1]] {
      assert path[k + 1] in graph[path[k]];
    }
  }

  /** No program calls itself, directly or through others, and no chain of calls is longer
      than the number of levels. */
  lemma NoCallLoop(levels: seq<nat>, graph: CallGraph, path: seq<nat>)
    requires CallTree(levels, graph) && IsPath(graph, path)
    ensures |path| > 1 ==> path[0] != path[|path| - 1]
    ensures |path| <= LastLevel(levels) + 1
  {
    PathDescends(levels, graph, path);
  }

  /** Every program is reached from program 0, in as many calls as its level says. */
  lemma {:induction false} ReachedFromMain(levels: seq<nat>, graph: CallGraph, q: nat) returns (path: seq<nat>)
    requires CallTree(levels, graph) && q < |graph|
    ensures IsPath(graph, path) && path[0] == 0 && path[|path| - 1] == q && |path| == levels[q] + 1
    decreases levels[q]
  {
    if q == 0 {
      path := [0];
    } else {
      var p := HasCaller(levels, graph, q);
      var front := ReachedFromMain(levels, graph, p);
      path := front + [q];
      forall k | 0 < k < |path| ensures path[k] in graph[path[k - 1]] {
        if k < |front| {
          assert front[k] in graph[front[k - 1]];
        }
      }
    }
  }

  /** The lines `print_call_stack` prints for the first n calls of a program: each the chain
      of programs from the start to one that calls nobody. */
  ghost function Lines(levels: seq<nat>, graph: CallGraph, id: nat, chain: seq<nat>, n: nat): seq<seq<nat>>
    requires CallTree(levels, graph) && id < |graph| && n <= |graph[id]|
    decreases LastLevel(levels) + 1 - levels[id], n
  {
    if n == 0 then (if graph[id] == [] then [chain] else [])
    else
      var q := graph[id][n - 1];
      CallsDescend(levels, graph, id, q);
      LevelsGrow(levels, q, |levels| - 1);
      Lines(levels, graph, id, chain, n - 1) + Lines(levels, graph, q, chain + [q], |graph[q]|)
  }

  /** The recursive walk ends: every call goes one level down. */
  method PrintCallStack(ghost levels: seq<nat>, graph: CallGraph, id: nat, chain: seq<nat>) returns (printed: seq<seq<nat>>)
    requires CallTree(levels, graph) && id < |graph|
    ensures printed == Lines(levels, graph, id, chain, |graph[id]|)
    decreases LastLevel(levels) + 1 - levels[id]
  {
    if graph[id] == [] {
      return [chain];
    }
    printed := [];
    for n := 0 to |graph[id]|
      invariant printed == Lines(levels, graph, id, chain, n)
    {
      var q := graph[id][n];
      CallsDescend(levels, graph, id, q);
      LevelsGrow(levels, q, |levels| - 1);
      var more := PrintCallStack(levels, graph, q, chain + [q]);
      printed := printed + more;
    }
  }

  /** What is printed: the call chains that extend the given one to a program without calls. */
  ghost predicate Complete(graph: CallGraph, chain: seq<nat>, line: seq<nat>) {
    && 0 < |chain| <= |line| && line[..|chain|] == chain
    && IsPath(graph, line[|chain| - 1..])
    && graph[line[|line| - 1]] == []
  }

  lemma {:induction false} LinesAreCompletePaths(levels: seq<nat>, graph: CallGraph, id: nat, chain: seq<nat>, n: nat, line: seq<nat>)
    requires CallTree(levels, graph) && id < |graph| && n <= |graph[id]|
    requires chain != [] && chain[|chain| - 1] == id
    requires line in Lines(levels, graph, id, chain, n)
    ensures Complete(graph, chain, line)
    decreases LastLevel(levels) + 1 - levels[id], n
  {
    if n == 0 {
      assert line == chain && line[|chain| - 1..] == [id];
    } else {
      var q := graph[id][n - 1];
      CallsDescend(levels, graph, id, q);
      LevelsGrow(levels, q, |levels| - 1);
      if line in Lines(levels, graph, id, chain, n - 1) {
        LinesAreCompletePaths(levels, graph, id, chain, n - 1, line);
      } else {
        LinesAreCompletePaths(levels, graph, q, chain + [q], |graph[q]|, line);
        var tail, rest := line[|chain| - 1..], line[|chain|..];
        assert line[..|chain| + 1][..|chain|] == line[..|chain|] && line[|chain|] == line[..|chain| + 1][|chain|];
        assert IsPath(graph, rest) && tail == [id] + rest;
      }
    }
  }

  lemma {:induction false} CompletePathsArePrinted(levels: seq<nat>, graph: CallGraph, id: nat, chain: seq<nat>, n: nat, line: seq<nat>)
    requires CallTree(levels, graph) && id < |graph| && n <= |graph[id]|
    requires chain != [] && chain[|chain| - 1] == id && Complete(graph, chain, line)
    requires if |line| == |chain| then n == 0 else line[|chain|] in graph[id][..n]
    ensures line in Lines(levels, graph, id, chain, n)
    decreases LastLevel(levels) + 1 - levels[id], n
  {
    var tail := line[|chain| - 1..];
    if |line| == |chain| {
      assert line == chain && tail[0] == id;
    } else {
      var q := graph[id][n - 1];
      CallsDescend(levels, graph, id, q);
      LevelsGrow(levels, q, |levels| - 1);
      if line[|chain|] == q {
        assert line[..|chain| + 1] == chain + [q];
        assert line[|chain|..] == tail[1..];
        PathTail(graph, tail);
        if |line| > |chain| + 1 {
          PathTail(graph, tail[1..]);
          assert graph[q][..|graph[q]|] == graph[q];
        }
        CompletePathsArePrinted(levels, graph, q, chain + [q], |graph[q]|, line);
      } else {
        assert line[|chain|] in graph[id][..n - 1];
        CompletePathsArePrinted(levels, graph, id, chain, n - 1, line);
      }
    }
  }

  /** A line is printed exactly when it is a complete chain of calls from program 0. */
  lemma PrintedIff(levels: seq<nat>, graph: CallGraph, line: seq<nat>)
    requires CallTree(levels, graph)
    ensures line in Lines(levels, graph, 0, [0], |graph[0]|) <==> Complete(graph, [0], line)
  {
    if Complete(graph, [0], line) {
      if |line| > 1 {
        assert line[0..][1] in graph[line[0..][0]] && line[..1] == [0] && line[0] == 0;
        assert graph[0][..|graph[0]|] == graph[0];
      } else {
        assert line[0..][0] == line[0];
      }
      CompletePathsArePrinted(levels, graph, 0, [0], |graph[0]|, line);
    }
    if line in Lines(levels, graph, 0, [0], |graph[0]|) {
      LinesAreCompletePaths(levels, graph, 0, [0], |graph[0]|, line);
    }
  }
}
