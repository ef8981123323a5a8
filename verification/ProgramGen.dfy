/** The whole generated program (riscv_asm_program_gen.py, gen_program): the sequences of all
    programs with the calls of the call stack generator. */
module ProgramGen {
  import opened IntRegisters
  import opened InstrBase
  import opened JumpStream
  import opened Segments
  import opened ClosedStreams
  import opened InstrSequence
  import opened CallstackGen
  import opened ProgramRun
  import opened MachineRun
  import opened SequenceGrowth

  // ---------------------------------------------------------------- one sequence

  method InsertCall(sequence: RiscvInstrSequence, callee: nat, idx: nat, ghost calls: seq<nat>, ghost scope: Scope,
                    ghost enter: seq<Instr>, ghost exit: seq<Instr>)
    requires Growing(sequence.instrStream.instrList, sequence.program == 0, calls, scope) && scope.first <= scope.next == idx
    requires Between(sequence.instrStream.instrList, enter, exit)
    modifies sequence.instrStream
    ensures Growing(sequence.instrStream.instrList, sequence.program == 0, calls + [callee], scope.(next := idx + 1))
    ensures Between(sequence.instrStream.instrList, enter, exit)
  {
    ghost var before := sequence.instrStream.instrList;
    ghost var stream, at := sequence.InsertJumpInstr(callee, idx);
    CallKeeps(before, at, stream, sequence.instrStream.instrList, sequence.program == 0, calls, callee, scope, enter, exit);
  }

  /** Lines 89-97, for one program: `idx` numbers the calls of the whole program. */
  method InsertCalls(sequence: RiscvInstrSequence, calls: seq<nat>, idx: nat, ghost enter: seq<Instr>, ghost exit: seq<Instr>)
    returns (idx': nat)
    requires Growing(sequence.instrStream.instrList, sequence.program == 0, [], Scope(sequence.program, idx, idx))
    requires Between(sequence.instrStream.instrList, enter, exit)
    modifies sequence.instrStream
    ensures idx' == idx + |calls|
    ensures Growing(sequence.instrStream.instrList, sequence.program == 0, calls, Scope(sequence.program, idx, idx'))
    ensures Between(sequence.instrStream.instrList, enter, exit)
  {
    idx' := idx;
    for j := 0 to |calls|
      invariant idx' == idx + j
      invariant Growing(sequence.instrStream.instrList, sequence.program == 0, calls[..j], Scope(sequence.program, idx, idx'))
      invariant Between(sequence.instrStream.instrList, enter, exit)
    {
      InsertCall(sequence, calls[j], idx', calls[..j], Scope(sequence.program, idx, idx'), enter, exit);
      assert calls[..j + 1] == calls[..j] + [calls[j]];
      idx' := idx' + 1;
    }
    assert calls[..|calls|] == calls;
  }

  /** A finished sequence and its text. */
  ghost predicate Printed(list: seq<Instr>, text: seq<TextLine>, calls: seq<nat>, scope: Scope) {
    && text == Text(scope.program, list, scope.program == 0)
    && TextResolves(list, text) && OwnNames(text, scope) && TargetsIn(list, calls)
  }

  /** Post-processing and text of a sequence that has its calls. */
  method Finish(sequence: RiscvInstrSequence, ghost calls: seq<nat>, ghost scope: Scope,
                ghost enter: seq<Instr>, ghost exit: seq<Instr>, ghost len: nat)
    returns (list: seq<Instr>, text: seq<TextLine>, ghost layout: Layout)
    requires Growing(sequence.instrStream.instrList, sequence.program == 0, calls, scope) && scope.program == sequence.program
    requires Between(sequence.instrStream.instrList, enter, exit) && StartedWith(scope.program, enter, exit, len)
    requires forall k :: 0 <= k < |sequence.directedInstr| ==> Directed(sequence.directedInstr[k])
    modifies sequence.instrStream
    ensures Finished(list, calls) && Framed(list, scope.program, layout) && Equipped(list, layout.enter)
    ensures Printed(list, text, calls, scope)
  {
    ghost var isMain := sequence.program == 0;
    ghost var run, places, numbered;
    var ok;
    ok, run, places, numbered := sequence.PostProcessInstr();
    list := sequence.instrStream.instrList;
    ghost var grown := run[|sequence.directedInstr|];
    RunGrows(run, sequence.directedInstr, places, |sequence.directedInstr|, isMain, calls, scope, enter, exit);
    PassFinishes(grown, numbered, list, isMain, calls, scope);
    PassFrames(grown, numbered, list, scope.program, enter, exit, len, calls);
    GrownTextResolves(grown, numbered, list, isMain, calls, scope);
    GrownTextNames(grown, numbered, list, isMain, calls, scope);
    layout := Layout(|enter|, |list| - |exit|, len);
    text := sequence.GenerateInstrStream(sequence.program == 0);
  }

  /** What `gen_program` does for one program: its instructions, its calls, the directed
      streams, branch targets and text. */
  method GenSequence(program: nat, instrCnt: nat, directed: seq<seq<Instr>>, calls: seq<nat>, idx: nat)
    returns (list: seq<Instr>, text: seq<TextLine>, idx': nat, ghost layout: Layout)
    requires instrCnt > 0
    requires forall k :: 0 <= k < |directed| ==> Directed(directed[k])
    ensures Finished(list, calls) && Framed(list, program, layout) && Equipped(list, layout.enter)
    ensures idx' == idx + |calls| && Printed(list, text, calls, Scope(program, idx, idx'))
  {
    var sequence := new RiscvInstrSequence(program, instrCnt, directed);
    ghost var random := sequence.GenInstr(program == 0);
    ghost var enter, exit, len := [], [], 0;
    if program == 0 {
      MainStarts(random, {}, Scope(program, idx, idx));
    } else {
      enter, exit := sequence.stackEnter.stream.instrList, sequence.stackExit.stream.instrList;
      len := sequence.programStackLen;
      SubStarts(enter, random, exit, {}, len, Scope(program, idx, idx));
    }
    idx' := InsertCalls(sequence, calls, idx, enter, exit);
    list, text, layout := Finish(sequence, calls, Scope(program, idx, idx'), enter, exit, len);
  }

  // ---------------------------------------------------------------- the whole program

  /** Sequence p, which numbers its calls from starts[p] on. */
  ghost predicate Piece(graph: CallGraph, code: seq<seq<Instr>>, text: seq<seq<TextLine>>,
                        frames: seq<Layout>, starts: seq<nat>, p: nat)
  {
    && p < |graph| && p < |code| == |text| == |frames| && |starts| == |code| + 1
    && Finished(code[p], graph[p]) && Framed(code[p], p, frames[p]) && Equipped(code[p], frames[p].enter)
    && starts[p] <= starts[p + 1] && Printed(code[p], text[p], graph[p], Scope(p, starts[p], starts[p + 1]))
  }

  /** The sequences generated so far. */
  ghost predicate Generated(graph: CallGraph, code: seq<seq<Instr>>, text: seq<seq<TextLine>>,
                            frames: seq<Layout>, starts: seq<nat>)
  {
    && |code| == |text| == |frames| <= |graph| && |starts| == |code| + 1
    && forall p :: 0 <= p < |code| ==> Piece(graph, code, text, frames, starts, p)
  }

  lemma GeneratedStep(graph: CallGraph, code: seq<seq<Instr>>, text: seq<seq<TextLine>>, frames: seq<Layout>, starts: seq<nat>,
                      list: seq<Instr>, lines: seq<TextLine>, layout: Layout, idx: nat)
    requires Generated(graph, code, text, frames, starts) && |code| < |graph|
    requires Finished(list, graph[|code|]) && Framed(list, |code|, layout) && Equipped(list, layout.enter)
    requires starts[|code|] <= idx && Printed(list, lines, graph[|code|], Scope(|code|, starts[|code|], idx))
    ensures Generated(graph, code + [list], text + [lines], frames + [layout], starts + [idx])
  {
    forall p | 0 <= p < |code| + 1 ensures Piece(graph, code + [list], text + [lines], frames + [layout], starts + [idx], p) {
      if p < |code| {
        assert Piece(graph, code, text, frames, starts, p);
      }
    }
  }

  predicate InLines(text: seq<seq<TextLine>>, p: int, i: int) {
    0 <= p < |text| && 0 <= i < |text[p]|
  }

  /** No name is on two lines of the whole program, in whatever order its sequences are put. */
  ghost predicate NamesUnique(text: seq<seq<TextLine>>) {
    forall p, i, q, j :: InLines(text, p, i) && InLines(text, q, j) && Named(text[p][i].tag) && (p, i) != (q, j) ==>
      text[p][i].tag != text[q][j].tag
  }

  /** Every program that an instruction refers to is there, with its name on its first line. */
  ghost predicate ProgramsExist(text: seq<seq<TextLine>>) {
    forall p, i :: InLines(text, p, i) && Refers(text[p][i].code).Program? ==>
      var q := Refers(text[p][i].code).id;
      q < |text| && text[q] != [] && text[q][0].tag == Program(q)
  }

  lemma {:induction false} StartsGrow(graph: CallGraph, code: seq<seq<Instr>>, text: seq<seq<TextLine>>, frames: seq<Layout>,
                                      starts: seq<nat>, p: nat, q: nat)
    requires Generated(graph, code, text, frames, starts) && p <= q < |starts|
    ensures starts[p] <= starts[q]
  {
    if p < q {
      StartsGrow(graph, code, text, frames, starts, p, q - 1);
      assert Piece(graph, code, text, frames, starts, q - 1);
    }
  }

  /** A line's name is its program's, or that of a call of its program. */
  lemma LineName(text: seq<TextLine>, scope: Scope, i: nat)
    requires OwnNames(text, scope) && i < |text| && Named(text[i].tag)
    ensures text[i].tag in {Program(scope.program), PushStart(scope.program)}
      || (text[i].tag.JumpPoint? && scope.first <= text[i].tag.call < scope.next)
  {
  }

  lemma PieceAt(graph: CallGraph, code: seq<seq<Instr>>, text: seq<seq<TextLine>>, frames: seq<Layout>, starts: seq<nat>, p: nat)
    requires Generated(graph, code, text, frames, starts) && p < |text|
    ensures starts[p] <= starts[p + 1] && OwnNames(text[p], Scope(p, starts[p], starts[p + 1]))
    ensures text[p] == Text(p, code[p], p == 0) && TargetsIn(code[p], graph[p])
  {
    assert Piece(graph, code, text, frames, starts, p);
  }

  /** Names of different programs. */
  lemma ScopesDiffer(a: Label, b: Label, p: nat, q: nat, first: nat, next: nat, first': nat, next': nat)
    requires p != q && next <= first'
    requires a in {Program(p), PushStart(p)} || (a.JumpPoint? && first <= a.call < next)
    requires b in {Program(q), PushStart(q)} || (b.JumpPoint? && first' <= b.call < next')
    ensures a != b
  {
  }

  lemma NamesDiffer(graph: CallGraph, code: seq<seq<Instr>>, text: seq<seq<TextLine>>, frames: seq<Layout>, starts: seq<nat>,
                    p: nat, i: nat, q: nat, j: nat)
    requires Generated(graph, code, text, frames, starts) && p < q && InLines(text, p, i) && InLines(text, q, j)
    requires Named(text[p][i].tag) && Named(text[q][j].tag)
    ensures text[p][i].tag != text[q][j].tag
  {
    PieceAt(graph, code, text, frames, starts, p);
    PieceAt(graph, code, text, frames, starts, q);
    LineName(text[p], Scope(p, starts[p], starts[p + 1]), i);
    LineName(text[q], Scope(q, starts[q], starts[q + 1]), j);
    StartsGrow(graph, code, text, frames, starts, p + 1, q);
    ScopesDiffer(text[p][i].tag, text[q][j].tag, p, q, starts[p], starts[p + 1], starts[q], starts[q + 1]);
  }

  lemma NamesDifferInOne(graph: CallGraph, code: seq<seq<Instr>>, text: seq<seq<TextLine>>, frames: seq<Layout>, starts: seq<nat>,
                         p: nat, i: nat, j: nat)
    requires Generated(graph, code, text, frames, starts) && InLines(text, p, i) && InLines(text, p, j) && i != j
    requires Named(text[p][i].tag)
    ensures text[p][i].tag != text[p][j].tag
  {
    PieceAt(graph, code, text, frames, starts, p);
  }

  /** The labels of the whole text. */
  lemma WholeTextResolves(graph: CallGraph, code: seq<seq<Instr>>, text: seq<seq<TextLine>>,
                          frames: seq<Layout>, starts: seq<nat>)
    requires Generated(graph, code, text, frames, starts) && |code| == |graph|
    requires forall p, q :: 0 <= p < |graph| && q in graph[p] ==> q < |graph|
    ensures NamesUnique(text) && ProgramsExist(text)
  {
    forall p, i, q, j | InLines(text, p, i) && InLines(text, q, j) && Named(text[p][i].tag) && (p, i) != (q, j)
      ensures text[p][i].tag != text[q][j].tag
    {
      if p == q {
        NamesDifferInOne(graph, code, text, frames, starts, p, i, j);
      } else if Named(text[q][j].tag) {
        if p < q {
          NamesDiffer(graph, code, text, frames, starts, p, i, q, j);
        } else {
          NamesDiffer(graph, code, text, frames, starts, q, j, p, i);
        }
      }
    }
    forall p, i | InLines(text, p, i) && Refers(text[p][i].code).Program?
      ensures var q := Refers(text[p][i].code).id; q < |text| && text[q] != [] && text[q][0].tag == Program(q)
    {
      ReferredExists(graph, code, text, frames, starts, p, i);
    }
  }

  lemma ReferredExists(graph: CallGraph, code: seq<seq<Instr>>, text: seq<seq<TextLine>>, frames: seq<Layout>, starts: seq<nat>,
                       p: nat, i: nat)
    requires Generated(graph, code, text, frames, starts) && |code| == |graph|
    requires forall p, q :: 0 <= p < |graph| && q in graph[p] ==> q < |graph|
    requires InLines(text, p, i) && Refers(text[p][i].code).Program?
    ensures var q := Refers(text[p][i].code).id; q < |text| && text[q] != [] && text[q][0].tag == Program(q)
  {
    PieceAt(graph, code, text, frames, starts, p);
    assert text[p][i].code == CodeOf(code[p][i]);
    PieceAt(graph, code, text, frames, starts, Refers(text[p][i].code).id);
  }

  lemma GeneratedIsMade(levels: seq<nat>, graph: CallGraph, code: seq<seq<Instr>>, text: seq<seq<TextLine>>,
                        frames: seq<Layout>, starts: seq<nat>)
    requires CallTree(levels, graph) && Generated(graph, code, text, frames, starts) && |code| == |graph|
    ensures WellMade(levels, graph, code, frames)
    ensures forall p :: 0 <= p < |code| ==> text[p] == Text(p, code[p], p == 0) && TextResolves(code[p], text[p])
  {
    forall p | 0 <= p < |code|
      ensures SequenceMade(graph, code, frames, p)
      ensures text[p] == Text(p, code[p], p == 0) && TextResolves(code[p], text[p])
    {
      assert Piece(graph, code, text, frames, starts, p);
    }
  }

  /** Line 105: the sub-programs in any order. */
  method ShuffleSubPrograms(count: nat) returns (order: seq<nat>)
    ensures AllSubs(order, count)
  {
    ghost var sorted := seq(if count == 0 then 0 else count - 1, i => i + 1);
    forall p: nat | 0 < p < count ensures p in sorted {
      assert sorted[p - 1] == p;
    }
    assert AllSubs(sorted, count);
    order :| AllSubs(order, count);
  }

  /** `gen_program`, sequence by sequence (they share nothing but the call numbers). The text is
      that of the main program, `test_done`, and the texts of the sub-programs in the order
      given; it is what TextRun asks of the generator. */
  method GenProgram(levels: seq<nat>, instrCnt: seq<nat>, directed: seq<seq<seq<Instr>>>)
    returns (code: seq<seq<Instr>>, text: seq<seq<TextLine>>, order: seq<nat>, graph: CallGraph, ghost frames: seq<Layout>)
    requires Levelled(levels) && |instrCnt| == |directed| == |levels|
    requires forall p :: 0 <= p < |levels| ==> instrCnt[p] > 0
    requires forall p, k :: 0 <= p < |levels| && 0 <= k < |directed[p]| ==> Directed(directed[p][k])
    ensures WellMade(levels, graph, code, frames) && |text| == |code| && AllSubs(order, |code|)
    ensures forall p :: 0 <= p < |code| ==> text[p] == Text(p, code[p], p == 0) && TextResolves(code[p], text[p])
    ensures NamesUnique(text) && ProgramsExist(text)
  {
    var callstackGen := new RiscvCallstackGen(levels);
    callstackGen.PostRandomize();
    graph := Graph(callstackGen.programH);
    var idx := 1;
    ghost var starts := [1];
    code, text, frames := [], [], [];
    for p := 0 to |levels|
      invariant |code| == p && Generated(graph, code, text, frames, starts) && starts[p] == idx
    {
      var list, lines;
      ghost var layout;
      list, lines, idx, layout := GenSequence(p, instrCnt[p], directed[p], graph[p], idx);
      GeneratedStep(graph, code, text, frames, starts, list, lines, layout, idx);
      code, text, frames, starts := code + [list], text + [lines], frames + [layout], starts + [idx];
    }
    forall p, q | 0 <= p < |graph| && q in graph[p] ensures q < |graph| {
      CallsDescend(levels, graph, p, q);
    }
    WholeTextResolves(graph, code, text, frames, starts);
    GeneratedIsMade(levels, graph, code, text, frames, starts);
    order := ShuffleSubPrograms(|levels|);
  }

  /** Which immediates those are: a call stream's JALR misses exactly when the immediate drawn
      for its `addi` is 1024 modulo 2048. */
  lemma ReachesIff(list: seq<Instr>, callee: nat, idx: nat, base: Reg, a: nat, others: seq<Instr>, sol: seq<nat>,
                   branch: Instr, jump: Instr)
    requires MadeFrom(list, callee, idx, base, a, others, sol, branch, jump)
    ensures Reaches(jump) <==> jump.name == JAL || a % 2048 != 1024
  {
    ImmediatesCancelIff(a);
    Imm11Facts(a);
  }
}
