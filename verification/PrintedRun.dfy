/** Runs of the text itself: lines are executed as they are printed, by mnemonic and operands
    (RISC-V Unprivileged ISA, chapter 2), and labels are looked up in the text. The runs are those
    of the instructions behind the lines, so that the results of TextRun hold of what is printed. */
module PrintedRun {
  import opened IntRegisters
  import opened InstrBase
  import opened Machine
  import opened JumpStream
  import opened SequenceLabels
  import opened Segments
  import opened ClosedStreams
  import opened InstrSequence
  import opened CallstackGen
  import opened MachineRun
  import opened TextRun
  import opened SequenceGrowth
  import opened ProgramGen

  // ---------------------------------------------------------------- lines

  /** A line that is no branch, jump or return: `addi rd, rs1, imm`, `lw rd, imm(rs1)`,
      `sw rs2, imm(rs1)`; sb and sh store something, and other instructions write what is drawn to
      their first operand. */
  function ExecLine(code: Code, v: Word, s: State): State
    requires code.Code?
  {
    var ops := code.operands;
    if code.name == ADDI && |ops| == 3 && ops[0].X? && ops[1].X? && ops[2].Num? then
      Set(s, ops[0].reg, Wrap(Get(s, ops[1].reg) + ops[2].value))
    else if code.name == LW && |ops| == 2 && ops[0].X? && ops[1].Mem? then
      Set(s, ops[0].reg, Load(s, Wrap(Get(s, ops[1].base) + ops[1].offset)))
    else if code.name in {SW, SB, SH} && |ops| == 2 && ops[0].X? && ops[1].Mem? then
      var address := Wrap(Get(s, ops[1].base) + ops[1].offset);
      s.(mem := s.mem[address := if code.name == SW then Get(s, ops[0].reg) else v])
    else if code.category != STORE && ops != [] && ops[0].X? then Set(s, ops[0].reg, v)
    else s
  }

  /** For every state and every value drawn, a printed line does what its instruction does. */
  lemma LineDoes(i: Instr, v: Word, s: State)
    requires i.category != BRANCH && i.category != JUMP
    ensures ExecLine(CodeOf(i), v, s) == Exec(i, v, s)
  {
  }

  /** From a printed line every operand its instruction uses can be read back. */
  lemma LineTells(i: Instr)
    ensures var ops := CodeOf(i).operands;
      && CodeOf(i).name == i.name && CodeOf(i).category == i.category
      && (i.category == BRANCH ==> ops == [X(i.src1), X(i.src2), Sym(i.target)])
      && (i.category == JUMP && i.name == JAL ==> ops == [X(i.rd), Sym(i.target)])
      && (i.category == JUMP && i.name != JAL ==> ops == [X(i.rd), X(i.src1), Num(i.imm)])
      && (i.category !in {BRANCH, JUMP} && i.name == LA ==> Refers(CodeOf(i)) == i.target)
  {
  }

  // ---------------------------------------------------------------- the text in memory

  /** The text of each program, where its lines are, and the order of the sub-programs. */
  datatype Image = Image(text: seq<seq<TextLine>>, addr: seq<seq<Word>>, order: seq<nat>, tohost: Word, page: seq<Word>)

  function WorldOf(m: Image, code: seq<seq<Instr>>): World {
    World(code, m.addr, m.order, m.tohost, m.page)
  }

  /** Seen from line k of program p, the label stands on line j of program q: a number on the next
      line that bears it, a name wherever it is. */
  ghost predicate LabelAt(m: Image, p: nat, k: nat, target: Label, q: nat, j: nat) {
    && q < |m.text| && j < |m.text[q]| && m.text[q][j].tag == target != NoLabel
    && (!Named(target) ==> q == p && k < j && forall i :: k < i < j ==> m.text[q][i].tag != target)
  }

  /** What `la` puts into its register, for the name of a program or a place in a data page. */
  ghost predicate Addresses(m: Image, p: nat, k: nat, target: Label, v: Word) {
    && (target.Program? ==> forall q: nat, j: nat :: LabelAt(m, p, k, target, q, j) && InText(WorldOf(m, []), q, j) ==> v == m.addr[q][j])
    && (target.DataPage? && target.page < |m.page| ==> v == Wrap(m.page[target.page] + target.offset))
  }

  ghost predicate LineMoves(m: Image, p: nat, k: nat, s: State, c': Config)
    requires p < |m.text| && k < |m.text[p]| && InText(WorldOf(m, []), p, k)
  {
    var code := m.text[p][k].code;
    if code.Ret? then GoesTo(WorldOf(m, []), JalrAddress(Get(s, RA), 0), s, c')
    else InText(WorldOf(m, []), p, k + 1) && CodeMoves(m, p, k, code, s, c')
  }

  ghost predicate CodeMoves(m: Image, p: nat, k: nat, code: Code, s: State, c': Config)
    requires code.Code? && InText(WorldOf(m, []), p, k + 1)
  {
    if code.category == BRANCH then
      c' == Running(p, k + 1, s) || exists q: nat, j: nat :: LabelAt(m, p, k, Refers(code), q, j) && c' == Running(q, j, s)
    else if code.category == JUMP then JumpMoves(m, p, k, code, s, c')
    else exists v :: (code.name == LA ==> Addresses(m, p, k, Refers(code), v)) && c' == Running(p, k + 1, ExecLine(code, v, s))
  }

  /** `jal rd, label` and `jalr rd, rs1, imm`. */
  ghost predicate JumpMoves(m: Image, p: nat, k: nat, code: Code, s: State, c': Config)
    requires code.Code? && InText(WorldOf(m, []), p, k + 1)
  {
    && |code.operands| >= 2 && code.operands[0].X?
    && var linked := Set(s, code.operands[0].reg, m.addr[p][k + 1]);
       if code.name == JAL then forall q: nat, j: nat :: LabelAt(m, p, k, Refers(code), q, j) ==> c' == Running(q, j, linked)
       else
         && |code.operands| == 3 && code.operands[1].X? && code.operands[2].Num?
         && GoesTo(WorldOf(m, []), JalrAddress(Get(s, code.operands[1].reg), code.operands[2].value), linked, c')
  }

  /** One step: a line, or `test_done` behind the main program. */
  ghost predicate PrintedMoves(m: Image, c: Config, c': Config) {
    && c.Running? && InText(WorldOf(m, []), c.program, c.at) && c.program < |m.text|
    && if c.at < |m.text[c.program]| then LineMoves(m, c.program, c.at, c.state, c')
       else c.program == 0 && c' == BehindTestDone(WorldOf(m, []), c.state)
  }

  ghost predicate PrintedMovesAt(m: Image, run: seq<Config>, n: nat)
    requires n + 1 < |run|
  {
    PrintedMoves(m, run[n], run[n + 1])
  }

  ghost predicate IsPrintedRun(m: Image, start: State, run: seq<Config>) {
    run != [] && run[0] == Running(0, 0, start) && forall n :: 0 <= n < |run| - 1 ==> PrintedMovesAt(m, run, n)
  }

  // ---------------------------------------------------------------- the text and the instructions behind it

  /** What gen_program prints for this code, as GenProgram promises it, in memory. */
  ghost predicate PrintedCode(m: Image, u: Setup) {
    && Good(u) && u.w == WorldOf(m, u.w.code) && |m.text| == |u.w.code|
    && (forall p :: 0 <= p < |u.w.code| ==> m.text[p] == Text(p, u.w.code[p], p == 0))
    && NamesUnique(m.text) && ProgramsExist(m.text)
  }

  lemma LineOf(m: Image, u: Setup, p: nat, k: nat)
    requires PrintedCode(m, u) && p < |u.w.code|
    ensures |m.text[p]| == if p == 0 then |u.w.code[p]| else |u.w.code[p]| + 1
    ensures k < |u.w.code[p]| ==> m.text[p][k] == TextLine(PrintedTag(p, u.w.code[p], k), CodeOf(u.w.code[p][k]))
    ensures k == |u.w.code[p]| && p != 0 ==> m.text[p][k].code == Ret
  {
    assert m.text[p] == Text(p, u.w.code[p], p == 0);
  }

  lemma SameGoesTo(m: Image, code: seq<seq<Instr>>, address: Word, s: State, c': Config)
    ensures GoesTo(WorldOf(m, []), address, s, c') <==> GoesTo(WorldOf(m, code), address, s, c')
  {
    assert forall q: nat, j: nat :: InText(WorldOf(m, []), q, j) <==> InText(WorldOf(m, code), q, j);
  }

  /** A program's name stands on its first line and nowhere else. */
  lemma ProgramAt(m: Image, u: Setup, p: nat, k: nat, callee: nat)
    requires PrintedCode(m, u) && p < |u.w.code| && k < |u.w.code[p]| && Refers(CodeOf(u.w.code[p][k])) == Program(callee)
    ensures callee < |u.w.code| && InText(u.w, callee, 0)
    ensures forall q: nat, j: nat :: LabelAt(m, p, k, Program(callee), q, j) <==> q == callee && j == 0
  {
    LineOf(m, u, p, k);
    assert InLines(m.text, p, k);
    assert m.text[callee] != [] && m.text[callee][0].tag == Program(callee);
    forall q: nat, j: nat | LabelAt(m, p, k, Program(callee), q, j) ensures q == callee && j == 0 {
      assert InLines(m.text, q, j) && InLines(m.text, callee, 0);
    }
  }

  /** A branch's label stands where the list has it. */
  lemma BranchAt(m: Image, u: Setup, p: nat, k: nat) returns (dest: nat)
    requires PrintedCode(m, u) && p < |u.w.code| && k < |u.w.code[p]| && u.w.code[p][k].category == BRANCH
    ensures dest == Find(u.w.code[p], k + 1, u.w.code[p][k].target) && k < dest < |u.w.code[p]|
    ensures forall q: nat, j: nat :: LabelAt(m, p, k, u.w.code[p][k].target, q, j) <==> q == p && j == dest
  {
    var list, target := u.w.code[p], u.w.code[p][k].target;
    FinishedAt(u, p);
    BranchFound(list, u.graph[p], k);
    dest := Find(list, k + 1, target);
    LineOf(m, u, p, dest);
    if !Named(target) {
      forall i: nat | k < i < dest ensures m.text[p][i].tag != target {
        LineOf(m, u, p, i);
        NotBefore(list, k + 1, target, i);
      }
    } else {
      forall q: nat, j: nat | LabelAt(m, p, k, target, q, j) ensures q == p && j == dest {
        assert InLines(m.text, q, j) && InLines(m.text, p, dest);
      }
    }
  }

  lemma {:induction false} NotBefore(list: seq<Instr>, from: nat, tag: Label, i: nat)
    requires from <= i < Find(list, from, tag) <= |list|
    ensures !Bears(list[i], tag)
    decreases |list| - from
  {
    if from < i {
      NotBefore(list, from + 1, tag, i);
    }
  }

  lemma SameBranch(m: Image, u: Setup, p: nat, k: nat, s: State, c': Config)
    requires PrintedCode(m, u) && p < |u.w.code| && k < |u.w.code[p]| && u.w.code[p][k].category == BRANCH
    ensures InText(u.w, p, k + 1)
    ensures CodeMoves(m, p, k, CodeOf(u.w.code[p][k]), s, c') <==> ItemMoves(u.w, p, k, s, c')
  {
    var dest := BranchAt(m, u, p, k);
    var target := u.w.code[p][k].target;
    assert Refers(CodeOf(u.w.code[p][k])) == target;
    assert LabelAt(m, p, k, target, p, dest);
  }

  lemma SameJump(m: Image, u: Setup, p: nat, k: nat, s: State, c': Config)
    requires PrintedCode(m, u) && p < |u.w.code| && k < |u.w.code[p]| && u.w.code[p][k].category == JUMP
    ensures InText(u.w, p, k + 1)
    ensures CodeMoves(m, p, k, CodeOf(u.w.code[p][k]), s, c') <==> ItemMoves(u.w, p, k, s, c')
  {
    var i := u.w.code[p][k];
    LineTells(i);
    EquippedAt(u, p);
    assert JumpMade(u.w.code[p], k);
    var linked := Set(s, i.rd, m.addr[p][k + 1]);
    if i.name == JAL {
      assert Refers(CodeOf(i)) == i.target;
      ProgramAt(m, u, p, k, i.target.id);
      assert LabelAt(m, p, k, i.target, i.target.id, 0);
    } else {
      SameGoesTo(m, u.w.code, JalrAddress(Get(s, i.src1), i.imm), linked, c');
    }
  }

  lemma SameAddress(m: Image, u: Setup, p: nat, k: nat, v: Word)
    requires PrintedCode(m, u) && p < |u.w.code| && k < |u.w.code[p]|
    requires u.w.code[p][k].name == LA && u.w.code[p][k].category !in {BRANCH, JUMP}
    ensures Addresses(m, p, k, Refers(CodeOf(u.w.code[p][k])), v) <==> Yields(u.w, u.w.code[p][k], v)
  {
    var i := u.w.code[p][k];
    LineTells(i);
    if i.target.Program? {
      ProgramAt(m, u, p, k, i.target.id);
      assert LabelAt(m, p, k, i.target, i.target.id, 0) && InText(WorldOf(m, []), i.target.id, 0);
    }
  }

  lemma SamePlain(m: Image, u: Setup, p: nat, k: nat, s: State, c': Config)
    requires PrintedCode(m, u) && p < |u.w.code| && k < |u.w.code[p]| && u.w.code[p][k].category !in {BRANCH, JUMP}
    ensures InText(u.w, p, k + 1)
    ensures CodeMoves(m, p, k, CodeOf(u.w.code[p][k]), s, c') <==> ItemMoves(u.w, p, k, s, c')
  {
    var i := u.w.code[p][k];
    forall v
      ensures ExecLine(CodeOf(i), v, s) == Exec(i, v, s)
      ensures (i.name == LA ==> Addresses(m, p, k, Refers(CodeOf(i)), v)) <==> Yields(u.w, i, v)
    {
      LineDoes(i, v, s);
      if i.name == LA {
        SameAddress(m, u, p, k, v);
      }
    }
  }

  /** One step of the text is one step of the instructions behind it: the same states follow each
      state, whatever is drawn. */
  lemma PrintedMovesIff(m: Image, u: Setup, c: Config, c': Config)
    requires PrintedCode(m, u)
    ensures PrintedMoves(m, c, c') <==> Moves(u.w, c, c')
  {
    if c.Running? && InText(u.w, c.program, c.at) {
      var p, k := c.program, c.at;
      LineOf(m, u, p, k);
      if k < |u.w.code[p]| {
        var category := u.w.code[p][k].category;
        if category == BRANCH {
          SameBranch(m, u, p, k, c.state, c');
        } else if category == JUMP {
          SameJump(m, u, p, k, c.state, c');
        } else {
          SamePlain(m, u, p, k, c.state, c');
        }
      } else {
        SameGoesTo(m, u.w.code, JalrAddress(Get(c.state, RA), 0), c.state, c');
      }
    }
  }

  /** So the runs of the text are those of TextRun. */
  lemma PrintedRunIff(m: Image, u: Setup, start: State, run: seq<Config>)
    requires PrintedCode(m, u)
    ensures IsPrintedRun(m, start, run) <==> IsTextRun(u.w, start, run)
  {
    forall n | 0 <= n < |run| - 1 ensures PrintedMovesAt(m, run, n) <==> MovesAt(u.w, run, n) {
      PrintedMovesIff(m, u, run[n], run[n + 1]);
    }
  }

  // ---------------------------------------------------------------- what is printed

  /** Every long enough run of the text reaches `test_done`, within the bound of TextRun. */
  lemma PrintedReachesTestDone(m: Image, u: Setup, start: State, run: seq<Config>) returns (n: nat)
    requires PrintedCode(m, u) && Get(start, SP) == u.hi && IsPrintedRun(m, start, run) && |run| > CostFrom(u, 0, 0)
    ensures n < CostFrom(u, 0, 0) && n < |run| && run[n] == Running(0, |m.text[0]|, run[n].state)
    ensures Get(run[n].state, SP) == u.hi && AllInside(u, run, 0, n)
  {
    PrintedRunIff(m, u, start, run);
    n := MainReachesTestDone(u, start, run);
    LineOf(m, u, 0, 0);
  }

  ghost predicate PrintedBounded(m: Image, start: State, bound: nat) {
    forall run :: IsPrintedRun(m, start, run) ==> |run| <= bound
  }

  ghost predicate PrintedEnds(m: Image, start: State) {
    exists bound: nat :: PrintedBounded(m, start, bound)
  }

  lemma PrintedEndsIff(m: Image, u: Setup, start: State)
    requires PrintedCode(m, u)
    ensures PrintedEnds(m, start) <==> SomeBound(u.w, start)
  {
    forall run ensures IsPrintedRun(m, start, run) <==> IsTextRun(u.w, start, run) {
      PrintedRunIff(m, u, start, run);
    }
    if PrintedEnds(m, start) {
      var bound: nat :| PrintedBounded(m, start, bound);
      assert Bounded(u.w, start, bound);
    }
    if SomeBound(u.w, start) {
      var bound: nat :| Bounded(u.w, start, bound);
      assert PrintedBounded(m, start, bound);
    }
  }

  /** The text ends from every start exactly if nothing but the main program was printed, for main
      programs that leave RA alone behind their last call. */
  lemma PrintedTextEndsIff(m: Image, u: Setup)
    requires PrintedCode(m, u) && RaSettled(u.w.code[0])
    ensures (forall start :: Get(start, SP) == u.hi ==> PrintedEnds(m, start)) <==> |m.text| == 1
  {
    TextEndsIff(u);
    forall start ensures PrintedEnds(m, start) <==> SomeBound(u.w, start) {
      PrintedEndsIff(m, u, start);
    }
  }
}
