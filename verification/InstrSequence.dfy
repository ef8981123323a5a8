/** One instruction sequence of a generated program (riscv_instr_sequence.py). */
module InstrSequence {
  import opened IntRegisters
  import opened InstrBase
  import opened InstrStream
  import opened StackBlocks
  import opened JumpStream
  import opened SequenceLabels
  import opened BranchTargets

  /** The class of the source; `program` stands for its label name, with 0 the main program. */
  class RiscvInstrSequence {
    const program: nat
    const instrCnt: nat
    const instrStream: RandInstrStream
    const stackEnter: PushStackInstr
    const stackExit: PopStackInstr
    var directedInstr: seq<seq<Instr>>
    var programStackLen: nat

    ghost predicate Separate()
      reads this
    {
      && stackEnter.stream != stackExit.stream
      && instrStream != stackEnter.stream && instrStream != stackExit.stream
    }

    constructor (id: nat, count: nat, directed: seq<seq<Instr>>)
      ensures program == id && instrCnt == count && directedInstr == directed
      ensures fresh(instrStream) && fresh(stackEnter) && fresh(stackExit)
      ensures fresh(stackEnter.stream) && fresh(stackExit.stream) && Separate()
    {
      program, instrCnt, directedInstr, programStackLen := id, count, directed, 0;
      instrStream := new RandInstrStream();
      stackEnter := new PushStackInstr();
      stackExit := new PopStackInstr();
    }

    /** `gen_stack_enter_instr`. */
    method GenStackEnterInstr()
      requires Separate()
      modifies this`programStackLen, instrStream, stackEnter, stackEnter.stream
      ensures StackLen(programStackLen)
      ensures PushList(stackEnter.pushStackInstr, programStackLen, PushStart(program))
      ensures MixedBlock(true, stackEnter.stream.instrList, stackEnter.pushStackInstr)
      ensures instrStream.instrList == stackEnter.stream.instrList + old(instrStream.instrList)
    {
      assert StackLen(40);
      var len: nat :| StackLen(len);
      programStackLen := len;
      stackEnter.GenPushStackInstr(programStackLen, PushStart(program), true);
      instrStream.instrList := stackEnter.stream.instrList + instrStream.instrList;
    }

    /** `gen_stack_exit_instr`. */
    method GenStackExitInstr()
      requires Separate()
      modifies instrStream, stackExit, stackExit.stream
      ensures stackExit.popStackInstr == PopOps(programStackLen)
      ensures MixedBlock(false, stackExit.stream.instrList, stackExit.popStackInstr)
      ensures instrStream.instrList == old(instrStream.instrList) + stackExit.stream.instrList
    {
      stackExit.GenPopStackInstr(programStackLen);
      instrStream.instrList := instrStream.instrList + stackExit.stream.instrList;
    }

    /** `gen_instr`. */
    method GenInstr(isMainProgram: bool) returns (ghost random: seq<Instr>)
      requires Separate()
      modifies this`programStackLen, instrStream, stackEnter, stackEnter.stream, stackExit, stackExit.stream
      ensures RandomStream(random, false, {}) && |random| == instrCnt
      ensures isMainProgram ==> instrStream.instrList == random
      ensures !isMainProgram ==>
        && instrStream.instrList == stackEnter.stream.instrList + random + stackExit.stream.instrList
        && EnterAndExit(program, programStackLen, stackEnter.stream.instrList, stackExit.stream.instrList)
    {
      var none: set<Reg> := {};
      assert ZERO !in none;
      instrStream.GenInstr(instrCnt, false, none);
      random := instrStream.instrList;
      if !isMainProgram {
        GenStackEnterInstr();
        GenStackExitInstr();
      }
    }

    /** `insert_jump_instr`: call number `idx` of the whole program, to program `callee`. */
    method InsertJumpInstr(callee: nat, idx: nat) returns (ghost stream: seq<Instr>, at: nat)
      requires HasPlace(instrStream.instrList)
      modifies instrStream
      ensures CallStream(stream, callee, idx)
      ensures SplicedAt(old(instrStream.instrList), at, stream, instrStream.instrList)
    {
      var jumpInstr := new JumpInstr();
      var base, a := jumpInstr.ProblemDefinition();
      ghost var others, sol;
      others, sol := jumpInstr.PostRandomize(callee, idx);
      stream := jumpInstr.stream.instrList;
      assert MadeFrom(stream, callee, idx, base, a, others, sol, jumpInstr.branch, jumpInstr.jump);
      at := instrStream.InsertInstrStream(jumpInstr.stream.instrList, false);
    }

    /** Lines 124-125: every directed stream goes in at a random place. */
    method InsertDirected() returns (ghost run: seq<seq<Instr>>, places: seq<nat>)
      requires HasPlace(instrStream.instrList)
      modifies instrStream
      ensures SpliceRun(run, directedInstr, places)
      ensures run[0] == old(instrStream.instrList) && run[|directedInstr|] == instrStream.instrList
    {
      run, places := [instrStream.instrList], [];
      for n := 0 to |directedInstr|
        modifies instrStream
        invariant |run| == n + 1 && |places| == n && run[0] == old(instrStream.instrList) && run[n] == instrStream.instrList
        invariant HasPlace(instrStream.instrList)
        invariant forall k :: 0 <= k < n ==> SplicedAt(run[k], places[k], directedInstr[k], run[k + 1])
      {
        var at := instrStream.InsertInstrStream(directedInstr[n], false);
        assert SplicedAt(run[n], at, directedInstr[n], instrStream.instrList);
        assert instrStream.instrList[at + |directedInstr[n]|] == run[n][at];
        run, places := run + [instrStream.instrList], places + [at];
      }
    }

    /** Lines 128-142. */
    method NumberLabels() returns (labelIdx: nat)
      modifies instrStream
      ensures Numbering(old(instrStream.instrList), instrStream.instrList)
      ensures labelIdx == LabelIdx(old(instrStream.instrList), |old(instrStream.instrList)|)
    {
      labelIdx := 0;
      ghost var before := instrStream.instrList;
      for n := 0 to |instrStream.instrList|
        modifies instrStream
        invariant NumberedUpTo(before, instrStream.instrList, n) && labelIdx == LabelIdx(before, n)
      {
        NumberStep(before, instrStream.instrList, n);
        var item := instrStream.instrList[n].(idx := labelIdx);
        if item.hasLabel && !item.atomic {
          item := item.(tag := Numeric(labelIdx), isLocalNumericLabel := true);
          labelIdx := labelIdx + 1;
        }
        instrStream.instrList := instrStream.instrList[n := item];
      }
    }

    /** Lines 144-176. `randint` raises an error (ok is false) when its range is empty. */
    method AssignTargets(labelIdx: nat) returns (ok: bool)
      requires forall k :: 0 <= k < |instrStream.instrList| && instrStream.instrList[k].isLocalNumericLabel ==>
                 instrStream.instrList[k].tag == Numeric(instrStream.instrList[k].idx)
      modifies instrStream
      ensures ok <==> AllRoom(old(instrStream.instrList), labelIdx)
      ensures ok ==> Processed(old(instrStream.instrList), instrStream.instrList, labelIdx)
    {
      var branchTarget: set<int> := {};
      ghost var before := instrStream.instrList;
      for n := 0 to |instrStream.instrList|
        modifies instrStream
        invariant Reached(before, instrStream.instrList, labelIdx, n, branchTarget)
        invariant forall k :: 0 <= k < n && Open(before[k]) ==> Room(before[k].idx, labelIdx)
      {
        ghost var targets := branchTarget;
        var item := instrStream.instrList[n];
        if item.category == BRANCH && !item.branchAssigned {
          if !Room(item.idx, labelIdx) {
            return false;
          }
          var target := RandInt(item.idx, labelIdx);
          item := item.(target := Numeric(target), branchAssigned := true);
          branchTarget := branchTarget + {target};
        }
        if item.hasLabel && item.isLocalNumericLabel && item.tag.n !in branchTarget {
          item := item.(hasLabel := false);
        }
        ReachedStep(before, instrStream.instrList, labelIdx, n, targets, item, branchTarget);
        instrStream.instrList := instrStream.instrList[n := item];
      }
      ok := true;
    }

    /** `post_process_instr`. */
    method PostProcessInstr() returns (ok: bool, ghost run: seq<seq<Instr>>, ghost places: seq<nat>, ghost numbered: seq<Instr>)
      requires HasPlace(instrStream.instrList) && NoNumbers(instrStream.instrList)
      requires forall k :: 0 <= k < |directedInstr| ==> NoNumbers(directedInstr[k])
      modifies instrStream
      ensures SpliceRun(run, directedInstr, places) && run[0] == old(instrStream.instrList)
      ensures Numbering(run[|directedInstr|], numbered)
      ensures ok <==> AllRoom(numbered, LabelIdx(run[|directedInstr|], |run[|directedInstr|]|))
      ensures ok ==> Passed(run[|directedInstr|], numbered, instrStream.instrList)
    {
      run, places := InsertDirected();
      RunNoNumbers(run, directedInstr, places, |directedInstr|);
      var labelIdx := NumberLabels();
      numbered := instrStream.instrList;
      ok := AssignTargets(labelIdx);
    }

    /** `generate_instr_stream`: the text of the sequence. */
    method GenerateInstrStream(isMainProgram: bool) returns (text: seq<TextLine>)
      modifies instrStream
      ensures text == Text(program, old(instrStream.instrList), isMainProgram)
    {
      text := [];
      ghost var before := instrStream.instrList;
      for i := 0 to |instrStream.instrList|
        modifies instrStream
        invariant |instrStream.instrList| == |before| && |text| == i
        invariant forall k :: i <= k < |before| ==> instrStream.instrList[k] == before[k]
        invariant text == Text(program, before, true)[..i]
      {
        var tag := NoLabel;
        if i == 0 {
          tag := Program(program);
          instrStream.instrList := instrStream.instrList[0 := instrStream.instrList[0].(hasLabel := true)];
        } else if instrStream.instrList[i].hasLabel {
          tag := instrStream.instrList[i].tag;
        }
        text := text + [TextLine(tag, CodeOf(instrStream.instrList[i]))];
      }
      if !isMainProgram {
        text := text + [TextLine(Numeric(|instrStream.instrList| - 1), Ret)];
      }
    }
  }

  /** What stands behind a mnemonic. The operands behind the destination of an instruction left
      to chance depend on its mnemonic; `Drawn` has all there is to print. */
  datatype Operand =
    | X(reg: Reg)
    | Num(value: int)
    | Mem(offset: int, base: Reg)
    | Sym(target: Label)
    | Drawn(src1: Reg, src2: Reg, imm: int)

  /** A line of assembly: its label, if any, and the instruction. */
  datatype Code = Ret | Code(name: Name, category: Category, operands: seq<Operand>)
  datatype TextLine = TextLine(tag: Label, code: Code)

  /** `convert2asm`: the operands in the order of the instruction's format. */
  function Operands(i: Instr): seq<Operand> {
    if i.category == BRANCH then [X(i.src1), X(i.src2), Sym(i.target)]
    else if i.category == JUMP then if i.name == JAL then [X(i.rd), Sym(i.target)] else [X(i.rd), X(i.src1), Num(i.imm)]
    else if i.name == LA then [X(i.rd), Sym(i.target)]
    else if i.name == ADDI then [X(i.rd), X(i.src1), Num(i.imm)]
    else if IsStore(i.name) then [X(i.src2), Mem(i.imm, i.src1)]
    else if i.name in {LB, LH, LW, LBU, LHU} then [X(i.rd), Mem(i.imm, i.src1)]
    else if i.category == STORE then [X(i.src2), Mem(i.imm, i.src1)]
    else [X(i.rd), Drawn(i.src1, i.src2, i.imm)]
  }

  function CodeOf(i: Instr): Code {
    Code(i.name, i.category, Operands(i))
  }

  /** The label a line refers to: its last operand, if that is one. */
  function Refers(code: Code): Label {
    if code.Code? && code.operands != [] && code.operands[|code.operands| - 1].Sym?
    then code.operands[|code.operands| - 1].target else NoLabel
  }

  function PrintedTag(program: nat, list: seq<Instr>, k: nat): Label
    requires k < |list|
  {
    if k == 0 then Program(program) else if list[k].hasLabel then list[k].tag else NoLabel
  }

  function Text(program: nat, list: seq<Instr>, isMainProgram: bool): seq<TextLine> {
    seq(|list|, k requires 0 <= k < |list| => TextLine(PrintedTag(program, list, k), CodeOf(list[k])))
    + if isMainProgram then [] else [TextLine(Numeric(|list| - 1), Ret)]
  }

  /** In the text, the label a branch names is on exactly one line, a later one, and that line
      is not the return. */
  ghost predicate Resolves(text: seq<TextLine>, count: nat, k: nat)
    requires k < |text| && text[k].code.Code?
  {
    exists j :: k < j < count && OnlyLine(text, j, Refers(text[k].code))
  }

  ghost predicate OnlyLine(text: seq<TextLine>, j: nat, tag: Label) {
    j < |text| && text[j].tag == tag && forall i :: 0 <= i < |text| && text[i].tag == tag ==> i == j
  }

  /** The number on the return line is no branch's target: a sub-program has instructions
      without number, those of its stack blocks. */
  lemma ReturnNumberFree(list: seq<Instr>, k: nat)
    requires k < |list| && !Numbered(list[k])
    ensures LabelIdx(list, |list|) - 1 < |list| - 1
  {
    CountBelow(list, |list|, k);
  }

  lemma {:induction false} CountBelow(list: seq<Instr>, n: nat, k: nat)
    requires n <= |list| && k < |list| && !Numbered(list[k])
    ensures LabelIdx(list, n) <= n && (k < n ==> LabelIdx(list, n) < n)
  {
    if n > 0 {
      CountBelow(list, n - 1, k);
    }
  }

  lemma OnlyOneLine(program: nat, list: seq<Instr>, isMainProgram: bool, j: nat)
    requires DistinctLabels(list) && 0 < j < |list| && Bears(list[j], list[j].tag) && !list[j].tag.Program?
    requires isMainProgram || list[j].tag != Numeric(|list| - 1)
    ensures OnlyLine(Text(program, list, isMainProgram), j, list[j].tag)
  {
    var text := Text(program, list, isMainProgram);
    forall i | 0 <= i < |text| && text[i].tag == list[j].tag ensures i == j {
      if 0 < i < |list| {
        assert Bears(list[i], list[i].tag);
      }
    }
  }

  lemma BranchLands(list: seq<Instr>, numbered: seq<Instr>, after: seq<Instr>, k: nat) returns (j: nat)
    requires Passed(list, numbered, after) && Ready(list) && k < |after| && after[k].category == BRANCH
    ensures k < j < |after| && Bears(after[j], after[k].target)
  {
    AllForward(list, numbered, after);
    assert LandsLater(after, k);
    j :| k < j < |after| && Bears(after[j], after[k].target);
  }

  /** No instruction bears the number of the return line. */
  ghost predicate ReturnFree(list: seq<Instr>, isMainProgram: bool) {
    isMainProgram || exists m :: 0 <= m < |list| && !Numbered(list[m])
  }

  predicate NoProgramNames(list: seq<Instr>) {
    forall m :: 0 <= m < |list| && list[m].hasLabel ==> !list[m].tag.Program?
  }

  lemma TagsOfPass(list: seq<Instr>, numbered: seq<Instr>, after: seq<Instr>, j: nat, isMainProgram: bool)
    requires Passed(list, numbered, after) && NoNumbers(list) && j < |list| && after[j].hasLabel
    requires ReturnFree(list, isMainProgram) && NoProgramNames(list)
    ensures !after[j].tag.Program?
    ensures isMainProgram || after[j].tag != Numeric(|list| - 1)
  {
    assert ItemDone(numbered[j], after[j], LabelIdx(list, |list|), Targeted(numbered, after, j, numbered[j].tag));
    LabelIdxGrows(list, j, |list|);
    if !isMainProgram {
      var m :| 0 <= m < |list| && !Numbered(list[m]);
      ReturnNumberFree(list, m);
    }
  }

  lemma ResolvesAt(program: nat, list: seq<Instr>, isMainProgram: bool, k: nat, j: nat)
    requires k < j < |list| && OnlyLine(Text(program, list, isMainProgram), j, list[k].target) && list[k].category == BRANCH
    ensures Resolves(Text(program, list, isMainProgram), |list|, k)
  {
    var text := Text(program, list, isMainProgram);
    assert text[k].code == CodeOf(list[k]) && Refers(CodeOf(list[k])) == list[k].target;
    assert OnlyLine(text, j, Refers(text[k].code));
  }

  /** Every branch of the printed sequence resolves. */
  lemma BranchLinesResolve(program: nat, list: seq<Instr>, numbered: seq<Instr>, after: seq<Instr>, isMainProgram: bool, k: nat)
    requires Passed(list, numbered, after) && Ready(list) && k < |after| && after[k].category == BRANCH
    requires ReturnFree(list, isMainProgram) && NoProgramNames(list)
    ensures Resolves(Text(program, after, isMainProgram), |after|, k)
  {
    var j := BranchLands(list, numbered, after, k);
    StillDistinct(list, numbered, after);
    TagsOfPass(list, numbered, after, j, isMainProgram);
    OnlyOneLine(program, after, isMainProgram, j);
    ResolvesAt(program, after, isMainProgram, k, j);
  }

  method RandInt(idx: int, labelIdx: int) returns (target: int)
    requires Room(idx, labelIdx)
    ensures Choice(idx, labelIdx, target)
  {
    assert Choice(idx, labelIdx, idx + 1);
    target :| Choice(idx, labelIdx, target);
  }

  ghost predicate EnterAndExit(program: nat, len: nat, enter: seq<Instr>, exit: seq<Instr>) {
    && StackLen(len)
    && (exists ops :: PushList(ops, len, PushStart(program)) && MixedBlock(true, enter, ops))
    && MixedBlock(false, exit, PopOps(len))
  }
}
