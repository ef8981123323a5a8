/** Generated programs on registers and memory. A return goes to the address in RA, a JALR to
    the sum of its base register and its immediate; that calls and returns of calls go where
    they are meant to is the result. */
module MachineRun {
  import opened Wrappers
  import opened IntRegisters
  import opened InstrBase
  import opened Machine
  import opened StackDiscipline
  import opened JumpStream
  import opened SequenceLabels
  import opened Segments
  import opened ClosedStreams
  import opened CallstackGen
  import opened ProgramRun

  // ---------------------------------------------------------------- the machine

  /** A program in memory: its instructions and the address of each. Behind the last one comes
      the return of a sub-program and, behind the main program, the section `test_done`. It is
      followed by the sub-programs in the order in which they are printed, and then by the
      section `write_tohost`, which ends the simulation. */
  datatype World = World(code: seq<seq<Instr>>, addr: seq<seq<Word>>, order: seq<nat>, tohost: Word, page: seq<Word>)

  /** At an instruction, or at `write_tohost`. */
  datatype Config = Running(program: nat, at: nat, state: State) | Done(state: State)

  predicate InText(w: World, p: nat, k: nat) {
    p < |w.addr| && k < |w.addr[p]|
  }

  /** Every sub-program once. */
  predicate AllSubs(order: seq<nat>, count: nat) {
    && (forall p :: 0 < p < count ==> p in order) && (forall p :: p in order ==> 0 < p < count)
    && forall i, j :: 0 <= i < j < |order| ==> order[i] != order[j]
  }

  /** Instructions start at even addresses (RISC-V Unprivileged ISA, section 1.5), no two of
      them at the same one. */
  ghost predicate LaidOut(w: World) {
    && |w.addr| == |w.code| && |w.page| == PRINTED_PAGES
    && (forall p :: 0 <= p < |w.code| ==> |w.addr[p]| == |w.code[p]| + 1)
    && AllSubs(w.order, |w.code|) && w.tohost % 2 == 0
    && (forall p: nat, k: nat :: InText(w, p, k) ==> w.addr[p][k] % 2 == 0 && w.addr[p][k] != w.tohost)
    && (forall p: nat, k: nat, q: nat, j: nat :: InText(w, p, k) && InText(w, q, j) && w.addr[p][k] == w.addr[q][j] ==>
          p == q && k == j)
  }

  /** What `la` yields for the labels the generator uses with it. */
  function Symbol(w: World, target: Label): Option<Word> {
    match target
    case Program(q) => if InText(w, q, 0) then Some(w.addr[q][0]) else None
    case DataPage(id, offset) => if id < |w.page| then Some(Wrap(w.page[id] + offset)) else None
    case _ => None
  }

  predicate Yields(w: World, i: Instr, v: Word) {
    i.name == LA && Symbol(w, i.target).Some? ==> v == Symbol(w, i.target).value
  }

  /** A jump to an address where the program has nothing may do anything. */
  ghost predicate GoesTo(w: World, address: Word, s: State, c': Config) {
    && (forall q: nat, j: nat :: InText(w, q, j) && w.addr[q][j] == address ==> c' == Running(q, j, s))
    && (address == w.tohost ==> c' == Done(s))
  }

  ghost predicate ItemMoves(w: World, p: nat, k: nat, s: State, c': Config)
    requires p < |w.code| && k < |w.code[p]| && InText(w, p, k + 1)
  {
    var list, i := w.code[p], w.code[p][k];
    if i.category == BRANCH then
      var dest := Find(list, k + 1, i.target);
      c' == Running(p, k + 1, s) || (dest < |list| ==> c' == Running(p, dest, s))
    else if i.category == JUMP then
      var linked := Set(s, i.rd, w.addr[p][k + 1]);
      if i.name == JAL then i.target.Program? && InText(w, i.target.id, 0) ==> c' == Running(i.target.id, 0, linked)
      else GoesTo(w, JalrAddress(Get(s, i.src1), i.imm), linked, c')
    else exists v :: Yields(w, i, v) && c' == Running(p, k + 1, Exec(i, v, s))
  }

  /** What is behind `test_done: li gp, 1`: its `ecall` is commented out, so the first printed
      sub-program. */
  function BehindTestDone(w: World, s: State): Config {
    var s' := Set(s, GP, 1);
    if w.order == [] then Done(s') else Running(w.order[0], 0, s')
  }

  /** One step. A sub-program returns with `jalr x0,0(ra)`. */
  ghost predicate Moves(w: World, c: Config, c': Config)
    requires LaidOut(w)
  {
    && c.Running? && InText(w, c.program, c.at)
    && if c.at < |w.code[c.program]| then ItemMoves(w, c.program, c.at, c.state, c')
       else if c.program == 0 then c' == BehindTestDone(w, c.state)
       else GoesTo(w, JalrAddress(Get(c.state, RA), 0), c.state, c')
  }

  /** A value for the instruction that is left to chance, or the symbol's. */
  function SomeValue(w: World, i: Instr, v: Word): (y: Word)
    ensures Yields(w, i, y)
  {
    if i.name == LA && Symbol(w, i.target).Some? then Symbol(w, i.target).value else v
  }

  /** Every state at an instruction has a next one. */
  lemma MachineGoesOn(w: World, c: Config) returns (c': Config)
    requires LaidOut(w) && c.Running? && InText(w, c.program, c.at)
    ensures Moves(w, c, c')
  {
    var p, k, s := c.program, c.at, c.state;
    if k >= |w.code[p]| {
      c' := if p == 0 then BehindTestDone(w, s) else Target(w, JalrAddress(Get(s, RA), 0), s);
    } else {
      var i := w.code[p][k];
      if i.category == JUMP {
        var linked := Set(s, i.rd, w.addr[p][k + 1]);
        c' := if i.name != JAL then Target(w, JalrAddress(Get(s, i.src1), i.imm), linked)
              else if i.target.Program? then Running(i.target.id, 0, linked) else Done(linked);
      } else {
        var v := SomeValue(w, i, 0);
        c' := Running(p, k + 1, if i.category == BRANCH then s else Exec(i, v, s));
      }
    }
  }

  ghost function Target(w: World, address: Word, s: State): (c: Config)
    requires LaidOut(w)
    ensures GoesTo(w, address, s, c)
  {
    if exists q: nat, j: nat :: InText(w, q, j) && w.addr[q][j] == address then
      var q: nat, j: nat :| InText(w, q, j) && w.addr[q][j] == address;
      Running(q, j, s)
    else Done(s)
  }

  // ---------------------------------------------------------------- what is asked of the program

  /** Every branch goes forward, and every jump is one of these calls. */
  ghost predicate Finished(list: seq<Instr>, calls: seq<nat>) {
    && Forward(list) && CallsExactly(list, calls)
    && forall k :: 0 <= k < |list| && list[k].category == BRANCH ==> list[k].branchAssigned
  }

  /** A finished sequence is sound if none of its JALR calls has the immediate -1024. */
  lemma FinishedIsSound(list: seq<Instr>, calls: seq<nat>)
    requires Finished(list, calls)
    requires forall k :: 0 <= k < |list| && list[k].category == JUMP ==> Reaches(list[k])
    ensures Sound(list, calls)
  {
    forall k | 0 <= k < |list|
      ensures match ControlAt(list, k)
        case Next => true
        case MayBranch(dest) => k < dest < |list|
        case CallTo(callee) => callee in calls
        case Wild => false
    {
      if list[k].category == BRANCH {
        BranchFound(list, calls, k);
      }
    }
  }

  lemma BranchFound(list: seq<Instr>, calls: seq<nat>, k: nat)
    requires Finished(list, calls) && k < |list| && list[k].category == BRANCH
    ensures var dest := Find(list, k + 1, list[k].target); k < dest < |list| && Bears(list[dest], list[k].target)
  {
    assert LandsLater(list, k);
    var j :| k < j < |list| && Bears(list[j], list[k].target);
    FindFinds(list, k + 1, list[k].target, j);
  }

  /** Where the stack blocks of a sequence are: in front of `enter`, and from `exit` on. */
  datatype Layout = Layout(enter: nat, exit: nat, len: nat)

  const FRAME: nat := 64

  predicate Framed(list: seq<Instr>, p: nat, f: Layout) {
    && f.enter <= f.exit <= |list|
    && if p == 0 then f == Layout(0, |list|, 0)
       else
         && 40 <= f.len <= FRAME
         && Shape(true, list[..f.enter], 0, f.len) && SparesOps(list[..f.enter])
         && Shape(false, list[f.exit..], 0, f.len)
         && (forall k :: 0 <= k < f.enter ==> list[k].category != JUMP)
         && (forall k :: f.exit <= k < |list| ==> list[k].category !in {BRANCH, JUMP} && !list[k].hasLabel)
  }

  ghost predicate SequenceMade(graph: CallGraph, code: seq<seq<Instr>>, frames: seq<Layout>, p: nat)
    requires p < |code| == |graph| == |frames|
  {
    Finished(code[p], graph[p]) && Framed(code[p], p, frames[p]) && Equipped(code[p], frames[p].enter)
  }

  /** What the generator delivers. */
  ghost predicate WellMade(levels: seq<nat>, graph: CallGraph, code: seq<seq<Instr>>, frames: seq<Layout>) {
    && CallTree(levels, graph) && |code| == |frames| == |levels|
    && forall p :: 0 <= p < |code| ==> SequenceMade(graph, code, frames, p)
  }

  /** Every data page the list refers to is printed; the generator draws from 40. */
  predicate Links(list: seq<Instr>) {
    forall k :: 0 <= k < |list| && list[k].target.DataPage? ==> list[k].target.page < PRINTED_PAGES
  }

  /** What it does not: the random instructions of the stack blocks spare what the blocks
      carry, nothing in between writes SP, no JALR has the immediate that misses, and the data
      pages are there. */
  predicate Careful(code: seq<seq<Instr>>, frames: seq<Layout>, p: nat)
    requires p < |code| == |frames| && frames[p].enter <= frames[p].exit <= |code[p]|
  {
    var list, f := code[p], frames[p];
    && (p != 0 ==> Safe(true, list[..f.enter], 0) && Safe(false, list[f.exit..], 0))
    && (forall k :: f.enter <= k < f.exit ==> Leaves(list[k], SP))
    && (forall k :: 0 <= k < |list| && list[k].category == JUMP ==> Reaches(list[k]))
    && Links(list)
  }

  /** A program together with the stack pointer it starts with. */
  datatype Setup = Setup(levels: seq<nat>, graph: CallGraph, w: World, frames: seq<Layout>, hi: Word)

  ghost predicate CarefulAt(u: Setup, p: nat)
    requires WellMade(u.levels, u.graph, u.w.code, u.frames) && p < |u.w.code|
  {
    assert SequenceMade(u.graph, u.w.code, u.frames, p);
    Careful(u.w.code, u.frames, p)
  }

  /** Everything the result depends on. There is a frame's length of stack for every level,
      and the data pages are elsewhere. */
  ghost predicate Good(u: Setup) {
    && WellMade(u.levels, u.graph, u.w.code, u.frames) && LaidOut(u.w)
    && (forall p :: 0 <= p < |u.w.code| ==> CarefulAt(u, p))
    && FRAME * LastLevel(u.levels) <= u.hi
    && forall id :: 0 <= id < PRINTED_PAGES ==> PageClear(u, u.w.page[id])
  }

  predicate PageClear(u: Setup, page: Word)
    requires u.levels != []
  {
    page + PAGE_SIZE <= WORD && (u.hi <= page || page + PAGE_SIZE <= u.hi - FRAME * LastLevel(u.levels))
  }

  lemma FramedAt(u: Setup, p: nat)
    requires Good(u) && p < |u.w.code|
    ensures Framed(u.w.code[p], p, u.frames[p])
  {
    assert SequenceMade(u.graph, u.w.code, u.frames, p);
  }

  lemma FinishedAt(u: Setup, p: nat)
    requires Good(u) && p < |u.w.code|
    ensures Finished(u.w.code[p], u.graph[p])
  {
    assert SequenceMade(u.graph, u.w.code, u.frames, p);
  }

  lemma EquippedAt(u: Setup, p: nat)
    requires Good(u) && p < |u.w.code|
    ensures Equipped(u.w.code[p], u.frames[p].enter)
  {
    assert SequenceMade(u.graph, u.w.code, u.frames, p);
  }

  lemma GoodIsSound(u: Setup)
    requires Good(u)
    ensures SoundProgram(u.levels, u.graph, u.w.code)
  {
    forall p | 0 <= p < |u.w.code| ensures Sound(u.w.code[p], u.graph[p]) {
      assert CarefulAt(u, p);
      FinishedAt(u, p);
      FinishedIsSound(u.w.code[p], u.graph[p]);
    }
  }

  // ---------------------------------------------------------------- base registers

  predicate SetsUp(w: World, i: Instr, r: Reg) {
    i.name == LA && i.rd == r && r != ZERO && Symbol(w, i.target).Some?
  }

  /** Inside a segment that starts with `la`, the register holds what `la` yields. */
  ghost predicate LaHeld(w: World, list: seq<Instr>, k: nat, s: State) {
    forall from: nat, to: nat, r: Reg :: Segment(list, from, to, r) && from < k <= to && SetsUp(w, list[from], r) ==>
      Get(s, r) == Symbol(w, list[from].target).value
  }

  /** Between the `addi` of a call and its jump, it holds the sum. */
  ghost predicate SumHeld(w: World, list: seq<Instr>, k: nat, s: State) {
    forall p: nat, q: nat, j: nat, a: nat :: BaseMade(list, p, q, j, a) && q < k <= j && Symbol(w, list[p].target).Some? ==>
      Get(s, list[j].src1) == Wrap(Symbol(w, list[p].target).value + Imm11(a))
  }

  ghost predicate Held(w: World, list: seq<Instr>, k: nat, s: State) {
    LaHeld(w, list, k, s) && SumHeld(w, list, k, s)
  }

  lemma ExecLeaves(i: Instr, v: Word, s: State, r: Reg)
    requires Leaves(i, r)
    ensures Get(Exec(i, v, s), r) == Get(s, r)
  {
  }

  lemma HeldNext(w: World, list: seq<Instr>, k: nat, v: Word, s: State)
    requires Held(w, list, k, s) && k < |list| && list[k].category !in {BRANCH, JUMP} && Yields(w, list[k], v)
    ensures Held(w, list, k + 1, Exec(list[k], v, s))
  {
    var s' := Exec(list[k], v, s);
    forall from: nat, to: nat, r: Reg | Segment(list, from, to, r) && from < k + 1 <= to && SetsUp(w, list[from], r)
      ensures Get(s', r) == Symbol(w, list[from].target).value
    {
      if from < k {
        ExecLeaves(list[k], v, s, r);
      }
    }
    forall p: nat, q: nat, j: nat, a: nat | BaseMade(list, p, q, j, a) && q < k + 1 <= j && Symbol(w, list[p].target).Some?
      ensures Get(s', list[j].src1) == Wrap(Symbol(w, list[p].target).value + Imm11(a))
    {
      if q < k {
        ExecLeaves(list[k], v, s, list[j].src1);
      }
    }
  }

  lemma HeldBranch(w: World, list: seq<Instr>, k: nat, dest: nat, s: State)
    requires Held(w, list, k, s) && k < |list| && Assigned(list[k])
    requires dest == k + 1 || (dest < |list| && Bears(list[dest], list[k].target))
    ensures Held(w, list, dest, s)
  {
    forall from: nat, to: nat, r: Reg | Segment(list, from, to, r) && from < dest <= to ensures from < k < to {
    }
    forall p: nat, q: nat, j: nat, a: nat | BaseMade(list, p, q, j, a) && q < dest <= j ensures q < k < j {
    }
  }

  /** Control is never inside a segment at the start of a sequence or behind a jump. */
  lemma HeldOutside(w: World, list: seq<Instr>, k: nat, s: State)
    requires k == 0 || (k <= |list| && list[k - 1].category == JUMP)
    ensures Held(w, list, k, s)
  {
    forall from: nat, to: nat, r: Reg ensures !(Segment(list, from, to, r) && from < k <= to) {
    }
  }

  // ---------------------------------------------------------------- activations

  /** The programs that have been entered and not left: the running one in front. `entry` is
      the state it was entered with, `call` the number of the step that entered it. */
  datatype Acts = NoAct | Act(program: nat, at: nat, entry: State, call: nat, below: Acts)

  function StackOf(acts: Acts): Stack {
    match acts case NoAct => Empty case Act(p, k, _, _, below) => Push(Frame(p, k), StackOf(below))
  }

  /** Memory from `from` up to the start of the stack. */
  ghost predicate SameAbove(u: Setup, from: nat, s: State, s': State) {
    forall a :: from <= a < u.hi ==> Load(s', a) == Load(s, a)
  }

  /** The stack pointer a program was entered with: a frame down for every level above. */
  predicate Deep(u: Setup, p: nat, entry: State) {
    && p < |u.levels| && Get(entry, SP) <= u.hi
    && if p == 0 then Get(entry, SP) == u.hi else Get(entry, SP) + FRAME * u.levels[p] >= u.hi + FRAME
  }

  /** Between the stack blocks: RA and T0 are in the frame, and SP is below it. */
  ghost predicate BodyHolds(u: Setup, p: nat, entry: State, s: State) {
    && p < |u.frames| && SameAbove(u, Get(entry, SP), entry, s)
    && if p == 0 then Get(s, SP) == Get(entry, SP) else Carried(true, 3, u.frames[p].len, KeptBy(entry), s)
  }

  /** Inside a stack block, with this much of it left. */
  ghost predicate BlockGoesOn(push: bool, rest: seq<Instr>, len: nat, kept: Kept, s: State) {
    exists j :: Shape(push, rest, j, len) && Safe(push, rest, j) && Carried(push, j, len, kept, s)
  }

  ghost predicate Phase(u: Setup, p: nat, k: nat, entry: State, s: State) {
    && p < |u.frames| && p < |u.w.code| && SameAbove(u, Get(entry, SP), entry, s)
    && var list, f := u.w.code[p], u.frames[p];
       && f.enter <= f.exit <= |list| && k <= |list|
       && if k < f.enter then BlockGoesOn(true, list[k..f.enter], f.len, KeptBy(entry), s)
          else if k <= f.exit then BodyHolds(u, p, entry, s)
          else BlockGoesOn(false, list[k..], f.len, KeptBy(entry), s)
  }

  /** The programs that wait for one that was entered with `entry`. */
  ghost predicate Waiting(u: Setup, acts: Acts, entry: State) {
    match acts
    case NoAct => true
    case Act(p, k, mine, _, below) =>
      && p < |u.w.code| && p < |u.frames| && InText(u.w, p, k)
      && u.frames[p].enter < k <= u.frames[p].exit <= |u.w.code[p]| && u.w.code[p][k - 1].category == JUMP
      && Get(entry, RA) == u.w.addr[p][k]
      && Deep(u, p, mine) && BodyHolds(u, p, mine, entry)
      && Waiting(u, below, mine)
  }

  ghost predicate Inv(u: Setup, acts: Acts, c: Config)
    requires acts.Act?
  {
    && c.Running? && c.program == acts.program && c.at == acts.at
    && Deep(u, acts.program, acts.entry) && Phase(u, acts.program, acts.at, acts.entry, c.state)
    && Held(u.w, u.w.code[acts.program], acts.at, c.state)
    && Waiting(u, acts.below, acts.entry)
  }

  /** The first of the programs has come to its end. */
  predicate Through(u: Setup, acts: Acts)
    requires acts.Act?
  {
    acts.below.NoAct? && acts.program < |u.w.code| && acts.at >= |u.w.code[acts.program]|
  }

  // ---------------------------------------------------------------- steps inside a program

  lemma DeepFacts(u: Setup, p: nat, entry: State)
    requires Good(u) && Deep(u, p, entry)
    ensures p < |u.frames| && u.frames[p].len <= FRAME
    ensures var inside := Get(entry, SP) - u.frames[p].len;
      && u.hi - FRAME * LastLevel(u.levels) <= inside && inside + FRAME * u.levels[p] >= u.hi
      && inside == Inner(Get(entry, SP), u.frames[p].len)
    ensures u.levels[p] <= LastLevel(u.levels) && (p != 0 ==> u.frames[p].len >= 40)
  {
    LevelsGrow(u.levels, p, |u.levels| - 1);
    FramedAt(u, p);
  }

  lemma BlockStep(push: bool, rest: seq<Instr>, len: nat, kept: Kept, v: Word, s: State)
    requires rest != [] && rest[0].category !in {BRANCH, JUMP} && BlockGoesOn(push, rest, len, kept, s)
    requires SLOT_T0 < len <= kept.sp
    ensures BlockGoesOn(push, rest[1..], len, kept, Exec(rest[0], v, s))
    ensures forall a :: kept.sp <= a ==> Load(Exec(rest[0], v, s), a) == Load(s, a)
  {
    var j: nat :| Shape(push, rest, j, len) && Safe(push, rest, j) && Carried(push, j, len, kept, s);
    var s' := Exec(rest[0], v, s);
    if rest[0].name == OTHER {
      HarmlessCarries(push, rest[0], j, len, kept, v, s);
      assert Shape(push, rest[1..], j, len) && Safe(push, rest[1..], j);
    } else {
      OpCarries(push, rest[0], j, len, kept, v, s);
      OpStores(push, rest[0], j, len, kept, v, s);
      assert Shape(push, rest[1..], j + 1, len) && Safe(push, rest[1..], j + 1);
    }
  }

  /** The operations of a block store below the frame's end only. */
  lemma OpStores(push: bool, i: Instr, j: nat, len: nat, kept: Kept, v: Word, s: State)
    requires IsOp(push, i, j, len) && Carried(push, j, len, kept, s) && SLOT_T0 < len <= kept.sp
    ensures forall a :: kept.sp <= a ==> Load(Exec(i, v, s), a) == Load(s, a)
  {
    assert Inner(kept.sp, len) == kept.sp - len;
  }

  lemma BlockBranch(push: bool, rest: seq<Instr>, len: nat, kept: Kept, s: State)
    requires rest != [] && rest[0].category == BRANCH && SparesOps(rest) && BlockGoesOn(push, rest, len, kept, s)
    ensures BranchStays(rest) && BlockGoesOn(push, rest[1..], len, kept, s)
    ensures BlockGoesOn(push, rest[Find(rest, 1, rest[0].target)..], len, kept, s)
  {
    var j: nat :| Shape(push, rest, j, len) && Safe(push, rest, j) && Carried(push, j, len, kept, s);
    BranchLeaves(push, rest, j, len);
    assert Shape(push, rest[1..], j, len) && Safe(push, rest[1..], j);
  }

  lemma {:induction false} FindInPart(list: seq<Instr>, k: nat, e: nat, m: nat, tag: Label)
    requires k + m <= e <= |list| && Find(list[k..e], m, tag) < e - k
    ensures Find(list, k + m, tag) == k + Find(list[k..e], m, tag)
    decreases e - m
  {
    if k + m < e && !Bears(list[k + m], tag) {
      FindInPart(list, k, e, m + 1, tag);
    }
  }

  lemma BlockPlainStep(u: Setup, p: nat, k: nat, entry: State, v: Word, s: State)
    requires Good(u) && Deep(u, p, entry) && Phase(u, p, k, entry, s) && k < |u.w.code[p]|
    requires !(u.frames[p].enter <= k < u.frames[p].exit) && u.w.code[p][k].category !in {BRANCH, JUMP}
    ensures Phase(u, p, k + 1, entry, Exec(u.w.code[p][k], v, s))
  {
    var list, f, kept := u.w.code[p], u.frames[p], KeptBy(entry);
    DeepFacts(u, p, entry);
    FramedAt(u, p);
    assert CarefulAt(u, p);
    var push := k < f.enter;
    var rest := if push then list[k..f.enter] else list[k..];
    if k == f.exit {
      PushMeetsPop(f.len, kept, s);
      assert Shape(false, rest, 0, f.len) && Safe(false, rest, 0);
    }
    BlockStep(push, rest, f.len, kept, v, s);
    assert rest[1..] == if push then list[k + 1..f.enter] else list[k + 1..];
  }

  /** Branches of a push block stay in it. */
  lemma BlockBranchStep(u: Setup, p: nat, k: nat, entry: State, s: State, dest: nat)
    requires Good(u) && Phase(u, p, k, entry, s) && k < u.frames[p].enter && u.w.code[p][k].category == BRANCH
    requires dest == k + 1 || dest == Find(u.w.code[p], k + 1, u.w.code[p][k].target)
    ensures Phase(u, p, dest, entry, s)
  {
    var list, f, kept := u.w.code[p], u.frames[p], KeptBy(entry);
    FramedAt(u, p);
    var rest := list[k..f.enter];
    SparesTail(list[..f.enter], k);
    assert list[..f.enter][k..] == rest;
    BlockBranch(true, rest, f.len, kept, s);
    FindInPart(list, k, f.enter, 1, list[k].target);
    assert rest[dest - k..] == list[dest..f.enter];
  }

  /** A store goes to the data page it was made for. */
  lemma StoreInPage(w: World, list: seq<Instr>, k: nat, s: State) returns (id: nat)
    requires StoreMade(list, k) && LaHeld(w, list, k, s) && Links(list) && |w.page| == PRINTED_PAGES
    requires forall id :: 0 <= id < PRINTED_PAGES ==> w.page[id] + PAGE_SIZE <= WORD
    ensures id < PRINTED_PAGES && w.page[id] <= Address(list[k], s) < w.page[id] + PAGE_SIZE
  {
    var from: nat :| PageMade(list, from, k);
    id := list[from].target.page;
    var base := w.page[id] + list[from].target.offset;
    assert SetsUp(w, list[from], list[k].src1);
    WrapTwice(0, base, list[k].imm);
    assert Get(s, list[k].src1) == Wrap(base);
  }

  lemma OneStore(i: Instr, v: Word, s: State, a: nat)
    requires IsStore(i.name) ==> a != Address(i, s)
    ensures Load(Exec(i, v, s), a) == Load(s, a)
  {
  }

  /** The part of memory that is the program's stack. */
  predicate InStack(u: Setup, a: int)
    requires u.levels != []
  {
    u.hi - FRAME * LastLevel(u.levels) <= a < u.hi
  }

  ghost predicate SameStack(u: Setup, s: State, s': State)
    requires u.levels != []
  {
    forall a: nat :: InStack(u, a) ==> Load(s', a) == Load(s, a)
  }

  /** Stores between the stack blocks spare the stack. */
  lemma StoreSpares(u: Setup, p: nat, k: nat, v: Word, s: State)
    requires Good(u) && p < |u.w.code| && u.frames[p].enter <= k < |u.w.code[p]| && Held(u.w, u.w.code[p], k, s)
    ensures SameStack(u, s, Exec(u.w.code[p][k], v, s))
  {
    var i := u.w.code[p][k];
    forall a: nat | InStack(u, a) ensures Load(Exec(i, v, s), a) == Load(s, a) {
      if IsStore(i.name) {
        EquippedAt(u, p);
        assert CarefulAt(u, p);
        forall id | 0 <= id < PRINTED_PAGES ensures u.w.page[id] + PAGE_SIZE <= WORD {
          assert PageClear(u, u.w.page[id]);
        }
        var id := StoreInPage(u.w, u.w.code[p], k, s);
        assert PageClear(u, u.w.page[id]);
      }
      OneStore(i, v, s, a);
    }
  }

  /** With SP and the stack unchanged, the body's part of the invariant stays. */
  lemma BodyHoldsStill(u: Setup, p: nat, entry: State, s: State, s': State)
    requires Good(u) && Deep(u, p, entry) && BodyHolds(u, p, entry, s)
    requires Get(s', SP) == Get(s, SP) && SameAbove(u, Get(s, SP), s, s')
    ensures BodyHolds(u, p, entry, s')
  {
    DeepFacts(u, p, entry);
    if p != 0 {
      var inner := Inner(Get(entry, SP), u.frames[p].len);
      assert Wrap(inner + SLOT_RA) == inner + SLOT_RA && Wrap(inner + SLOT_T0) == inner + SLOT_T0;
    }
  }

  lemma BodySp(u: Setup, p: nat, entry: State, s: State)
    requires Good(u) && Deep(u, p, entry) && BodyHolds(u, p, entry, s)
    ensures p < |u.frames| && Get(s, SP) == Get(entry, SP) - u.frames[p].len >= u.hi - FRAME * LastLevel(u.levels)
    ensures u.hi <= Get(s, SP) + FRAME * u.levels[p]
  {
    DeepFacts(u, p, entry);
    FramedAt(u, p);
  }

  lemma BodyStep(u: Setup, p: nat, k: nat, entry: State, v: Word, s: State)
    requires Good(u) && Deep(u, p, entry) && Phase(u, p, k, entry, s) && Held(u.w, u.w.code[p], k, s)
    requires u.frames[p].enter <= k < u.frames[p].exit && u.w.code[p][k].category !in {BRANCH, JUMP}
    ensures Phase(u, p, k + 1, entry, Exec(u.w.code[p][k], v, s))
  {
    var i := u.w.code[p][k];
    FramedAt(u, p);
    assert CarefulAt(u, p);
    assert Leaves(i, SP);
    ExecLeaves(i, v, s, SP);
    StoreSpares(u, p, k, v, s);
    BodySp(u, p, entry, s);
    BodyHoldsStill(u, p, entry, s, Exec(i, v, s));
  }

  lemma BodyBranchStep(u: Setup, p: nat, k: nat, entry: State, s: State, dest: nat)
    requires Good(u) && Phase(u, p, k, entry, s) && u.frames[p].enter <= k < u.frames[p].exit
    requires u.w.code[p][k].category == BRANCH
    requires dest == k + 1 || dest == Find(u.w.code[p], k + 1, u.w.code[p][k].target)
    ensures Phase(u, p, dest, entry, s)
  {
    FramedAt(u, p);
    FinishedAt(u, p);
    BranchFound(u.w.code[p], u.graph[p], k);
  }

  // ---------------------------------------------------------------- calls and returns

  lemma BaseIs(w: World, list: seq<Instr>, from: nat, add: nat, k: nat, a: nat, s: State)
    requires BaseMade(list, from, add, k, a) && SumHeld(w, list, k, s) && InText(w, list[k].tag.callee, 0)
    ensures Get(s, list[k].src1) == Wrap(w.addr[list[k].tag.callee][0] + Imm11(a)) && list[k].imm == Imm11(0 - a)
  {
    assert Symbol(w, list[from].target).Some?;
  }

  lemma BaseReaches(w: World, list: seq<Instr>, from: nat, add: nat, k: nat, a: nat, s: State)
    requires BaseMade(list, from, add, k, a) && SumHeld(w, list, k, s) && Reaches(list[k]) && list[k].name == JALR
    requires InText(w, list[k].tag.callee, 0) && w.addr[list[k].tag.callee][0] % 2 == 0
    ensures JalrAddress(Get(s, list[k].src1), list[k].imm) == w.addr[list[k].tag.callee][0]
  {
    BaseIs(w, list, from, add, k, a, s);
    SumReaches(w.addr[list[k].tag.callee][0], a, Get(s, list[k].src1), list[k].imm);
  }

  /** The JALR of a call goes to the address its `la` yielded. */
  lemma JalrReaches(w: World, list: seq<Instr>, k: nat, s: State)
    requires k < |list| && JumpMade(list, k) && list[k].name == JALR && Reaches(list[k])
    requires SumHeld(w, list, k, s) && InText(w, list[k].tag.callee, 0) && w.addr[list[k].tag.callee][0] % 2 == 0
    ensures JalrAddress(Get(s, list[k].src1), list[k].imm) == w.addr[list[k].tag.callee][0]
  {
    var from: nat, add: nat, a: nat :| BaseMade(list, from, add, k, a);
    BaseReaches(w, list, from, add, k, a, s);
  }

  lemma SumReaches(t: Word, a: nat, base: Word, imm: int)
    requires t % 2 == 0 && base == Wrap(t + Imm11(a)) && imm == Imm11(0 - a) && imm != -1024
    ensures JalrAddress(base, imm) == t
  {
    ImmediatesReach(t, a);
  }

  lemma ImmediatesReach(t: Word, a: nat)
    requires t % 2 == 0 && Imm11(0 - a) != -1024
    ensures JalrAddress(Wrap(t + Imm11(a)), Imm11(0 - a)) == t
  {
    ImmediatesCancelIff(a);
    Imm11Facts(0 - a);
    JumpLands(t, Imm11(a), Imm11(0 - a));
  }

  /** A call goes to the start of its callee, with the next address in RA. */
  lemma CallReaches(u: Setup, p: nat, k: nat, s: State, c': Config)
    requires Good(u) && p < |u.w.code| && k < |u.w.code[p]| && u.w.code[p][k].category == JUMP
    requires Held(u.w, u.w.code[p], k, s) && ItemMoves(u.w, p, k, s, c')
    ensures u.w.code[p][k].tag.JumpPoint? && u.w.code[p][k].tag.callee in u.graph[p]
    ensures c' == Running(u.w.code[p][k].tag.callee, 0, Set(s, RA, u.w.addr[p][k + 1]))
  {
    var list, i := u.w.code[p], u.w.code[p][k];
    FinishedAt(u, p);
    EquippedAt(u, p);
    assert JumpMade(list, k);
    assert CarefulAt(u, p);
    assert Reaches(i);
    CallsDescend(u.levels, u.graph, p, i.tag.callee);
    assert InText(u.w, i.tag.callee, 0);
    if i.name == JALR {
      JalrReaches(u.w, list, k, s);
    }
  }

  /** At the start of a sub-program with a frame of stack. */
  lemma ProgramEnters(u: Setup, q: nat, entry: State)
    requires Good(u) && 0 < q < |u.w.code| && Deep(u, q, entry)
    ensures Phase(u, q, 0, entry, entry)
  {
    var list, f := u.w.code[q], u.frames[q];
    FramedAt(u, q);
    assert CarefulAt(u, q);
    PushMeetsPop(f.len, KeptBy(entry), entry);
    assert list[0..f.enter] == list[..f.enter];
    assert Shape(true, list[0..f.enter], 0, f.len) && Safe(true, list[0..f.enter], 0);
  }

  lemma CallEnters(u: Setup, p: nat, k: nat, entry: State, s: State, q: nat)
    requires Good(u) && Deep(u, p, entry) && BodyHolds(u, p, entry, s) && InText(u.w, p, k + 1) && q in u.graph[p]
    ensures q < |u.w.code|
    ensures var linked := Set(s, RA, u.w.addr[p][k + 1]);
      Deep(u, q, linked) && Phase(u, q, 0, linked, linked) && BodyHolds(u, p, entry, linked)
  {
    CallsDescend(u.levels, u.graph, p, q);
    BodySp(u, p, entry, s);
    ProgramEnters(u, q, Set(s, RA, u.w.addr[p][k + 1]));
  }

  /** At its end a program has given back what it was entered with. */
  lemma EndRestores(u: Setup, p: nat, entry: State, s: State)
    requires Good(u) && p != 0 && Deep(u, p, entry) && Phase(u, p, |u.w.code[p]|, entry, s)
    ensures KeptBy(s) == KeptBy(entry) && SameAbove(u, Get(entry, SP), entry, s)
  {
    var list, f := u.w.code[p], u.frames[p];
    FramedAt(u, p);
    assert f.exit < |list|;
    var j: nat :| Shape(false, list[|list|..], j, f.len) && Safe(false, list[|list|..], j)
      && Carried(false, j, f.len, KeptBy(entry), s);
    PushMeetsPop(f.len, KeptBy(entry), s);
  }

  lemma ReturnKeeps(u: Setup, acts: Acts, entry: State, s: State)
    requires Good(u) && acts.Act? && Waiting(u, acts, entry)
    requires KeptBy(s) == KeptBy(entry) && SameAbove(u, Get(entry, SP), entry, s)
    ensures Inv(u, acts, Running(acts.program, acts.at, s))
    ensures InText(u.w, acts.program, acts.at) && Get(s, RA) == u.w.addr[acts.program][acts.at]
  {
    BodyHoldsStill(u, acts.program, acts.entry, entry, s);
    HeldOutside(u.w, u.w.code[acts.program], acts.at, s);
  }

  // ---------------------------------------------------------------- steps of the program

  lemma PlainKeeps(u: Setup, p: nat, k: nat, entry: State, s: State, v: Word)
    requires Good(u) && Deep(u, p, entry) && Phase(u, p, k, entry, s) && Held(u.w, u.w.code[p], k, s)
    requires k < |u.w.code[p]| && u.w.code[p][k].category !in {BRANCH, JUMP} && Yields(u.w, u.w.code[p][k], v)
    ensures var s' := Exec(u.w.code[p][k], v, s); Phase(u, p, k + 1, entry, s') && Held(u.w, u.w.code[p], k + 1, s')
  {
    if u.frames[p].enter <= k < u.frames[p].exit {
      BodyStep(u, p, k, entry, v, s);
    } else {
      BlockPlainStep(u, p, k, entry, v, s);
    }
    HeldNext(u.w, u.w.code[p], k, v, s);
  }

  lemma BranchKeeps(u: Setup, p: nat, k: nat, entry: State, s: State, dest: nat)
    requires Good(u) && Phase(u, p, k, entry, s) && Held(u.w, u.w.code[p], k, s)
    requires k < |u.w.code[p]| && u.w.code[p][k].category == BRANCH
    requires dest == k + 1 || dest == Find(u.w.code[p], k + 1, u.w.code[p][k].target)
    ensures Phase(u, p, dest, entry, s) && Held(u.w, u.w.code[p], dest, s)
  {
    FramedAt(u, p);
    FinishedAt(u, p);
    if k < u.frames[p].enter {
      BlockBranchStep(u, p, k, entry, s, dest);
    } else {
      BodyBranchStep(u, p, k, entry, s, dest);
    }
    BranchFound(u.w.code[p], u.graph[p], k);
    HeldBranch(u.w, u.w.code[p], k, dest, s);
  }

  lemma EvenReturn(a: Word)
    requires a % 2 == 0
    ensures JalrAddress(a, 0) == a
  {
  }

  /** How the activations change from configuration c: the running program goes on, calls in
      step n, or returns. */
  predicate Follows(w: World, c: Config, acts: Acts, acts': Acts, n: nat) {
    && c.Running? && acts.Act? && c.program == acts.program < |w.code| && c.at == acts.at && InText(w, c.program, c.at)
    && var list, k := w.code[c.program], c.at;
       if k >= |list| then acts' == acts.below
       else match ControlAt(list, k)
         case Next => acts' == acts.(at := k + 1)
         case MayBranch(dest) => acts' == acts.(at := k + 1) || acts' == acts.(at := dest)
         case CallTo(q) =>
           InText(w, c.program, k + 1)
           && acts' == Act(q, 0, Set(c.state, RA, w.addr[c.program][k + 1]), n, acts.(at := k + 1))
         case Wild => false
  }

  lemma ReturnStep(u: Setup, acts: Acts, n: nat, c: Config, c': Config)
    requires Good(u) && acts.Act? && acts.below.Act? && Inv(u, acts, c) && acts.program != 0 && Moves(u.w, c, c')
    requires c.at >= |u.w.code[c.program]|
    ensures Inv(u, acts.below, c') && Follows(u.w, c, acts, acts.below, n)
    ensures c'.state == c.state && KeptBy(c.state) == KeptBy(acts.entry) && SameAbove(u, Get(acts.entry, SP), acts.entry, c.state)
  {
    EndRestores(u, acts.program, acts.entry, c.state);
    ReturnKeeps(u, acts.below, acts.entry, c.state);
    EvenReturn(Get(c.state, RA));
  }

  /** A call enters its callee, and its caller waits behind the jump. */
  lemma CallLands(u: Setup, p: nat, k: nat, entry: State, s: State, c': Config)
    requires Good(u) && Deep(u, p, entry) && Phase(u, p, k, entry, s) && Held(u.w, u.w.code[p], k, s)
    requires k < |u.w.code[p]| && u.w.code[p][k].category == JUMP && ItemMoves(u.w, p, k, s, c')
    ensures c'.Running? && ControlAt(u.w.code[p], k) == CallTo(c'.program)
    ensures c' == Running(c'.program, 0, Set(s, RA, u.w.addr[p][k + 1]))
    ensures Deep(u, c'.program, c'.state) && Phase(u, c'.program, 0, c'.state, c'.state)
    ensures u.frames[p].enter < k + 1 <= u.frames[p].exit && BodyHolds(u, p, entry, c'.state)
  {
    CallReaches(u, p, k, s, c');
    CallControl(u, p, k);
    InBody(u, p, k);
    CallEnters(u, p, k, entry, s, c'.program);
  }

  lemma CallStep(u: Setup, acts: Acts, n: nat, c: Config, c': Config) returns (acts': Acts)
    requires Good(u) && acts.Act? && Inv(u, acts, c) && Moves(u.w, c, c')
    requires c.at < |u.w.code[c.program]| && u.w.code[c.program][c.at].category == JUMP
    ensures acts'.Act? && Inv(u, acts', c') && Follows(u.w, c, acts, acts', n)
  {
    CallLands(u, c.program, c.at, acts.entry, c.state, c');
    HeldOutside(u.w, u.w.code[c'.program], 0, c'.state);
    acts' := Act(c'.program, 0, c'.state, n, acts.(at := c.at + 1));
  }

  /** Jumps are between the stack blocks. */
  lemma InBody(u: Setup, p: nat, k: nat)
    requires Good(u) && p < |u.w.code| && k < |u.w.code[p]| && u.w.code[p][k].category == JUMP
    ensures u.frames[p].enter <= k < u.frames[p].exit <= |u.w.code[p]|
  {
    FramedAt(u, p);
  }

  lemma CallControl(u: Setup, p: nat, k: nat)
    requires Good(u) && p < |u.w.code| && k < |u.w.code[p]| && u.w.code[p][k].category == JUMP
    ensures u.w.code[p][k].tag.JumpPoint? && ControlAt(u.w.code[p], k) == CallTo(u.w.code[p][k].tag.callee)
  {
    FinishedAt(u, p);
    assert CarefulAt(u, p);
    assert Reaches(u.w.code[p][k]);
  }

  lemma BranchStep(u: Setup, acts: Acts, n: nat, c: Config, c': Config)
    requires Good(u) && acts.Act? && Inv(u, acts, c) && Moves(u.w, c, c')
    requires c.at < |u.w.code[c.program]| && u.w.code[c.program][c.at].category == BRANCH
    ensures c'.Running? && Inv(u, acts.(at := c'.at), c') && Follows(u.w, c, acts, acts.(at := c'.at), n)
  {
    FinishedAt(u, c.program);
    BranchFound(u.w.code[c.program], u.graph[c.program], c.at);
    BranchKeeps(u, c.program, c.at, acts.entry, c.state, c'.at);
  }

  lemma PlainStep(u: Setup, acts: Acts, n: nat, c: Config, c': Config)
    requires Good(u) && acts.Act? && Inv(u, acts, c) && Moves(u.w, c, c')
    requires c.at < |u.w.code[c.program]| && u.w.code[c.program][c.at].category !in {BRANCH, JUMP}
    ensures c'.Running? && Inv(u, acts.(at := c'.at), c') && Follows(u.w, c, acts, acts.(at := c'.at), n)
  {
    var i := u.w.code[c.program][c.at];
    var v :| Yields(u.w, i, v) && c' == Running(c.program, c.at + 1, Exec(i, v, c.state));
    PlainKeeps(u, c.program, c.at, acts.entry, c.state, v);
  }

  lemma FollowsIsStep(w: World, c: Config, acts: Acts, acts': Acts, n: nat)
    requires Follows(w, c, acts, acts', n)
    ensures ProgramRun.Step(w.code, StackOf(acts), StackOf(acts'))
  {
    assert StackOf(acts) == Push(Frame(acts.program, acts.at), StackOf(acts.below));
  }

  lemma WaitedForIsSub(levels: seq<nat>, root: nat, acts: Acts)
    requires Levelled(levels) && acts.Act? && acts.below.Act? && Nested(levels, root, StackOf(acts))
    ensures acts.program != 0
  {
    assert StackOf(acts).below == StackOf(acts.below);
  }

  /** Until the program that was started is through, every step of the machine is a step of the
      call stack, and keeps the invariant. */
  lemma StepKeeps(u: Setup, root: nat, acts: Acts, n: nat, c: Config, c': Config) returns (acts': Acts)
    requires Good(u) && acts.Act? && Inv(u, acts, c) && !Through(u, acts)
    requires Nested(u.levels, root, StackOf(acts)) && Moves(u.w, c, c')
    ensures acts'.Act? && Inv(u, acts', c') && Follows(u.w, c, acts, acts', n)
    ensures ProgramRun.Step(u.w.code, StackOf(acts), StackOf(acts'))
  {
    if c.at >= |u.w.code[c.program]| {
      WaitedForIsSub(u.levels, root, acts);
      ReturnStep(u, acts, n, c, c');
      acts' := acts.below;
    } else if u.w.code[c.program][c.at].category == JUMP {
      acts' := CallStep(u, acts, n, c, c');
    } else {
      if u.w.code[c.program][c.at].category == BRANCH {
        BranchStep(u, acts, n, c, c');
      } else {
        PlainStep(u, acts, n, c, c');
      }
      acts' := acts.(at := c'.at);
    }
    FollowsIsStep(u.w, c, acts, acts', n);
  }

  /** The stack pointer stays in the program's stack. */
  lemma SpInStack(u: Setup, p: nat, k: nat, entry: State, s: State)
    requires Good(u) && Deep(u, p, entry) && Phase(u, p, k, entry, s)
    ensures u.hi - FRAME * LastLevel(u.levels) <= Get(s, SP) <= u.hi
  {
    DeepFacts(u, p, entry);
    FramedAt(u, p);
  }
}
