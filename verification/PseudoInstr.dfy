/** Lowering of pseudo-instructions (lib.py, convert_pseudo_instr), against the meaning the
    assembly programmer's handbook (RISC-V Unprivileged ISA, chapter 25) and the Bitmanip
    draft give them. Operands are already split at their commas. */
module PseudoInstr {
  import opened Wrappers
  import opened IntRegisters
  import opened BitPermute

  datatype Name =
    | NOP | MV | NOT | NEG | SEQZ | SNEZ | SLTZ | SGTZ | ZEXT_B | ZEXT_H
    | REV(form: Form) | ORC(form: Form) | ZIP(form: Form) | UNZIP(form: Form)
    | BEQZ | BNEZ | BGEZ | BLTZ | BLEZ | BGTZ | BGT | BLE | BGTU | BLEU
    | CSRR | CSRW | CSRS | CSRC | CSRWI | CSRSI | CSRCI
    | JR | J | RET | JAL | JALR | C_JR
    | NEGW | SEXT_W | ZEXT_W
    | ADDI | XORI | SLTIU | ANDI | GREVI | GORCI | SHFLI | UNSHFLI
    | SUB | SLT | SLTU | PACK | SUBW | ADDIW
    | BEQ | BNE | BLT | BGE | BLTU | BGEU
    | CSRRW | CSRRS | CSRRC | CSRRWI | CSRRSI | CSRRCI
    | OTHER(text: string)

  /** A register, a number, a csr, or an offset with a base register. */
  datatype Operand = R(reg: Reg) | I(imm: bv32) | C(csr: nat) | B(offset: bv32, base: Reg)

  datatype Lowered = Lowered(name: Name, operands: seq<Operand>)

  // ---------------------------------------------------------------- the conversion

  /** `o[0] + ",zero," + o[1]`, an error with fewer than two operands. */
  function WithZero(name: Name, ops: seq<Operand>): Option<Lowered> {
    if |ops| < 2 then None else Some(Lowered(name, [ops[0], R(ZERO), ops[1]]))
  }

  /** `o[1] + "," + o[0] + "," + o[2]`. */
  function Swapped(name: Name, ops: seq<Operand>): Option<Lowered> {
    if |ops| < 3 then None else Some(Lowered(name, [ops[1], ops[0], ops[2]]))
  }

  function Append(name: Name, ops: seq<Operand>, last: Operand): Option<Lowered> {
    Some(Lowered(name, ops + [last]))
  }

  function Prepend(name: Name, first: Operand, ops: seq<Operand>): Option<Lowered> {
    Some(Lowered(name, [first] + ops))
  }

  /** The first operand that has no base register and is followed by one that has: where the
      search for `rd,imm(rs1)` finds something. */
  function FirstPair(ops: seq<Operand>): Option<nat> {
    if |ops| < 2 then None
    else if !ops[0].B? && ops[1].B? then Some(0)
    else
      match FirstPair(ops[1..])
      case None => None
      case Some(k) => Some(k + 1)
  }

  lemma {:induction false} FirstPairIsPair(ops: seq<Operand>)
    requires FirstPair(ops).Some?
    ensures var k := FirstPair(ops).value; k + 1 < |ops| && !ops[k].B? && ops[k + 1].B?
  {
    if ops[0].B? || !ops[1].B? {
      FirstPairIsPair(ops[1..]);
    }
  }

  lemma {:induction false} NoPairAt(ops: seq<Operand>, k: nat)
    requires FirstPair(ops).None? && k + 1 < |ops|
    ensures ops[k].B? || !ops[k + 1].B?
  {
    if k > 0 {
      NoPairAt(ops[1..], k - 1);
    }
  }

  function SplitBase(ops: seq<Operand>): seq<Operand> {
    match FirstPair(ops)
    case None => ops
    case Some(k) =>
      FirstPairIsPair(ops);
      [ops[k], R(ops[k + 1].base), I(ops[k + 1].offset)]
  }

  /** `jalr rd, imm(rs1)`, of which everything else is dropped, and `jalr rs1`. */
  function LowerJalr(ops: seq<Operand>): seq<Operand> {
    var split := SplitBase(ops);
    if |split| <= 1 then [R(RA)] + split + [I(0)] else split
  }

  /** `convert_pseudo_instr`; None is an index error. `compressed`: the binary ends in 2. */
  function Convert(name: Name, ops: seq<Operand>, compressed: bool): Option<Lowered> {
    match name
    case NOP => Some(Lowered(ADDI, [R(ZERO), R(ZERO), I(0)]))
    case MV => Append(ADDI, ops, I(0))
    case NOT => Append(XORI, ops, I(0xFFFF_FFFF))
    case NEG => WithZero(SUB, ops)
    case NEGW => WithZero(SUBW, ops)
    case SEXT_W => Append(ADDIW, ops, I(0))
    case SEQZ => Append(SLTIU, ops, I(1))
    case SNEZ => WithZero(SLTU, ops)
    case SLTZ => Append(SLT, ops, R(ZERO))
    case SGTZ => WithZero(SLT, ops)
    case BEQZ => WithZero(BEQ, ops)
    case BNEZ => WithZero(BNE, ops)
    case BGEZ => WithZero(BGE, ops)
    case BLTZ => WithZero(BLT, ops)
    case BLEZ => Prepend(BGE, R(ZERO), ops)
    case BGTZ => Prepend(BLT, R(ZERO), ops)
    case BGT => Swapped(BLT, ops)
    case BLE => Swapped(BGE, ops)
    case BGTU => Swapped(BLTU, ops)
    case BLEU => Swapped(BGEU, ops)
    case CSRR => Append(CSRRW, ops, R(ZERO))
    case CSRW => Prepend(CSRRW, R(ZERO), ops)
    case CSRS => Prepend(CSRRS, R(ZERO), ops)
    case CSRC => Prepend(CSRRC, R(ZERO), ops)
    case CSRWI => Prepend(CSRRWI, R(ZERO), ops)
    case CSRSI => Prepend(CSRRSI, R(ZERO), ops)
    case CSRCI => Prepend(CSRRCI, R(ZERO), ops)
    case JR => Some(Lowered(JALR, [R(ZERO)] + ops + [I(0)]))
    case J => Prepend(JAL, R(ZERO), ops)
    case JAL => if |ops| > 1 then Some(Lowered(JAL, ops)) else Prepend(JAL, R(RA), ops)
    case JALR => Some(Lowered(JALR, LowerJalr(ops)))
    case RET => if compressed then Some(Lowered(C_JR, [R(RA)])) else Some(Lowered(JALR, [R(ZERO), R(RA), I(0)]))
    case REV(f) => Append(GREVI, ops, I(RevAmount(f)))
    case ORC(f) => Append(GORCI, ops, I(RevAmount(f)))
    case ZIP(f) => if Zippable(f) then Append(SHFLI, ops, I(ZipAmount(f))) else Some(Lowered(name, ops))
    case UNZIP(f) => if Zippable(f) then Append(UNSHFLI, ops, I(ZipAmount(f))) else Some(Lowered(name, ops))
    case ZEXT_B => Append(ANDI, ops, I(255))
    case ZEXT_H => Append(PACK, ops, R(ZERO))
    case ZEXT_W => Append(PACK, ops, R(ZERO))
    case _ => Some(Lowered(name, ops))
  }

  // ---------------------------------------------------------------- the machine

  datatype CsrKind = Replace | SetBits | ClearBits

  /** What the instructions ask of the machine's words. */
  datatype Words<!W> = Words(
    zero: W,
    of: bv32 -> W,                      // the word of an immediate
    add: (W, W) -> W,
    even: W -> W,                       // bit 0 cleared
    alu: (Name, W, W) -> W,
    permute: (Name, W, bv32) -> W,      // grevi, gorci, shfli, unshfli
    taken: (Name, W, W) -> bool,
    after: (CsrKind, W, W) -> W)        // a csr after a write, a set or a clear

  ghost predicate Lawful<W(!new)>(w: Words<W>) {
    w.of(0) == w.zero && forall x :: w.add(x, w.zero) == x
  }

  datatype Machine<W> = Machine(pc: W, regs: seq<W>, csrs: seq<W>)

  function X<W>(w: Words<W>, m: Machine<W>, r: Reg): W {
    if r == ZERO || r >= |m.regs| then w.zero else m.regs[r]
  }

  function Write<W>(m: Machine<W>, r: Reg, v: W): Machine<W> {
    if r == ZERO || r >= |m.regs| then m else m.(regs := m.regs[r := v])
  }

  function Csr<W>(w: Words<W>, m: Machine<W>, csr: nat): W {
    if csr >= |m.csrs| then w.zero else m.csrs[csr]
  }

  function WriteCsr<W>(m: Machine<W>, csr: nat, v: W): Machine<W> {
    if csr >= |m.csrs| then m else m.(csrs := m.csrs[csr := v])
  }

  /** Write a register and go on behind an instruction of `len` bytes. */
  function Result<W>(w: Words<W>, m: Machine<W>, r: Reg, v: W, len: W): Machine<W> {
    Write(m, r, v).(pc := w.add(m.pc, len))
  }

  function Go<W>(w: Words<W>, m: Machine<W>, taken: bool, offset: bv32, len: W): Machine<W> {
    m.(pc := w.add(m.pc, if taken then w.of(offset) else len))
  }

  /** The csr gets its new value and rd its old one. */
  function CsrAccess<W>(w: Words<W>, m: Machine<W>, kind: CsrKind, rd: Reg, csr: nat, v: W, len: W): Machine<W> {
    Result(w, WriteCsr(m, csr, w.after(kind, Csr(w, m, csr), v)), rd, Csr(w, m, csr), len)
  }

  function JumpTo<W>(w: Words<W>, m: Machine<W>, rd: Reg, target: W, len: W): Machine<W> {
    Write(m, rd, w.add(m.pc, len)).(pc := target)
  }

  // ---------------------------------------------------------------- real instructions

  predicate RR(ops: seq<Operand>) { |ops| == 2 && ops[0].R? && ops[1].R? }
  predicate RRR(ops: seq<Operand>) { |ops| == 3 && ops[0].R? && ops[1].R? && ops[2].R? }
  predicate RRI(ops: seq<Operand>) { |ops| == 3 && ops[0].R? && ops[1].R? && ops[2].I? }
  predicate RI(ops: seq<Operand>) { |ops| == 2 && ops[0].R? && ops[1].I? }
  predicate RC(ops: seq<Operand>) { |ops| == 2 && ops[0].R? && ops[1].C? }
  predicate CR(ops: seq<Operand>) { |ops| == 2 && ops[0].C? && ops[1].R? }
  predicate CI(ops: seq<Operand>) { |ops| == 2 && ops[0].C? && ops[1].I? }
  predicate RCR(ops: seq<Operand>) { |ops| == 3 && ops[0].R? && ops[1].C? && ops[2].R? }
  predicate RCI(ops: seq<Operand>) { |ops| == 3 && ops[0].R? && ops[1].C? && ops[2].I? }
  predicate RB(ops: seq<Operand>) { |ops| == 2 && ops[0].R? && ops[1].B? }
  predicate OneR(ops: seq<Operand>) { |ops| == 1 && ops[0].R? }
  predicate OneI(ops: seq<Operand>) { |ops| == 1 && ops[0].I? }

  /** A register's value, or an immediate. */
  function Source<W>(w: Words<W>, m: Machine<W>, o: Operand): W {
    match o
    case R(r) => X(w, m, r)
    case I(v) => w.of(v)
    case _ => w.zero
  }

  function KindOf(name: Name): CsrKind {
    if name in {CSRRW, CSRRWI} then Replace else if name in {CSRRS, CSRRSI} then SetBits else ClearBits
  }

  predicate ImmediateOp(name: Name) {
    name in {ADDI, XORI, SLTIU, ANDI, ADDIW}
  }

  predicate PermuteOp(name: Name) {
    name in {GREVI, GORCI, SHFLI, UNSHFLI}
  }

  predicate RegisterOp(name: Name) {
    name in {SUB, SLT, SLTU, PACK, SUBW}
  }

  /** The next state of a real instruction of `len` bytes; None: the operands are not its. */
  function Exec<W>(w: Words<W>, l: Lowered, m: Machine<W>, len: W): Option<Machine<W>> {
    var ops := l.operands;
    if PermuteOp(l.name) && RRI(ops) then
      Some(Result(w, m, ops[0].reg, w.permute(l.name, Source(w, m, ops[1]), ops[2].imm), len))
    else if (ImmediateOp(l.name) && RRI(ops)) || (RegisterOp(l.name) && RRR(ops)) then
      Some(Result(w, m, ops[0].reg, w.alu(l.name, Source(w, m, ops[1]), Source(w, m, ops[2])), len))
    else if l.name in {BEQ, BNE, BLT, BGE, BLTU, BGEU} && RRI(ops) then
      Some(Go(w, m, w.taken(l.name, Source(w, m, ops[0]), Source(w, m, ops[1])), ops[2].imm, len))
    else if (l.name in {CSRRW, CSRRS, CSRRC} && RCR(ops)) || (l.name in {CSRRWI, CSRRSI, CSRRCI} && RCI(ops)) then
      Some(CsrAccess(w, m, KindOf(l.name), ops[0].reg, ops[1].csr, Source(w, m, ops[2]), len))
    else if l.name == JALR && RRI(ops) then
      Some(JumpTo(w, m, ops[0].reg, w.even(w.add(Source(w, m, ops[1]), w.of(ops[2].imm))), len))
    else if l.name == JAL && RI(ops) then Some(JumpTo(w, m, ops[0].reg, w.add(m.pc, w.of(ops[1].imm)), len))
    else if l.name == C_JR && OneR(ops) then Some(JumpTo(w, m, ZERO, w.even(Source(w, m, ops[0])), len))
    else None
  }

  // ---------------------------------------------------------------- the rd, rs forms

  predicate Arithmetic(name: Name) {
    name in {MV, NOT, NEG, SEQZ, SNEZ, SLTZ, SGTZ, ZEXT_B, ZEXT_H, NEGW, SEXT_W, ZEXT_W}
  }

  predicate Permutation(name: Name) {
    name.REV? || name.ORC? || ((name.ZIP? || name.UNZIP?) && Zippable(name.form))
  }

  /** The real instruction for each form. */
  function Op(name: Name): Name {
    match name
    case MV => ADDI
    case NOT => XORI
    case SEQZ => SLTIU
    case ZEXT_B => ANDI
    case NEG => SUB
    case NEGW => SUBW
    case SEXT_W => ADDIW
    case SNEZ => SLTU
    case SLTZ | SGTZ => SLT
    case _ => PACK
  }

  function PermutationOp(name: Name): Name {
    if name.REV? then GREVI else if name.ORC? then GORCI else if name.ZIP? then SHFLI else UNSHFLI
  }

  function Amount(name: Name): bv32
    requires Permutation(name)
  {
    if name.REV? || name.ORC? then RevAmount(name.form) else ZipAmount(name.form)
  }

  /** The forms that put zero in front of rs, and those that put it behind. */
  predicate ZeroFirst(name: Name) { name in {NEG, NEGW, SNEZ, SGTZ} }
  predicate ZeroLast(name: Name) { name in {SLTZ, ZEXT_H, ZEXT_W} }

  function Immediate(name: Name): bv32 {
    if name == NOT then 0xFFFF_FFFF else if name == SEQZ then 1 else if name == ZEXT_B then 255 else 0
  }

  function Tail(name: Name, ops: seq<Operand>): seq<Operand>
    requires RR(ops)
  {
    if ZeroFirst(name) then [R(ZERO), ops[1]] else if ZeroLast(name) then [ops[1], R(ZERO)] else [ops[1], I(Immediate(name))]
  }

  lemma ConvertArithmetic(name: Name, ops: seq<Operand>, compressed: bool)
    requires Arithmetic(name) && RR(ops)
    ensures Convert(name, ops, compressed) == Some(Lowered(Op(name), [ops[0]] + Tail(name, ops)))
  {
    var last := if ZeroLast(name) then R(ZERO) else I(Immediate(name));
    assert ops + [last] == [ops[0]] + [ops[1], last];
    assert [ops[0], R(ZERO), ops[1]] == [ops[0]] + [R(ZERO), ops[1]];
  }

  /** On any machine: the lowered instruction writes the result of its operation. */
  lemma ArithmeticExecuted<W(!new)>(w: Words<W>, name: Name, ops: seq<Operand>, compressed: bool, m: Machine<W>, len: W)
    requires Arithmetic(name) && RR(ops)
    ensures Convert(name, ops, compressed).Some?
    ensures Exec(w, Convert(name, ops, compressed).value, m, len)
            == Some(Result(w, m, ops[0].reg, w.alu(Op(name), Source(w, m, Tail(name, ops)[0]), Source(w, m, Tail(name, ops)[1])), len))
  {
    ConvertArithmetic(name, ops, compressed);
  }

  lemma PermutationExecuted<W(!new)>(w: Words<W>, name: Name, ops: seq<Operand>, compressed: bool, m: Machine<W>, len: W)
    requires Permutation(name) && RR(ops)
    ensures Convert(name, ops, compressed).Some?
    ensures Exec(w, Convert(name, ops, compressed).value, m, len)
            == Some(Result(w, m, ops[0].reg, w.permute(PermutationOp(name), Source(w, m, ops[1]), Amount(name)), len))
  {
    assert Convert(name, ops, compressed) == Some(Lowered(PermutationOp(name), ops + [I(Amount(name))]));
  }

  // ---------------------------------------------------------------- the other forms

  /** The real branch for each form. */
  function BranchOp(name: Name): Name {
    match name
    case BEQZ => BEQ
    case BNEZ => BNE
    case BGEZ | BLEZ | BLE => BGE
    case BLTZ | BGTZ | BGT => BLT
    case BGTU => BLTU
    case _ => BGEU
  }

  predicate ZeroBranch(name: Name) { name in {BEQZ, BNEZ, BGEZ, BLTZ, BLEZ, BGTZ} }
  predicate CompareBranch(name: Name) { name in {BGT, BLE, BGTU, BLEU} }

  /** rs, offset: against zero, which comes first for blez and bgtz. */
  lemma ZeroBranchExecuted<W(!new)>(w: Words<W>, name: Name, ops: seq<Operand>, compressed: bool, m: Machine<W>, len: W)
    requires ZeroBranch(name) && RI(ops)
    ensures Convert(name, ops, compressed).Some?
    ensures var x := Source(w, m, ops[0]);
      Exec(w, Convert(name, ops, compressed).value, m, len)
      == Some(Go(w, m, if name in {BLEZ, BGTZ} then w.taken(BranchOp(name), w.zero, x) else w.taken(BranchOp(name), x, w.zero),
                 ops[1].imm, len))
  {
  }

  /** rs, rt, offset: with the registers exchanged. */
  lemma CompareBranchExecuted<W(!new)>(w: Words<W>, name: Name, ops: seq<Operand>, compressed: bool, m: Machine<W>, len: W)
    requires CompareBranch(name) && RRI(ops)
    ensures Convert(name, ops, compressed).Some?
    ensures Exec(w, Convert(name, ops, compressed).value, m, len)
            == Some(Go(w, m, w.taken(BranchOp(name), Source(w, m, ops[1]), Source(w, m, ops[0])), ops[2].imm, len))
  {
  }

  predicate CsrWrite(name: Name, ops: seq<Operand>) {
    (name in {CSRW, CSRS, CSRC} && CR(ops)) || (name in {CSRWI, CSRSI, CSRCI} && CI(ops))
  }

  function KindMeant(name: Name): CsrKind {
    if name in {CSRW, CSRWI} then Replace else if name in {CSRS, CSRSI} then SetBits else ClearBits
  }

  function CsrOp(name: Name): Name {
    match name
    case CSRW => CSRRW
    case CSRS => CSRRS
    case CSRC => CSRRC
    case CSRWI => CSRRWI
    case CSRSI => CSRRSI
    case _ => CSRRCI
  }

  lemma ConvertCsr(name: Name, ops: seq<Operand>, compressed: bool)
    requires CsrWrite(name, ops)
    ensures Convert(name, ops, compressed) == Some(Lowered(CsrOp(name), [R(ZERO), ops[0], ops[1]]))
    ensures KindOf(CsrOp(name)) == KindMeant(name)
  {
    assert [R(ZERO)] + ops == [R(ZERO), ops[0], ops[1]];
  }

  lemma ExecCsr<W(!new)>(w: Words<W>, name: Name, csr: Operand, source: Operand, m: Machine<W>, len: W)
    requires CsrWrite(name, [csr, source])
    ensures Exec(w, Lowered(CsrOp(name), [R(ZERO), csr, source]), m, len)
            == Some(CsrAccess(w, m, KindOf(CsrOp(name)), ZERO, csr.csr, Source(w, m, source), len))
  {
  }

  /** csrw, csrs, csrc and their immediate forms: the csr changes, no register does. */
  lemma LoweringKeepsCsrWrites<W(!new)>(w: Words<W>, name: Name, ops: seq<Operand>, compressed: bool, m: Machine<W>, len: W)
    requires CsrWrite(name, ops)
    ensures Convert(name, ops, compressed).Some?
    ensures var csr := ops[0].csr;
      Exec(w, Convert(name, ops, compressed).value, m, len)
      == Some(WriteCsr(m, csr, w.after(KindMeant(name), Csr(w, m, csr), Source(w, m, ops[1]))).(pc := w.add(m.pc, len)))
  {
    ConvertCsr(name, ops, compressed);
    ExecCsr(w, name, ops[0], ops[1], m, len);
  }

  /** csrr is lowered to csrrw from the zero register: rd gets the value of the csr, as it
      should, but the csr is overwritten with zero. The next state is the one meant exactly
      when the csr holds zero already. */
  lemma CsrrIff<W(!new)>(w: Words<W>, ops: seq<Operand>, compressed: bool, m: Machine<W>, len: W)
    requires RC(ops) && ops[1].csr < |m.csrs| && w.after(Replace, Csr(w, m, ops[1].csr), w.zero) == w.zero
    ensures Convert(CSRR, ops, compressed).Some?
    ensures var csr, meant := ops[1].csr, Result(w, m, ops[0].reg, Csr(w, m, ops[1].csr), len);
      && Exec(w, Convert(CSRR, ops, compressed).value, m, len) == Some(WriteCsr(meant, csr, w.zero))
      && (WriteCsr(meant, csr, w.zero) == meant <==> Csr(w, m, csr) == w.zero)
  {
    var csr, meant := ops[1].csr, Result(w, m, ops[0].reg, Csr(w, m, ops[1].csr), len);
    assert meant.csrs == m.csrs && m.csrs[csr := w.zero][csr] == w.zero;
    if Csr(w, m, csr) == w.zero {
      assert m.csrs[csr := w.zero] == m.csrs;
    }
  }

  /** The next state a jump form means. */
  function JumpMeant<W>(w: Words<W>, name: Name, ops: seq<Operand>, m: Machine<W>, len: W): Option<Machine<W>> {
    if name == J && OneI(ops) then Some(m.(pc := w.add(m.pc, w.of(ops[0].imm))))
    else if name == JAL && OneI(ops) then Some(JumpTo(w, m, RA, w.add(m.pc, w.of(ops[0].imm)), len))
    else if name == JAL && RI(ops) then Some(JumpTo(w, m, ops[0].reg, w.add(m.pc, w.of(ops[1].imm)), len))
    else if name == JR && OneR(ops) then Some(m.(pc := w.even(X(w, m, ops[0].reg))))
    else if name == RET && ops == [] then Some(m.(pc := w.even(X(w, m, RA))))
    else if name == JALR && OneR(ops) then Some(JumpTo(w, m, RA, w.even(X(w, m, ops[0].reg)), len))
    else if name == JALR && RB(ops) then
      Some(JumpTo(w, m, ops[0].reg, w.even(w.add(X(w, m, ops[1].base), w.of(ops[1].offset))), len))
    else if name == JALR && RRI(ops) then
      Some(JumpTo(w, m, ops[0].reg, w.even(w.add(X(w, m, ops[1].reg), w.of(ops[2].imm))), len))
    else None
  }

  /** The well-formed operand lists of jalr. */
  lemma LowerJalrForms(ops: seq<Operand>)
    ensures RB(ops) ==> LowerJalr(ops) == [ops[0], R(ops[1].base), I(ops[1].offset)]
    ensures OneR(ops) ==> LowerJalr(ops) == [R(RA), ops[0], I(0)]
    ensures RRI(ops) ==> LowerJalr(ops) == ops
  {
    if OneR(ops) {
      assert [R(RA)] + ops + [I(0)] == [R(RA), ops[0], I(0)];
    } else if RRI(ops) {
      assert FirstPair(ops[1..][1..]) == None && FirstPair(ops[1..]) == None && FirstPair(ops) == None;
    }
  }

  lemma JalrExecuted<W(!new)>(w: Words<W>, ops: seq<Operand>, compressed: bool, m: Machine<W>, len: W)
    requires Lawful(w) && JumpMeant(w, JALR, ops, m, len).Some?
    ensures Exec(w, Lowered(JALR, LowerJalr(ops)), m, len) == JumpMeant(w, JALR, ops, m, len)
  {
    LowerJalrForms(ops);
  }

  lemma JalExecuted<W(!new)>(w: Words<W>, ops: seq<Operand>, compressed: bool, m: Machine<W>, len: W)
    requires JumpMeant(w, JAL, ops, m, len).Some?
    ensures Convert(JAL, ops, compressed).Some?
    ensures Exec(w, Convert(JAL, ops, compressed).value, m, len) == JumpMeant(w, JAL, ops, m, len)
  {
    if OneI(ops) {
      assert [R(RA)] + ops == [R(RA), ops[0]];
    }
  }

  lemma PlainJumpExecuted<W(!new)>(w: Words<W>, name: Name, ops: seq<Operand>, compressed: bool, m: Machine<W>, len: W)
    requires Lawful(w) && name in {J, JR, RET} && JumpMeant(w, name, ops, m, len).Some?
    ensures Convert(name, ops, compressed).Some?
    ensures Exec(w, Convert(name, ops, compressed).value, m, len) == JumpMeant(w, name, ops, m, len)
  {
    if name == J {
      assert [R(ZERO)] + ops == [R(ZERO), ops[0]];
    } else if name == JR {
      assert [R(ZERO)] + ops + [I(0)] == [R(ZERO), ops[0], I(0)];
    }
  }

  /** Every jump form; ret in its long and its compressed form. */
  lemma LoweringKeepsJumps<W(!new)>(w: Words<W>, name: Name, ops: seq<Operand>, compressed: bool, m: Machine<W>, len: W)
    requires Lawful(w) && JumpMeant(w, name, ops, m, len).Some?
    ensures Convert(name, ops, compressed).Some?
    ensures Exec(w, Convert(name, ops, compressed).value, m, len) == JumpMeant(w, name, ops, m, len)
  {
    if name == JALR {
      JalrExecuted(w, ops, compressed, m, len);
    } else if name == JAL {
      JalExecuted(w, ops, compressed, m, len);
    } else {
      PlainJumpExecuted(w, name, ops, compressed, m, len);
    }
  }

  /** nop changes nothing but the pc. */
  lemma LoweringKeepsNop<W(!new)>(w: Words<W>, ops: seq<Operand>, compressed: bool, m: Machine<W>, len: W)
    ensures Convert(NOP, ops, compressed).Some?
    ensures Exec(w, Convert(NOP, ops, compressed).value, m, len) == Some(m.(pc := w.add(m.pc, len)))
  {
  }

  // ---------------------------------------------------------------- RV32 words

  predicate Less(a: bv32, b: bv32) {
    a ^ 0x8000_0000 < b ^ 0x8000_0000
  }

  function Flag(b: bool): bv32 {
    if b then 1 else 0
  }

  function Alu(op: Name, a: bv32, b: bv32): bv32 {
    match op
    case ADDI => a + b
    case XORI => a ^ b
    case SLTIU => Flag(a < b)
    case ANDI => a & b
    case SUB => a - b
    case SLT => Flag(Less(a, b))
    case SLTU => Flag(a < b)
    case _ => (b << 16) | (a & 0xFFFF)
  }

  function Permute(op: Name, a: bv32, amount: bv32): bv32 {
    match op
    case GREVI => Grev(a, amount)
    case GORCI => Gorc(a, amount)
    case SHFLI => Shfl(a, amount)
    case _ => Unshfl(a, amount)
  }

  predicate Taken(op: Name, a: bv32, b: bv32) {
    match op
    case BEQ => a == b
    case BNE => a != b
    case BLT => Less(a, b)
    case BGE => !Less(a, b)
    case BLTU => a < b
    case _ => !(a < b)
  }

  function After(kind: CsrKind, old': bv32, v: bv32): bv32 {
    match kind
    case Replace => v
    case SetBits => old' | v
    case ClearBits => old' & !v
  }

  const RV32: Words<bv32> := Words(0, (v: bv32) => v, (x: bv32, y: bv32) => x + y, (x: bv32) => x & 0xFFFF_FFFE, Alu, Permute, Taken, After)

  lemma Rv32Lawful()
    ensures Lawful(RV32)
  {
  }

  /** rd, rs forms: the value v written for the operand x. */
  ghost predicate ValueMeant(name: Name, x: bv32, v: bv32) {
    match name
    case MV => v == x
    case NOT => v == !x
    case NEG => v + x == 0
    case SEQZ => v == Flag(x == 0)
    case SNEZ => v == Flag(x != 0)
    case SLTZ => v == Flag(Less(x, 0))
    case SGTZ => v == Flag(Less(0, x))
    case ZEXT_B => v < 0x100 && v & 0xFF == x & 0xFF
    case ZEXT_H => v < 0x1_0000 && v & 0xFFFF == x & 0xFFFF
    case REV(f) => Reverses(f, x, v)
    case ORC(f) => Ors(f, x, v)
    case ZIP(f) => Zips(f, x, v)
    case UNZIP(f) => Zips(f, v, x)
    case _ => false
  }

  /** rs, offset forms. */
  predicate ConditionMeant(name: Name, x: bv32) {
    match name
    case BEQZ => x == 0
    case BNEZ => x != 0
    case BGEZ => !Less(x, 0)
    case BLTZ => Less(x, 0)
    case BLEZ => !Less(0, x)
    case _ => Less(0, x)
  }

  /** rs, rt, offset forms. */
  predicate ComparisonMeant(name: Name, x: bv32, y: bv32) {
    match name
    case BGT => Less(y, x)
    case BLE => !Less(y, x)
    case BGTU => y < x
    case _ => !(y < x)
  }

  function First(name: Name, x: bv32): bv32 {
    if ZeroFirst(name) then 0 else x
  }

  function Second(name: Name, x: bv32): bv32 {
    if ZeroFirst(name) then x else if ZeroLast(name) then 0 else Immediate(name)
  }

  lemma RevValue(f: Form, x: bv32, v: bv32)
    ensures ValueMeant(REV(f), x, v) <==> v == Permute(GREVI, x, RevAmount(f))
  {
    RevMeans(f, x, v);
  }

  lemma OrcValue(f: Form, x: bv32, v: bv32)
    ensures ValueMeant(ORC(f), x, v) <==> v == Permute(GORCI, x, RevAmount(f))
  {
    OrcMeans(f, x, v);
  }

  lemma ZipValue(f: Form, x: bv32, v: bv32)
    requires Zippable(f)
    ensures ValueMeant(ZIP(f), x, v) <==> v == Permute(SHFLI, x, ZipAmount(f))
  {
    ZipMeans(f, x, v);
  }

  lemma UnzipValue(f: Form, x: bv32, v: bv32)
    requires Zippable(f)
    ensures ValueMeant(UNZIP(f), x, v) <==> v == Permute(UNSHFLI, x, ZipAmount(f))
  {
    UnzipMeans(f, x, v);
  }

  /** The one permutation that is meant. */
  lemma PermutationMeansOne(name: Name, x: bv32, v: bv32)
    requires Permutation(name)
    ensures ValueMeant(name, x, v) <==> v == Permute(PermutationOp(name), x, Amount(name))
  {
    if name.REV? {
      RevValue(name.form, x, v);
    } else if name.ORC? {
      OrcValue(name.form, x, v);
    } else if name.ZIP? {
      ZipValue(name.form, x, v);
    } else {
      UnzipValue(name.form, x, v);
    }
  }

  lemma MvValue(x: bv32, v: bv32)
    ensures ValueMeant(MV, x, v) <==> v == Alu(ADDI, x, 0)
  {
  }

  lemma NotValue(x: bv32, v: bv32)
    ensures ValueMeant(NOT, x, v) <==> v == Alu(XORI, x, 0xFFFF_FFFF)
  {
  }

  lemma NegValue(x: bv32, v: bv32)
    ensures ValueMeant(NEG, x, v) <==> v == Alu(SUB, 0, x)
  {
  }

  lemma LowHalf(x: bv32, v: bv32)
    ensures v < 0x1_0000 && v & 0xFFFF == x & 0xFFFF <==> v == x & 0xFFFF
  {
  }

  lemma AluPack(x: bv32)
    ensures Alu(PACK, x, 0) == x & 0xFFFF
  {
  }

  lemma ZextHalfValue(x: bv32, v: bv32)
    ensures ValueMeant(ZEXT_H, x, v) <==> v == Alu(PACK, x, 0)
  {
    LowHalf(x, v);
    AluPack(x);
  }

  predicate Rv64Only(name: Name) {
    name in {NEGW, SEXT_W, ZEXT_W}
  }

  lemma MvMeansOne(x: bv32, v: bv32)
    ensures ValueMeant(MV, x, v) <==> v == Alu(Op(MV), First(MV, x), Second(MV, x))
  {
    MvValue(x, v);
  }

  lemma NotMeansOne(x: bv32, v: bv32)
    ensures ValueMeant(NOT, x, v) <==> v == Alu(Op(NOT), First(NOT, x), Second(NOT, x))
  {
    NotValue(x, v);
  }

  lemma NegMeansOne(x: bv32, v: bv32)
    ensures ValueMeant(NEG, x, v) <==> v == Alu(Op(NEG), First(NEG, x), Second(NEG, x))
  {
    NegValue(x, v);
  }

  lemma SeqzMeansOne(x: bv32, v: bv32)
    ensures ValueMeant(SEQZ, x, v) <==> v == Alu(Op(SEQZ), First(SEQZ, x), Second(SEQZ, x))
  {
  }

  lemma SnezMeansOne(x: bv32, v: bv32)
    ensures ValueMeant(SNEZ, x, v) <==> v == Alu(Op(SNEZ), First(SNEZ, x), Second(SNEZ, x))
  {
  }

  lemma SltzMeansOne(x: bv32, v: bv32)
    ensures ValueMeant(SLTZ, x, v) <==> v == Alu(Op(SLTZ), First(SLTZ, x), Second(SLTZ, x))
  {
  }

  lemma SgtzMeansOne(x: bv32, v: bv32)
    ensures ValueMeant(SGTZ, x, v) <==> v == Alu(Op(SGTZ), First(SGTZ, x), Second(SGTZ, x))
  {
  }

  lemma ZextBMeansOne(x: bv32, v: bv32)
    ensures ValueMeant(ZEXT_B, x, v) <==> v == Alu(Op(ZEXT_B), First(ZEXT_B, x), Second(ZEXT_B, x))
  {
  }

  lemma ZextHMeansOne(x: bv32, v: bv32)
    ensures ValueMeant(ZEXT_H, x, v) <==> v == Alu(Op(ZEXT_H), First(ZEXT_H, x), Second(ZEXT_H, x))
  {
    ZextHalfValue(x, v);
  }

  /** The lowered instruction computes the one value that is meant. */
  lemma ArithmeticMeansOne(name: Name, x: bv32, v: bv32)
    requires Arithmetic(name) && !Rv64Only(name)
    ensures ValueMeant(name, x, v) <==> v == Alu(Op(name), First(name, x), Second(name, x))
  {
    if name == MV {
      MvMeansOne(x, v);
    } else if name == NOT {
      NotMeansOne(x, v);
    } else if name == NEG {
      NegMeansOne(x, v);
    } else if name == SEQZ {
      SeqzMeansOne(x, v);
    } else if name == SNEZ {
      SnezMeansOne(x, v);
    } else if name == SLTZ {
      SltzMeansOne(x, v);
    } else if name == SGTZ {
      SgtzMeansOne(x, v);
    } else if name == ZEXT_B {
      ZextBMeansOne(x, v);
    } else {
      ZextHMeansOne(x, v);
    }
  }

  lemma ConditionMeansOne(name: Name, x: bv32)
    requires ZeroBranch(name)
    ensures ConditionMeant(name, x)
            == if name in {BLEZ, BGTZ} then Taken(BranchOp(name), 0, x) else Taken(BranchOp(name), x, 0)
  {
  }

  lemma ComparesBgt(x: bv32, y: bv32) ensures ComparisonMeant(BGT, x, y) == Taken(BLT, y, x) {}
  lemma ComparesBle(x: bv32, y: bv32) ensures ComparisonMeant(BLE, x, y) == Taken(BGE, y, x) {}
  lemma ComparesBgtu(x: bv32, y: bv32) ensures ComparisonMeant(BGTU, x, y) == Taken(BLTU, y, x) {}
  lemma ComparesBleu(x: bv32, y: bv32) ensures ComparisonMeant(BLEU, x, y) == Taken(BGEU, y, x) {}

  lemma ComparisonMeansOne(name: Name, x: bv32, y: bv32)
    requires CompareBranch(name)
    ensures ComparisonMeant(name, x, y) == Taken(BranchOp(name), y, x)
  {
    if name == BGT {
      ComparesBgt(x, y);
    } else if name == BLE {
      ComparesBle(x, y);
    } else if name == BGTU {
      ComparesBgtu(x, y);
    } else {
      ComparesBleu(x, y);
    }
  }

  lemma Operands(name: Name, ops: seq<Operand>, m: Machine<bv32>)
    requires Arithmetic(name) && RR(ops)
    ensures Source(RV32, m, Tail(name, ops)[0]) == First(name, X(RV32, m, ops[1].reg))
    ensures Source(RV32, m, Tail(name, ops)[1]) == Second(name, X(RV32, m, ops[1].reg))
  {
  }

  /** Every rd, rs form of RV32, from every state: the next state is the one in which rd holds
      the value meant. */
  lemma LoweringKeepsArithmetic(name: Name, ops: seq<Operand>, compressed: bool, m: Machine<bv32>, len: bv32, v: bv32)
    requires Arithmetic(name) && !Rv64Only(name) && RR(ops) && ValueMeant(name, X(RV32, m, ops[1].reg), v)
    ensures Convert(name, ops, compressed).Some?
    ensures Exec(RV32, Convert(name, ops, compressed).value, m, len) == Some(Result(RV32, m, ops[0].reg, v, len))
  {
    ArithmeticExecuted(RV32, name, ops, compressed, m, len);
    Operands(name, ops, m);
    var a, b := Source(RV32, m, Tail(name, ops)[0]), Source(RV32, m, Tail(name, ops)[1]);
    assert v == RV32.alu(Op(name), a, b) by {
      ArithmeticMeansOne(name, X(RV32, m, ops[1].reg), v);
    }
  }

  lemma LoweringKeepsPermutations(name: Name, ops: seq<Operand>, compressed: bool, m: Machine<bv32>, len: bv32, v: bv32)
    requires Permutation(name) && RR(ops) && ValueMeant(name, X(RV32, m, ops[1].reg), v)
    ensures Convert(name, ops, compressed).Some?
    ensures Exec(RV32, Convert(name, ops, compressed).value, m, len) == Some(Result(RV32, m, ops[0].reg, v, len))
  {
    PermutationExecuted(RV32, name, ops, compressed, m, len);
    PermutationMeansOne(name, X(RV32, m, ops[1].reg), v);
  }

  /** Every branch form of RV32, from every state: taken exactly when it is meant to be. */
  lemma LoweringKeepsZeroBranches(name: Name, ops: seq<Operand>, compressed: bool, m: Machine<bv32>, len: bv32)
    requires ZeroBranch(name) && RI(ops)
    ensures Convert(name, ops, compressed).Some?
    ensures Exec(RV32, Convert(name, ops, compressed).value, m, len)
            == Some(Go(RV32, m, ConditionMeant(name, X(RV32, m, ops[0].reg)), ops[1].imm, len))
  {
    ZeroBranchExecuted(RV32, name, ops, compressed, m, len);
    ConditionMeansOne(name, X(RV32, m, ops[0].reg));
  }

  lemma LoweringKeepsCompareBranches(name: Name, ops: seq<Operand>, compressed: bool, m: Machine<bv32>, len: bv32)
    requires CompareBranch(name) && RRI(ops)
    ensures Convert(name, ops, compressed).Some?
    ensures Exec(RV32, Convert(name, ops, compressed).value, m, len)
            == Some(Go(RV32, m, ComparisonMeant(name, X(RV32, m, ops[0].reg), X(RV32, m, ops[1].reg)), ops[2].imm, len))
  {
    CompareBranchExecuted(RV32, name, ops, compressed, m, len);
    ComparisonMeansOne(name, X(RV32, m, ops[0].reg), X(RV32, m, ops[1].reg));
  }

  /** Every jump form of RV32, from every state. */
  lemma LoweringKeepsRv32Jumps(name: Name, ops: seq<Operand>, compressed: bool, m: Machine<bv32>, len: bv32)
    requires JumpMeant(RV32, name, ops, m, len).Some?
    ensures Convert(name, ops, compressed).Some?
    ensures Exec(RV32, Convert(name, ops, compressed).value, m, len) == JumpMeant(RV32, name, ops, m, len)
  {
    Rv32Lawful();
    LoweringKeepsJumps(RV32, name, ops, compressed, m, len);
  }

  // ---------------------------------------------------------------- the forms for RV64 only

  /** The low word, sign-extended. */
  function SignedWord(x: bv64): bv64 {
    if x & 0x8000_0000 != 0 then x | 0xFFFF_FFFF_0000_0000 else x & 0xFFFF_FFFF
  }

  function Alu64(op: Name, a: bv64, b: bv64): bv64 {
    if op == SUBW then SignedWord(a - b)
    else if op == ADDIW then SignedWord(a + b)
    else (b << 32) | (a & 0xFFFF_FFFF)
  }

  function WordMeant(name: Name, x: bv64): bv64 {
    if name == NEGW then SignedWord(0 - x) else if name == SEXT_W then SignedWord(x) else x & 0xFFFF_FFFF
  }

  lemma NegwComputed(x: bv64) ensures Alu64(SUBW, 0, x) == WordMeant(NEGW, x) {}
  lemma SextwComputed(x: bv64) ensures Alu64(ADDIW, x, 0) == WordMeant(SEXT_W, x) {}
  lemma ZextwComputed(x: bv64) ensures Alu64(PACK, x, 0) == WordMeant(ZEXT_W, x) {}

  /** negw, sext.w and zext.w on any machine whose words and operations are those of RV64. */
  lemma LoweringKeepsWords(w: Words<bv64>, name: Name, ops: seq<Operand>, compressed: bool, m: Machine<bv64>, len: bv64)
    requires w.zero == 0 && w.of(0) == 0 && (forall a, b :: w.alu(Op(name), a, b) == Alu64(Op(name), a, b))
    requires Rv64Only(name) && RR(ops)
    ensures Convert(name, ops, compressed).Some?
    ensures Exec(w, Convert(name, ops, compressed).value, m, len)
            == Some(Result(w, m, ops[0].reg, WordMeant(name, X(w, m, ops[1].reg)), len))
  {
    ArithmeticExecuted(w, name, ops, compressed, m, len);
    var x := X(w, m, ops[1].reg);
    if name == NEGW {
      NegwComputed(x);
    } else if name == SEXT_W {
      SextwComputed(x);
    } else {
      ZextwComputed(x);
    }
  }

  // ---------------------------------------------------------------- ordinary instructions

  /** The names that stand for another instruction. */
  predicate PseudoName(name: Name) {
    || name in {NOP, MV, NOT, NEG, SEQZ, SNEZ, SLTZ, SGTZ, ZEXT_B, ZEXT_H, NEGW, SEXT_W, ZEXT_W}
    || name in {BEQZ, BNEZ, BGEZ, BLTZ, BLEZ, BGTZ, BGT, BLE, BGTU, BLEU}
    || name in {CSRR, CSRW, CSRS, CSRC, CSRWI, CSRSI, CSRCI, JR, J, RET}
    || name.REV? || name.ORC? || (name.ZIP? && Zippable(name.form)) || (name.UNZIP? && Zippable(name.form))
  }

  /** `jal imm`, and `jalr rs1` or `jalr rd, imm(rs1)`: a real name with operands that are not
      its own. */
  predicate ShortJump(name: Name, ops: seq<Operand>) {
    || (name == JAL && |ops| <= 1)
    || (name == JALR && (|ops| <= 1 || exists k :: 0 <= k < |ops| - 1 && !ops[k].B? && ops[k + 1].B?))
  }

  /** For every name and every operand list: the conversion succeeds and gives both back if and
      only if the name is no pseudo name and the form no short form of a jump. */
  lemma UnchangedIff(name: Name, ops: seq<Operand>, compressed: bool)
    ensures Convert(name, ops, compressed) == Some(Lowered(name, ops)) <==> !PseudoName(name) && !ShortJump(name, ops)
  {
    if name == JALR {
      JalrUnchangedIff(ops);
    } else if name in {JAL, J, JR, RET} {
    } else if PseudoName(name) {
      PseudoChanges(name, ops, compressed);
    } else {
      OrdinaryStays(name, ops, compressed);
    }
  }

  lemma PseudoChanges(name: Name, ops: seq<Operand>, compressed: bool)
    requires PseudoName(name)
    ensures Convert(name, ops, compressed) != Some(Lowered(name, ops))
  {
  }

  lemma OrdinaryStays(name: Name, ops: seq<Operand>, compressed: bool)
    requires !PseudoName(name) && name != JAL && name != JALR
    ensures Convert(name, ops, compressed) == Some(Lowered(name, ops))
  {
  }

  lemma JalrUnchangedIff(ops: seq<Operand>)
    ensures LowerJalr(ops) == ops <==> !ShortJump(JALR, ops)
  {
    if FirstPair(ops).Some? {
      FirstPairIsPair(ops);
      var k := FirstPair(ops).value;
      assert ops[k + 1].B? && forall i :: 0 <= i < 3 ==> i != 0 ==> !LowerJalr(ops)[i].B?;
      assert !ops[k].B? && LowerJalr(ops)[0] == ops[k];
    } else {
      forall k | 0 <= k < |ops| - 1 ensures ops[k].B? || !ops[k + 1].B? {
        NoPairAt(ops, k);
      }
    }
  }

  /** So on any machine an ordinary instruction does after the conversion what it did before. */
  lemma OrdinaryKept<W(!new)>(w: Words<W>, name: Name, ops: seq<Operand>, compressed: bool, m: Machine<W>, len: W)
    requires !PseudoName(name) && !ShortJump(name, ops)
    ensures Convert(name, ops, compressed).Some?
    ensures Exec(w, Convert(name, ops, compressed).value, m, len) == Exec(w, Lowered(name, ops), m, len)
  {
    UnchangedIff(name, ops, compressed);
  }

  /** A compressed instruction comes out exactly if one went in, as its own name or as a `ret`
      whose binary is one; so the lowered instruction has the length of the one in the log. */
  lemma CompressedIff(name: Name, ops: seq<Operand>, compressed: bool)
    requires Convert(name, ops, compressed).Some?
    ensures Convert(name, ops, compressed).value.name == C_JR <==> name == C_JR || (name == RET && compressed)
  {
    if name !in {JAL, JALR, J, JR, RET, C_JR} {
      NotCompressed(name, ops, compressed);
    }
  }

  lemma NotCompressed(name: Name, ops: seq<Operand>, compressed: bool)
    requires name !in {JAL, JALR, J, JR, RET, C_JR} && Convert(name, ops, compressed).Some?
    ensures Convert(name, ops, compressed).value.name != C_JR
  {
  }

  /** The conversion fails for lack of operands alone: where two are exchanged, or a zero goes
      between them. */
  lemma FailsIff(name: Name, ops: seq<Operand>, compressed: bool)
    ensures Convert(name, ops, compressed).None?
       <==> || (name in {BGT, BLE, BGTU, BLEU} && |ops| < 3)
            || (name in {NEG, NEGW, SNEZ, SGTZ, BEQZ, BNEZ, BGEZ, BLTZ} && |ops| < 2)
  {
    if name !in {BGT, BLE, BGTU, BLEU, NEG, NEGW, SNEZ, SGTZ, BEQZ, BNEZ, BGEZ, BLTZ} {
      Succeeds(name, ops, compressed);
    }
  }

  lemma Succeeds(name: Name, ops: seq<Operand>, compressed: bool)
    requires name !in {BGT, BLE, BGTU, BLEU, NEG, NEGW, SNEZ, SGTZ, BEQZ, BNEZ, BGEZ, BLTZ}
    ensures Convert(name, ops, compressed).Some?
  {
  }

  // ---------------------------------------------------------------- lowering twice

  predicate HasBase(ops: seq<Operand>) {
    exists k :: 0 <= k < |ops| && ops[k].B?
  }

  /** `jalr imm(rs1)`, and `jr` with such an operand: the lowered form keeps offset and base
      together, behind a register. */
  predicate LeavesBase(name: Name, ops: seq<Operand>) {
    (name == JALR && |ops| == 1 && HasBase(ops)) || (name == JR && HasBase(ops))
  }

  /** Lowering a lowered instruction changes nothing, except in those two forms, where a second
      pass takes the operand apart. (A j or jal has at least one operand text.) */
  lemma IdempotentIff(name: Name, ops: seq<Operand>, compressed: bool, again: bool)
    requires Convert(name, ops, compressed).Some? && (name in {J, JAL} ==> ops != [])
    ensures var l := Convert(name, ops, compressed).value;
      Convert(l.name, l.operands, again) == Some(l) <==> !LeavesBase(name, ops)
  {
    if name == JALR {
      JalrTwice(ops);
    } else if name == JR {
      JrTwice(ops);
    } else if name in {J, JAL} {
      JalTwice(name, ops, compressed, again);
    } else {
      OthersTwice(name, ops, compressed, again);
    }
  }

  /** An operand list that starts without a base register has a pair if it has one at all. */
  lemma PairIff(ops: seq<Operand>)
    requires ops != [] && !ops[0].B?
    ensures FirstPair(ops).Some? <==> HasBase(ops)
  {
    if FirstPair(ops).None? {
      NoBaseAnywhere(ops, |ops|);
    } else {
      FirstPairIsPair(ops);
    }
  }

  lemma {:induction false} NoBaseAnywhere(ops: seq<Operand>, n: nat)
    requires ops != [] && !ops[0].B? && FirstPair(ops).None? && n <= |ops|
    ensures forall k :: 0 <= k < n ==> !ops[k].B?
  {
    if n > 1 {
      NoBaseAnywhere(ops, n - 1);
      NoPairAt(ops, n - 2);
    }
  }

  /** Lowering a list that starts with a register and is not alone. */
  lemma LowerAgain(ops: seq<Operand>)
    requires |ops| >= 2 && !ops[0].B?
    ensures LowerJalr(ops) == ops <==> !HasBase(ops)
  {
    PairIff(ops);
    if HasBase(ops) {
      FirstPairIsPair(ops);
      var k :| 0 <= k < |ops| && ops[k].B?;
      assert !HasBase(LowerJalr(ops));
    }
  }

  lemma JalrTwice(ops: seq<Operand>)
    ensures LowerJalr(LowerJalr(ops)) == LowerJalr(ops) <==> !LeavesBase(JALR, ops)
  {
    var lowered := LowerJalr(ops);
    if FirstPair(ops).Some? {
      FirstPairIsPair(ops);
      LowerAgain(lowered);
    } else if |ops| <= 1 {
      assert lowered == [R(RA)] + ops + [I(0)];
      Enclosed(ops, R(RA), I(0));
      LowerAgain(lowered);
    }
  }

  lemma Enclosed(ops: seq<Operand>, first: Operand, last: Operand)
    requires !first.B? && !last.B?
    ensures HasBase([first] + ops + [last]) <==> HasBase(ops)
  {
    var all := [first] + ops + [last];
    if HasBase(ops) {
      var k :| 0 <= k < |ops| && ops[k].B?;
      assert all[k + 1].B?;
    }
    if HasBase(all) {
      var k :| 0 <= k < |all| && all[k].B?;
      assert ops[k - 1].B?;
    }
  }

  lemma JrTwice(ops: seq<Operand>)
    ensures var lowered := [R(ZERO)] + ops + [I(0)];
      LowerJalr(lowered) == lowered <==> !LeavesBase(JR, ops)
  {
    Enclosed(ops, R(ZERO), I(0));
    LowerAgain([R(ZERO)] + ops + [I(0)]);
  }

  lemma JalTwice(name: Name, ops: seq<Operand>, compressed: bool, again: bool)
    requires name in {J, JAL} && ops != []
    ensures Convert(name, ops, compressed).Some?
    ensures var l := Convert(name, ops, compressed).value; Convert(l.name, l.operands, again) == Some(l)
  {
  }

  lemma OthersTwice(name: Name, ops: seq<Operand>, compressed: bool, again: bool)
    requires name !in {J, JAL, JALR, JR} && Convert(name, ops, compressed).Some?
    ensures var l := Convert(name, ops, compressed).value; Convert(l.name, l.operands, again) == Some(l)
  {
    var l := Convert(name, ops, compressed).value;
    if name == RET {
      LowerAgain([R(ZERO), R(RA), I(0)]);
    } else {
      Settles(name, ops, compressed);
      if Settled(l.name) {
        SettledStays(l.name, l.operands, again);
      } else {
        UnchangedStays(name, ops, compressed, again);
      }
    }
  }

  lemma Settles(name: Name, ops: seq<Operand>, compressed: bool)
    requires name !in {J, JAL, JALR, JR, RET} && Convert(name, ops, compressed).Some?
    ensures var l := Convert(name, ops, compressed).value; Settled(l.name) || l == Lowered(name, ops)
  {
  }

  lemma SettledStays(name: Name, ops: seq<Operand>, again: bool)
    requires Settled(name)
    ensures Convert(name, ops, again) == Some(Lowered(name, ops))
  {
  }

  lemma UnchangedStays(name: Name, ops: seq<Operand>, compressed: bool, again: bool)
    requires name != RET && Convert(name, ops, compressed) == Some(Lowered(name, ops))
    ensures Convert(name, ops, again) == Some(Lowered(name, ops))
  {
  }

  /** Names that are not lowered. */
  predicate Settled(name: Name) {
    ImmediateOp(name) || RegisterOp(name) || PermuteOp(name) || name in {BEQ, BNE, BLT, BGE, BLTU, BGEU, C_JR}
    || name in {CSRRW, CSRRS, CSRRC, CSRRWI, CSRRSI, CSRRCI}
  }
}
