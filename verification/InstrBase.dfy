/** Instructions of the random program generator (riscv_instr_base.py), as far as their
    labels, operands and immediates are concerned. */
module InstrBase {
  import opened IntRegisters

  datatype Category = LOAD | STORE | SHIFT | ARITHMETIC | LOGICAL | COMPARE | BRANCH | JUMP

  /** The names the directed streams ask for; an instruction left to chance is OTHER. */
  datatype Name = LB | LH | LW | LBU | LHU | SB | SH | SW | ADDI | JAL | JALR | LA | OTHER

  /** Local numeric labels, the named labels the generator forms from program names and call
      numbers, and places in the data pages. */
  datatype Label =
    | NoLabel
    | Numeric(n: int)
    | PushStart(program: nat)
    | JumpPoint(callee: nat, call: nat)
    | Program(id: nat)
    | DataPage(page: nat, offset: int)

  const PAGE_SIZE: nat := 4096
  const PAGES: nat := 40
  const PRINTED_PAGES: nat := 2

  /** The bytes a load or store touches. */
  function Size(name: Name): nat {
    if name in {LH, LHU, SH} then 2 else if name in {LW, SW} then 4 else 1
  }

  predicate IsStore(name: Name) {
    name in {SB, SH, SW}
  }

  datatype Instr = Instr(
    name: Name, category: Category, rd: Reg, src1: Reg, src2: Reg,
    imm: int,                 // the immediate as printed
    target: Label,            // where a branch or jump goes
    hasLabel: bool, tag: Label, isLocalNumericLabel: bool,
    idx: int, atomic: bool, branchAssigned: bool)

  /** A fresh instruction with the given operands. */
  function Fresh(name: Name, category: Category, rd: Reg, src1: Reg, src2: Reg, imm: int): Instr {
    Instr(name, category, rd, src1, src2, imm, NoLabel, true, NoLabel, false, -1, false, false)
  }

  /** What `__init__` leaves in the label fields. */
  predicate Unlabelled(i: Instr) {
    i.hasLabel && i.tag == NoLabel && !i.isLocalNumericLabel && !i.atomic && !i.branchAssigned && i.target == NoLabel
  }

  /** A randomized instruction: no load or store (the default), no jump (`riscv_rand_instr`),
      and no branch where that is asked for. System, synch and csr instructions are always
      excluded. */
  predicate RandomInstr(i: Instr, noBranch: bool) {
    && Unlabelled(i) && i.name == OTHER
    && i.category in {SHIFT, ARITHMETIC, LOGICAL, COMPARE, BRANCH}
    && (noBranch ==> i.category != BRANCH)
  }

  predicate Bears(i: Instr, tag: Label) {
    i.hasLabel && i.tag == tag && tag != NoLabel
  }

  /** The first instruction from `from` on that bears a label, or the end of the list. */
  function Find(list: seq<Instr>, from: nat, tag: Label): nat
    decreases |list| - from
  {
    if from >= |list| then from
    else if Bears(list[from], tag) then from
    else Find(list, from + 1, tag)
  }

  lemma {:induction false} FindFinds(list: seq<Instr>, from: nat, tag: Label, j: nat)
    requires from <= j < |list| && Bears(list[j], tag)
    ensures from <= Find(list, from, tag) <= j && Bears(list[Find(list, from, tag)], tag)
    decreases |list| - from
  {
    if !Bears(list[from], tag) {
      FindFinds(list, from + 1, tag, j);
    }
  }

  lemma {:induction false} FoundBears(list: seq<Instr>, from: nat, tag: Label)
    requires Find(list, from, tag) < |list|
    ensures from <= Find(list, from, tag) && Bears(list[Find(list, from, tag)], tag)
    decreases |list| - from
  {
    if !Bears(list[from], tag) {
      FoundBears(list, from + 1, tag);
    }
  }

  /** The registers a random instruction may not write. */
  predicate Avoids(i: Instr, reserved: set<Reg>) {
    i.rd !in reserved
  }

  ghost predicate SomeRegister(reserved: set<Reg>) {
    exists r: Reg :: r !in reserved
  }

  lemma SomeFree(r: Reg)
    ensures SomeRegister({r})
  {
    var q: Reg := if r == ZERO then RA else ZERO;
    var taken := {r};
    assert q !in taken;
  }

  /** `randomize` on a fresh instruction: any solution of its constraints. */
  method Randomize(noBranch: bool, reserved: set<Reg>) returns (i: Instr)
    requires SomeRegister(reserved)
    ensures RandomInstr(i, noBranch) && Avoids(i, reserved)
  {
    var r: Reg :| r !in reserved;
    var example := Fresh(OTHER, LOGICAL, r, ZERO, ZERO, 0);
    assert RandomInstr(example, noBranch);
    i :| RandomInstr(i, noBranch) && Avoids(i, reserved);
  }

  // ---------------------------------------------------------------- immediates

  function Pow2(k: nat): (p: nat)
    ensures p > 0
  {
    if k == 0 then 1 else 2 * Pow2(k - 1)
  }

  /** `post_randomize` (lines 108-124): the low `length` bits of the immediate, zero-extended,
      or extended from bit length-1. */
  function PrintedImm(imm: int, length: nat, unsigned: bool): int
    requires length > 0
  {
    var low := imm % Pow2(length);
    if !unsigned && low >= Pow2(length - 1) then low - Pow2(length) else low
  }

  /** The immediate length of I, S and B formats (line 315) is 11. */
  function Imm11(imm: int): int {
    PrintedImm(imm, 11, false)
  }

  lemma Imm11Facts(imm: int)
    ensures -1024 <= Imm11(imm) < 1024
    ensures Imm11(imm) == if imm % 2048 >= 1024 then imm % 2048 - 2048 else imm % 2048
  {
    assert Pow2(10) == 1024 && Pow2(11) == 2048 by {
      assert Pow2(0) == 1 && Pow2(1) == 2 && Pow2(2) == 4 && Pow2(3) == 8 && Pow2(4) == 16 && Pow2(5) == 32;
      assert Pow2(6) == 64 && Pow2(7) == 128 && Pow2(8) == 256 && Pow2(9) == 512;
    }
  }
}
