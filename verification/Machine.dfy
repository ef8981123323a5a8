/** Registers and memory as seen by straight-line pieces of a generated program. Where the
    generator leaves an instruction to chance, so does the model: it writes any value to its
    destination, given in `v`. */
module Machine {
  import opened IntRegisters
  import opened InstrBase

  const WORD: nat := 0x1_0000_0000

  type Word = x: nat | x < WORD

  /** 32-bit wrap-around. */
  function Wrap(x: int): Word {
    x % WORD
  }

  type Registers = s: seq<Word> | |s| == 32 witness seq(32, _ => 0)

  datatype State = State(regs: Registers, mem: map<nat, Word>)

  function Get(s: State, r: Reg): Word {
    if r == ZERO then 0 else s.regs[r]
  }

  function Set(s: State, r: Reg, v: Word): State {
    if r == ZERO then s else s.(regs := s.regs[r := v])
  }

  function Load(s: State, addr: nat): Word {
    if addr in s.mem then s.mem[addr] else 0
  }

  function Address(i: Instr, s: State): Word {
    Wrap(Get(s, i.src1) + i.imm)
  }

  /** One instruction; a branch falls through. */
  function Exec(i: Instr, v: Word, s: State): State {
    match i.name
    case ADDI => Set(s, i.rd, Address(i, s))
    case LW => Set(s, i.rd, Load(s, Address(i, s)))
    case SW => s.(mem := s.mem[Address(i, s) := Get(s, i.src2)])
    case SB => s.(mem := s.mem[Address(i, s) := v])
    case SH => s.(mem := s.mem[Address(i, s) := v])
    case _ => if i.category in {BRANCH, STORE, JUMP} then s else Set(s, i.rd, v)
  }

  /** A straight-line list, with one value per instruction. */
  function Run(list: seq<Instr>, vals: seq<Word>, s: State): State
    requires |vals| == |list|
    decreases list
  {
    if list == [] then s else Run(list[1..], vals[1..], Exec(list[0], vals[0], s))
  }
}
