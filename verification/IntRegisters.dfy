/** The integer registers of RISC-V. */
module IntRegisters {

  type Reg = r: nat | r < 32
  const ZERO: Reg := 0
  const RA: Reg := 1
  const SP: Reg := 2
  const GP: Reg := 3
  const T0: Reg := 5
}
