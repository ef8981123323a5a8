/** The bit permutations the RV32B pseudo-instructions stand for, and the instructions they are
    lowered to (RISC-V Bitmanip draft 0.92, section 2.2, in the 32-bit versions). */
module BitPermute {

  predicate Bit(x: bv32, i: bv5) {
    (x >> i) & 1 != 0
  }

  // ---------------------------------------------------------------- the instructions

  function Swap1(x: bv32): bv32 { ((x & 0x5555_5555) << 1) | ((x & 0xAAAA_AAAA) >> 1) }
  function Swap2(x: bv32): bv32 { ((x & 0x3333_3333) << 2) | ((x & 0xCCCC_CCCC) >> 2) }
  function Swap4(x: bv32): bv32 { ((x & 0x0F0F_0F0F) << 4) | ((x & 0xF0F0_F0F0) >> 4) }
  function Swap8(x: bv32): bv32 { ((x & 0x00FF_00FF) << 8) | ((x & 0xFF00_FF00) >> 8) }
  function Swap16(x: bv32): bv32 { ((x & 0x0000_FFFF) << 16) | ((x & 0xFFFF_0000) >> 16) }

  function Stage1(x: bv32, k: bv32): bv32 { if k & 1 != 0 then Swap1(x) else x }
  function Stage2(x: bv32, k: bv32): bv32 { if k & 2 != 0 then Swap2(x) else x }
  function Stage4(x: bv32, k: bv32): bv32 { if k & 4 != 0 then Swap4(x) else x }
  function Stage8(x: bv32, k: bv32): bv32 { if k & 8 != 0 then Swap8(x) else x }
  function Stage16(x: bv32, k: bv32): bv32 { if k & 16 != 0 then Swap16(x) else x }

  /** grevi: the stages selected by the shift amount. */
  function Grev(x: bv32, k: bv32): bv32 {
    Stage16(Stage8(Stage4(Stage2(Stage1(x, k), k), k), k), k)
  }

  function Or1(x: bv32, k: bv32): bv32 { if k & 1 != 0 then x | Swap1(x) else x }
  function Or2(x: bv32, k: bv32): bv32 { if k & 2 != 0 then x | Swap2(x) else x }
  function Or4(x: bv32, k: bv32): bv32 { if k & 4 != 0 then x | Swap4(x) else x }
  function Or8(x: bv32, k: bv32): bv32 { if k & 8 != 0 then x | Swap8(x) else x }
  function Or16(x: bv32, k: bv32): bv32 { if k & 16 != 0 then x | Swap16(x) else x }

  /** gorci: the same with each stage or-ed in. */
  function Gorc(x: bv32, k: bv32): bv32 {
    Or16(Or8(Or4(Or2(Or1(x, k), k), k), k), k)
  }

  function Cross1(x: bv32, k: bv32): bv32 {
    if k & 1 != 0 then (x & 0x9999_9999) | ((x << 1) & 0x4444_4444) | ((x >> 1) & 0x2222_2222) else x
  }

  function Cross2(x: bv32, k: bv32): bv32 {
    if k & 2 != 0 then (x & 0xC3C3_C3C3) | ((x << 2) & 0x3030_3030) | ((x >> 2) & 0x0C0C_0C0C) else x
  }

  function Cross4(x: bv32, k: bv32): bv32 {
    if k & 4 != 0 then (x & 0xF00F_F00F) | ((x << 4) & 0x0F00_0F00) | ((x >> 4) & 0x00F0_00F0) else x
  }

  function Cross8(x: bv32, k: bv32): bv32 {
    if k & 8 != 0 then (x & 0xFF00_00FF) | ((x << 8) & 0x00FF_0000) | ((x >> 8) & 0x0000_FF00) else x
  }

  /** shfli. */
  function Shfl(x: bv32, k: bv32): bv32 {
    Cross1(Cross2(Cross4(Cross8(x, k), k), k), k)
  }

  /** unshfli: the stages in the opposite order. */
  function Unshfl(x: bv32, k: bv32): bv32 {
    Cross8(Cross4(Cross2(Cross1(x, k), k), k), k)
  }

  // ---------------------------------------------------------------- the names

  /** The endings of the names: p, 2.n, .n, 4.b, 2.b, .b, 8.h, 4.h, 2.h, .h, 16, 8, 4, 2 and
      none. The letter gives a field of 2, 4, 8, 16 or 32 bits, the digit the units in it. */
  datatype Form = P | N2 | N | B4 | B2 | B | H8 | H4 | H2 | H | W16 | W8 | W4 | W2 | W

  /** The index bits that tell places inside a field apart: the field size less one. */
  function Inside(f: Form): bv5 {
    match f
    case P => 1
    case N2 | N => 3
    case B4 | B2 | B => 7
    case H8 | H4 | H2 | H => 15
    case W16 | W8 | W4 | W2 | W => 31
  }

  function Unit(f: Form): bv5 {
    match f
    case W16 => 16
    case H8 | W8 => 8
    case B4 | H4 | W4 => 4
    case N2 | B2 | H2 | W2 => 2
    case P | N | B | H | W => 1
  }

  /** zip and unzip need at least four units in a field. */
  predicate Zippable(f: Form) {
    f !in {P, N2, B4, H8, W16}
  }

  /** The amounts written into the lowered instruction (lib.py lines 432-521). */
  function RevAmount(f: Form): bv32 {
    match f
    case P => 1
    case N2 => 2
    case N => 3
    case B4 => 4
    case B2 => 6
    case B => 7
    case H8 => 8
    case H4 => 12
    case H2 => 14
    case H => 15
    case W16 => 16
    case W8 => 24
    case W4 => 28
    case W2 => 30
    case W => 31
  }

  /** Lines 535-594. */
  function ZipAmount(f: Form): bv32
    requires Zippable(f)
  {
    match f
    case N => 1
    case B2 => 2
    case B => 3
    case H4 => 4
    case H2 => 6
    case H => 7
    case W8 => 8
    case W4 => 12
    case W2 => 14
    case W => 15
  }

  // ---------------------------------------------------------------- what the names mean, bit by bit

  /** The place bit i comes from when the units of its field are reversed. */
  function RevSource(unit: bv5, inside: bv5, i: bv5): bv5 {
    var place, low := i & inside, i & (unit - 1);
    (i - place) + (inside - (unit - 1) - (place - low)) + low
  }

  /** ... and when the units of the lower half go to the even places and those of the upper
      half to the odd ones. */
  function ZipSource(unit: bv5, inside: bv5, i: bv5): bv5 {
    var place, low := i & inside, i & (unit - 1);
    var start := place - low;
    (i - place) + (if i & unit == 0 then start >> 1 else ((start - unit) >> 1) + (inside >> 1) + 1) + low
  }

  ghost predicate Reverses(f: Form, x: bv32, r: bv32) {
    forall i: bv5 :: Bit(r, i) == Bit(x, RevSource(Unit(f), Inside(f), i))
  }

  ghost predicate Zips(f: Form, x: bv32, r: bv32) {
    forall i: bv5 :: Bit(r, i) == Bit(x, ZipSource(Unit(f), Inside(f), i))
  }

  /** Two places of the same field, at the same place of their units. */
  predicate Peers(unit: bv5, inside: bv5, i: bv5, j: bv5) {
    i & !inside == j & !inside && i & (unit - 1) == j & (unit - 1)
  }

  ghost predicate HasPeer(f: Form, x: bv32, i: bv5) {
    exists j: bv5 :: Peers(Unit(f), Inside(f), i, j) && Bit(x, j)
  }

  /** Every unit of a field becomes the or of all units of the field. */
  ghost predicate Ors(f: Form, x: bv32, r: bv32) {
    forall i: bv5 :: Bit(r, i) <==> HasPeer(f, x, i)
  }

  // ---------------------------------------------------------------- one stage

  /** Index bits are flipped where the amount has a bit. */
  function Flip1(i: bv5, k: bv32): bv5 { if k & 1 != 0 then i ^ 1 else i }
  function Flip2(i: bv5, k: bv32): bv5 { if k & 2 != 0 then i ^ 2 else i }
  function Flip4(i: bv5, k: bv32): bv5 { if k & 4 != 0 then i ^ 4 else i }
  function Flip8(i: bv5, k: bv32): bv5 { if k & 8 != 0 then i ^ 8 else i }
  function Flip16(i: bv5, k: bv32): bv5 { if k & 16 != 0 then i ^ 16 else i }

  lemma Stage1Bit(x: bv32, k: bv32, i: bv5) ensures Bit(Stage1(x, k), i) == Bit(x, Flip1(i, k)) {}
  lemma Stage2Bit(x: bv32, k: bv32, i: bv5) ensures Bit(Stage2(x, k), i) == Bit(x, Flip2(i, k)) {}
  lemma Stage4Bit(x: bv32, k: bv32, i: bv5) ensures Bit(Stage4(x, k), i) == Bit(x, Flip4(i, k)) {}
  lemma Stage8Bit(x: bv32, k: bv32, i: bv5) ensures Bit(Stage8(x, k), i) == Bit(x, Flip8(i, k)) {}
  lemma Stage16Bit(x: bv32, k: bv32, i: bv5) ensures Bit(Stage16(x, k), i) == Bit(x, Flip16(i, k)) {}

  // A bit of an or-ed stage comes from its own place or from the flipped one.
  lemma Or1From(x: bv32, i: bv5) requires Bit(x | Swap1(x), i) ensures Bit(x, i) || Bit(x, i ^ 1) {}
  lemma Or1Own(x: bv32, i: bv5) requires Bit(x, i) ensures Bit(x | Swap1(x), i) {}
  lemma Or1Flipped(x: bv32, i: bv5) requires Bit(x, i ^ 1) ensures Bit(x | Swap1(x), i) {}

  lemma Or1Bit(x: bv32, k: bv32, i: bv5)
    ensures Bit(Or1(x, k), i) == (Bit(x, i) || Bit(x, Flip1(i, k)))
  {
    if k & 1 != 0 {
      if Bit(x | Swap1(x), i) {
        Or1From(x, i);
      }
      if Bit(x, i) {
        Or1Own(x, i);
      }
      if Bit(x, i ^ 1) {
        Or1Flipped(x, i);
      }
    }
  }

  lemma Or2From(x: bv32, i: bv5) requires Bit(x | Swap2(x), i) ensures Bit(x, i) || Bit(x, i ^ 2) {}
  lemma Or2Own(x: bv32, i: bv5) requires Bit(x, i) ensures Bit(x | Swap2(x), i) {}
  lemma Or2Flipped(x: bv32, i: bv5) requires Bit(x, i ^ 2) ensures Bit(x | Swap2(x), i) {}

  lemma Or2Bit(x: bv32, k: bv32, i: bv5)
    ensures Bit(Or2(x, k), i) == (Bit(x, i) || Bit(x, Flip2(i, k)))
  {
    if k & 2 != 0 {
      if Bit(x | Swap2(x), i) {
        Or2From(x, i);
      }
      if Bit(x, i) {
        Or2Own(x, i);
      }
      if Bit(x, i ^ 2) {
        Or2Flipped(x, i);
      }
    }
  }

  lemma Or4Bit(x: bv32, k: bv32, i: bv5)
    ensures Bit(Or4(x, k), i) == (Bit(x, i) || Bit(x, Flip4(i, k)))
  {
  }

  lemma Or8Bit(x: bv32, k: bv32, i: bv5)
    ensures Bit(Or8(x, k), i) == (Bit(x, i) || Bit(x, Flip8(i, k)))
  {
  }

  lemma Or16Bit(x: bv32, k: bv32, i: bv5)
    ensures Bit(Or16(x, k), i) == (Bit(x, i) || Bit(x, Flip16(i, k)))
  {
  }

  /** Two neighbouring index bits are exchanged where the amount has a bit. */
  function Turn1(i: bv5, k: bv32): bv5 { if k & 1 != 0 then (i & 28) | ((i & 1) << 1) | ((i & 2) >> 1) else i }
  function Turn2(i: bv5, k: bv32): bv5 { if k & 2 != 0 then (i & 25) | ((i & 2) << 1) | ((i & 4) >> 1) else i }
  function Turn4(i: bv5, k: bv32): bv5 { if k & 4 != 0 then (i & 19) | ((i & 4) << 1) | ((i & 8) >> 1) else i }
  function Turn8(i: bv5, k: bv32): bv5 { if k & 8 != 0 then (i & 7) | ((i & 8) << 1) | ((i & 16) >> 1) else i }

  lemma Cross1Bit(x: bv32, k: bv32, i: bv5) ensures Bit(Cross1(x, k), i) == Bit(x, Turn1(i, k)) {}
  lemma Cross2Bit(x: bv32, k: bv32, i: bv5) ensures Bit(Cross2(x, k), i) == Bit(x, Turn2(i, k)) {}
  lemma Cross4Bit(x: bv32, k: bv32, i: bv5) ensures Bit(Cross4(x, k), i) == Bit(x, Turn4(i, k)) {}
  lemma Cross8Bit(x: bv32, k: bv32, i: bv5) ensures Bit(Cross8(x, k), i) == Bit(x, Turn8(i, k)) {}

  // ---------------------------------------------------------------- every amount

  function Flip(i: bv5, k: bv32): bv5 {
    Flip1(Flip2(Flip4(Flip8(Flip16(i, k), k), k), k), k)
  }

  function Turn(i: bv5, k: bv32): bv5 {
    Turn8(Turn4(Turn2(Turn1(i, k), k), k), k)
  }

  lemma LowStages(x: bv32, k: bv32, i: bv5)
    ensures Bit(Stage2(Stage1(x, k), k), i) == Bit(x, Flip1(Flip2(i, k), k))
  {
    Stage2Bit(Stage1(x, k), k, i);
    Stage1Bit(x, k, Flip2(i, k));
  }

  lemma HighStages(x: bv32, k: bv32, i: bv5)
    ensures Bit(Stage16(Stage8(Stage4(x, k), k), k), i) == Bit(x, Flip4(Flip8(Flip16(i, k), k), k))
  {
    Stage16Bit(Stage8(Stage4(x, k), k), k, i);
    Stage8Bit(Stage4(x, k), k, Flip16(i, k));
    Stage4Bit(x, k, Flip8(Flip16(i, k), k));
  }

  /** Where bit i comes from, for every amount. */
  lemma GrevBit(x: bv32, k: bv32, i: bv5)
    ensures Bit(Grev(x, k), i) == Bit(x, Flip(i, k))
  {
    HighStages(Stage2(Stage1(x, k), k), k, i);
    LowStages(x, k, Flip4(Flip8(Flip16(i, k), k), k));
  }

  lemma HighCrossings(x: bv32, k: bv32, i: bv5)
    ensures Bit(Cross4(Cross8(x, k), k), i) == Bit(x, Turn8(Turn4(i, k), k))
  {
    Cross4Bit(Cross8(x, k), k, i);
    Cross8Bit(x, k, Turn4(i, k));
  }

  lemma LowCrossings(x: bv32, k: bv32, i: bv5)
    ensures Bit(Cross1(Cross2(x, k), k), i) == Bit(x, Turn2(Turn1(i, k), k))
  {
    Cross1Bit(Cross2(x, k), k, i);
    Cross2Bit(x, k, Turn1(i, k));
  }

  lemma ShflBitFrom(x: bv32, h: bv32, k: bv32, i: bv5)
    requires Bit(h, Turn2(Turn1(i, k), k)) == Bit(x, Turn(i, k))
    ensures Bit(Cross1(Cross2(h, k), k), i) == Bit(x, Turn(i, k))
  {
    LowCrossings(h, k, i);
  }

  lemma ShflBit(x: bv32, k: bv32, i: bv5)
    ensures Bit(Shfl(x, k), i) == Bit(x, Turn(i, k))
  {
    HighCrossings(x, k, Turn2(Turn1(i, k), k));
    ShflBitFrom(x, Cross4(Cross8(x, k), k), k, i);
  }

  /** The places i and j differ only where the amount has a bit. */
  predicate Near(i: bv5, j: bv5, k: bv32) {
    && (k & 1 != 0 || i & 1 == j & 1) && (k & 2 != 0 || i & 2 == j & 2) && (k & 4 != 0 || i & 4 == j & 4)
    && (k & 8 != 0 || i & 8 == j & 8) && (k & 16 != 0 || i & 16 == j & 16)
  }

  lemma Finds1(x: bv32, k: bv32, i: bv5) returns (j: bv5)
    requires Bit(Or1(x, k), i)
    ensures (k & 1 != 0 || i & 1 == j & 1) && i & 30 == j & 30 && Bit(x, j)
  {
    Or1Bit(x, k, i);
    j := if Bit(x, i) then i else Flip1(i, k);
  }

  lemma Finds2(x: bv32, k: bv32, i: bv5) returns (j: bv5)
    requires Bit(Or2(x, k), i)
    ensures (k & 2 != 0 || i & 2 == j & 2) && i & 29 == j & 29 && Bit(x, j)
  {
    Or2Bit(x, k, i);
    j := if Bit(x, i) then i else Flip2(i, k);
  }

  lemma Finds4(x: bv32, k: bv32, i: bv5) returns (j: bv5)
    requires Bit(Or4(x, k), i)
    ensures (k & 4 != 0 || i & 4 == j & 4) && i & 27 == j & 27 && Bit(x, j)
  {
    Or4Bit(x, k, i);
    j := if Bit(x, i) then i else Flip4(i, k);
  }

  lemma Finds8(x: bv32, k: bv32, i: bv5) returns (j: bv5)
    requires Bit(Or8(x, k), i)
    ensures (k & 8 != 0 || i & 8 == j & 8) && i & 23 == j & 23 && Bit(x, j)
  {
    Or8Bit(x, k, i);
    j := if Bit(x, i) then i else Flip8(i, k);
  }

  lemma Finds16(x: bv32, k: bv32, i: bv5) returns (j: bv5)
    requires Bit(Or16(x, k), i)
    ensures (k & 16 != 0 || i & 16 == j & 16) && i & 15 == j & 15 && Bit(x, j)
  {
    Or16Bit(x, k, i);
    j := if Bit(x, i) then i else Flip16(i, k);
  }

  lemma NearThrough(i: bv5, i1: bv5, i2: bv5, i3: bv5, i4: bv5, j: bv5, k: bv32)
    requires (k & 16 != 0 || i & 16 == i4 & 16) && i & 15 == i4 & 15 && (k & 8 != 0 || i4 & 8 == i3 & 8) && i4 & 23 == i3 & 23
    requires (k & 4 != 0 || i3 & 4 == i2 & 4) && i3 & 27 == i2 & 27 && (k & 2 != 0 || i2 & 2 == i1 & 2) && i2 & 29 == i1 & 29
    requires (k & 1 != 0 || i1 & 1 == j & 1) && i1 & 30 == j & 30
    ensures Near(i, j, k)
  {
  }

  /** Bit i of gorci is set exactly if a bit is set at some place near i. */
  lemma GorcFinds(x: bv32, k: bv32, i: bv5) returns (j: bv5)
    requires Bit(Gorc(x, k), i)
    ensures Near(i, j, k) && Bit(x, j)
  {
    var i4 := Finds16(Or8(Or4(Or2(Or1(x, k), k), k), k), k, i);
    var i3 := Finds8(Or4(Or2(Or1(x, k), k), k), k, i4);
    var i2 := Finds4(Or2(Or1(x, k), k), k, i3);
    var i1 := Finds2(Or1(x, k), k, i2);
    j := Finds1(x, k, i1);
    NearThrough(i, i1, i2, i3, i4, j, k);
  }

  lemma Keeps1(x: bv32, k: bv32, i: bv5, j: bv5)
    requires (k & 1 != 0 || i & 1 == j & 1) && Bit(x, j)
    ensures Bit(Or1(x, k), (j & 30) | (i & 1))
  {
    Or1Bit(x, k, (j & 30) | (i & 1));
  }

  lemma Keeps2(x: bv32, k: bv32, i: bv5, j: bv5)
    requires (k & 2 != 0 || i & 2 == j & 2) && Bit(x, j)
    ensures Bit(Or2(x, k), (j & 29) | (i & 2))
  {
    Or2Bit(x, k, (j & 29) | (i & 2));
  }

  lemma Keeps4(x: bv32, k: bv32, i: bv5, j: bv5)
    requires (k & 4 != 0 || i & 4 == j & 4) && Bit(x, j)
    ensures Bit(Or4(x, k), (j & 27) | (i & 4))
  {
    Or4Bit(x, k, (j & 27) | (i & 4));
  }

  lemma Keeps8(x: bv32, k: bv32, i: bv5, j: bv5)
    requires (k & 8 != 0 || i & 8 == j & 8) && Bit(x, j)
    ensures Bit(Or8(x, k), (j & 23) | (i & 8))
  {
    Or8Bit(x, k, (j & 23) | (i & 8));
  }

  lemma Keeps16(x: bv32, k: bv32, i: bv5, j: bv5)
    requires (k & 16 != 0 || i & 16 == j & 16) && Bit(x, j)
    ensures Bit(Or16(x, k), (j & 15) | (i & 16))
  {
    Or16Bit(x, k, (j & 15) | (i & 16));
  }

  lemma Places(i: bv5, j: bv5, j1: bv5, j2: bv5, j3: bv5, j4: bv5)
    requires j1 == (j & 30) | (i & 1) && j2 == (j1 & 29) | (i & 2) && j3 == (j2 & 27) | (i & 4) && j4 == (j3 & 23) | (i & 8)
    ensures j1 & 2 == j & 2 && j2 & 4 == j & 4 && j3 & 8 == j & 8 && j4 & 16 == j & 16
    ensures (j4 & 15) | (i & 16) == i
  {
  }

  lemma GorcKeeps(x: bv32, k: bv32, i: bv5, j: bv5)
    requires Near(i, j, k) && Bit(x, j)
    ensures Bit(Gorc(x, k), i)
  {
    var j1 := (j & 30) | (i & 1);
    var j2 := (j1 & 29) | (i & 2);
    var j3 := (j2 & 27) | (i & 4);
    var j4 := (j3 & 23) | (i & 8);
    Places(i, j, j1, j2, j3, j4);
    Keeps1(x, k, i, j);
    Keeps2(Or1(x, k), k, i, j1);
    Keeps4(Or2(Or1(x, k), k), k, i, j2);
    Keeps8(Or4(Or2(Or1(x, k), k), k), k, i, j3);
    Keeps16(Or8(Or4(Or2(Or1(x, k), k), k), k), k, i, j4);
  }

  lemma Cross1Twice(x: bv32, k: bv32) ensures Cross1(Cross1(x, k), k) == x {}
  lemma Cross2Twice(x: bv32, k: bv32) ensures Cross2(Cross2(x, k), k) == x {}
  lemma Cross4Twice(x: bv32, k: bv32) ensures Cross4(Cross4(x, k), k) == x {}
  lemma Cross8Twice(x: bv32, k: bv32) ensures Cross8(Cross8(x, k), k) == x {}

  lemma FlipTwice(i: bv5, k: bv32)
    ensures Flip(Flip(i, k), k) == i
  {
  }

  lemma GrevTwiceBit(x: bv32, k: bv32, i: bv5)
    ensures Bit(Grev(Grev(x, k), k), i) == Bit(x, i)
  {
    GrevBit(Grev(x, k), k, i);
    GrevBit(x, k, Flip(i, k));
    FlipTwice(i, k);
  }

  /** For every amount, grevi undoes itself. */
  lemma GrevTwice(x: bv32, k: bv32)
    ensures Grev(Grev(x, k), k) == x
  {
    forall i: bv5 ensures Bit(Grev(Grev(x, k), k), i) == Bit(x, i) {
      GrevTwiceBit(x, k, i);
    }
    SameWord(Grev(Grev(x, k), k), x);
  }

  /** For every amount, shfli and unshfli undo each other. */
  lemma UnshflShfl(x: bv32, k: bv32)
    ensures Unshfl(Shfl(x, k), k) == x
  {
    Cross1Twice(Cross2(Cross4(Cross8(x, k), k), k), k);
    Cross2Twice(Cross4(Cross8(x, k), k), k);
    Cross4Twice(Cross8(x, k), k);
    Cross8Twice(x, k);
  }

  lemma ShflUnshfl(x: bv32, k: bv32)
    ensures Shfl(Unshfl(x, k), k) == x
  {
    Cross8Twice(Cross4(Cross2(Cross1(x, k), k), k), k);
    Cross4Twice(Cross2(Cross1(x, k), k), k);
    Cross2Twice(Cross1(x, k), k);
    Cross1Twice(x, k);
  }

  // ---------------------------------------------------------------- all names

  lemma RevSourceIs(f: Form, i: bv5)
    ensures RevSource(Unit(f), Inside(f), i) == Flip(i, RevAmount(f))
  {
  }

  lemma ZipSourceIs(f: Form, i: bv5)
    requires Zippable(f)
    ensures ZipSource(Unit(f), Inside(f), i) == Turn(i, ZipAmount(f))
  {
  }

  lemma PeersAreNear(f: Form, i: bv5, j: bv5)
    ensures Peers(Unit(f), Inside(f), i, j) <==> Near(i, j, RevAmount(f))
  {
  }

  /** Where bit i of a reversal comes from. */
  lemma RevBit(f: Form, x: bv32, i: bv5)
    ensures Bit(Grev(x, RevAmount(f)), i) == Bit(x, RevSource(Unit(f), Inside(f), i))
  {
    GrevBit(x, RevAmount(f), i);
    RevSourceIs(f, i);
  }

  /** Where bit i of an interleaving comes from. */
  lemma ZipBit(f: Form, x: bv32, i: bv5)
    requires Zippable(f)
    ensures Bit(Shfl(x, ZipAmount(f)), i) == Bit(x, ZipSource(Unit(f), Inside(f), i))
  {
    ShflBit(x, ZipAmount(f), i);
    ZipSourceIs(f, i);
  }

  lemma OrcKeeps(f: Form, x: bv32, i: bv5, j: bv5)
    requires Peers(Unit(f), Inside(f), i, j) && Bit(x, j)
    ensures Bit(Gorc(x, RevAmount(f)), i)
  {
    PeersAreNear(f, i, j);
    GorcKeeps(x, RevAmount(f), i, j);
  }

  lemma OrcFinds(f: Form, x: bv32, i: bv5) returns (j: bv5)
    requires Bit(Gorc(x, RevAmount(f)), i)
    ensures Peers(Unit(f), Inside(f), i, j) && Bit(x, j)
  {
    j := GorcFinds(x, RevAmount(f), i);
    PeersAreNear(f, i, j);
  }

  /** Every rev form undoes itself, and every zip and unzip form undoes the other. */
  lemma RevUndoesRev(f: Form, x: bv32)
    ensures Grev(Grev(x, RevAmount(f)), RevAmount(f)) == x
  {
    GrevTwice(x, RevAmount(f));
  }

  lemma UnzipUndoesZip(f: Form, x: bv32)
    requires Zippable(f)
    ensures Unshfl(Shfl(x, ZipAmount(f)), ZipAmount(f)) == x
  {
    UnshflShfl(x, ZipAmount(f));
  }

  lemma ZipUndoesUnzip(f: Form, x: bv32)
    requires Zippable(f)
    ensures Shfl(Unshfl(x, ZipAmount(f)), ZipAmount(f)) == x
  {
    ShflUnshfl(x, ZipAmount(f));
  }

  // ---------------------------------------------------------------- whole words

  lemma SameByte(x: bv32, y: bv32, b: bv5)
    requires b < 25
    requires Bit(x, b) == Bit(y, b) && Bit(x, b + 1) == Bit(y, b + 1) && Bit(x, b + 2) == Bit(y, b + 2) && Bit(x, b + 3) == Bit(y, b + 3)
    requires Bit(x, b + 4) == Bit(y, b + 4) && Bit(x, b + 5) == Bit(y, b + 5) && Bit(x, b + 6) == Bit(y, b + 6) && Bit(x, b + 7) == Bit(y, b + 7)
    ensures (x >> b) & 0xFF == (y >> b) & 0xFF
  {
  }

  ghost predicate SameBits(x: bv32, y: bv32) {
    forall i: bv5 :: Bit(x, i) == Bit(y, i)
  }

  lemma ByteOf(x: bv32, y: bv32, b: bv5)
    requires SameBits(x, y) && b < 25
    ensures (x >> b) & 0xFF == (y >> b) & 0xFF
  {
    assert Bit(x, b) == Bit(y, b) && Bit(x, b + 1) == Bit(y, b + 1) && Bit(x, b + 2) == Bit(y, b + 2);
    assert Bit(x, b + 3) == Bit(y, b + 3) && Bit(x, b + 4) == Bit(y, b + 4) && Bit(x, b + 5) == Bit(y, b + 5);
    assert Bit(x, b + 6) == Bit(y, b + 6) && Bit(x, b + 7) == Bit(y, b + 7);
    SameByte(x, y, b);
  }

  lemma FourBytes(x: bv32, y: bv32)
    requires x & 0xFF == y & 0xFF && (x >> 8) & 0xFF == (y >> 8) & 0xFF
    requires (x >> 16) & 0xFF == (y >> 16) & 0xFF && (x >> 24) & 0xFF == (y >> 24) & 0xFF
    ensures x == y
  {
  }

  lemma Byte0(x: bv32, y: bv32) requires SameBits(x, y) ensures x & 0xFF == y & 0xFF { ByteOf(x, y, 0); }
  lemma Byte1(x: bv32, y: bv32) requires SameBits(x, y) ensures (x >> 8) & 0xFF == (y >> 8) & 0xFF { ByteOf(x, y, 8); }

  lemma Byte2(x: bv32, y: bv32)
    requires SameBits(x, y)
    ensures (x >> 16) & 0xFF == (y >> 16) & 0xFF
  {
    ByteOf(x, y, 16);
  }

  lemma Byte3(x: bv32, y: bv32)
    requires SameBits(x, y)
    ensures (x >> 24) & 0xFF == (y >> 24) & 0xFF
  {
    ByteOf(x, y, 24);
  }

  /** A word is its bits. */
  lemma SameWord(x: bv32, y: bv32)
    requires SameBits(x, y)
    ensures x == y
  {
    Byte0(x, y);
    Byte1(x, y);
    Byte2(x, y);
    Byte3(x, y);
    FourBytes(x, y);
  }

  /** grevi with the amount of a rev name reverses the units of every field, and no other word
      is that reversal. */
  lemma RevMeans(f: Form, x: bv32, r: bv32)
    ensures Reverses(f, x, r) <==> r == Grev(x, RevAmount(f))
  {
    RevIs(f, x);
    if Reverses(f, x, r) {
      SameReversal(f, x, r, Grev(x, RevAmount(f)));
    }
  }

  lemma RevIs(f: Form, x: bv32)
    ensures Reverses(f, x, Grev(x, RevAmount(f)))
  {
    forall i: bv5
      ensures Bit(Grev(x, RevAmount(f)), i) == Bit(x, RevSource(Unit(f), Inside(f), i))
    {
      RevBit(f, x, i);
    }
  }

  lemma SameReversal(f: Form, x: bv32, r: bv32, r': bv32)
    requires Reverses(f, x, r) && Reverses(f, x, r')
    ensures r == r'
  {
    SameWord(r, r');
  }

  /** shfli with the amount of a zip name interleaves the halves of every field. */
  lemma ZipMeans(f: Form, x: bv32, r: bv32)
    requires Zippable(f)
    ensures Zips(f, x, r) <==> r == Shfl(x, ZipAmount(f))
  {
    ZipIs(f, x);
    if Zips(f, x, r) {
      SameZip(f, x, r, Shfl(x, ZipAmount(f)));
    }
  }

  lemma ZipIs(f: Form, x: bv32)
    requires Zippable(f)
    ensures Zips(f, x, Shfl(x, ZipAmount(f)))
  {
    forall i: bv5
      ensures Bit(Shfl(x, ZipAmount(f)), i) == Bit(x, ZipSource(Unit(f), Inside(f), i))
    {
      ZipBit(f, x, i);
    }
  }

  lemma SameZip(f: Form, x: bv32, r: bv32, r': bv32)
    requires Zips(f, x, r) && Zips(f, x, r')
    ensures r == r'
  {
    SameWord(r, r');
  }

  /** unshfli with the same amount gives the one word whose zip is the operand. */
  lemma UnzipMeans(f: Form, x: bv32, r: bv32)
    requires Zippable(f)
    ensures Zips(f, r, x) <==> r == Unshfl(x, ZipAmount(f))
  {
    ZipMeans(f, r, x);
    UnzipUndoesZip(f, r);
    ZipUndoesUnzip(f, x);
  }

  /** gorci with the amount of an orc name ors the units of every field together. */
  lemma OrcMeans(f: Form, x: bv32, r: bv32)
    ensures Ors(f, x, r) <==> r == Gorc(x, RevAmount(f))
  {
    OrcIs(f, x);
    if Ors(f, x, r) {
      SameOr(f, x, r, Gorc(x, RevAmount(f)));
    }
  }

  lemma OrcOnly(f: Form, x: bv32, i: bv5)
    requires Bit(Gorc(x, RevAmount(f)), i)
    ensures HasPeer(f, x, i)
  {
    var j := OrcFinds(f, x, i);
  }

  lemma OrcAll(f: Form, x: bv32, i: bv5)
    requires HasPeer(f, x, i)
    ensures Bit(Gorc(x, RevAmount(f)), i)
  {
    var j: bv5 :| Peers(Unit(f), Inside(f), i, j) && Bit(x, j);
    OrcKeeps(f, x, i, j);
  }

  lemma OrcIs(f: Form, x: bv32)
    ensures Ors(f, x, Gorc(x, RevAmount(f)))
  {
    forall i: bv5 ensures Bit(Gorc(x, RevAmount(f)), i) <==> HasPeer(f, x, i) {
      if Bit(Gorc(x, RevAmount(f)), i) {
        OrcOnly(f, x, i);
      }
      if HasPeer(f, x, i) {
        OrcAll(f, x, i);
      }
    }
  }

  lemma SameOr(f: Form, x: bv32, r: bv32, r': bv32)
    requires Ors(f, x, r) && Ors(f, x, r')
    ensures r == r'
  {
    forall i: bv5 ensures Bit(r, i) == Bit(r', i) {
      assert Bit(r, i) <==> HasPeer(f, x, i);
    }
    SameWord(r, r');
  }
}
