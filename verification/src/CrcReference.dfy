/** The CRC-32 as its definition has it: division of the bits, in the order of transmission, by the generator
    polynomial, highest coefficient first. Nothing here reads the table's constants or shifts. */
module CrcReference {
  import opened Crc32

  /** x^26 + x^23 + x^22 + x^16 + x^12 + x^11 + x^10 + x^8 + x^7 + x^5 + x^4 + x^2 + x + 1, below x^32. */
  const GENERATOR: bv32 := 0x04C1_1DB7

  function Plus(x: bv32, y: bv32): bv32 { x ^ y }

  function TimesX(r: bv32): bv32 { r << 1 }

  predicate HasTop(r: bv32) { r & 0x8000_0000 != 0 }

  /** One step of the division: the coefficient of x^32 decides whether the generator is taken off. */
  function DivideBit(r: bv32, bit: bool): bv32 {
    if HasTop(r) != bit then Plus(TimesX(r), GENERATOR) else TimesX(r)
  }

  /** The remainder after `bits`, started with `r`. */
  function Divide(r: bv32, bits: seq<bool>): bv32 {
    if bits == [] then r else DivideBit(Divide(r, bits[..|bits| - 1]), bits[|bits| - 1])
  }

  /** The bits of a byte, least significant first. */
  function ByteBits(b: bv8): seq<bool> {
    [b & 0x01 != 0, b & 0x02 != 0, b & 0x04 != 0, b & 0x08 != 0,
     b & 0x10 != 0, b & 0x20 != 0, b & 0x40 != 0, b & 0x80 != 0]
  }

  function BufferBits(s: seq<bv8>): seq<bool> {
    if s == [] then [] else BufferBits(s[..|s| - 1]) + ByteBits(s[|s| - 1])
  }

  function Swap1(x: bv32): bv32 { ((x >> 1) & 0x5555_5555) | ((x & 0x5555_5555) << 1) }

  function Swap2(x: bv32): bv32 { ((x >> 2) & 0x3333_3333) | ((x & 0x3333_3333) << 2) }

  function Swap4(x: bv32): bv32 { ((x >> 4) & 0x0F0F_0F0F) | ((x & 0x0F0F_0F0F) << 4) }

  function Swap8(x: bv32): bv32 { ((x >> 8) & 0x00FF_00FF) | ((x & 0x00FF_00FF) << 8) }

  /** The 32 bits in the opposite order. */
  function Reversed(x: bv32): bv32 {
    var y := Swap8(Swap4(Swap2(Swap1(x))));
    (y >> 16) | (y << 16)
  }

  /** The check bytes: start and final complement are all ones, the remainder goes out reversed, low byte first. */
  function Reference(s: seq<bv8>): seq<bv8> {
    LowFirst(Reversed(Plus(Divide(0xFFFF_FFFF, BufferBits(s)), 0xFFFF_FFFF)))
  }

  function LowFirst(v: bv32): seq<bv8> {
    [(v & 0xFF) as bv8, ((v >> 8) & 0xFF) as bv8, ((v >> 16) & 0xFF) as bv8, ((v >> 24) & 0xFF) as bv8]
  }

  // ---- reversing turns one register into the other -----------------------------------------------

  lemma ReversedPlus(x: bv32, y: bv32)
    ensures Reversed(Plus(x, y)) == Plus(Reversed(x), Reversed(y))
  {
  }

  lemma ReversedByte(x: bv32)
    ensures ShiftsRight(x & 0xFF) && ShiftsRight(x & 0xFF00)
    ensures ShiftsRight(x & 0xFF_0000) && ShiftsRight(x & 0xFF00_0000)
  {
  }

  predicate ShiftsRight(x: bv32) { Reversed(TimesX(x)) == Half(Reversed(x)) }

  lemma ShiftsRightPlus(x: bv32, y: bv32)
    requires ShiftsRight(x) && ShiftsRight(y)
    ensures ShiftsRight(Plus(x, y))
  {
    hide Reversed, Plus, TimesX, Half;
    ReversedPlus(x, y);
    ReversedPlus(TimesX(x), TimesX(y));
    ShiftPlus(x, y);
    ShiftPlus(Reversed(x), Reversed(y));
  }

  lemma ShiftPlus(x: bv32, y: bv32)
    ensures TimesX(Plus(x, y)) == Plus(TimesX(x), TimesX(y)) && Half(Plus(x, y)) == Plus(Half(x), Half(y))
  {
  }

  lemma FourBytes(x: bv32)
    ensures x == Plus(Plus(x & 0xFF, x & 0xFF00), Plus(x & 0xFF_0000, x & 0xFF00_0000))
  {
  }

  lemma ReversedShift(x: bv32)
    ensures ShiftsRight(x)
  {
    ReversedByte(x);
    FourBytes(x);
    ShiftsRightFour(x & 0xFF, x & 0xFF00, x & 0xFF_0000, x & 0xFF00_0000);
    hide ShiftsRight, Plus;
  }

  lemma ShiftsRightFour(a: bv32, b: bv32, c: bv32, d: bv32)
    requires ShiftsRight(a) && ShiftsRight(b) && ShiftsRight(c) && ShiftsRight(d)
    ensures ShiftsRight(Plus(Plus(a, b), Plus(c, d)))
  {
    hide ShiftsRight, Plus;
    ShiftsRightPlus(a, b);
    ShiftsRightPlus(c, d);
    ShiftsRightPlus(Plus(a, b), Plus(c, d));
  }

  lemma ReversedTop(x: bv32)
    ensures Odd(Reversed(x)) <==> HasTop(x)
  {
  }

  lemma ReversedConstants()
    ensures Reversed(GENERATOR) == POLY && Reversed(0xFFFF_FFFF) == START
  {
  }

  lemma BitAdded(x: bv32, bit: bool)
    ensures Odd(Xor(x, Bit(bit))) <==> Odd(x) != bit
    ensures Half(Xor(x, Bit(bit))) == Half(x)
  {
    hide Xor, Odd, Half, Not;
    XorHalf(x, Bit(bit));
    XorZero(x);
    XorZero(Half(x));
    HalfOne();
  }

  lemma HalfOne()
    ensures Half(1) == 0 && Odd(1)
  {
  }

  lemma PlusIsXor(x: bv32, y: bv32)
    ensures Plus(x, y) == Xor(x, y)
  {
  }

  lemma StepReversed(r: bv32, bit: bool)
    ensures Reversed(DivideBit(r, bit)) == BitStep(Reversed(r), bit)
  {
    hide Reversed, Plus, TimesX, HasTop, Xor, Odd, Half, Bit;
    ReversedShift(r);
    ReversedTop(r);
    ReversedPlus(TimesX(r), GENERATOR);
    ReversedConstants();
    BitAdded(Reversed(r), bit);
    PlusIsXor(Half(Reversed(r)), POLY);
  }

  lemma {:induction false} StateReversed(r: bv32, bits: seq<bool>)
    ensures Reversed(Divide(r, bits)) == BitState(Reversed(r), bits)
    decreases |bits|
  {
    hide Reversed, DivideBit, BitStep;
    if bits != [] {
      StateReversed(r, bits[..|bits| - 1]);
      StepReversed(Divide(r, bits[..|bits| - 1]), bits[|bits| - 1]);
    }
  }

  lemma ByteBitsAgree(b: bv8)
    ensures BitsOf(b) == ByteBits(b)
  {
    hide Half4, FourBits;
    LowFour(b);
    HighFour(b);
  }

  lemma LowFour(b: bv8)
    ensures FourBits(Wide(b)) == [b & 0x01 != 0, b & 0x02 != 0, b & 0x04 != 0, b & 0x08 != 0]
  {
  }

  lemma HighFour(b: bv8)
    ensures FourBits(Half4(Wide(b))) == [b & 0x10 != 0, b & 0x20 != 0, b & 0x40 != 0, b & 0x80 != 0]
  {
  }

  lemma {:induction false} BufferBitsAgree(s: seq<bv8>)
    ensures AllBits(s) == BufferBits(s)
  {
    hide BitsOf, ByteBits;
    if s != [] {
      BufferBitsAgree(s[..|s| - 1]);
      ByteBitsAgree(s[|s| - 1]);
    }
  }

  lemma Complement(x: bv32)
    ensures Reversed(Plus(x, 0xFFFF_FFFF)) == Not(Reversed(x))
  {
    hide Reversed, Plus, Not;
    ReversedPlus(x, 0xFFFF_FFFF);
    ReversedConstants();
    PlusOnes(Reversed(x));
  }

  lemma PlusOnes(x: bv32)
    ensures Plus(x, START) == Not(x)
  {
  }

  lemma BytesLowFirst(v: bv32)
    ensures Bytes(v) == LowFirst(v)
  {
    assert v >> 8 >> 8 == v >> 16 && v >> 16 >> 8 == v >> 24;
  }

  /** What CRC_cal computes is the CRC-32 of the buffer, for every buffer. */
  lemma CrcIsReference(s: seq<bv8>)
    ensures Crc(s) == Reference(s)
  {
    hide Reversed, Plus, Divide, BitState, State, Bytes, LowFirst, Not, AllBits, BufferBits;
    TableIsBitwise(START, s);
    BufferBitsAgree(s);
    StateReversed(0xFFFF_FFFF, BufferBits(s));
    ReversedConstants();
    Complement(Divide(0xFFFF_FFFF, BufferBits(s)));
    BytesLowFirst(Not(State(START, s)));
  }

  // ---- the known answer --------------------------------------------------------------------------

  /** The digits 1 to 9. */
  const DIGITS: seq<bv8> := [0x31, 0x32, 0x33, 0x34, 0x35, 0x36, 0x37, 0x38, 0x39]

  lemma Next(i: nat, c: bv32, d: bv32)
    requires i < |DIGITS| && State(START, DIGITS[..i]) == c && Update(c, DIGITS[i]) == d
    ensures State(START, DIGITS[..i + 1]) == d
  {
    hide Update;
    assert DIGITS[..i + 1][..i] == DIGITS[..i];
  }

  lemma Updates()
    ensures Update(0xFFFF_FFFF, 0x31) == 0x7C23_1048
    ensures Update(0x7C23_1048, 0x32) == 0xB0AC_BB32
    ensures Update(0xB0AC_BB32, 0x33) == 0x77B7_9C2D
    ensures Update(0x77B7_9C2D, 0x34) == 0x641C_1F5C
    ensures Update(0x641C_1F5C, 0x35) == 0x340A_C5E3
    ensures Update(0x340A_C5E3, 0x36) == 0xF68D_2C9E
    ensures Update(0xF68D_2C9E, 0x37) == 0xAFFC_9660
    ensures Update(0xAFFC_9660, 0x38) == 0x651F_2550
    ensures Update(0x651F_2550, 0x39) == 0x340B_C6D9
  {
  }

  lemma AllDigits()
    ensures State(START, DIGITS) == 0x340B_C6D9
  {
    hide Update;
    Updates();
    assert State(START, DIGITS[..0]) == START;
    Next(0, 0xFFFF_FFFF, 0x7C23_1048);
    Next(1, 0x7C23_1048, 0xB0AC_BB32);
    Next(2, 0xB0AC_BB32, 0x77B7_9C2D);
    Next(3, 0x77B7_9C2D, 0x641C_1F5C);
    Next(4, 0x641C_1F5C, 0x340A_C5E3);
    Next(5, 0x340A_C5E3, 0xF68D_2C9E);
    Next(6, 0xF68D_2C9E, 0xAFFC_9660);
    Next(7, 0xAFFC_9660, 0x651F_2550);
    Next(8, 0x651F_2550, 0x340B_C6D9);
    assert DIGITS[..9] == DIGITS;
  }

  /** The check value every catalogue gives for this CRC: CB F4 39 26 for the digits 1 to 9. */
  lemma KnownAnswer()
    ensures Crc([0x31, 0x32, 0x33, 0x34, 0x35, 0x36, 0x37, 0x38, 0x39]) == [0x26, 0x39, 0xF4, 0xCB]
  {
    hide State;
    AllDigits();
  }
}
