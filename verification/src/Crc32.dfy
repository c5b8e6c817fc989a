/** The CRC-32 of section 8 of RFC 1952: a table and one update per byte against the bit-by-bit definition,
    and what a changed record does to it. The word operations have names of their own so that the lemmas
    above them can be proved from their algebra, without looking at bits again. */
module Crc32 {
  const POLY: bv32 := 0xEDB8_8320
  const START: bv32 := 0xFFFF_FFFF

  function Xor(x: bv32, y: bv32): bv32 { x ^ y }

  function Low(x: bv32): bv32 { x & 0xFF }

  function High(x: bv32): bv32 { x & 0xFFFF_FF00 }

  function Half(x: bv32): bv32 { x >> 1 }

  function Down(x: bv32): bv32 { x >> 8 }

  predicate Odd(x: bv32) { x & 1 == 1 }

  function Wide(b: bv8): bv32 { b as bv32 }

  function Narrow(x: bv32): bv8 { (x & 0xFF) as bv8 }

  /** One turn of the inner loop of the table construction. */
  function Shift(c: bv32): bv32 { if Odd(c) then Xor(Half(c), POLY) else Half(c) }

  /** All eight turns: the table entry of `c`. */
  function Shift8(c: bv32): bv32 { Shift(Shift(Shift(Shift(Shift(Shift(Shift(Shift(c)))))))) }

  /** The update by table: one look-up per byte. */
  function Update(c: bv32, b: bv8): bv32 { Xor(Down(c), Shift8(Low(Xor(c, Wide(b))))) }

  function State(c: bv32, s: seq<bv8>): bv32 {
    if s == [] then c else Update(State(c, s[..|s| - 1]), s[|s| - 1])
  }

  /** The four bytes CRC_cal stores, low byte first. */
  function Bytes(v: bv32): seq<bv8> { [Narrow(v), Narrow(Down(v)), Narrow(Down(Down(v))), Narrow(Down(Down(Down(v))))] }

  function Not(x: bv32): bv32 { !x }

  function Crc(s: seq<bv8>): seq<bv8> { Bytes(Not(State(START, s))) }

  // ---- the reference: one bit at a time ----------------------------------------------------------

  function Bit(b: bool): bv32 { if b then 1 else 0 }

  function BitStep(c: bv32, bit: bool): bv32 { Shift(Xor(c, Bit(bit))) }

  function BitState(c: bv32, bits: seq<bool>): bv32 {
    if bits == [] then c else BitStep(BitState(c, bits[..|bits| - 1]), bits[|bits| - 1])
  }

  /** The bits of a byte in transmission order, least significant first. */
  function BitsOf(b: bv8): seq<bool> { FourBits(Wide(b)) + FourBits(Half4(Wide(b))) }

  function FourBits(w: bv32): seq<bool> { [Odd(w), Odd(Half(w)), Odd(Half(Half(w))), Odd(Half(Half(Half(w))))] }

  function Half4(w: bv32): bv32 { Half(Half(Half(Half(w)))) }

  function AllBits(s: seq<bv8>): seq<bool> { if s == [] then [] else AllBits(s[..|s| - 1]) + BitsOf(s[|s| - 1]) }

  // ---- the algebra of the word operations --------------------------------------------------------

  lemma XorHalf(x: bv32, y: bv32)
    ensures Half(Xor(x, y)) == Xor(Half(x), Half(y))
    ensures Odd(Xor(x, y)) <==> Odd(x) != Odd(y)
  {
  }

  lemma XorGroup(x: bv32, y: bv32, z: bv32)
    ensures Xor(Xor(x, z), y) == Xor(Xor(x, y), z)
    ensures Xor(x, Xor(y, z)) == Xor(Xor(x, y), z)
    ensures Xor(Xor(x, z), Xor(y, z)) == Xor(x, y)
  {
  }

  lemma XorSwap(x: bv32, y: bv32)
    ensures Xor(x, y) == Xor(y, x)
  {
  }

  lemma XorCancel(x: bv32, y: bv32)
    ensures Xor(x, Xor(x, y)) == y
  {
  }

  lemma XorZero(x: bv32)
    ensures Xor(x, 0) == x && Xor(x, Not(x)) == START
  {
  }

  lemma SplitByte(x: bv32)
    ensures x == Xor(Low(x), High(x)) && Down(High(x)) == Down(x)
  {
  }

  lemma DownIgnoresByte(c: bv32, b: bv8)
    ensures Down(Xor(c, Wide(b))) == Down(c)
  {
  }

  lemma NarrowWide(v: bv32)
    ensures Wide(Narrow(v)) == Low(v)
  {
  }

  lemma FourDowns(v: bv32)
    ensures Down(Down(Down(Down(v)))) == 0
  {
  }

  predicate NibbleClear(y: bv32) { y & 0xF == 0 }

  lemma FourClearBits(y: bv32)
    requires NibbleClear(y)
    ensures !Odd(y) && !Odd(Half(y)) && !Odd(Half(Half(y))) && !Odd(Half(Half(Half(y))))
  {
    assert y & 1 != 1 && (y >> 1) & 1 != 1 && ((y >> 1) >> 1) & 1 != 1 && (((y >> 1) >> 1) >> 1) & 1 != 1;
  }

  lemma ClearByte(x: bv32)
    ensures NibbleClear(High(x)) && NibbleClear(Half4(High(x))) && Half4(Half4(High(x))) == Down(x)
  {
    RawByte(x);
    RawFour(x & 0xFFFF_FF00);
    RawFour((x & 0xFFFF_FF00) >> 4);
  }

  lemma RawFour(y: bv32)
    ensures (((y >> 1) >> 1) >> 1) >> 1 == y >> 4
  {
  }

  lemma RawByte(x: bv32)
    ensures (x & 0xFFFF_FF00) & 0xF == 0 && ((x & 0xFFFF_FF00) >> 4) & 0xF == 0
    ensures ((x & 0xFFFF_FF00) >> 4) >> 4 == x >> 8
  {
  }

  lemma EightHalves(b: bv8)
    ensures Half4(Half4(Wide(b))) == 0
  {
    var w := b as bv32;
    assert w >> 8 == 0;
    assert Half4(w) == w >> 4 && Half4(w >> 4) == w >> 8;
  }

  /** A word is its lowest bit and an even rest. */
  lemma PeelBit(s: bv32, w: bv32)
    ensures Xor(s, w) == Xor(Xor(s, Bit(Odd(w))), Even(w)) && !Odd(Even(w)) && Half(Even(w)) == Half(w)
  {
    LowestBit(w);
    PeelRaw(s, w);
    EvenRaw(w);
    hide Bit;
  }

  function Even(w: bv32): bv32 { w & 0xFFFF_FFFE }

  lemma LowestBit(w: bv32)
    ensures Bit(Odd(w)) == w & 1
  {
    OneBit(w);
  }

  lemma OneBit(w: bv32)
    ensures w & 1 == 0 || w & 1 == 1
  {
  }

  lemma PeelRaw(s: bv32, w: bv32)
    ensures s ^ w == (s ^ (w & 1)) ^ (w & 0xFFFF_FFFE)
  {
  }

  lemma EvenRaw(w: bv32)
    ensures (w & 0xFFFF_FFFE) & 1 != 1 && (w & 0xFFFF_FFFE) >> 1 == w >> 1
  {
  }

  // ---- the table update --------------------------------------------------------------------------

  lemma ShiftLinear(x: bv32, y: bv32)
    ensures Shift(Xor(x, y)) == Xor(Shift(x), Shift(y))
  {
    hide Xor, Half, Odd;
    XorHalf(x, y);
    XorGroup(Half(x), Half(y), POLY);
  }

  lemma Shift8Linear(x: bv32, y: bv32)
    ensures Shift8(Xor(x, y)) == Xor(Shift8(x), Shift8(y))
  {
    hide Xor, Shift;
    var x1, y1 := Shift(x), Shift(y);
    var x2, y2 := Shift(x1), Shift(y1);
    var x3, y3 := Shift(x2), Shift(y2);
    var x4, y4 := Shift(x3), Shift(y3);
    var x5, y5 := Shift(x4), Shift(y4);
    var x6, y6 := Shift(x5), Shift(y5);
    var x7, y7 := Shift(x6), Shift(y6);
    ShiftLinear(x, y);
    ShiftLinear(x1, y1);
    ShiftLinear(x2, y2);
    ShiftLinear(x3, y3);
    ShiftLinear(x4, y4);
    ShiftLinear(x5, y5);
    ShiftLinear(x6, y6);
    ShiftLinear(x7, y7);
  }

  /** Eight shifts of a word without its low byte just move it down. */
  lemma Shift8High(x: bv32)
    ensures Shift8(High(x)) == Down(x)
  {
    hide Xor, Half, Odd, High, Down, NibbleClear;
    ClearByte(x);
    FourClearBits(High(x));
    FourClearBits(Half4(High(x)));
  }

  /** The table update is eight shifts of the state with the byte added in. */
  lemma UpdateIsShifts(c: bv32, b: bv8)
    ensures Update(c, b) == Shift8(Xor(c, Wide(b)))
  {
    hide Xor, Low, High, Down, Wide, Shift8;
    var x := Xor(c, Wide(b));
    SplitByte(x);
    DownIgnoresByte(c, b);
    Shift8Linear(Low(x), High(x));
    Shift8High(x);
    XorSwap(Shift8(Low(x)), Down(x));
  }

  // ---- bit by bit --------------------------------------------------------------------------------

  /** One bit of the reference, while the bits `w` still to come are added to the state. */
  lemma BitPeeled(s: bv32, w: bv32)
    ensures Shift(Xor(s, w)) == Xor(BitStep(s, Odd(w)), Half(w))
  {
    PeelBit(s, w);
    hide Xor, Half, Odd, Bit, Even;
    ShiftLinear(Xor(s, Bit(Odd(w))), Even(w));
  }

  lemma FourByBits(c: bv32, w: bv32)
    ensures Shift(Shift(Shift(Shift(Xor(c, w))))) == Xor(BitState(c, FourBits(w)), Half4(w))
  {
    hide Xor, Half, Odd, Shift, BitStep, BitState;
    var w1 := Half(w); var w2 := Half(w1); var w3 := Half(w2);
    var s1 := BitStep(c, Odd(w)); var s2 := BitStep(s1, Odd(w1)); var s3 := BitStep(s2, Odd(w2));
    BitPeeled(c, w);
    BitPeeled(s1, w1);
    BitPeeled(s2, w2);
    BitPeeled(s3, w3);
    BitStateOf4(c, Odd(w), Odd(w1), Odd(w2), Odd(w3));
  }

  lemma ByteByBits(c: bv32, b: bv8)
    ensures Update(c, b) == BitState(c, BitsOf(b))
  {
    hide Xor, Half4, Wide, Update, Shift, FourBits, BitState;
    var w := Wide(b);
    UpdateIsShifts(c, b);
    FourByBits(c, w);
    FourByBits(BitState(c, FourBits(w)), Half4(w));
    BitStateAppend(c, FourBits(w), FourBits(Half4(w)));
    EightHalves(b);
    XorZero(BitState(BitState(c, FourBits(w)), FourBits(Half4(w))));
  }

  lemma BitStateOf4(c: bv32, b0: bool, b1: bool, b2: bool, b3: bool)
    ensures BitState(c, [b0, b1, b2, b3]) == BitStep(BitStep(BitStep(BitStep(c, b0), b1), b2), b3)
  {
    hide BitStep;
    BitStateSnoc(c, [b0, b1, b2], b3);
    BitStateSnoc(c, [b0, b1], b2);
    BitStateSnoc(c, [b0], b1);
    BitStateSnoc(c, [], b0);
    assert [b0, b1, b2, b3] == [b0, b1, b2] + [b3] && [b0, b1, b2] == [b0, b1] + [b2];
    assert [b0, b1] == [b0] + [b1] && [b0] == [] + [b0];
  }

  lemma BitStateSnoc(c: bv32, t: seq<bool>, b: bool)
    ensures BitState(c, t + [b]) == BitStep(BitState(c, t), b)
  {
    hide BitStep;
    assert (t + [b])[..|t|] == t;
  }

  lemma {:induction false} BitStateAppend(c: bv32, t: seq<bool>, u: seq<bool>)
    ensures BitState(c, t + u) == BitState(BitState(c, t), u)
    decreases |u|
  {
    hide BitStep;
    if u == [] {
      assert t + u == t;
    } else {
      var v := u[..|u| - 1];
      assert t + u == (t + v) + [u[|u| - 1]];
      BitStateSnoc(c, t + v, u[|u| - 1]);
      BitStateAppend(c, t, v);
    }
  }

  /** The table-driven CRC of every buffer is the bit-by-bit one. */
  lemma {:induction false} TableIsBitwise(c: bv32, s: seq<bv8>)
    ensures State(c, s) == BitState(c, AllBits(s))
    decreases |s|
  {
    hide Update, BitStep, BitsOf;
    if s != [] {
      var t, b := s[..|s| - 1], s[|s| - 1];
      TableIsBitwise(c, t);
      ByteByBits(State(c, t), b);
      BitStateAppend(c, AllBits(t), BitsOf(b));
    }
  }
}
