/** What the CRC of a stored record notices: any change inside four consecutive bytes of the record, the
    check bytes included. */
module CrcDetection {
  import opened Crc32

  // ---- four bytes reach every state once ---------------------------------------------------------

  /** The way back from `Shift`: the polynomial's top bit tells which branch was taken. */
  function Unshift(y: bv32): bv32 { if y & 0x8000_0000 != 0 then ((y ^ POLY) << 1) | 1 else y << 1 }

  lemma UnshiftOdd(x: bv32)
    requires x & 1 == 1
    ensures ((x >> 1) ^ POLY) & 0x8000_0000 != 0 && ((((x >> 1) ^ POLY) ^ POLY) << 1) | 1 == x
  {
  }

  lemma UnshiftEven(x: bv32)
    requires x & 1 != 1
    ensures (x >> 1) & 0x8000_0000 == 0 && (x >> 1) << 1 == x
  {
  }

  lemma UnshiftShift(x: bv32)
    ensures Unshift(Shift(x)) == x
  {
    if x & 1 == 1 { UnshiftOdd(x); } else { UnshiftEven(x); }
  }

  lemma ShiftInjective(x: bv32, y: bv32)
    requires Shift(x) == Shift(y)
    ensures x == y
  {
    hide *;
    UnshiftShift(x);
    UnshiftShift(y);
  }

  lemma Shift8Injective(x: bv32, y: bv32)
    requires Shift8(x) == Shift8(y)
    ensures x == y
  {
    hide Shift;
    var x1, y1 := Shift(x), Shift(y);
    var x2, y2 := Shift(x1), Shift(y1);
    var x3, y3 := Shift(x2), Shift(y2);
    var x4, y4 := Shift(x3), Shift(y3);
    var x5, y5 := Shift(x4), Shift(y4);
    var x6, y6 := Shift(x5), Shift(y5);
    var x7, y7 := Shift(x6), Shift(y6);
    ShiftInjective(x7, y7);
    ShiftInjective(x6, y6);
    ShiftInjective(x5, y5);
    ShiftInjective(x4, y4);
    ShiftInjective(x3, y3);
    ShiftInjective(x2, y2);
    ShiftInjective(x1, y1);
    ShiftInjective(x, y);
  }

  /** For every byte the update is a bijection on states (injective suffices, they are finite). */
  lemma UpdateInjective(c: bv32, d: bv32, b: bv8)
    requires Update(c, b) == Update(d, b)
    ensures c == d
  {
    hide Update, Shift8, Xor, Wide;
    UpdateIsShifts(c, b);
    UpdateIsShifts(d, b);
    Shift8Injective(Xor(c, Wide(b)), Xor(d, Wide(b)));
    XorSwap(c, Wide(b));
    XorSwap(d, Wide(b));
    XorCancel(Wide(b), c);
    XorCancel(Wide(b), d);
  }

  lemma {:induction false} StateInjective(c: bv32, d: bv32, s: seq<bv8>)
    requires State(c, s) == State(d, s)
    ensures c == d
    decreases |s|
  {
    hide Update;
    if s != [] {
      var t := s[..|s| - 1];
      UpdateInjective(State(c, t), State(d, t), s[|s| - 1]);
      StateInjective(c, d, t);
    }
  }

  lemma StateSnoc(c: bv32, t: seq<bv8>, b: bv8)
    ensures State(c, t + [b]) == Update(State(c, t), b)
  {
    hide Update;
    assert (t + [b])[..|t|] == t;
  }

  lemma {:induction false} StateAppend(c: bv32, t: seq<bv8>, u: seq<bv8>)
    ensures State(c, t + u) == State(State(c, t), u)
    decreases |u|
  {
    hide Update;
    if u == [] {
      assert t + u == t;
    } else {
      var v := u[..|u| - 1];
      assert t + u == (t + v) + [u[|u| - 1]];
      StateSnoc(c, t + v, u[|u| - 1]);
      StateAppend(c, t, v);
    }
  }

  /** One byte of a word that is processed whole: the rest of the word stays added to the state. */
  lemma BytePeeled(s: bv32, v: bv32)
    ensures Shift8(Xor(s, v)) == Xor(Update(s, Narrow(v)), Down(v))
  {
    hide Xor, Update, Shift8, Wide, Narrow, Low, High, Down;
    UpdateIsShifts(s, Narrow(v));
    NarrowWide(v);
    SplitByte(v);
    XorGroup(s, Low(v), High(v));
    Shift8Linear(Xor(s, Low(v)), High(v));
    Shift8High(v);
  }

  function Shift32(x: bv32): bv32 { Shift8(Shift8(Shift8(Shift8(x)))) }

  lemma StateOf4(c: bv32, b0: bv8, b1: bv8, b2: bv8, b3: bv8)
    ensures State(c, [b0, b1, b2, b3]) == Update(Update(Update(Update(c, b0), b1), b2), b3)
  {
    hide Update;
    StateSnoc(c, [b0, b1, b2], b3);
    StateSnoc(c, [b0, b1], b2);
    StateSnoc(c, [b0], b1);
    StateSnoc(c, [], b0);
    assert [b0, b1, b2, b3] == [b0, b1, b2] + [b3] && [b0, b1, b2] == [b0, b1] + [b2];
    assert [b0, b1] == [b0] + [b1] && [b0] == [] + [b0];
  }

  /** Processing the four bytes of a word is 32 shifts of the state with the word added in. */
  lemma FourBytes(s: bv32, v: bv32)
    ensures State(s, Bytes(v)) == Shift32(Xor(s, v))
  {
    hide Xor, Update, Shift8, Narrow, Down, State;
    var v1 := Down(v); var v2 := Down(v1); var v3 := Down(v2);
    var s1 := Update(s, Narrow(v)); var s2 := Update(s1, Narrow(v1));
    var s3 := Update(s2, Narrow(v2)); var s4 := Update(s3, Narrow(v3));
    BytePeeled(s, v);
    BytePeeled(s1, v1);
    BytePeeled(s2, v2);
    BytePeeled(s3, v3);
    FourDowns(v);
    XorZero(s4);
    StateOf4(s, Narrow(v), Narrow(v1), Narrow(v2), Narrow(v3));
  }

  function Word4(a: bv8, b: bv8, c: bv8, d: bv8): bv32 {
    (a as bv32) | ((b as bv32) << 8) | ((c as bv32) << 16) | ((d as bv32) << 24)
  }

  function Word(t: seq<bv8>): bv32
    requires |t| == 4
  {
    Word4(t[0], t[1], t[2], t[3])
  }

  lemma RawBytes(a: bv8, b: bv8, c: bv8, d: bv8)
    ensures var v := (a as bv32) | ((b as bv32) << 8) | ((c as bv32) << 16) | ((d as bv32) << 24);
      && (v & 0xFF) as bv8 == a && ((v >> 8) & 0xFF) as bv8 == b
      && (((v >> 8) >> 8) & 0xFF) as bv8 == c && ((((v >> 8) >> 8) >> 8) & 0xFF) as bv8 == d
  {
  }

  lemma NarrowWord(a: bv8, b: bv8, c: bv8, d: bv8)
    ensures var v := Word4(a, b, c, d);
      && Narrow(v) == a && Narrow(Down(v)) == b && Narrow(Down(Down(v))) == c && Narrow(Down(Down(Down(v)))) == d
  {
    RawBytes(a, b, c, d);
  }

  lemma BytesOfWord(t: seq<bv8>)
    requires |t| == 4
    ensures Bytes(Word(t)) == t
  {
    hide Narrow, Down, Word4;
    NarrowWord(t[0], t[1], t[2], t[3]);
  }

  lemma Shift32Injective(x: bv32, y: bv32)
    requires Shift32(x) == Shift32(y)
    ensures x == y
  {
    hide Shift8;
    Shift8Injective(Shift8(Shift8(Shift8(x))), Shift8(Shift8(Shift8(y))));
    Shift8Injective(Shift8(Shift8(x)), Shift8(Shift8(y)));
    Shift8Injective(Shift8(x), Shift8(y));
    Shift8Injective(x, y);
  }

  /** From one state, different four-byte strings lead to different states. */
  lemma FourBytesDistinct(c: bv32, t: seq<bv8>, u: seq<bv8>)
    requires |t| == |u| == 4 && State(c, t) == State(c, u)
    ensures t == u
  {
    hide State, Bytes, Shift32, Xor, Word;
    BytesOfWord(t);
    BytesOfWord(u);
    FourBytes(c, Word(t));
    FourBytes(c, Word(u));
    Shift32Injective(Xor(c, Word(t)), Xor(c, Word(u)));
    XorCancel(c, Word(t));
    XorCancel(c, Word(u));
  }

  /** And so do different strings of up to four bytes. */
  lemma ShortDistinct(c: bv32, t: seq<bv8>, u: seq<bv8>)
    requires |t| == |u| <= 4 && State(c, t) == State(c, u)
    ensures t == u
  {
    hide State;
    var pad: seq<bv8> := seq(4 - |t|, _ => 0);
    StateAppend(c, t, pad);
    StateAppend(c, u, pad);
    FourBytesDistinct(c, t + pad, u + pad);
    assert t == (t + pad)[..|t|] && u == (u + pad)[..|t|];
  }

  // ---- records -----------------------------------------------------------------------------------

  /** `s` and `t` differ only inside the four bytes from `i` on. */
  ghost predicate DifferWithin(s: seq<bv8>, t: seq<bv8>, i: nat) {
    |s| == |t| && forall k :: 0 <= k < |s| && !(i <= k < i + 4) ==> s[k] == t[k]
  }

  /** A window of at most four bytes is determined by the states before and after. */
  lemma SameStateSameWindow(s: seq<bv8>, t: seq<bv8>, i: nat)
    requires DifferWithin(s, t, i) && State(START, s) == State(START, t)
    ensures s == t
  {
    hide State;
    var n := |s|;
    var a := if i < n then i else n;
    var b := if i + 4 < n then i + 4 else n;
    assert s[..a] == t[..a] && s[b..] == t[b..];
    assert s == s[..a] + (s[a..b] + s[b..]) && t == t[..a] + (t[a..b] + t[b..]);
    var c := State(START, s[..a]);
    StateAppend(START, s[..a], s[a..b] + s[b..]);
    StateAppend(START, t[..a], t[a..b] + t[b..]);
    StateAppend(c, s[a..b], s[b..]);
    StateAppend(c, t[a..b], t[b..]);
    StateInjective(State(c, s[a..b]), State(c, t[a..b]), s[b..]);
    ShortDistinct(c, s[a..b], t[a..b]);
  }

  /** The state every buffer followed by its own check bytes ends in. */
  ghost function Residue(): bv32 { Shift32(START) }

  /** A record matches its check bytes exactly when the CRC of the whole ends in the residue. */
  lemma MatchIsResidue(item: seq<bv8>, crc: seq<bv8>)
    requires |crc| == 4
    ensures crc == Crc(item) <==> State(START, item + crc) == Residue()
  {
    hide State, Narrow, Shift32;
    var s := State(START, item);
    StateAppend(START, item, crc);
    FourBytes(s, Not(s));
    XorZero(s);
    if State(s, crc) == Residue() { FourBytesDistinct(s, crc, Bytes(Not(s))); }
  }

  /** A record that matches its check bytes no longer does after any change confined to four consecutive
      bytes of item followed by check bytes, also one across the boundary between the two. */
  lemma ChangeIsDetected(item: seq<bv8>, crc: seq<bv8>, item': seq<bv8>, crc': seq<bv8>, i: nat)
    requires |item| == |item'| && |crc| == |crc'| == 4 && crc == Crc(item)
    requires DifferWithin(item + crc, item' + crc', i) && (item != item' || crc != crc')
    ensures crc' != Crc(item')
  {
    hide Crc, State, Residue;
    var r, r' := item + crc, item' + crc';
    MatchIsResidue(item, crc);
    MatchIsResidue(item', crc');
    assert r != r' by {
      assert item == r[..|item|] && item' == r'[..|item|] && crc == r[|item|..] && crc' == r'[|item|..];
    }
    if State(START, r) == State(START, r') { SameStateSameWindow(r, r', i); }
  }
}
