/** The cache controller as its registers show it to the driver: four banks of 256 sixteen-byte lines in
    front of the 1 GB cacheable area, a write buffer between the cache and memory, and the effect of each
    command register. What one register write does is an assumption about the hardware; everything the
    driver makes of it is proved. */
module CacheHardware {
  import opened Bytes

  const AREA := 0x4000_0000            // first byte behind the cacheable area
  const WORD := 0x1_0000_0000          // 2^32, where an INT32U wraps

  type LineData = s: seq<Byte> | |s| == 16 witness [0, 0, 0, 0, 0, 0, 0, 0, 0, 0, 0, 0, 0, 0, 0, 0]

  datatype Line = Line(valid: bool, locked: bool, dirty: bool, tag: int, data: LineData)

  /** `pending` is the write buffer: bytes on their way to memory, by address. */
  datatype Hw = Hw(
    enabled: bool, buffered: bool, writeBack: bool, burst: bool,
    lines: (int, int) -> Line,          // bank, set
    pending: map<int, Byte>,
    mem: int -> Byte)

  function SetOf(a: int): int { a / 16 % 256 }

  function TagOf(a: int): int { a / 4096 }

  function LineBase(tag: int, i: int): int { tag * 4096 + i * 16 }

  lemma AddressParts(a: int)
    requires 0 <= a
    ensures 0 <= SetOf(a) < 256 && 0 <= TagOf(a)
    ensures LineBase(TagOf(a), SetOf(a)) == a - a % 16
  {
    assert a / 4096 == a / 16 / 256;
  }

  predicate Holds(l: Line, a: int) { l.valid && l.tag == TagOf(a) }

  /** The first bank from `b` on that holds the line of `a`; 4 when none does. */
  function HolderFrom(hw: Hw, a: int, b: int): (r: int)
    requires 0 <= b <= 4
    ensures b <= r <= 4
    ensures r < 4 ==> Holds(hw.lines(r, SetOf(a)), a)
    ensures forall k :: b <= k < r ==> !Holds(hw.lines(k, SetOf(a)), a)
    decreases 4 - b
  {
    if b == 4 || Holds(hw.lines(b, SetOf(a)), a) then b else HolderFrom(hw, a, b + 1)
  }

  function Holder(hw: Hw, a: int): int { HolderFrom(hw, a, 0) }

  predicate Cached(hw: Hw, a: int) { Holder(hw, a) < 4 }

  /** Memory as it will be once the write buffer has emptied. */
  function BufView(hw: Hw, a: int): Byte { if a in hw.pending then hw.pending[a] else hw.mem(a) }

  /** What the CPU reads. */
  function CpuView(hw: Hw, a: int): Byte {
    var b := Holder(hw, a);
    if hw.enabled && b < 4 then hw.lines(b, SetOf(a)).data[a % 16] else BufView(hw, a)
  }

  predicate DirtyAt(hw: Hw, a: int) {
    var b := Holder(hw, a);
    b < 4 && hw.lines(b, SetOf(a)).dirty
  }

  /** What holds at every moment, also in the middle of a driver call. */
  ghost predicate Sound(hw: Hw) {
    && Tidy(hw)
    && (!hw.buffered ==> hw.pending == map[])
    && (!hw.enabled ==> NoDirty(hw))
  }

  /** The invariant of every state between two driver calls. */
  ghost predicate Legal(hw: Hw) {
    && Sound(hw)
    && (hw.enabled <==> hw.buffered)
    && (hw.writeBack ==> hw.enabled && !hw.burst)
    && (!hw.writeBack ==> NoDirty(hw))
  }

  /** No tag twice in one set, and only valid lines are dirty. */
  ghost predicate Tidy(hw: Hw) {
    && (forall b, c, i :: 0 <= b < c < 4 && 0 <= i < 256 && hw.lines(b, i).valid && hw.lines(c, i).valid
         ==> hw.lines(b, i).tag != hw.lines(c, i).tag)
    && (forall b, i :: 0 <= b < 4 && 0 <= i < 256 && hw.lines(b, i).dirty ==> hw.lines(b, i).valid)
  }

  ghost predicate NoDirty(hw: Hw) {
    forall b, i :: 0 <= b < 4 && 0 <= i < 256 ==> !hw.lines(b, i).dirty
  }

  /** No stale copy of `a`: what the cache holds of it is either newer than memory or equal to it. */
  predicate Fresh(hw: Hw, a: int) { DirtyAt(hw, a) || CpuView(hw, a) == BufView(hw, a) }

  ghost predicate AllFresh(hw: Hw) { forall a :: 0 <= a < AREA ==> Fresh(hw, a) }

  // ---- command registers -------------------------------------------------------------------------

  /** What the invalid-line, invalid-bank and invalid-range registers pick out. */
  datatype Pick = OneLine(bank: int, index: int) | WholeBank(bank: int) | LineRange(start: int, size: int)

  predicate Picks(p: Pick, b: int, i: int, tag: int) {
    match p
    case OneLine(bank, index) => b == bank && i == index
    case WholeBank(bank) => b == bank
    case LineRange(start, size) => start <= LineBase(tag, i) < start + size
  }

  predicate PickedAt(p: Pick, b: int, a: int) { Picks(p, b, SetOf(a), TagOf(a)) }

  /** The bytes that draining `p` writes back. */
  function WriteBacks(hw: Hw, p: Pick): map<int, Byte> {
    map a | 0 <= a < AREA && DirtyAt(hw, a) && PickedAt(p, Holder(hw, a), a)
      :: hw.lines(Holder(hw, a), SetOf(a)).data[a % 16]
  }

  /** Put bytes on their way to memory: through the write buffer when it is on. */
  function Post(hw: Hw, w: map<int, Byte>): Hw {
    if hw.buffered then hw.(pending := hw.pending + w)
    else var m := hw.mem; hw.(mem := a => if a in w then w[a] else m(a))
  }

  /** A drain command: dirty picked lines are written back and stay in the cache, clean. */
  function Drain(hw: Hw, p: Pick): Hw {
    var was := hw.lines;
    Post(hw, WriteBacks(hw, p)).(lines := (b, i) =>
      if Picks(p, b, i, was(b, i).tag) then was(b, i).(dirty := false) else was(b, i))
  }

  /** An invalidate command: picked lines leave the cache; nothing is written back. */
  function Invalidate(hw: Hw, p: Pick): Hw {
    var was := hw.lines;
    hw.(lines := (b, i) =>
      if Picks(p, b, i, was(b, i).tag) then was(b, i).(valid := false, locked := false, dirty := false)
      else was(b, i))
  }

  /** The write buffer's drain register. */
  function EmptyBuffer(hw: Hw): Hw {
    var m, w := hw.mem, hw.pending;
    hw.(pending := map[], mem := a => if a in w then w[a] else m(a))
  }

  function Fetch(hw: Hw, base: int): (d: LineData)
    ensures forall k :: 0 <= k < 16 ==> d[k] == BufView(hw, base + k)
  {
    var d := seq<Byte>(16, (k: int) => BufView(hw, base + k)); assert |d| == 16; d
  }

  /** The lockdown register: the line of `a` is read into `bank` and locked there. */
  function LockIn(hw: Hw, bank: int, a: int): Hw {
    var was := hw.lines;
    var line := Line(true, true, false, TagOf(a), Fetch(hw, a - a % 16));
    hw.(lines := (b, i) => if b == bank && i == SetOf(a) then line else was(b, i))
  }

  // ---- what the commands do to the views ---------------------------------------------------------

  lemma HolderIs(hw: Hw, a: int, b: int)
    requires Tidy(hw) && 0 <= a && 0 <= b < 4 && Holds(hw.lines(b, SetOf(a)), a)
    ensures Holder(hw, a) == b
  {
    AddressParts(a);
  }

  lemma SameHolder(h1: Hw, h2: Hw, a: int)
    requires forall b :: 0 <= b < 4 ==> Holds(h1.lines(b, SetOf(a)), a) == Holds(h2.lines(b, SetOf(a)), a)
    ensures Holder(h1, a) == Holder(h2, a)
  {
  }

  /** Draining never changes what the CPU reads; drained bytes reach the way to memory. */
  lemma DrainViews(hw: Hw, p: Pick, a: int)
    requires Sound(hw) && 0 <= a < AREA
    ensures var h := Drain(hw, p);
      && Holder(h, a) == Holder(hw, a)
      && CpuView(h, a) == CpuView(hw, a)
      && DirtyAt(h, a) == (DirtyAt(hw, a) && !PickedAt(p, Holder(hw, a), a))
      && BufView(h, a) == (if DirtyAt(hw, a) && PickedAt(p, Holder(hw, a), a) then CpuView(hw, a) else BufView(hw, a))
  {
    hide HolderFrom;
    AddressParts(a);
    SameHolder(hw, Drain(hw, p), a);
  }

  /** Invalidating a picked line uncovers memory; every other byte is untouched. */
  lemma InvalidateViews(hw: Hw, p: Pick, a: int)
    requires Tidy(hw) && 0 <= a < AREA
    ensures var h := Invalidate(hw, p);
      var gone := Cached(hw, a) && PickedAt(p, Holder(hw, a), a);
      && Holder(h, a) == (if gone then 4 else Holder(hw, a))
      && BufView(h, a) == BufView(hw, a)
      && CpuView(h, a) == (if gone then BufView(hw, a) else CpuView(hw, a))
      && DirtyAt(h, a) == (DirtyAt(hw, a) && !gone)
  {
    AddressParts(a);
    var h := Invalidate(hw, p);
    var i := SetOf(a);
    var g := Holder(hw, a);
    forall k | 0 <= k < 4 && Holds(h.lines(k, i), a) ensures k == g {
      HolderIs(hw, a, k);
    }
    if g < 4 && !PickedAt(p, g, a) {
      assert Holds(h.lines(g, i), a);
    }
  }

  lemma EmptyBufferViews(hw: Hw, a: int)
    ensures var h := EmptyBuffer(hw);
      && Holder(h, a) == Holder(hw, a) && DirtyAt(h, a) == DirtyAt(hw, a)
      && CpuView(h, a) == CpuView(hw, a) && BufView(h, a) == BufView(hw, a) == h.mem(a)
  {
    SameHolder(hw, EmptyBuffer(hw), a);
  }
}
