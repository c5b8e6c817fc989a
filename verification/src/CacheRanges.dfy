/** Range invalidation and draining: exactly which bytes are kept, uncovered and written back. */
module CacheRanges {
  import opened Bytes
  import opened CacheHardware
  import opened CacheCalls

  // ---- invalidating a range ----------------------------------------------------------------------

  /** `a` is inside the range once it is widened to whole lines. */
  predicate InLines(addr: int, size: int, a: int) {
    addr - addr % 16 <= a < RoundUp(addr + size)
  }

  predicate InRange(addr: int, size: int, a: int) { addr <= a < addr + size }

  /** The indexes drained because the range covers a line only in part. */
  predicate AtEdgeIndex(addr: int, size: int, a: int) {
    || (addr % 16 != 0 && SetOf(a) == SetOf(addr))
    || ((addr + size) % 16 != 0 && addr + size < AREA && SetOf(a) == SetOf(addr + size))
  }

  /** The caller's side of the contract: the rounded end of the range fits a 32-bit word. */
  predicate Fits(addr: int, size: int) { addr + size <= WORD - 16 }

  lemma DrainEdgeEffect(hw: Hw, partial: bool, addr: int, a: int)
    requires Sound(hw) && 0 <= a < AREA && 0 <= addr
    ensures var h := DrainEdge(hw, partial, addr);
      && Sound(h) && SameModes(hw, h) && WrittenBack(hw, h, a)
      && (DirtyAt(h, a) <==> DirtyAt(hw, a) && !(partial && hw.writeBack && addr < AREA && SetOf(a) == SetOf(addr)))
  {
    DrainLinesEffect(hw, addr, 4, a);
  }

  /** The indexes the call drains, whatever its sums wrap to. */
  predicate DrainsIndex(addr: int, size: int, i: int) {
    || (addr % 16 != 0 && i == SetOf(addr))
    || (Reach(addr, size) % 16 != 0 && EdgeEnd(addr, size) < AREA && i == SetOf(EdgeEnd(addr, size)))
  }

  lemma EdgedEffect(hw: Hw, addr: int, size: int, a: int)
    requires Sound(hw) && 0 <= a < AREA && 0 <= addr < AREA && 0 < size < WORD
    ensures var h := Edged(hw, addr, size);
      && Sound(h) && SameModes(hw, h) && WrittenBack(hw, h, a)
      && (DirtyAt(h, a) <==> DirtyAt(hw, a) && !(hw.writeBack && DrainsIndex(addr, size, SetOf(a))))
  {
    var h1 := DrainEdge(hw, addr % 16 != 0, addr);
    DrainEdgeEffect(hw, addr % 16 != 0, addr, a);
    DrainEdgeEffect(h1, Reach(addr, size) % 16 != 0, EdgeEnd(addr, size), a);
  }

  /** The invalidate command itself, by range or over all banks. */
  lemma InvalidSpanEffect(g: Hw, start: int, span: int, a: int)
    requires Sound(g) && 0 <= a < AREA
    ensures var h := InvalidSpan(g, start, span);
      var gone := span > RANGE_MAX || start <= a - a % 16 < start + span;
      && Sound(h) && SameModes(g, h) && BufView(h, a) == BufView(g, a)
      && (gone ==> !Cached(h, a) && CpuView(h, a) == BufView(g, a))
      && (!gone ==> Holder(h, a) == Holder(g, a) && CpuView(h, a) == CpuView(g, a) && DirtyAt(h, a) == DirtyAt(g, a))
      && (g.enabled && g.buffered ==> h.pending == map[])
  {
    AddressParts(a);
    if span > RANGE_MAX {
      InvalidBanksEffect(g, 4, a);
    } else {
      InvalidateViews(g, LineRange(start, span), a);
      EmptyBufferViews(Invalidate(g, LineRange(start, span)), a);
    }
  }

  /** Length of the widened range inside the area. */
  function Span(addr: int, size: int): int {
    (if RoundUp(addr + size) > AREA then AREA else RoundUp(addr + size)) - Start(addr)
  }

  lemma RangeArithmetic(addr: int, size: int)
    requires 0 <= addr < AREA && 0 < size < WORD && Fits(addr, size)
    ensures Reach(addr, size) == size + addr % 16
    ensures (Start(addr) + Reach(addr, size)) % WORD == addr + size
    ensures Reach(addr, size) % 16 == (addr + size) % 16
    ensures CallSpan(addr, size) == Span(addr, size)
  {
    var reach := size + addr % 16;
    assert addr + size == Start(addr) + reach;
    assert Start(addr) % 16 == 0;
    assert (Start(addr) + reach) % 16 == reach % 16;
    assert RoundUp(reach) + Start(addr) == RoundUp(addr + size);
    assert RoundUp(addr + size) < WORD;
  }

  lemma RoundUpLines(x: int)
    requires 0 <= x
    ensures RoundUp(x) == 16 * ((x + 15) / 16)
  {
  }

  lemma EdgeIndexes(addr: int, size: int, a: int)
    requires 0 <= addr < AREA && 0 < size < WORD && Fits(addr, size)
    ensures DrainsIndex(addr, size, SetOf(a)) == AtEdgeIndex(addr, size, a)
  {
    RangeArithmetic(addr, size);
  }

  lemma SpanCovers(addr: int, size: int, a: int)
    requires 0 <= addr < AREA && 0 < size < WORD && 0 <= a < AREA
    ensures Start(addr) <= a - a % 16 < Start(addr) + Span(addr, size) <==> InLines(addr, size, a)
    ensures Span(addr, size) > RANGE_MAX ==> InLines(addr, size, a)
  {
    var m := (addr + size + 15) / 16;
    var e := if 16 * m > AREA then AREA / 16 else m;
    RoundUpLines(addr + size);
    assert Start(addr) == 16 * (addr / 16) && a - a % 16 == 16 * (a / 16);
    assert Start(addr) + Span(addr, size) == 16 * e;
    LineBounds(a, a / 16, addr / 16, e);
    LineBounds(a, a / 16, addr / 16, m);
  }

  lemma LineBounds(a: int, q: int, k: int, m: int)
    requires 16 * q <= a < 16 * q + 16
    ensures 16 * k <= 16 * q < 16 * m <==> 16 * k <= a < 16 * m
  {
  }

  /** Everything one call of cache_invalid_range does to one byte of the area. Bytes of lines outside the
      widened range keep their copy; lines inside it leave the cache, and what memory then holds of them is
      the cached byte only where a partial edge shares the line's index. */
  lemma InvalidRangeEffect(hw: Hw, addr: int, size: int, a: int)
    requires Legal(hw) && 0 <= a < AREA && 0 <= addr < AREA && 0 < size < WORD && Fits(addr, size)
    ensures var h := InvalidRange(hw, addr, size);
      && (InLines(addr, size, a) ==>
            && !Cached(h, a)
            && h.mem(a) == (if hw.writeBack && DirtyAt(hw, a) && AtEdgeIndex(addr, size, a) then CpuView(hw, a)
                            else BufView(hw, a)))
      && (!InLines(addr, size, a) ==> WrittenBack(hw, h, a))
      && BufView(h, a) == h.mem(a)
  {
    RangeArithmetic(addr, size);
    SpanCovers(addr, size, a);
    EdgeIndexes(addr, size, a);
    EdgedEffect(hw, addr, size, a);
    InvalidSpanEffect(Edged(hw, addr, size), Start(addr), Span(addr, size), a);
  }

  /** The invariant survives the call, whatever the sums wrap to. */
  lemma InvalidRangeLegal(hw: Hw, addr: int, size: int)
    requires Legal(hw) && 0 <= addr < AREA && 0 < size < WORD
    ensures Legal(InvalidRange(hw, addr, size)) && SameModes(hw, InvalidRange(hw, addr, size))
    ensures InvalidRange(hw, addr, size).pending == map[]
  {
    var g := Edged(hw, addr, size);
    EdgedEffect(hw, addr, size, 0);
    InvalidSpanEffect(g, Start(addr), CallSpan(addr, size), 0);
    if !hw.writeBack {
      EdgedClean(hw, addr, size);
      if CallSpan(addr, size) > RANGE_MAX { InvalidBanksEmpty(g, 4); }
    }
  }

  lemma EdgedClean(hw: Hw, addr: int, size: int)
    requires Legal(hw) && !hw.writeBack
    ensures Edged(hw, addr, size) == hw
  {
  }

  lemma OutsideIsEdge(addr: int, size: int, a: int)
    requires 0 <= a < AREA && 0 <= addr < AREA && 0 < size
    requires InLines(addr, size, a) && !InRange(addr, size, a)
    ensures AtEdgeIndex(addr, size, a)
  {
    if a < addr {
      assert a / 16 == addr / 16;
    } else {
      assert a / 16 == (addr + size) / 16;
    }
  }

  /** The bytes around the range: they read the same after the call exactly when they were not stale copies
      that the call had to drop together with a partial line. */
  lemma InvalidRangeKeepsOutside(hw: Hw, addr: int, size: int, a: int)
    requires Legal(hw) && 0 <= a < AREA && 0 <= addr < AREA && 0 < size < WORD && Fits(addr, size)
    requires !InRange(addr, size, a)
    ensures CpuView(InvalidRange(hw, addr, size), a) == CpuView(hw, a)
       <==> Fresh(hw, a) || !InLines(addr, size, a)
  {
    InvalidRangeEffect(hw, addr, size, a);
    AddressParts(a);
    if InLines(addr, size, a) {
      OutsideIsEdge(addr, size, a);
    }
  }

  // ---- when the 32-bit sums wrap -----------------------------------------------------------------

  /** What a caller wants of the call at `a`: bytes outside keep their value, lines inside leave the cache. */
  predicate Serves(hw: Hw, addr: int, size: int, a: int) {
    var h := InvalidRange(hw, addr, size);
    if InRange(addr, size, a) then !Cached(h, a) else CpuView(h, a) == CpuView(hw, a)
  }

  ghost predicate AlwaysServes(addr: int, size: int) {
    forall hw, a :: Legal(hw) && AllFresh(hw) && 0 <= a < AREA ==> Serves(hw, addr, size, a)
  }

  /** A range that starts in the last line of the area and whose size wraps to under one line: the call
      invalidates that one line, which is all the range covers. */
  predicate LastLineOnly(addr: int, size: int) { addr >= AREA - 16 && addr % 16 + size > WORD }

  /** A write-back cache holding one line, the one of `a`, filled with ones over a memory of zeros. */
  function OneLineCache(a: int, dirty: bool): Hw {
    var ones := [1, 1, 1, 1, 1, 1, 1, 1, 1, 1, 1, 1, 1, 1, 1, 1];
    var zeros := [0, 0, 0, 0, 0, 0, 0, 0, 0, 0, 0, 0, 0, 0, 0, 0];
    Hw(true, true, true, false,
       (b, i) => if b == 0 && i == SetOf(a) then Line(true, false, dirty, TagOf(a), if dirty then ones else zeros)
                 else Line(false, false, false, 0, zeros),
       map[], x => 0)
  }

  lemma OneLineCacheLegal(a: int, dirty: bool)
    requires 0 <= a < AREA
    ensures var hw := OneLineCache(a, dirty);
      && Legal(hw) && AllFresh(hw) && Holder(hw, a) == 0 && DirtyAt(hw, a) == dirty
      && CpuView(hw, a) == (if dirty then 1 else 0) && BufView(hw, a) == 0
  {
    OneLineViews(a, dirty);
    OneLineSound(a, dirty);
    forall x | 0 <= x < AREA ensures Fresh(OneLineCache(a, dirty), x) {
      OneLineFresh(a, dirty, x);
    }
    hide OneLineCache, Legal, Fresh;
  }

  lemma OneLineSound(a: int, dirty: bool)
    requires 0 <= a < AREA
    ensures Legal(OneLineCache(a, dirty))
  {
  }

  lemma OneLineViews(a: int, dirty: bool)
    requires 0 <= a < AREA
    ensures var hw := OneLineCache(a, dirty);
      && Holder(hw, a) == 0 && DirtyAt(hw, a) == dirty
      && CpuView(hw, a) == (if dirty then 1 else 0) && BufView(hw, a) == 0
  {
    AddressParts(a);
    OneLineSound(a, dirty);
    HolderIs(OneLineCache(a, dirty), a, 0);
    hide HolderFrom;
  }

  lemma OneLineFresh(a: int, dirty: bool, x: int)
    requires 0 <= a < AREA && 0 <= x < AREA
    ensures Fresh(OneLineCache(a, dirty), x)
  {
    AddressParts(x);
  }

  /** The whole-bank path taken with a range that wraps: a dirty byte below the range is lost. */
  lemma WrapLosesLowLine(addr: int, size: int)
    requires 0 <= addr < AREA && 0 < size < WORD
    requires RoundUp(size + addr % 16) < WORD <= Start(addr) + RoundUp(size + addr % 16)
    ensures !AlwaysServes(addr, size)
  {
    var low := LowLineAway(addr, size);
    OneLineCacheLegal(low, true);
    var hw := OneLineCache(low, true);
    EdgedEffect(hw, addr, size, low);
    InvalidSpanEffect(Edged(hw, addr, size), Start(addr), CallSpan(addr, size), low);
    assert !Serves(hw, addr, size, low);
  }

  /** A line below the range whose index neither edge drain touches. */
  lemma LowLineAway(addr: int, size: int) returns (low: int)
    requires 0 <= addr < AREA && 0 < size < WORD
    requires RoundUp(size + addr % 16) < WORD <= Start(addr) + RoundUp(size + addr % 16)
    ensures 0 <= low < addr && !DrainsIndex(addr, size, SetOf(low))
    ensures CallSpan(addr, size) > RANGE_MAX
  {
    LongSpan(addr, size);
    hide RoundUp, CallSpan, Reach;
    if addr < 48 {
      low := LowIndexes(addr, size);
    } else {
      var i, j := SetOf(addr), SetOf(EdgeEnd(addr, size));
      low := if i != 0 && j != 0 then 0 else if i != 1 && j != 1 then 16 else 32;
      assert SetOf(0) == 0 && SetOf(16) == 1 && SetOf(32) == 2;
      hide SetOf, EdgeEnd;
    }
  }

  lemma LongSpan(addr: int, size: int)
    requires 0 <= addr < AREA && 0 < size < WORD
    requires RoundUp(size + addr % 16) < WORD <= Start(addr) + RoundUp(size + addr % 16)
    ensures addr >= 16 && Reach(addr, size) == size + addr % 16 && CallSpan(addr, size) > RANGE_MAX
    ensures WORD - addr - 16 < Reach(addr, size) <= WORD - 16
  {
    assert RoundUp(size + addr % 16) % 16 == 0;
  }

  /** In the first lines behind address 16 the end of the range tells which line below is left alone. */
  lemma LowIndexes(addr: int, size: int) returns (low: int)
    requires 16 <= addr < 48 && WORD - addr - 16 < Reach(addr, size) <= WORD - 16
    ensures 0 <= low < addr && !DrainsIndex(addr, size, SetOf(low))
  {
    low := if addr < 32 then 0 else 16;
    assert SetOf(addr) == (if addr < 32 then 1 else 2) && SetOf(0) == 0 && SetOf(16) == 1;
    hide Reach;
    var sum := Start(addr) + Reach(addr, size);
    assert EdgeEnd(addr, size) == if sum >= WORD then sum - WORD else sum;
  }

  /** The rounded size wraps: lines of the range stay in the cache. */
  lemma WrapKeepsLine(addr: int, size: int)
    requires 0 <= addr < AREA && 0 < size < WORD
    requires RoundUp(size + addr % 16) >= WORD && !LastLineOnly(addr, size)
    ensures !AlwaysServes(addr, size)
  {
    var stays := LineThatStays(addr, size);
    OneLineCacheLegal(stays, false);
    var hw := OneLineCache(stays, false);
    EdgedEffect(hw, addr, size, stays);
    InvalidSpanEffect(Edged(hw, addr, size), Start(addr), CallSpan(addr, size), stays);
    assert !Serves(hw, addr, size, stays);
  }

  lemma LineThatStays(addr: int, size: int) returns (stays: int)
    requires 0 <= addr < AREA && 0 < size < WORD
    requires RoundUp(size + addr % 16) >= WORD && !LastLineOnly(addr, size)
    ensures InRange(addr, size, stays) && stays < AREA && CallSpan(addr, size) <= RANGE_MAX
    ensures !(Start(addr) <= stays - stays % 16 < Start(addr) + CallSpan(addr, size))
  {
    WrappedSpan(addr, size);
    if CallSpan(addr, size) == 0 {
      stays := addr;
    } else {
      stays := Start(addr) + 16;
    }
  }

  lemma WrappedSpan(addr: int, size: int)
    requires 0 <= addr < AREA && 0 < size < WORD && RoundUp(size + addr % 16) >= WORD
    ensures CallSpan(addr, size) == (if addr % 16 + size > WORD then 16 else 0)
    ensures addr % 16 + size > WORD ==> Reach(addr, size) == addr % 16 + size - WORD < 15
  {
    var sum := size + addr % 16;
    if sum >= WORD {
      assert Reach(addr, size) == sum - WORD;
      assert RoundUp(sum - WORD) == if sum == WORD then 0 else 16;
    } else {
      assert Reach(addr, size) == sum;
      assert RoundUp(sum) == WORD;
    }
    assert Start(addr) <= AREA - 16;
  }

  /** The last-line case: one line, drained at its partial start, is invalidated. */
  lemma LastLineServes(hw: Hw, addr: int, size: int, a: int)
    requires 0 <= addr < AREA && 0 < size < WORD && LastLineOnly(addr, size)
    requires Legal(hw) && Fresh(hw, a) && 0 <= a < AREA
    ensures Serves(hw, addr, size, a)
  {
    assert Sound(hw);
    hide Edged, InvalidSpan, CpuView, BufView, HolderFrom, CallSpan, Sound;
    WrappedSpan(addr, size);
    EdgedEffect(hw, addr, size, a);
    InvalidSpanEffect(Edged(hw, addr, size), Start(addr), 16, a);
    if a < addr && Start(addr) <= a { assert SetOf(a) == SetOf(addr) by { assert a / 16 == addr / 16; } }
  }

  /** cache_invalid_range does what its callers want in every state exactly for the ranges whose rounded end
      fits 32 bits, and for the one degenerate range above. */
  lemma InvalidRangeExact(addr: int, size: int)
    requires 0 <= addr < AREA && 0 < size < WORD
    ensures AlwaysServes(addr, size) <==> Fits(addr, size) || LastLineOnly(addr, size)
  {
    if Fits(addr, size) {
      forall hw, a | Legal(hw) && AllFresh(hw) && 0 <= a < AREA ensures Serves(hw, addr, size, a) {
        InvalidRangeEffect(hw, addr, size, a);
        if !InRange(addr, size, a) { InvalidRangeKeepsOutside(hw, addr, size, a); }
      }
    } else if LastLineOnly(addr, size) {
      forall hw, a | Legal(hw) && AllFresh(hw) && 0 <= a < AREA ensures Serves(hw, addr, size, a) {
        LastLineServes(hw, addr, size, a);
      }
    } else if RoundUp(size + addr % 16) < WORD {
      assert Start(addr) + RoundUp(size + addr % 16) == RoundUp(addr + size) by { assert Start(addr) % 16 == 0; }
      WrapLosesLowLine(addr, size);
    } else {
      WrapKeepsLine(addr, size);
    }
  }

  // ---- draining a range --------------------------------------------------------------------------

  /** Everything one call of cache_drain_range does to one byte. Outside write-back mode the call fails
      and does nothing, not even to the write buffer. */
  lemma DrainRangeEffect(hw: Hw, addr: int, size: int, a: int)
    requires Legal(hw) && 0 <= a < AREA && 0 <= addr < AREA && 0 < size < WORD && Fits(addr, size)
    ensures var h := DrainRange(hw, addr, size);
      && Legal(h) && SameModes(hw, h) && WrittenBack(hw, h, a)
      && (hw.writeBack ==>
            && h.pending == map[] && h.mem(a) == BufView(h, a)
            && (DirtyAt(h, a) <==> DirtyAt(hw, a) && !InLines(addr, size, a)))
      && (!hw.writeBack ==> h == hw)
  {
    RangeArithmetic(addr, size);
    SpanCovers(addr, size, a);
    AddressParts(a);
    if hw.writeBack {
      if Span(addr, size) > RANGE_MAX {
        DrainBanksEffect(hw, 4, a);
      } else {
        DrainViews(hw, LineRange(Start(addr), Span(addr, size)), a);
        EmptyBufferViews(Drain(hw, LineRange(Start(addr), Span(addr, size))), a);
      }
    }
  }

  ghost predicate Publishes(writeBack: bool, addr: int, size: int) {
    forall hw, a :: Legal(hw) && AllFresh(hw) && hw.writeBack == writeBack && 0 <= a < AREA && InRange(addr, size, a)
      ==> DrainRange(hw, addr, size).mem(a) == CpuView(hw, a)
  }

  /** A drained range is in memory, where a device reads it, exactly when write-back is on: in write-through
      mode the call returns before it empties the write buffer. */
  lemma DrainRangePublishes(writeBack: bool, addr: int, size: int)
    requires 0 <= addr < AREA && 0 < size < WORD && Fits(addr, size)
    ensures Publishes(writeBack, addr, size) <==> writeBack
  {
    if writeBack {
      forall hw, a | Legal(hw) && AllFresh(hw) && hw.writeBack && 0 <= a < AREA && InRange(addr, size, a)
        ensures DrainRange(hw, addr, size).mem(a) == CpuView(hw, a)
      {
        DrainedIsPublished(hw, addr, size, a);
      }
    } else {
      DrainRangeSkips(addr, size);
    }
  }

  lemma DrainedIsPublished(hw: Hw, addr: int, size: int, a: int)
    requires 0 <= addr < AREA && 0 < size < WORD && Fits(addr, size)
    requires Legal(hw) && Fresh(hw, a) && hw.writeBack && 0 <= a < AREA && InRange(addr, size, a)
    ensures DrainRange(hw, addr, size).mem(a) == CpuView(hw, a)
  {
    RangeInLines(addr, size, a);
    DrainRangeEffect(hw, addr, size, a);
  }

  lemma DrainRangeSkips(addr: int, size: int)
    requires 0 <= addr < AREA && 0 < size < WORD
    ensures !Publishes(false, addr, size)
  {
    var hw := EmptyCache(map[addr := 1]);
    assert DrainRange(hw, addr, size) == hw;
    assert hw.mem(addr) == 0 && CpuView(hw, addr) == 1;
  }

  lemma RangeInLines(addr: int, size: int, a: int)
    requires 0 <= addr && InRange(addr, size, a)
    ensures InLines(addr, size, a)
  {
    RoundUpLines(addr + size);
  }

  /** A write-through cache with no lines, bytes waiting in the write buffer and a memory of zeros. */
  function EmptyCache(pending: map<int, Byte>): (hw: Hw)
    ensures Legal(hw) && AllFresh(hw) && forall a :: !Cached(hw, a)
  {
    var zeros := [0, 0, 0, 0, 0, 0, 0, 0, 0, 0, 0, 0, 0, 0, 0, 0];
    Hw(true, true, false, false, (b, i) => Line(false, false, false, 0, zeros), pending, x => 0)
  }
}
