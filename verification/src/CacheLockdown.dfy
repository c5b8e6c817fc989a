/** Locking lines into the cache: which bank is chosen, what survives, and when a byte is lost. */
module CacheLockdown {
  import opened CacheHardware
  import opened CacheCalls
  import opened CacheRanges

  predicate Free(hw: Hw, b: int, i: int) { !hw.lines(b, i).valid }

  predicate Open(hw: Hw, b: int, i: int) { hw.lines(b, i).valid && !hw.lines(b, i).locked }

  predicate LockedAt(hw: Hw, a: int) {
    var b := Holder(hw, a);
    b < 4 && hw.lines(b, SetOf(a)).locked
  }

  /** All four banks hold other lines, locked: there is no room for `a`. */
  predicate Full(hw: Hw, a: int) {
    forall b :: 0 <= b < 4 ==> hw.lines(b, SetOf(a)).valid && hw.lines(b, SetOf(a)).locked
  }

  // ---- the choice of the bank --------------------------------------------------------------------

  /** From bank `b` on: a bank that holds the line decides, whatever candidate was found before it. */
  lemma {:induction false} ScanFindsHolder(hw: Hw, a: int, b: int, cand: int)
    requires 0 <= b <= 4 && HolderFrom(hw, a, b) < 4
    ensures var g := HolderFrom(hw, a, b);
      Scan(hw, a, b, cand) == (if hw.lines(g, SetOf(a)).locked then 4 else g)
    decreases 4 - b
  {
    var l := hw.lines(b, SetOf(a));
    if !Holds(l, a) {
      ScanFindsHolder(hw, a, b + 1, if !l.valid then b else if cand == 4 && !l.locked then b else cand);
    }
  }

  /** Without a holder the last free bank wins, else the candidate so far, else the first open bank. */
  lemma {:induction false} ScanWithoutHolder(hw: Hw, a: int, b: int, cand: int)
    requires 0 <= b <= 4 && HolderFrom(hw, a, b) == 4
    requires cand == 4 || 0 <= cand < b
    ensures var r := Scan(hw, a, b, cand);
      var i := SetOf(a);
      if exists k :: b <= k < 4 && Free(hw, k, i) then
        b <= r < 4 && Free(hw, r, i) && forall k :: r < k < 4 ==> !Free(hw, k, i)
      else if cand < 4 then r == cand
      else if exists k :: b <= k < 4 && Open(hw, k, i) then
        b <= r < 4 && Open(hw, r, i) && forall k :: b <= k < r ==> !Open(hw, k, i)
      else r == 4
    decreases 4 - b
  {
    hide SetOf, TagOf;
    if b < 4 {
      var l := hw.lines(b, SetOf(a));
      assert HolderFrom(hw, a, b + 1) == 4;
      ScanWithoutHolder(hw, a, b + 1, if !l.valid then b else if cand == 4 && !l.locked then b else cand);
      assert Free(hw, b, SetOf(a)) == !l.valid;
      assert Open(hw, b, SetOf(a)) == (l.valid && !l.locked);
    }
  }

  /** The bank lockdown uses: the one that holds the line unlocked; else the last free one; else the first
      whose line is not locked; none when the line is locked already or the set is full of locked lines. */
  lemma ChosenBank(hw: Hw, a: int)
    requires Tidy(hw) && 0 <= a
    ensures var r := Scan(hw, a, 0, 4);
      var i := SetOf(a);
      if Cached(hw, a) then r == (if LockedAt(hw, a) then 4 else Holder(hw, a))
      else if exists k :: 0 <= k < 4 && Free(hw, k, i) then
        0 <= r < 4 && Free(hw, r, i) && forall k :: r < k < 4 ==> !Free(hw, k, i)
      else if exists k :: 0 <= k < 4 && Open(hw, k, i) then
        0 <= r < 4 && Open(hw, r, i) && forall k :: 0 <= k < r ==> !Open(hw, k, i)
      else r == 4 && Full(hw, a)
  {
    if Cached(hw, a) { ScanFindsHolder(hw, a, 0, 4); } else {
      ScanWithoutHolder(hw, a, 0, 4);
      if !exists k :: 0 <= k < 4 && (Free(hw, k, SetOf(a)) || Open(hw, k, SetOf(a))) {
        forall b | 0 <= b < 4 ensures hw.lines(b, SetOf(a)).valid && hw.lines(b, SetOf(a)).locked {
          assert !Free(hw, b, SetOf(a)) && !Open(hw, b, SetOf(a));
        }
      }
    }
  }

  // ---- one line ----------------------------------------------------------------------------------

  /** The line that gives way to `a` is the one in the chosen bank. */
  predicate Displaced(hw: Hw, a: int, x: int) {
    Scan(hw, a, 0, 4) < 4 && SetOf(x) == SetOf(a) && Holder(hw, x) == Scan(hw, a, 0, 4)
  }

  function Locked(hw: Hw, a: int): Line { Line(true, true, false, TagOf(a), Fetch(hw, a - a % 16)) }

  /** Locking a line changes one slot, the chosen one. */
  lemma LockLineLines(hw: Hw, a: int)
    requires 0 <= a < AREA
    ensures var h, c := LockLine(hw, a), Scan(hw, a, 0, 4);
      && SameModes(hw, h) && (!hw.buffered && hw.pending == map[] ==> h.pending == map[])
      && (c >= 4 ==> h == hw)
      && (0 <= c < 4 ==> forall b, i ::
            h.lines(b, i) == if b == c && i == SetOf(a) then Locked(hw, a) else hw.lines(b, i))
      && (forall x :: BufView(h, x) == BufView(hw, x))
  {
    var c := Scan(hw, a, 0, 4);
    if 0 <= c < 4 {
      var g := DrainWriteBuffer(InvalidLine(hw, c, a));
      forall x ensures BufView(g, x) == BufView(hw, x) {
        EmptyBufferViews(Invalidate(hw, OneLine(c, SetOf(a))), x);
        EmptyBufferViews(InvalidLine(hw, c, a), x);
      }
      var base := a - a % 16;
      assert Fetch(g, base) == Fetch(hw, base);
    }
  }

  lemma LockLineTidy(hw: Hw, a: int)
    requires Sound(hw) && 0 <= a < AREA && hw.enabled
    ensures Sound(LockLine(hw, a)) && SameModes(hw, LockLine(hw, a))
    ensures NoDirty(hw) ==> NoDirty(LockLine(hw, a))
  {
    ChosenBank(hw, a);
    LockLineLines(hw, a);
    var c := Scan(hw, a, 0, 4);
    var h := LockLine(hw, a);
    if c < 4 {
      forall b, d, i | 0 <= b < d < 4 && 0 <= i < 256 && h.lines(b, i).valid && h.lines(d, i).valid
        ensures h.lines(b, i).tag != h.lines(d, i).tag
      {
        if i == SetOf(a) {
          if b == c { OnlyHolder(hw, a, d); } else if d == c { OnlyHolder(hw, a, b); }
        }
      }
    }
  }

  /** After one step the line is locked, or its set is full of other locked lines; a locked line stays. */
  lemma LockLineLocks(hw: Hw, a: int)
    requires Sound(hw) && 0 <= a < AREA && hw.enabled
    ensures var h := LockLine(hw, a);
      && (forall b, i :: 0 <= b < 4 && hw.lines(b, i).valid && hw.lines(b, i).locked ==>
            h.lines(b, i) == hw.lines(b, i))
      && (LockedAt(h, a) || (Full(hw, a) && h == hw))
  {
    ChosenBank(hw, a);
    LockLineLines(hw, a);
    LockLineTidy(hw, a);
    AddressParts(a);
    var c := Scan(hw, a, 0, 4);
    if c < 4 { HolderIs(LockLine(hw, a), a, c); }
  }

  /** Besides the chosen bank no other bank holds the line that is about to be locked. */
  lemma OnlyHolder(hw: Hw, a: int, d: int)
    requires Tidy(hw) && 0 <= a && 0 <= d < 4 && d != Scan(hw, a, 0, 4) && Scan(hw, a, 0, 4) < 4
    ensures !Holds(hw.lines(d, SetOf(a)), a)
  {
    ChosenBank(hw, a);
    if Holds(hw.lines(d, SetOf(a)), a) { HolderIs(hw, a, d); }
  }

  /** What the CPU reads after one line has been locked: memory where a line gave way, else as before. */
  lemma LockLineViews(hw: Hw, a: int, x: int)
    requires Sound(hw) && 0 <= a < AREA && 0 <= x < AREA && hw.enabled
    ensures var h := LockLine(hw, a);
      && BufView(h, x) == BufView(hw, x)
      && CpuView(h, x) == (if Displaced(hw, a, x) then BufView(hw, x) else CpuView(hw, x))
      && (DirtyAt(h, x) <==> DirtyAt(hw, x) && !Displaced(hw, a, x))
  {
    LockLineLines(hw, a);
    if Scan(hw, a, 0, 4) < 4 {
      if SetOf(x) == SetOf(a) && TagOf(x) == TagOf(a) {
        LockedLineViews(hw, a, x);
      } else {
        NeighbourViews(hw, a, x);
      }
    }
  }

  lemma LockedLineViews(hw: Hw, a: int, x: int)
    requires Sound(hw) && 0 <= a < AREA && 0 <= x < AREA && hw.enabled && Scan(hw, a, 0, 4) < 4
    requires SetOf(x) == SetOf(a) && TagOf(x) == TagOf(a)
    ensures var h := LockLine(hw, a);
      && CpuView(h, x) == BufView(hw, x) && !DirtyAt(h, x)
      && (Displaced(hw, a, x) || !Cached(hw, x))
  {
    ChosenBank(hw, a);
    LockLineLines(hw, a);
    LockLineTidy(hw, a);
    AddressParts(a);
    AddressParts(x);
    HolderIs(LockLine(hw, a), x, Scan(hw, a, 0, 4));
    assert x - x % 16 == a - a % 16;
    if Cached(hw, x) { OtherHolder(hw, a, x); }
  }

  lemma NeighbourViews(hw: Hw, a: int, x: int)
    requires Sound(hw) && 0 <= a < AREA && 0 <= x < AREA && hw.enabled && Scan(hw, a, 0, 4) < 4
    requires SetOf(x) != SetOf(a) || TagOf(x) != TagOf(a)
    ensures var h := LockLine(hw, a);
      && Holder(h, x) == (if Displaced(hw, a, x) then 4 else Holder(hw, x))
      && CpuView(h, x) == (if Displaced(hw, a, x) then BufView(hw, x) else CpuView(hw, x))
      && (DirtyAt(h, x) <==> DirtyAt(hw, x) && !Displaced(hw, a, x))
  {
    ChosenBank(hw, a);
    LockLineLines(hw, a);
    var h, c := LockLine(hw, a), Scan(hw, a, 0, 4);
    AddressParts(x);
    if Displaced(hw, a, x) {
      forall k | 0 <= k < 4 ensures !Holds(h.lines(k, SetOf(x)), x) {
        if k != c && Holds(hw.lines(k, SetOf(x)), x) { HolderIs(hw, x, k); }
      }
    } else {
      forall k | 0 <= k < 4 ensures Holds(h.lines(k, SetOf(x)), x) == Holds(hw.lines(k, SetOf(x)), x) {
        if k == c && SetOf(x) == SetOf(a) && Holds(hw.lines(k, SetOf(x)), x) { HolderIs(hw, x, k); }
      }
      SameHolder(hw, h, x);
    }
  }

  lemma OtherHolder(hw: Hw, a: int, x: int)
    requires Tidy(hw) && 0 <= a && Scan(hw, a, 0, 4) < 4
    requires SetOf(x) == SetOf(a) && TagOf(x) == TagOf(a) && Cached(hw, x)
    ensures Displaced(hw, a, x)
  {
    if Holder(hw, x) != Scan(hw, a, 0, 4) { OnlyHolder(hw, a, Holder(hw, x)); }
  }

  // ---- a whole request ---------------------------------------------------------------------------

  lemma {:induction false} LockLinesSound(hw: Hw, a: int, n: nat)
    requires Sound(hw) && 0 <= a && hw.enabled
    ensures var h := LockLines(hw, a, n);
      Sound(h) && SameModes(hw, h) && (NoDirty(hw) ==> NoDirty(h))
    decreases n
  {
    hide Sound, LockLine, NoDirty;
    if n > 0 && a < AREA {
      LockLineTidy(hw, a);
      LockLinesSound(LockLine(hw, a), a + 16, n - 1);
    }
  }

  /** A line that is locked stays where it is, and reads the same, through any number of further locks. */
  lemma {:induction false} LockedStays(hw: Hw, a: int, n: nat, x: int)
    requires Sound(hw) && 0 <= a && 0 <= x < AREA && hw.enabled && LockedAt(hw, x)
    ensures var h := LockLines(hw, a, n);
      LockedAt(h, x) && Holder(h, x) == Holder(hw, x) && CpuView(h, x) == CpuView(hw, x)
    decreases n
  {
    if n > 0 && a < AREA {
      AddressParts(x);
      LockLineTidy(hw, a);
      LockLineLocks(hw, a);
      var h := LockLine(hw, a);
      var g := Holder(hw, x);
      assert h.lines(g, SetOf(x)) == hw.lines(g, SetOf(x));
      HolderIs(h, x, g);
      LockedStays(h, a + 16, n - 1, x);
    }
  }

  /** A set full of locked lines stays as it is. */
  lemma {:induction false} FullStays(hw: Hw, a: int, n: nat, x: int)
    requires Sound(hw) && 0 <= a && 0 <= x < AREA && hw.enabled && Full(hw, x)
    ensures Full(LockLines(hw, a, n), x)
    decreases n
  {
    if n > 0 && a < AREA {
      LockLineTidy(hw, a);
      LockLineLocks(hw, a);
      FullStays(LockLine(hw, a), a + 16, n - 1, x);
    }
  }

  /** Every line of the request ends up locked unless its set has no bank left to lock it in. */
  lemma {:induction false} LockLinesLocks(hw: Hw, a: int, n: nat, k: nat)
    requires Sound(hw) && 0 <= a && hw.enabled && k < n && a + 16 * k < AREA
    ensures var h := LockLines(hw, a, n);
      LockedAt(h, a + 16 * k) || Full(h, a + 16 * k)
    decreases n
  {
    hide Sound, LockLine, LockedAt, Full, NoDirty;
    LockLineTidy(hw, a);
    if k > 0 {
      LockLinesLocks(LockLine(hw, a), a + 16, n - 1, k - 1);
    } else {
      FirstLineLocked(hw, a, n);
    }
  }

  lemma FirstLineLocked(hw: Hw, a: int, n: nat)
    requires Sound(hw) && 0 <= a < AREA && hw.enabled && n > 0
    ensures LockedAt(LockLines(hw, a, n), a) || Full(LockLines(hw, a, n), a)
  {
    hide Sound, LockedAt, Full, LockLine, NoDirty;
    if Full(hw, a) {
      FullStays(hw, a, n, a);
    } else {
      LockLineTidy(hw, a);
      LockLineLocks(hw, a);
      LockedStays(LockLine(hw, a), a + 16, n - 1, a);
    }
  }

  lemma LockLineTransparent(hw: Hw, a: int, x: int)
    requires Sound(hw) && 0 <= a < AREA && 0 <= x < AREA && hw.enabled && NoDirty(hw) && Fresh(hw, x)
    ensures var h := LockLine(hw, a);
      && Sound(h) && SameModes(hw, h) && NoDirty(h) && Fresh(h, x)
      && CpuView(h, x) == CpuView(hw, x) && BufView(h, x) == BufView(hw, x)
  {
    AddressParts(x);
    LockLineTidy(hw, a);
    LockLineViews(hw, a, x);
    hide LockLine, CpuView, BufView, Tidy;
  }

  /** Without dirty lines no byte changes. */
  lemma {:induction false} LockLinesTransparent(hw: Hw, a: int, n: nat, x: int)
    requires Sound(hw) && 0 <= a && 0 <= x < AREA && hw.enabled && NoDirty(hw) && Fresh(hw, x)
    ensures var h := LockLines(hw, a, n);
      CpuView(h, x) == CpuView(hw, x) && BufView(h, x) == BufView(hw, x) && Fresh(h, x)
    decreases n
  {
    hide Sound, NoDirty, Fresh, CpuView, BufView, LockLine;
    if n > 0 && a < AREA {
      LockLineTransparent(hw, a, x);
      LockLinesTransparent(LockLine(hw, a), a + 16, n - 1, x);
    }
  }

  /** The line of `x`, counted from the first line of the request. */
  lemma LineNumber(addr: int, size: int, x: int) returns (k: nat)
    requires 0 <= addr <= x < addr + size
    ensures k < LineCount(addr, size) && Start(addr) + 16 * k == x - x % 16
  {
    k := x / 16 - addr / 16;
  }

  /** One step locks no other line than that of `a`. */
  lemma LockLineOnly(hw: Hw, a: int, y: int)
    requires Sound(hw) && 0 <= a < AREA && 0 <= y < AREA && hw.enabled
    ensures LockedAt(LockLine(hw, a), y) ==> LockedAt(hw, y) || a / 16 == y / 16
  {
    LockLineTidy(hw, a);
    LockLineLines(hw, a);
    AddressParts(a);
    AddressParts(y);
    var h := LockLine(hw, a);
    if LockedAt(h, y) && a / 16 != y / 16 {
      var b := Holder(h, y);
      assert h.lines(b, SetOf(y)) == hw.lines(b, SetOf(y));
      HolderIs(hw, y, b);
    }
  }

  lemma {:induction false} LockLinesOnly(hw: Hw, a: int, n: nat, y: int)
    requires Sound(hw) && 0 <= a && a % 16 == 0 && 0 <= y < AREA && hw.enabled
    ensures LockedAt(LockLines(hw, a, n), y) ==> LockedAt(hw, y) || a <= y < a + 16 * n
    decreases n
  {
    hide Sound, LockedAt, LockLine;
    if n > 0 && a < AREA {
      LockLineOnly(hw, a, y);
      LockLineTidy(hw, a);
      LockLinesOnly(LockLine(hw, a), a + 16, n - 1, y);
    }
  }

  /** The call locks no line without a byte of the request. */
  lemma LockdownOnly(hw: Hw, addr: int, size: int, y: int)
    requires Legal(hw) && 0 <= addr && 0 <= size && 0 <= y < AREA
    requires forall x :: addr <= x < addr + size ==> x / 16 != y / 16
    ensures LockedAt(Lockdown(hw, addr, size), y) ==> LockedAt(hw, y)
  {
    if LockdownAccepts(hw, addr, size) {
      var start, n := Start(addr), LineCount(addr, size);
      assert start % 16 == 0 && start <= addr;
      LockLinesOnly(hw, start, n, y);
      if start <= y < start + 16 * n {
        var x := if y < addr then addr else if y < addr + size then y else addr + size - 1;
        assert addr <= x < addr + size && x / 16 != y / 16;
        LineOfRequest(addr, size, x, y);
      }
    }
    hide LockLines, LockedAt, Legal;
  }

  lemma LineOfRequest(addr: int, size: int, x: int, y: int)
    requires 0 <= addr && 0 < size && Start(addr) <= y < Start(addr) + 16 * LineCount(addr, size)
    requires x == if y < addr then addr else if y < addr + size then y else addr + size - 1
    ensures x / 16 == y / 16
  {
  }

  /** What cache_lockdown leaves behind: no tag twice in a set, every locked line untouched, and each line
      of the request (up to the end of the area) locked unless its set is full of locked lines. */
  lemma LockdownResult(hw: Hw, addr: int, size: int, x: int)
    requires Legal(hw) && 0 <= addr && LockdownAccepts(hw, addr, size)
    requires addr <= x < addr + size && x < AREA
    ensures var h := Lockdown(hw, addr, size);
      && Legal(h) && SameModes(hw, h)
      && (LockedAt(h, x) || Full(h, x))
      && (forall y :: 0 <= y < AREA && LockedAt(hw, y) ==> LockedAt(h, y) && CpuView(h, y) == CpuView(hw, y))
  {
    var start, n := Start(addr), LineCount(addr, size);
    var k := LineNumber(addr, size, x);
    LockLinesLegal(hw, start, n);
    hide Legal, LockedAt, Full, LockLines, CpuView, LineCount, Start, SameModes;
    LockedLinesStay(hw, start, n) by { LegalIsSound(hw); }
    LineLocked(hw, start, n, k, x) by { LegalIsSound(hw); }
  }

  lemma LegalIsSound(hw: Hw)
    requires Legal(hw)
    ensures Sound(hw)
  {
  }

  lemma LockLinesLegal(hw: Hw, start: int, n: nat)
    requires Legal(hw) && 0 <= start && hw.enabled
    ensures Legal(LockLines(hw, start, n)) && SameModes(hw, LockLines(hw, start, n))
  {
    LockLinesSound(hw, start, n);
    hide LockLines, Tidy;
  }

  lemma LineLocked(hw: Hw, start: int, n: nat, k: nat, x: int)
    requires Sound(hw) && 0 <= start && hw.enabled && k < n
    requires 0 <= x < AREA && start + 16 * k == x - x % 16
    ensures LockedAt(LockLines(hw, start, n), x) || Full(LockLines(hw, start, n), x)
  {
    hide Sound, LockedAt, Full, LockLines;
    LockLinesLocks(hw, start, n, k);
    SameLine(LockLines(hw, start, n), x);
  }

  lemma LockedLinesStay(hw: Hw, start: int, n: nat)
    requires Sound(hw) && 0 <= start && hw.enabled
    ensures forall y :: 0 <= y < AREA && LockedAt(hw, y) ==>
      LockedAt(LockLines(hw, start, n), y) && CpuView(LockLines(hw, start, n), y) == CpuView(hw, y)
  {
    hide Sound, LockedAt, LockLines, CpuView;
    forall y | 0 <= y < AREA && LockedAt(hw, y)
      ensures LockedAt(LockLines(hw, start, n), y) && CpuView(LockLines(hw, start, n), y) == CpuView(hw, y)
    {
      LockedStays(hw, start, n, y);
    }
  }

  lemma SameLine(h: Hw, x: int)
    requires 0 <= x
    ensures LockedAt(h, x - x % 16) == LockedAt(h, x) && Full(h, x - x % 16) == Full(h, x)
  {
    assert (x - x % 16) / 16 == x / 16 && TagOf(x - x % 16) == TagOf(x) by {
      AddressParts(x);
      AddressParts(x - x % 16);
    }
    SameTagHolder(h, x - x % 16, x, 0);
  }

  lemma SameTagHolder(h: Hw, x: int, y: int, b: nat)
    requires b <= 4 && SetOf(x) == SetOf(y) && TagOf(x) == TagOf(y)
    ensures HolderFrom(h, x, b) == HolderFrom(h, y, b)
    decreases 4 - b
  {
    if b < 4 { SameTagHolder(h, x, y, b + 1); }
  }

  ghost predicate KeepsEveryByte(writeBack: bool, addr: int, size: int)
    requires 0 <= addr
  {
    forall hw, x :: Legal(hw) && AllFresh(hw) && hw.enabled && hw.writeBack == writeBack && 0 <= x < AREA
      ==> CpuView(Lockdown(hw, addr, size), x) == CpuView(hw, x)
  }

  /** Lockdown is transparent to the CPU in every state exactly when write-back is off: the bank it takes
      is invalidated without being drained, so a dirty line in it, even the very line to be locked, is lost. */
  lemma LockdownKeepsEveryByte(writeBack: bool, addr: int, size: int)
    requires 0 < size <= 0x4000 && 0 <= addr < AREA
    ensures KeepsEveryByte(writeBack, addr, size) <==> !writeBack
  {
    if writeBack {
      LockdownLosesDirtyByte(addr, size);
    } else {
      forall hw, x | Legal(hw) && AllFresh(hw) && hw.enabled && hw.writeBack == writeBack && 0 <= x < AREA
        ensures CpuView(Lockdown(hw, addr, size), x) == CpuView(hw, x)
      {
        LockLinesTransparent(hw, Start(addr), LineCount(addr, size), x);
      }
    }
  }

  lemma LockdownLosesDirtyByte(addr: int, size: int)
    requires 0 < size <= 0x4000 && 0 <= addr < AREA
    ensures !KeepsEveryByte(true, addr, size)
  {
    var start := Start(addr);
    OneLineCacheLegal(start, true);
    LockingLosesDirty(start, LineCount(addr, size));
    assert CpuView(Lockdown(OneLineCache(start, true), addr, size), start) == 0;
  }

  lemma LockingLosesDirty(a: int, n: nat)
    requires 0 <= a < AREA && n > 0
    ensures CpuView(LockLines(OneLineCache(a, true), a, n), a) == 0
  {
    LockingDropsDirtyHolder(a);
    FirstLockDecides(OneLineCache(a, true), a, n);
  }

  /** What the first line reads after its own step is what it reads at the end. */
  lemma FirstLockDecides(hw: Hw, a: int, n: nat)
    requires 0 <= a < AREA && n > 0
    requires Sound(LockLine(hw, a)) && LockLine(hw, a).enabled && LockedAt(LockLine(hw, a), a)
    ensures CpuView(LockLines(hw, a, n), a) == CpuView(LockLine(hw, a), a)
  {
    LockedStays(LockLine(hw, a), a + 16, n - 1, a);
  }

  lemma LockingDropsDirtyHolder(a: int)
    requires 0 <= a < AREA
    ensures var h := LockLine(OneLineCache(a, true), a);
      Sound(h) && h.enabled && LockedAt(h, a) && CpuView(h, a) == 0
  {
    var hw := OneLineCache(a, true);
    OneLineCacheLegal(a, true);
    AddressParts(a);
    ChosenBank(hw, a);
    assert Open(hw, 0, SetOf(a)) && !LockedAt(hw, a);
    LockLineTidy(hw, a);
    LockLineLocks(hw, a);
    LockLineViews(hw, a, a);
  }
}
