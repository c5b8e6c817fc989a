/** What a channel relies on while it moves bytes and the CPU runs on: target lines stay out of the cache,
    target bytes out of the write buffer, and source bytes in memory. */
module CacheKeeps {
  import opened Bytes
  import opened CacheHardware
  import opened CacheCalls
  import opened CacheLockdown
  import opened CacheRuns

  /** Only memory has the byte. */
  predicate Bare(hw: Hw, x: int) { !Cached(hw, x) && x !in hw.pending }

  /** Memory has what the CPU reads, and nothing else is on its way there. */
  predicate Settled(hw: Hw, x: int) { hw.mem(x) == BufView(hw, x) == CpuView(hw, x) }

  predicate Keeps(hw: Hw, h: Hw, x: int) {
    && (!Cached(hw, x) ==> !Cached(h, x))
    && (Bare(hw, x) ==> Bare(h, x))
    && (Settled(hw, x) ==> Settled(h, x))
  }

  // ---- command registers -------------------------------------------------------------------------

  lemma KeepsDrain(hw: Hw, p: Pick, x: int)
    requires Sound(hw) && 0 <= x < AREA
    ensures Keeps(hw, Drain(hw, p), x)
  {
    DrainViews(hw, p, x);
  }

  lemma KeepsInvalidate(hw: Hw, p: Pick, x: int)
    requires Tidy(hw) && 0 <= x < AREA
    ensures Keeps(hw, Invalidate(hw, p), x)
  {
    InvalidateViews(hw, p, x);
  }

  lemma KeepsBuffer(hw: Hw, x: int)
    ensures Keeps(hw, EmptyBuffer(hw), x) && Keeps(hw, DrainWriteBuffer(hw), x)
  {
    EmptyBufferViews(hw, x);
  }

  /** Switching modes: the cache goes on only over lines that do not hold the byte. */
  lemma KeepsFlags(hw: Hw, g: Hw, x: int)
    requires g.lines == hw.lines && g.pending == hw.pending && g.mem == hw.mem
    requires g.enabled && !hw.enabled ==> !Cached(hw, x)
    ensures Keeps(hw, g, x)
  {
    SameHolder(hw, g, x);
  }

  lemma KeepsBoth(hw: Hw, g: Hw, h: Hw, x: int)
    requires Keeps(hw, g, x) && Keeps(g, h, x)
    ensures Keeps(hw, h, x)
  {
    hide Bare, Settled, Cached;
  }

  // ---- driver calls ------------------------------------------------------------------------------

  lemma KeepsDrainLine(hw: Hw, bank: int, addr: int, x: int)
    requires Sound(hw) && 0 <= x < AREA && 0 <= addr
    ensures Keeps(hw, DrainLine(hw, bank, addr), x) && Sound(DrainLine(hw, bank, addr))
  {
    var g := Drain(hw, OneLine(bank, SetOf(addr)));
    KeepsDrain(hw, OneLine(bank, SetOf(addr)), x);
    KeepsBuffer(g, x);
    DrainLineEffect(hw, bank, addr, x);
    hide Bare, Settled, Cached, Drain, DrainWriteBuffer, Sound;
  }

  lemma {:induction false} KeepsDrainLines(hw: Hw, addr: int, n: nat, x: int)
    requires Sound(hw) && 0 <= x < AREA && 0 <= addr && n <= 4
    ensures Keeps(hw, DrainLines(hw, addr, n), x) && Sound(DrainLines(hw, addr, n))
  {
    hide Keeps, Sound, DrainLine;
    if n == 0 {
      KeepsSelf(hw, x);
    } else {
      KeepsDrainLines(hw, addr, n - 1, x);
      KeepsDrainLine(DrainLines(hw, addr, n - 1), n - 1, addr, x);
      KeepsBoth(hw, DrainLines(hw, addr, n - 1), DrainLines(hw, addr, n), x);
    }
  }

  lemma KeepsSelf(hw: Hw, x: int)
    ensures Keeps(hw, hw, x)
  {
  }

  lemma KeepsDrainBank(g: Hw, bank: int, x: int)
    requires Sound(g) && 0 <= x < AREA
    ensures var h := DrainWriteBuffer(Drain(g, WholeBank(bank))); Keeps(g, h, x) && Sound(h)
  {
    KeepsDrain(g, WholeBank(bank), x);
    KeepsBuffer(Drain(g, WholeBank(bank)), x);
    DrainBankEffect(g, bank, x);
    hide Bare, Settled, Cached, Drain, DrainWriteBuffer, Sound;
  }

  lemma {:induction false} KeepsDrainBanks(hw: Hw, n: nat, x: int)
    requires Sound(hw) && 0 <= x < AREA && n <= 4
    ensures Keeps(hw, DrainBanks(hw, n), x) && Sound(DrainBanks(hw, n))
  {
    hide Keeps, Sound, Drain, DrainWriteBuffer;
    if n == 0 {
      KeepsSelf(hw, x);
    } else {
      KeepsDrainBanks(hw, n - 1, x);
      KeepsDrainBank(DrainBanks(hw, n - 1), n - 1, x);
      KeepsBoth(hw, DrainBanks(hw, n - 1), DrainBanks(hw, n), x);
    }
  }

  lemma KeepsInvalidBank(g: Hw, bank: int, x: int)
    requires Tidy(g) && 0 <= x < AREA
    ensures var h := DrainWriteBuffer(Invalidate(g, WholeBank(bank))); Keeps(g, h, x) && Tidy(h)
  {
    KeepsInvalidate(g, WholeBank(bank), x);
    KeepsBuffer(Invalidate(g, WholeBank(bank)), x);
    hide Bare, Settled, Cached;
  }

  lemma {:induction false} KeepsInvalidBanks(hw: Hw, n: nat, x: int)
    requires Tidy(hw) && 0 <= x < AREA && n <= 4
    ensures Keeps(hw, InvalidBanks(hw, n), x) && Tidy(InvalidBanks(hw, n))
  {
    hide Keeps, Tidy, Invalidate, DrainWriteBuffer;
    if n == 0 {
      KeepsSelf(hw, x);
    } else {
      KeepsInvalidBanks(hw, n - 1, x);
      KeepsInvalidBank(InvalidBanks(hw, n - 1), n - 1, x);
      KeepsBoth(hw, InvalidBanks(hw, n - 1), InvalidBanks(hw, n), x);
    }
  }

  lemma KeepsDrainRange(hw: Hw, addr: int, size: int, x: int)
    requires Legal(hw) && 0 <= x < AREA && 0 <= addr
    ensures Keeps(hw, DrainRange(hw, addr, size), x)
  {
    var start, span := Start(addr), CallSpan(addr, size);
    KeepsSelf(hw, x);
    KeepsDrainBanks(hw, 4, x);
    KeepsDrain(hw, LineRange(start, span), x);
    KeepsBuffer(Drain(hw, LineRange(start, span)), x);
    hide Bare, Settled, Cached, Drain, DrainWriteBuffer, DrainBanks, Legal;
  }

  lemma KeepsEdged(hw: Hw, addr: int, size: int, x: int)
    requires Sound(hw) && 0 <= x < AREA && 0 <= addr
    ensures Keeps(hw, Edged(hw, addr, size), x) && Sound(Edged(hw, addr, size))
  {
    var g := DrainEdge(hw, addr % 16 != 0, addr);
    KeepsDrainLines(hw, addr, 4, x);
    KeepsDrainLines(g, EdgeEnd(addr, size), 4, x);
    KeepsSelf(hw, x);
    KeepsSelf(g, x);
    hide Keeps, Sound, DrainLines;
    KeepsBoth(hw, g, Edged(hw, addr, size), x);
  }

  lemma KeepsInvalidRange(hw: Hw, addr: int, size: int, x: int)
    requires Sound(hw) && 0 <= x < AREA && 0 <= addr
    ensures Keeps(hw, InvalidRange(hw, addr, size), x)
  {
    KeepsSelf(hw, x);
    if !(addr >= AREA || size == 0) {
      var g, p := Edged(hw, addr, size), LineRange(Start(addr), CallSpan(addr, size));
      KeepsEdged(hw, addr, size, x);
      SoundIsTidy(g);
      KeepsInvalidBanks(g, 4, x);
      KeepsInvalidate(g, p, x);
      KeepsBuffer(Invalidate(g, p), x);
      hide Keeps, Edged, Invalidate, DrainWriteBuffer, InvalidBanks;
      KeepsBoth(g, Invalidate(g, p), DrainWriteBuffer(Invalidate(g, p)), x);
      KeepsBoth(hw, g, InvalidRange(hw, addr, size), x);
    }
  }

  lemma SoundIsTidy(hw: Hw)
    requires Sound(hw)
    ensures Tidy(hw)
  {
  }

  // ---- steps -------------------------------------------------------------------------------------

  predicate SameLine16(a: int, x: int) { a - a % 16 == x - x % 16 }

  lemma SameLineParts(a: int, x: int)
    requires 0 <= a && 0 <= x
    ensures SameLine16(a, x) <==> SetOf(a) == SetOf(x) && TagOf(a) == TagOf(x)
  {
    AddressParts(a);
    AddressParts(x);
  }

  lemma KeepsStore(hw: Hw, a: int, v: Byte, x: int)
    requires Sound(hw) && 0 <= a < AREA && 0 <= x < AREA && a != x
    ensures Keeps(hw, Store(hw, a, v), x)
  {
    StoreHolder(hw, a, v, x);
    StoreViews(hw, a, v, x);
  }

  lemma KeepsFill(hw: Hw, a: int, bank: int, x: int)
    requires Legal(hw) && 0 <= a < AREA && 0 <= x < AREA
    ensures Settled(hw, x) ==> Settled(Fill(hw, a, bank), x)
    ensures !SameLine16(a, x) || Fill(hw, a, bank) == hw ==> Keeps(hw, Fill(hw, a, bank), x)
  {
    FillViews(hw, a, bank, x);
    SameLineParts(a, x);
    if !SameLine16(a, x) {
      SameHolder(hw, Fill(hw, a, bank), x);
    }
  }

  lemma KeepsEvict(hw: Hw, bank: int, index: int, x: int)
    requires Legal(hw) && 0 <= x < AREA
    ensures Keeps(hw, Evict(hw, bank, index), x)
  {
    var p := OneLine(bank, index);
    KeepsSelf(hw, x);
    KeepsDrain(hw, p, x);
    assert Tidy(Drain(hw, p));
    KeepsInvalidate(Drain(hw, p), p, x);
    hide Keeps, Drain, Invalidate;
    KeepsBoth(hw, Drain(hw, p), Invalidate(Drain(hw, p), p), x);
  }

  lemma KeepsSeep(hw: Hw, keep: set<int>, x: int)
    requires Legal(hw)
    ensures Keeps(hw, Seep(hw, keep), x)
  {
    SeepEffect(hw, keep, x);
    SameHolder(hw, Seep(hw, keep), x);
  }

  lemma KeepsModes(hw: Hw, x: int)
    requires Legal(hw) && 0 <= x < AREA
    ensures Keeps(hw, Enable(hw), x) && Keeps(hw, WriteBackDisable(hw), x) && Keeps(hw, Disable(hw), x)
    ensures Keeps(hw, BurstEnable(hw), x) && Keeps(hw, BurstDisable(hw), x) && Keeps(hw, WriteBackEnable(hw), x)
  {
    KeepsEnable(hw, x);
    KeepsDisable(hw, x);
    KeepsBurst(hw, x);
    KeepsWriteBackEnable(hw, x);
  }

  lemma KeepsBurst(hw: Hw, x: int)
    ensures Keeps(hw, BurstEnable(hw), x) && Keeps(hw, BurstDisable(hw), x)
  {
    KeepsSelf(hw, x);
    KeepsBuffer(hw, x);
    var g := DrainWriteBuffer(hw);
    KeepsFlags(g, g.(burst := true), x);
    KeepsFlags(g, g.(burst := false), x);
    hide Keeps, DrainWriteBuffer;
    KeepsBoth(hw, g, g.(burst := true), x);
    KeepsBoth(hw, g, g.(burst := false), x);
  }

  lemma NotCached(hw: Hw, x: int)
    requires forall b :: 0 <= b < 4 ==> !hw.lines(b, SetOf(x)).valid
    ensures !Cached(hw, x)
  {
  }

  lemma KeepsEnable(hw: Hw, x: int)
    requires Legal(hw) && 0 <= x < AREA
    ensures Keeps(hw, Enable(hw), x)
  {
    KeepsSelf(hw, x);
    if !hw.enabled {
      var g := InvalidBanks(hw, 4);
      KeepsInvalidBanks(hw, 4, x);
      InvalidBanksEmpty(hw, 4);
      NotCached(g, x);
      KeepsFlags(g, Enable(hw), x);
      hide Keeps, InvalidBanks;
      KeepsBoth(hw, g, Enable(hw), x);
    }
  }

  lemma KeepsWriteBackEnable(hw: Hw, x: int)
    requires Legal(hw) && 0 <= x < AREA
    ensures Keeps(hw, WriteBackEnable(hw), x)
  {
    var g := if hw.enabled then hw else InvalidBanks(hw, 4);
    KeepsSelf(hw, x);
    KeepsInvalidBanks(hw, 4, x);
    InvalidBanksEmpty(hw, 4);
    if !hw.enabled { NotCached(g, x); }
    var b := BurstDisable(g);
    KeepsBurst(g, x);
    BurstSame(g, x);
    KeepsFlags(b, WriteBackEnable(hw), x);
    hide Keeps, InvalidBanks, BurstDisable;
    KeepsBoth(hw, g, b, x);
    KeepsBoth(hw, b, WriteBackEnable(hw), x);
  }

  lemma BurstSame(g: Hw, x: int)
    ensures BurstDisable(g).enabled == g.enabled && Cached(BurstDisable(g), x) == Cached(g, x)
  {
    SameHolder(g, BurstDisable(g), x);
  }

  lemma KeepsDisable(hw: Hw, x: int)
    requires Legal(hw) && 0 <= x < AREA
    ensures Keeps(hw, WriteBackDisable(hw), x) && Keeps(hw, Disable(hw), x)
  {
    KeepsWriteBackDisable(hw, x);
    KeepsSelf(hw, x);
    var w := WriteBackDisable(hw);
    var d := DrainWriteBuffer(w);
    KeepsBuffer(w, x);
    KeepsFlags(d, d.(enabled := false, buffered := false), x);
    hide Keeps, WriteBackDisable, DrainWriteBuffer;
    KeepsBoth(hw, w, d, x);
    KeepsBoth(hw, d, d.(enabled := false, buffered := false), x);
  }

  lemma KeepsWriteBackDisable(hw: Hw, x: int)
    requires Legal(hw) && 0 <= x < AREA
    ensures Keeps(hw, WriteBackDisable(hw), x)
  {
    KeepsSelf(hw, x);
    if hw.writeBack {
      var g := hw.(writeBack := false);
      KeepsFlags(hw, g, x);
      assert Sound(g);
      KeepsDrainBanks(g, 4, x);
      var d := DrainBanks(g, 4);
      KeepsBuffer(d, x);
      hide Keeps, DrainBanks, DrainWriteBuffer, Sound;
      KeepsBoth(hw, g, d, x);
      KeepsBoth(hw, d, DrainWriteBuffer(d), x);
    }
  }

  /** After cache_init only memory has the byte. */
  lemma InitKeeps(hw: Hw, x: int)
    requires 0 <= x < AREA && hw.pending == map[]
    ensures Bare(Init(hw), x) && Settled(Init(hw), x)
  {
    var g := hw.(enabled := false, buffered := false, writeBack := false, burst := false);
    InitMemory(g, 4, x);
    InvalidBanksEmpty(g, 4);
    NotCached(Init(hw), x);
  }

  // ---- lockdown ----------------------------------------------------------------------------------

  /** Locking brings lines in; it never posts a byte, and what it fetches is what was settled. */
  lemma LockLineKeeps(hw: Hw, a: int, x: int)
    requires Sound(hw) && hw.enabled && 0 <= a < AREA && 0 <= x < AREA
    ensures x !in hw.pending ==> x !in LockLine(hw, a).pending
    ensures Settled(hw, x) ==> Settled(LockLine(hw, a), x)
  {
    LockLineViews(hw, a, x);
    LockLineMemory(hw, a, x);
    hide LockLine, CpuView, BufView, Sound;
  }

  lemma LockLineMemory(hw: Hw, a: int, x: int)
    ensures var h := LockLine(hw, a);
      (x !in hw.pending ==> x !in h.pending) && (h.mem(x) == hw.mem(x) || h.mem(x) == BufView(hw, x))
  {
  }

  lemma {:induction false} LockLinesKeep(hw: Hw, a: int, n: nat, x: int)
    requires Sound(hw) && hw.enabled && 0 <= a && 0 <= x < AREA
    ensures x !in hw.pending ==> x !in LockLines(hw, a, n).pending
    ensures Settled(hw, x) ==> Settled(LockLines(hw, a, n), x)
    decreases n
  {
    hide Sound, Settled, LockLine;
    if n > 0 && a < AREA {
      LockLineKeeps(hw, a, x);
      LockLineTidy(hw, a);
      LockLinesKeep(LockLine(hw, a), a + 16, n - 1, x);
    }
  }

  lemma LockdownKeeps(hw: Hw, addr: int, size: int, x: int)
    requires Legal(hw) && 0 <= addr && 0 <= x < AREA
    ensures x !in hw.pending ==> x !in Lockdown(hw, addr, size).pending
    ensures Settled(hw, x) ==> Settled(Lockdown(hw, addr, size), x)
  {
    if LockdownAccepts(hw, addr, size) {
      LockLinesKeep(hw, Start(addr), LineCount(addr, size), x);
    }
  }

  // ---- any step ----------------------------------------------------------------------------------

  /** The step brings the line of `x` into the cache. */
  predicate Caches(hw: Hw, s: Step, x: int)
    requires InScope(s)
  {
    (s.LineFill? || s.CallLockdown?) && !Cached(hw, x) && Cached(Do(hw, s), x)
  }

  lemma StepKeeps(hw: Hw, s: Step, x: int)
    requires Legal(hw) && Allowed(hw, s) && 0 <= x < AREA && Fresh(hw, x)
    requires !(s.CpuStore? && s.addr == x)
    ensures Settled(hw, x) ==> Settled(Do(hw, s), x)
    ensures !Caches(hw, s, x) ==> Keeps(hw, Do(hw, s), x)
  {
    hide CpuView, BufView, HolderFrom, Store, Fill, Evict, Seep, DrainLine, DrainRange;
    match s
    case CpuStore(addr, v) => KeepsStore(hw, addr, v, x);
    case LineFill(addr, bank) => KeepsFill(hw, addr, bank, x); FillPending(hw, addr, bank);
    case LineEvict(bank, index) => KeepsEvict(hw, bank, index, x);
    case BufferSeep(keep) => KeepsSeep(hw, keep, x);
    case CallEnable => KeepsModes(hw, x);
    case CallDisable => KeepsModes(hw, x);
    case CallWriteBackEnable => KeepsModes(hw, x);
    case CallWriteBackDisable => KeepsModes(hw, x);
    case CallBurstEnable => KeepsModes(hw, x);
    case CallBurstDisable => KeepsModes(hw, x);
    case CallInit => InitKeeps(hw, x);
    case CallDrainLine(bank, addr) => KeepsDrainLine(hw, bank, addr, x);
    case CallDrainRange(addr, size) => KeepsDrainRange(hw, addr, size, x);
    case CallLockdown(addr, size) => LockdownKeeps(hw, addr, size, x);
  }

  lemma FillPending(hw: Hw, a: int, bank: int)
    ensures Fill(hw, a, bank).pending == hw.pending && Fill(hw, a, bank).mem == hw.mem
  {
  }
}
