/** One step at a time: CPU stores, what the controller does on its own, mode switches and driver calls, and
    what each does to a byte of the CPU's view. CacheMachine puts them into runs. */
module CacheRuns {
  import opened Bytes
  import opened CacheHardware
  import opened CacheCalls
  import opened CacheLockdown

  // ---- what happens besides driver calls ---------------------------------------------------------

  /** A CPU store: into a cached line (dirty in write-back mode, written through otherwise) or past it. */
  function Store(hw: Hw, a: int, v: Byte): Hw {
    var g := Holder(hw, a);
    if hw.enabled && 0 <= g < 4 then
      var was := hw.lines;
      var l := was(g, SetOf(a));
      var line := l.(data := l.data[a % 16 := v], dirty := hw.writeBack);
      (if hw.writeBack then hw else Post(hw, map[a := v]))
        .(lines := (b, i) => if b == g && i == SetOf(a) then line else was(b, i))
    else Post(hw, map[a := v])
  }

  /** The controller reads the line of `a` into a free bank. */
  function Fill(hw: Hw, a: int, bank: int): Hw {
    if hw.enabled && !Cached(hw, a) && 0 <= bank < 4 && Free(hw, bank, SetOf(a)) then
      var was := hw.lines;
      var line := Line(true, false, false, TagOf(a), Fetch(hw, a - a % 16));
      hw.(lines := (b, i) => if b == bank && i == SetOf(a) then line else was(b, i))
    else hw
  }

  /** The controller makes room: an unlocked line is written back and dropped. */
  function Evict(hw: Hw, bank: int, index: int): Hw {
    if hw.lines(bank, index).locked then hw
    else Invalidate(Drain(hw, OneLine(bank, index)), OneLine(bank, index))
  }

  /** The write buffer lets some of its bytes through to memory. */
  function Seep(hw: Hw, keep: set<int>): Hw {
    var m, w := hw.mem, hw.pending;
    hw.(pending := map a | a in w && a in keep :: w[a], mem := a => if a in w then w[a] else m(a))
  }

  /** What the hardware does on its own really happens: a fill brings the line in, clean and unlocked, an eviction
      drops a line unless it is locked, and what leaves the write buffer is in memory. */
  lemma HardwareActs(hw: Hw, a: int, bank: int, index: int, keep: set<int>)
    requires 0 <= a < AREA && 0 <= bank < 4
    ensures hw.enabled && !Cached(hw, a) && Free(hw, bank, SetOf(a)) ==>
      Holder(Fill(hw, a, bank), a) == bank && !DirtyAt(Fill(hw, a, bank), a) && !LockedAt(Fill(hw, a, bank), a)
    ensures var h := Evict(hw, bank, index);
      if hw.lines(bank, index).locked then h == hw else !h.lines(bank, index).valid && !h.lines(bank, index).dirty
    ensures forall x :: x in hw.pending && x !in keep ==>
      x !in Seep(hw, keep).pending && Seep(hw, keep).mem(x) == hw.pending[x]
  {
    if hw.enabled && !Cached(hw, a) && Free(hw, bank, SetOf(a)) {
      FillHolder(hw, a, bank);
    }
    hide HolderFrom, Fetch;
  }

  lemma FillHolder(hw: Hw, a: int, bank: int)
    requires 0 <= a < AREA && 0 <= bank < 4 && hw.enabled && !Cached(hw, a) && Free(hw, bank, SetOf(a))
    ensures Holder(Fill(hw, a, bank), a) == bank
  {
    hide Fetch;
    var h := Fill(hw, a, bank);
    assert forall b :: 0 <= b < 4 && b != bank ==> h.lines(b, SetOf(a)) == hw.lines(b, SetOf(a));
    NotHeld(hw, a, 0);
    HeldAt(h, a, 0, bank);
  }

  lemma {:induction false} NotHeld(hw: Hw, a: int, b: int)
    requires 0 <= b <= 4 && HolderFrom(hw, a, b) == 4
    ensures forall k :: b <= k < 4 ==> !Holds(hw.lines(k, SetOf(a)), a)
    decreases 4 - b
  {
    if b < 4 { NotHeld(hw, a, b + 1); }
  }

  lemma {:induction false} HeldAt(hw: Hw, a: int, b: int, bank: int)
    requires 0 <= b <= bank < 4 && Holds(hw.lines(bank, SetOf(a)), a)
    requires forall k :: b <= k < bank ==> !Holds(hw.lines(k, SetOf(a)), a)
    ensures HolderFrom(hw, a, b) == bank
    decreases 4 - b
  {
    if b < bank { HeldAt(hw, a, b + 1, bank); }
  }

  lemma StoreHolder(hw: Hw, a: int, v: Byte, x: int)
    requires 0 <= a < AREA && 0 <= x < AREA
    ensures Holder(Store(hw, a, v), x) == Holder(hw, x)
  {
    SameHolder(hw, Store(hw, a, v), x);
  }

  /** Two addresses that share a line slot and an offset are one address. */
  lemma SameByte(a: int, x: int)
    requires 0 <= a && 0 <= x && SetOf(a) == SetOf(x) && TagOf(a) == TagOf(x)
    ensures a / 16 == x / 16 && (a % 16 == x % 16 ==> a == x)
  {
    AddressParts(a);
    AddressParts(x);
  }

  lemma StoreViews(hw: Hw, a: int, v: Byte, x: int)
    requires Sound(hw) && 0 <= a < AREA && 0 <= x < AREA
    ensures var h := Store(hw, a, v);
      && CpuView(h, x) == (if x == a then v else CpuView(hw, x))
      && (x != a ==> BufView(h, x) == BufView(hw, x))
      && (Fresh(hw, x) && (hw.writeBack || NoDirty(hw)) ==> Fresh(h, x))
  {
    hide HolderFrom;
    AddressParts(a);
    AddressParts(x);
    StoreHolder(hw, a, v, x);
    StoreHolder(hw, a, v, a);
    if SetOf(a) == SetOf(x) && Holder(hw, a) == Holder(hw, x) < 4 { SameByte(a, x); }
  }

  lemma StoreLegal(hw: Hw, a: int, v: Byte)
    requires Legal(hw) && 0 <= a < AREA
    ensures Legal(Store(hw, a, v)) && SameModes(hw, Store(hw, a, v))
  {
  }

  lemma FillLegal(hw: Hw, a: int, bank: int)
    requires Legal(hw) && 0 <= a < AREA
    ensures Legal(Fill(hw, a, bank)) && SameModes(hw, Fill(hw, a, bank))
  {
    var h := Fill(hw, a, bank);
    forall b, d, i | 0 <= b < d < 4 && 0 <= i < 256 && h.lines(b, i).valid && h.lines(d, i).valid
      ensures h.lines(b, i).tag != h.lines(d, i).tag
    {
      assert i == SetOf(a) && !Cached(hw, a) ==> !Holds(hw.lines(b, i), a) && !Holds(hw.lines(d, i), a);
    }
  }

  lemma FillViews(hw: Hw, a: int, bank: int, x: int)
    requires Legal(hw) && 0 <= a < AREA && 0 <= x < AREA
    ensures var h := Fill(hw, a, bank);
      && CpuView(h, x) == CpuView(hw, x) && BufView(h, x) == BufView(hw, x) && DirtyAt(h, x) == DirtyAt(hw, x)
  {
    var h := Fill(hw, a, bank);
    AddressParts(a);
    AddressParts(x);
    FillLegal(hw, a, bank);
    if h == hw {
    } else if SetOf(x) == SetOf(a) && TagOf(x) == TagOf(a) {
      SameTagHolder(hw, a, x, 0);
      HolderIs(h, x, bank);
      assert x - x % 16 == a - a % 16;
    } else {
      SameHolder(hw, h, x);
    }
  }

  lemma EvictEffect(hw: Hw, bank: int, index: int, x: int)
    requires Legal(hw) && 0 <= x < AREA && 0 <= bank < 4 && 0 <= index < 256
    ensures var h := Evict(hw, bank, index);
      Fresh(hw, x) ==> CpuView(h, x) == CpuView(hw, x) && Fresh(h, x)
  {
    var p := OneLine(bank, index);
    DrainViews(hw, p, x);
    InvalidateViews(Drain(hw, p), p, x);
  }

  lemma EvictLegal(hw: Hw, bank: int, index: int)
    requires Legal(hw)
    ensures Legal(Evict(hw, bank, index)) && SameModes(hw, Evict(hw, bank, index))
  {
    var p := OneLine(bank, index);
    assert Legal(Drain(hw, p));
  }

  lemma SeepEffect(hw: Hw, keep: set<int>, x: int)
    requires Legal(hw)
    ensures var h := Seep(hw, keep);
      && Legal(h) && SameModes(hw, h)
      && CpuView(h, x) == CpuView(hw, x) && BufView(h, x) == BufView(hw, x) && DirtyAt(h, x) == DirtyAt(hw, x)
  {
    SameHolder(hw, Seep(hw, keep), x);
  }

  // ---- mode switches -----------------------------------------------------------------------------

  lemma WriteBackDisableEffect(hw: Hw, x: int)
    requires Legal(hw) && 0 <= x < AREA
    ensures var h := WriteBackDisable(hw);
      && Legal(h) && !h.writeBack && h.enabled == hw.enabled
      && (Fresh(hw, x) ==> CpuView(h, x) == CpuView(hw, x) == BufView(h, x))
  {
    if hw.writeBack {
      var g := hw.(writeBack := false);
      SameHolder(hw, g, x);
      DrainBanksEffect(g, 4, x);
      DrainBanksClean(g, 4);
      EmptyBufferViews(DrainBanks(g, 4), x);
    } else if DirtyAt(hw, x) {
      AddressParts(x);
      assert false;
    }
  }

  lemma DisableEffect(hw: Hw, x: int)
    requires Legal(hw) && 0 <= x < AREA
    ensures var h := Disable(hw);
      Legal(h) && !h.enabled && (Fresh(hw, x) ==> CpuView(h, x) == CpuView(hw, x) && Fresh(h, x))
  {
    WriteBackDisableEffect(hw, x);
    EmptyBufferViews(WriteBackDisable(hw), x);
  }

  lemma EnableEffect(hw: Hw, x: int)
    requires Legal(hw) && 0 <= x < AREA
    ensures var h := Enable(hw);
      Legal(h) && h.enabled && CpuView(h, x) == CpuView(hw, x) && (Fresh(hw, x) ==> Fresh(h, x))
  {
    if !hw.enabled {
      InvalidBanksEffect(hw, 4, x);
      InvalidBanksEmpty(hw, 4);
      SameHolder(InvalidBanks(hw, 4), Enable(hw), x);
    }
  }

  lemma BurstEffect(hw: Hw, x: int)
    requires Legal(hw)
    ensures Legal(BurstEnable(hw)) && Legal(BurstDisable(hw)) && !BurstDisable(hw).burst
    ensures BurstEnable(hw).burst <==> hw.burst || (hw.buffered && !hw.writeBack)
    ensures CpuView(BurstEnable(hw), x) == CpuView(BurstDisable(hw), x) == CpuView(hw, x)
    ensures BufView(BurstEnable(hw), x) == BufView(BurstDisable(hw), x) == BufView(hw, x)
    ensures DirtyAt(BurstEnable(hw), x) == DirtyAt(BurstDisable(hw), x) == DirtyAt(hw, x)
  {
    EmptyBufferViews(hw, x);
    SameHolder(hw, BurstEnable(hw), x);
    SameHolder(hw, BurstDisable(hw), x);
  }

  lemma WriteBackEnableEffect(hw: Hw, x: int)
    requires Legal(hw) && 0 <= x < AREA
    ensures var h := WriteBackEnable(hw);
      Legal(h) && h.writeBack && CpuView(h, x) == CpuView(hw, x) && (Fresh(hw, x) ==> Fresh(h, x))
  {
    if !hw.enabled {
      InvalidBanksEffect(hw, 4, x);
      InvalidBanksEmpty(hw, 4);
    }
    var g := if hw.enabled then hw else InvalidBanks(hw, 4);
    BurstEffect(g, x);
    SameHolder(BurstDisable(g), WriteBackEnable(hw), x);
  }

  // ---- steps -------------------------------------------------------------------------------------

  datatype Step =
    | CpuStore(addr: int, v: Byte)
    | LineFill(addr: int, bank: int)
    | LineEvict(bank: int, index: int)
    | BufferSeep(keep: set<int>)
    | CallEnable | CallDisable | CallWriteBackEnable | CallWriteBackDisable | CallBurstEnable | CallBurstDisable
    | CallInit
    | CallDrainLine(bank: int, addr: int)
    | CallDrainRange(addr: int, size: int)
    | CallLockdown(addr: int, size: int)

  predicate InScope(s: Step) {
    match s
    case CpuStore(addr, _) => 0 <= addr < AREA
    case LineFill(addr, _) => 0 <= addr < AREA
    case LineEvict(bank, index) => 0 <= bank < 4 && 0 <= index < 256
    case CallDrainLine(bank, addr) => 0 <= addr
    case CallDrainRange(addr, size) => 0 <= addr && 0 <= size < WORD
    case CallLockdown(addr, size) => 0 <= addr
    case _ => true
  }

  function Do(hw: Hw, s: Step): Hw
    requires InScope(s)
  {
    match s
    case CpuStore(addr, v) => Store(hw, addr, v)
    case LineFill(addr, bank) => Fill(hw, addr, bank)
    case LineEvict(bank, index) => Evict(hw, bank, index)
    case BufferSeep(keep) => Seep(hw, keep)
    case CallEnable => Enable(hw)
    case CallDisable => Disable(hw)
    case CallWriteBackEnable => WriteBackEnable(hw)
    case CallWriteBackDisable => WriteBackDisable(hw)
    case CallBurstEnable => BurstEnable(hw)
    case CallBurstDisable => BurstDisable(hw)
    case CallInit => Init(hw)
    case CallDrainLine(bank, addr) => DrainLine(hw, bank, addr)
    case CallDrainRange(addr, size) => DrainRange(hw, addr, size)
    case CallLockdown(addr, size) => Lockdown(hw, addr, size)
  }

  /** Memory has every byte the CPU reads, and nothing is on its way. */
  ghost predicate InMemory(hw: Hw) {
    hw.pending == map[] && forall x :: 0 <= x < AREA ==> hw.mem(x) == CpuView(hw, x)
  }

  /** Lockdown is called only while write-back is off, as LockdownKeepsEveryByte demands; cache_init drops the
      lines without draining them, so it is called only when memory has everything. */
  ghost predicate Allowed(hw: Hw, s: Step) {
    InScope(s) && (s.CallLockdown? ==> !hw.writeBack) && (s.CallInit? ==> InMemory(hw))
  }

  /** Whatever its sums wrap to, draining changes no byte the CPU reads. */
  lemma DrainRangeKeeps(hw: Hw, addr: int, size: int, x: int)
    requires Legal(hw) && 0 <= x < AREA && 0 <= addr
    ensures var h := DrainRange(hw, addr, size);
      Legal(h) && SameModes(hw, h) && WrittenBack(hw, h, x)
  {
    if !(addr >= AREA || size == 0 || !hw.writeBack) {
      var start, span := Start(addr), CallSpan(addr, size);
      if span > RANGE_MAX {
        DrainBanksEffect(hw, 4, x);
      } else {
        DrainViews(hw, LineRange(start, span), x);
        EmptyBufferViews(Drain(hw, LineRange(start, span)), x);
      }
    }
  }

  lemma WrittenBackFresh(hw: Hw, h: Hw, x: int)
    requires WrittenBack(hw, h, x) && Fresh(hw, x)
    ensures Fresh(h, x)
  {
  }

  lemma DoOne(hw: Hw, s: Step, x: int)
    requires Legal(hw) && Allowed(hw, s) && 0 <= x < AREA && Fresh(hw, x)
    ensures var h := Do(hw, s);
      && Legal(h) && Fresh(h, x)
      && CpuView(h, x) == (if s.CpuStore? && s.addr == x then s.v else CpuView(hw, x))
  {
    hide CpuView, BufView, HolderFrom, Store, Fill, Evict, Seep, DrainRange;
    match s
    case CpuStore(addr, v) =>
      StoreLegal(hw, addr, v);
      StoreViews(hw, addr, v, x);
    case LineFill(addr, bank) => FillLegal(hw, addr, bank); FillViews(hw, addr, bank, x);
    case LineEvict(bank, index) => EvictLegal(hw, bank, index); EvictEffect(hw, bank, index, x);
    case BufferSeep(keep) => SeepEffect(hw, keep, x);
    case CallEnable => EnableEffect(hw, x);
    case CallDisable => DisableEffect(hw, x);
    case CallWriteBackEnable => WriteBackEnableEffect(hw, x);
    case CallWriteBackDisable => WriteBackDisableEffect(hw, x);
    case CallBurstEnable => BurstEffect(hw, x);
    case CallBurstDisable => BurstEffect(hw, x);
    case CallInit => InitStartsARun(hw, x);
    case CallDrainLine(bank, addr) =>
      DrainLineEffect(hw, bank, addr, x);
      WrittenBackFresh(hw, DrainLine(hw, bank, addr), x);
    case CallDrainRange(addr, size) =>
      DrainRangeKeeps(hw, addr, size, x);
      WrittenBackFresh(hw, DrainRange(hw, addr, size), x);
    case CallLockdown(addr, size) =>
      if LockdownAccepts(hw, addr, size) {
        LockLinesSound(hw, Start(addr), LineCount(addr, size));
        LockLinesTransparent(hw, Start(addr), LineCount(addr, size), x);
      }
  }

  /** The state cache_init leaves starts such a run, with memory as the CPU's view. */
  lemma InitStartsARun(hw: Hw, x: int)
    requires 0 <= x < AREA && hw.pending == map[]
    ensures Legal(Init(hw)) && Fresh(Init(hw), x) && CpuView(Init(hw), x) == hw.mem(x)
    ensures Init(hw).enabled && Init(hw).buffered && !Init(hw).writeBack && !Init(hw).burst
  {
    var g := hw.(enabled := false, buffered := false, writeBack := false, burst := false);
    InvalidBanksEmpty(g, 4);
    InitMemory(g, 4, x);
  }

  lemma {:induction false} InitMemory(g: Hw, n: nat, x: int)
    requires !g.enabled && g.pending == map[] && n <= 4
    ensures InvalidBanks(g, n).mem == g.mem && InvalidBanks(g, n).pending == map[]
    ensures !InvalidBanks(g, n).enabled && InvalidBanks(g, n).buffered == g.buffered
    ensures InvalidBanks(g, n).writeBack == g.writeBack && InvalidBanks(g, n).burst == g.burst
  {
    if n > 0 { InitMemory(g, n - 1, x); }
  }
}
