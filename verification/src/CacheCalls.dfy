/** What each call of the cache driver does to the controller, as a function of the state before it, and the
    facts about one call that the theorems build on. */
module CacheCalls {
  import opened CacheHardware

  const RANGE_MAX := 0x3FFF_FFF0       // largest size the invalid-range register takes

  predicate Word(x: int) { 0 <= x < WORD }

  function RoundUp(x: int): int { x + (16 - x % 16) % 16 }

  function DrainWriteBuffer(hw: Hw): Hw {
    if hw.enabled && hw.buffered then EmptyBuffer(hw) else hw
  }

  function DrainLine(hw: Hw, bank: int, addr: int): Hw {
    if addr >= AREA || bank >= 4 then hw else DrainWriteBuffer(Drain(hw, OneLine(bank, SetOf(addr))))
  }

  function InvalidLine(hw: Hw, bank: int, addr: int): Hw {
    if addr >= AREA || bank >= 4 then hw else DrainWriteBuffer(Invalidate(hw, OneLine(bank, SetOf(addr))))
  }

  /** Drain the lines at the index of `addr` in banks 0 to n-1. */
  function DrainLines(hw: Hw, addr: int, n: nat): Hw {
    if n == 0 then hw else DrainLine(DrainLines(hw, addr, n - 1), n - 1, addr)
  }

  function DrainBanks(hw: Hw, n: nat): Hw {
    if n == 0 then hw else DrainWriteBuffer(Drain(DrainBanks(hw, n - 1), WholeBank(n - 1)))
  }

  function InvalidBanks(hw: Hw, n: nat): Hw {
    if n == 0 then hw else DrainWriteBuffer(Invalidate(InvalidBanks(hw, n - 1), WholeBank(n - 1)))
  }

  /** The size handed to the range register: lines, clipped to the area, in 32-bit arithmetic. */
  function ClippedSize(start: int, size: int): int {
    if (start + size) % WORD > AREA then AREA - start else size
  }

  /** Edge drain of cache_invalid_range, done only in write-back mode. */
  function DrainEdge(hw: Hw, partial: bool, addr: int): Hw {
    if partial && hw.writeBack then DrainLines(hw, addr, 4) else hw
  }

  function InvalidSpan(hw: Hw, start: int, span: int): Hw {
    if span > RANGE_MAX then InvalidBanks(hw, 4) else DrainWriteBuffer(Invalidate(hw, LineRange(start, span)))
  }

  function DrainSpan(hw: Hw, start: int, span: int): Hw {
    if span > RANGE_MAX then DrainBanks(hw, 4) else DrainWriteBuffer(Drain(hw, LineRange(start, span)))
  }

  function Start(addr: int): int { addr - addr % 16 }

  /** The size after the misaligned head is added, in 32-bit arithmetic. */
  function Reach(addr: int, size: int): int { (size + addr % 16) % WORD }

  /** The span the range register or the whole-bank test sees. */
  function CallSpan(addr: int, size: int): int {
    ClippedSize(Start(addr), RoundUp(Reach(addr, size)) % WORD)
  }

  /** One past the range in 32-bit arithmetic: where the last partial line is looked for. */
  function EdgeEnd(addr: int, size: int): int { (Start(addr) + Reach(addr, size)) % WORD }

  /** The state between the edge drains and the invalidate command. */
  function Edged(hw: Hw, addr: int, size: int): Hw {
    DrainEdge(DrainEdge(hw, addr % 16 != 0, addr), Reach(addr, size) % 16 != 0, EdgeEnd(addr, size))
  }

  function InvalidRange(hw: Hw, addr: int, size: int): Hw {
    if addr >= AREA || size == 0 then hw
    else InvalidSpan(Edged(hw, addr, size), Start(addr), CallSpan(addr, size))
  }

  function DrainRange(hw: Hw, addr: int, size: int): Hw {
    if addr >= AREA || size == 0 || !hw.writeBack then hw
    else DrainSpan(hw, Start(addr), CallSpan(addr, size))
  }

  // ---- lockdown ----------------------------------------------------------------------------------

  /** The search for a bank, from bank `b` on with candidate `cand`; 4 means none. */
  function Scan(hw: Hw, a: int, b: int, cand: int): (r: int)
    requires 0 <= b <= 4
    decreases 4 - b
  {
    if b == 4 then cand else
      var l := hw.lines(b, SetOf(a));
      if !l.valid then Scan(hw, a, b + 1, b)
      else if l.tag == TagOf(a) then (if l.locked then 4 else b)
      else Scan(hw, a, b + 1, if cand == 4 && !l.locked then b else cand)
  }

  function LockLine(hw: Hw, a: int): Hw {
    var c := Scan(hw, a, 0, 4);
    if c < 4 then LockIn(DrainWriteBuffer(InvalidLine(hw, c, a)), c, a) else hw
  }

  function LockLines(hw: Hw, a: int, n: nat): Hw
    decreases n
  {
    if n == 0 || a >= AREA then hw else LockLines(LockLine(hw, a), a + 16, n - 1)
  }

  predicate LockdownAccepts(hw: Hw, addr: int, size: int) {
    0 < size <= 0x4000 && addr < AREA && hw.enabled
  }

  function LineCount(addr: int, size: int): int { (size + addr % 16 + 15) / 16 }

  function Lockdown(hw: Hw, addr: int, size: int): Hw
    requires 0 <= addr
  {
    if LockdownAccepts(hw, addr, size)
    then LockLines(hw, Start(addr), LineCount(addr, size))
    else hw
  }

  // ---- modes -------------------------------------------------------------------------------------

  function BurstEnable(hw: Hw): Hw {
    if !hw.buffered || hw.writeBack then hw else DrainWriteBuffer(hw).(burst := true)
  }

  function BurstDisable(hw: Hw): Hw {
    if hw.burst then DrainWriteBuffer(hw).(burst := false) else hw
  }

  function Enable(hw: Hw): Hw {
    if hw.enabled then hw else InvalidBanks(hw, 4).(enabled := true, buffered := true)
  }

  function WriteBackEnable(hw: Hw): Hw {
    BurstDisable(if hw.enabled then hw else InvalidBanks(hw, 4)).(enabled := true, buffered := true, writeBack := true)
  }

  function WriteBackDisable(hw: Hw): Hw {
    if hw.writeBack then DrainWriteBuffer(DrainBanks(hw.(writeBack := false), 4)) else hw
  }

  function Disable(hw: Hw): Hw {
    if hw.enabled then DrainWriteBuffer(WriteBackDisable(hw)).(enabled := false, buffered := false) else hw
  }

  function Init(hw: Hw): Hw {
    InvalidBanks(hw.(enabled := false, buffered := false, writeBack := false, burst := false), 4)
      .(enabled := true, buffered := true)
  }

  // ---- facts about one call ----------------------------------------------------------------------

  /** At `a`, `h` is `hw` with the line of `a` possibly written back: the CPU reads the same, and memory
      (behind the write buffer) has the CPU's byte once the line is clean again. */
  predicate WrittenBack(hw: Hw, h: Hw, a: int) {
    && Holder(h, a) == Holder(hw, a)
    && CpuView(h, a) == CpuView(hw, a)
    && (DirtyAt(h, a) ==> DirtyAt(hw, a))
    && BufView(h, a) == (if DirtyAt(hw, a) && !DirtyAt(h, a) then CpuView(hw, a) else BufView(hw, a))
  }

  ghost predicate SameModes(hw: Hw, h: Hw) {
    h.enabled == hw.enabled && h.buffered == hw.buffered && h.writeBack == hw.writeBack && h.burst == hw.burst
  }

  lemma DrainLineEffect(hw: Hw, bank: int, addr: int, a: int)
    requires Sound(hw) && 0 <= a < AREA && 0 <= addr
    ensures var h := DrainLine(hw, bank, addr);
      && Sound(h) && SameModes(hw, h) && WrittenBack(hw, h, a)
      && (DirtyAt(h, a) <==> DirtyAt(hw, a) && (addr >= AREA || Holder(hw, a) != bank || SetOf(a) != SetOf(addr)))
  {
    DrainLineSound(hw, bank, addr);
    hide Sound, CpuView, BufView, HolderFrom, Drain;
    DrainViews(hw, OneLine(bank, SetOf(addr)), a);
    EmptyBufferViews(Drain(hw, OneLine(bank, SetOf(addr))), a);
  }

  lemma DrainLineSound(hw: Hw, bank: int, addr: int)
    requires Sound(hw)
    ensures Sound(DrainLine(hw, bank, addr)) && SameModes(hw, DrainLine(hw, bank, addr))
  {
  }

  /** One line invalidated: it is gone, whatever was in it, and the write buffer is empty; all other lines stay. */
  lemma InvalidLineEffect(hw: Hw, bank: int, addr: int, a: int)
    requires Sound(hw) && 0 <= a < AREA && 0 <= addr
    ensures var h := InvalidLine(hw, bank, addr);
      var picked := bank < 4 && addr < AREA && Holder(hw, a) == bank && SetOf(a) == SetOf(addr);
      && Sound(h) && SameModes(hw, h)
      && Holder(h, a) == (if picked then 4 else Holder(hw, a))
      && (DirtyAt(h, a) <==> DirtyAt(hw, a) && !picked)
      && CpuView(h, a) == (if picked then BufView(hw, a) else CpuView(hw, a)) && BufView(h, a) == BufView(hw, a)
      && (bank < 4 && addr < AREA && hw.enabled && hw.buffered ==> h.pending == map[] && h.mem(a) == BufView(hw, a))
  {
    InvalidLineSound(hw, bank, addr);
    hide Sound, CpuView, BufView, HolderFrom, Invalidate;
    InvalidateViews(hw, OneLine(bank, SetOf(addr)), a);
    EmptyBufferViews(Invalidate(hw, OneLine(bank, SetOf(addr))), a);
  }

  lemma InvalidLineSound(hw: Hw, bank: int, addr: int)
    requires Sound(hw)
    ensures Sound(InvalidLine(hw, bank, addr)) && SameModes(hw, InvalidLine(hw, bank, addr))
  {
  }

  lemma {:induction false} DrainLinesEffect(hw: Hw, addr: int, n: nat, a: int)
    requires Sound(hw) && 0 <= a < AREA && 0 <= addr && n <= 4
    ensures var h := DrainLines(hw, addr, n);
      && Sound(h) && SameModes(hw, h) && WrittenBack(hw, h, a)
      && (DirtyAt(h, a) <==> DirtyAt(hw, a) && (addr >= AREA || Holder(hw, a) >= n || SetOf(a) != SetOf(addr)))
  {
    hide Sound, DrainLine, HolderFrom, CpuView, BufView;
    if n > 0 {
      DrainLinesEffect(hw, addr, n - 1, a);
      DrainLineEffect(DrainLines(hw, addr, n - 1), n - 1, addr, a);
    }
  }

  lemma DrainBankEffect(g: Hw, bank: int, a: int)
    requires Sound(g) && 0 <= a < AREA
    ensures var h := DrainWriteBuffer(Drain(g, WholeBank(bank)));
      && Sound(h) && SameModes(g, h) && WrittenBack(g, h, a)
      && (DirtyAt(h, a) <==> DirtyAt(g, a) && Holder(g, a) != bank)
  {
    DrainViews(g, WholeBank(bank), a);
    EmptyBufferViews(Drain(g, WholeBank(bank)), a);
  }

  lemma {:induction false} DrainBanksEffect(hw: Hw, n: nat, a: int)
    requires Sound(hw) && 0 <= a < AREA && n <= 4
    ensures var h := DrainBanks(hw, n);
      && Sound(h) && SameModes(hw, h) && WrittenBack(hw, h, a)
      && (DirtyAt(h, a) <==> DirtyAt(hw, a) && Holder(hw, a) >= n)
  {
    hide Sound, DirtyAt, CpuView, BufView, DrainWriteBuffer, Drain;
    if n > 0 {
      DrainBanksEffect(hw, n - 1, a);
      DrainBankEffect(DrainBanks(hw, n - 1), n - 1, a);
    }
  }

  lemma {:induction false} DrainBanksClean(hw: Hw, n: nat)
    requires Sound(hw) && n <= 4
    ensures forall b, i :: 0 <= b < n && 0 <= i < 256 ==> !DrainBanks(hw, n).lines(b, i).dirty
    ensures Sound(DrainBanks(hw, n))
  {
    DrainBanksEffect(hw, n, 0);
    if n > 0 { DrainBanksClean(hw, n - 1); }
  }

  lemma {:induction false} InvalidBanksEffect(hw: Hw, n: nat, a: int)
    requires Sound(hw) && 0 <= a < AREA && n <= 4
    ensures var h := InvalidBanks(hw, n);
      && Sound(h) && SameModes(hw, h)
      && Holder(h, a) == (if Holder(hw, a) < n then 4 else Holder(hw, a))
      && BufView(h, a) == BufView(hw, a)
      && (hw.enabled && hw.buffered && n > 0 ==> h.pending == map[])
      && (DirtyAt(h, a) ==> DirtyAt(hw, a))
      && CpuView(h, a) == (if Holder(hw, a) < n then BufView(hw, a) else CpuView(hw, a))
  {
    hide CpuView, BufView, HolderFrom, Sound, Invalidate, DirtyAt;
    if n > 0 {
      InvalidBanksEffect(hw, n - 1, a);
      var g := InvalidBanks(hw, n - 1);
      InvalidBankSound(g, n - 1);
      InvalidateViews(g, WholeBank(n - 1), a);
      EmptyBufferViews(Invalidate(g, WholeBank(n - 1)), a);
    }
  }

  lemma {:induction false} InvalidBanksModes(hw: Hw, n: nat)
    ensures SameModes(hw, InvalidBanks(hw, n))
  {
    if n > 0 { InvalidBanksModes(hw, n - 1); }
  }

  lemma {:induction false} DrainBanksModes(hw: Hw, n: nat)
    ensures SameModes(hw, DrainBanks(hw, n))
  {
    if n > 0 { DrainBanksModes(hw, n - 1); }
  }

  lemma InvalidBankSound(g: Hw, b: nat)
    requires Sound(g)
    ensures Tidy(g)
    ensures var h := DrainWriteBuffer(Invalidate(g, WholeBank(b)));
      Sound(h) && SameModes(g, h) && (g.enabled && g.buffered ==> h.pending == map[])
    ensures SameModes(g, Invalidate(g, WholeBank(b)))
  {
  }

  lemma {:induction false} InvalidBanksEmpty(hw: Hw, n: nat)
    requires n <= 4
    ensures forall b, i :: 0 <= b < n ==>
      !InvalidBanks(hw, n).lines(b, i).valid && !InvalidBanks(hw, n).lines(b, i).dirty
  {
    if n > 0 {
      InvalidBanksEmpty(hw, n - 1);
      var g := InvalidBanks(hw, n - 1);
      forall b, i | 0 <= b < n
        ensures !InvalidBanks(hw, n).lines(b, i).valid && !InvalidBanks(hw, n).lines(b, i).dirty
      {
        var v, was := Invalidate(g, WholeBank(n - 1)), g.lines(b, i);
        assert b < n - 1 ==> !was.valid && !was.dirty;
        assert v.lines(b, i) == if b == n - 1 then was.(valid := false, locked := false, dirty := false) else was;
        assert InvalidBanks(hw, n) == DrainWriteBuffer(v);
        assert InvalidBanks(hw, n).lines(b, i) == v.lines(b, i);
      }
    }
  }
}
