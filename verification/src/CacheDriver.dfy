/** The driver itself: the calls of drv_l1_cache.c as they change the controller, each proved to do what
    CacheCalls says of it. Results are 0 for success and -1 for a refused call, as in the source. */
module CacheDriver {
  import opened CacheHardware
  import opened CacheCalls
  import opened CacheRanges

  lemma Aligned(addr: int, size: int)
    requires Word(addr) && Word(size)
    ensures 0 <= Reach(addr, size) < WORD
    ensures addr % 16 == 0 ==> Start(addr) == addr && Reach(addr, size) == size
    ensures Reach(addr, size) % 16 == 0 ==> RoundUp(Reach(addr, size)) % WORD == Reach(addr, size)
  {
  }

  lemma RequestInLines(addr: int, size: int)
    requires Word(addr) && 0 < size
    ensures 0 <= Start(addr) <= addr && RoundUp(size + addr % 16) == 16 * LineCount(addr, size)
    ensures LineCount(addr, size) > 0
  {
    RoundUpLines(size + addr % 16);
  }

  class Controller {
    var hw: Hw

    method CallDrainWriteBuffer()
      modifies this
      ensures hw == DrainWriteBuffer(old(hw))
      ensures !(old(hw).enabled && old(hw).buffered) ==> hw == old(hw)
    {
      if hw.enabled && hw.buffered {
        hw := EmptyBuffer(hw);
      }
    }

    method CallDrainLine(bank: int, addr: int) returns (r: int)
      requires 0 <= bank && Word(addr)
      modifies this
      ensures hw == DrainLine(old(hw), bank, addr)
      ensures r == 0 && hw.enabled && hw.buffered ==> hw.pending == map[]
      ensures if addr < AREA && bank < 4 then r == 0 else r == -1 && hw == old(hw)
    {
      if addr >= AREA || bank >= 4 {
        return -1;
      }
      hw := Drain(hw, OneLine(bank, addr / 16 % 256));
      CallDrainWriteBuffer();
      return 0;
    }

    method CallInvalidLine(bank: int, addr: int) returns (r: int)
      requires 0 <= bank && Word(addr)
      modifies this
      ensures hw == InvalidLine(old(hw), bank, addr)
      ensures r == 0 && hw.enabled && hw.buffered ==> hw.pending == map[]
      ensures if addr < AREA && bank < 4 then r == 0 else r == -1 && hw == old(hw)
    {
      if addr >= AREA || bank >= 4 {
        return -1;
      }
      hw := Invalidate(hw, OneLine(bank, addr / 16 % 256));
      CallDrainWriteBuffer();
      return 0;
    }

    method CallDrainBank(bank: int) returns (r: int)
      requires 0 <= bank
      modifies this
      ensures bank < 4 ==> hw == DrainWriteBuffer(Drain(old(hw), WholeBank(bank))) && r == 0
      ensures r == 0 && hw.enabled && hw.buffered ==> hw.pending == map[]
      ensures bank >= 4 ==> hw == old(hw) && r == -1
    {
      if bank >= 4 {
        return -1;
      }
      hw := Drain(hw, WholeBank(bank));
      CallDrainWriteBuffer();
      return 0;
    }

    method CallInvalidBank(bank: int) returns (r: int)
      requires 0 <= bank
      modifies this
      ensures bank < 4 ==> hw == DrainWriteBuffer(Invalidate(old(hw), WholeBank(bank))) && r == 0
      ensures r == 0 && hw.enabled && hw.buffered ==> hw.pending == map[]
      ensures bank >= 4 ==> hw == old(hw) && r == -1
    {
      if bank >= 4 {
        return -1;
      }
      hw := Invalidate(hw, WholeBank(bank));
      CallDrainWriteBuffer();
      return 0;
    }

    method DrainAllBanks()
      modifies this
      ensures hw == DrainBanks(old(hw), 4)
    {
      for i := 0 to 4
        invariant hw == DrainBanks(old(hw), i)
      {
        var _ := CallDrainBank(i);
      }
    }

    method InvalidAllBanks()
      modifies this
      ensures hw == InvalidBanks(old(hw), 4)
    {
      for i := 0 to 4
        invariant hw == InvalidBanks(old(hw), i)
      {
        var _ := CallInvalidBank(i);
      }
    }

    method DrainAtIndex(addr: int)
      requires Word(addr)
      modifies this
      ensures hw == DrainLines(old(hw), addr, 4)
    {
      for i := 0 to 4
        invariant hw == DrainLines(old(hw), addr, i)
      {
        var _ := CallDrainLine(i, addr);
      }
    }

    method CallDrainRange(addr: int, size: int) returns (r: int)
      requires Word(addr) && Word(size)
      modifies this
      ensures hw == DrainRange(old(hw), addr, size)
      ensures if addr < AREA && size != 0 && old(hw).writeBack then r == 0 else r == -1 && hw == old(hw)
    {
      if addr >= AREA || size == 0 {
        return -1;
      }
      if !hw.writeBack {
        return -1;
      }
      Aligned(addr, size);
      var a, s := addr, size;
      if a % 16 != 0 {
        s := (s + a % 16) % WORD;
      }
      assert s == Reach(addr, size);
      s := RoundUp(s) % WORD;
      a := Start(a);
      s := CallClip(a, s);
      if s > RANGE_MAX {
        DrainAllBanks();
        return 0;
      }
      hw := Drain(hw, LineRange(a, s));
      CallDrainWriteBuffer();
      return 0;
    }

    /** The clip against the end of the area that both range calls share. */
    method CallClip(a: int, s: int) returns (t: int)
      ensures t == ClippedSize(a, s)
    {
      t := s;
      if (a + s) % WORD > AREA {
        t := AREA - a;
      }
    }

    method CallInvalidRange(addr: int, size: int) returns (r: int)
      requires Word(addr) && Word(size)
      modifies this
      ensures hw == InvalidRange(old(hw), addr, size)
      ensures if addr < AREA && size != 0 then r == 0 else r == -1 && hw == old(hw)
    {
      hide DrainEdge, InvalidSpan, RoundUp, Reach, Start;
      if addr >= AREA || size == 0 {
        return -1;
      }
      var a, s := CallDrainHead(addr, size);
      s := CallDrainTail(a, s);
      s := CallClip(a, s);
      CallInvalidSpan(a, s);
      return 0;
    }

    /** A misaligned start: its line is drained and the range widened to the line's beginning. */
    method CallDrainHead(addr: int, size: int) returns (a: int, s: int)
      requires Word(addr) && Word(size)
      modifies this
      ensures hw == DrainEdge(old(hw), addr % 16 != 0, addr)
      ensures a == Start(addr) && s == Reach(addr, size) && Word(a) && Word(s)
    {
      Aligned(addr, size);
      a, s := addr, size;
      if a % 16 != 0 {
        if hw.writeBack {
          DrainAtIndex(a);
        }
        s := (s + a % 16) % WORD;
        a := Start(a);
      }
    }

    /** The last partial line, and the size rounded up to whole lines. */
    method CallDrainTail(a: int, s: int) returns (t: int)
      requires Word(a) && Word(s)
      modifies this
      ensures hw == DrainEdge(old(hw), s % 16 != 0, (a + s) % WORD)
      ensures t == RoundUp(s) % WORD
    {
      assert s % 16 == 0 ==> RoundUp(s) % WORD == s;
      t := s;
      if s % 16 != 0 {
        if hw.writeBack {
          DrainAtIndex((a + s) % WORD);
        }
        t := RoundUp(s) % WORD;
      }
    }

    /** The invalidate command, over all banks when the range register cannot hold the size. */
    method CallInvalidSpan(a: int, s: int)
      modifies this
      ensures hw == InvalidSpan(old(hw), a, s)
    {
      if s > RANGE_MAX {
        InvalidAllBanks();
        return;
      }
      hw := Invalidate(hw, LineRange(a, s));
      CallDrainWriteBuffer();
    }

    /** The bank search of one lockdown step; the loop leaves at the first bank that holds the line. */
    method FindBank(addr: int) returns (candidate: int)
      requires 0 <= addr < AREA
      ensures candidate == Scan(hw, addr, 0, 4) && 0 <= candidate <= 4
    {
      candidate := 4;
      var bank := 0;
      while bank < 4
        invariant 0 <= bank <= 4 && 0 <= candidate <= 4
        invariant Scan(hw, addr, bank, candidate) == Scan(hw, addr, 0, 4)
      {
        var l := hw.lines(bank, SetOf(addr));
        if l.valid {
          if l.tag == TagOf(addr) {
            if l.locked {
              candidate := 4;
              break;
            } else {
              candidate := bank;
              break;
            }
          } else if candidate == 4 {
            if !l.locked {
              candidate := bank;
            }
          }
        } else {
          candidate := bank;
        }
        bank := bank + 1;
      }
    }

    method LockOne(a: int)
      requires 0 <= a < AREA
      modifies this
      ensures hw == LockLine(old(hw), a)
    {
      var candidate := FindBank(a);
      if candidate < 4 {
        var _ := CallInvalidLine(candidate, a);
        CallDrainWriteBuffer();
        hw := LockIn(hw, candidate, a);
      }
    }

    method CallLockdown(addr: int, size: int) returns (r: int)
      requires Word(addr) && Word(size)
      modifies this
      ensures hw == Lockdown(old(hw), addr, size)
      ensures if 0 < size <= 0x4000 && addr < AREA && old(hw).enabled then r == 0 else r == -1 && hw == old(hw)
    {
      if size == 0 || size > 0x4000 {
        return -1;
      }
      if addr >= AREA {
        return -1;
      }
      if !hw.enabled {
        return -1;
      }
      RequestInLines(addr, size);
      LockFrom(Start(addr), RoundUp(size + addr % 16), LineCount(addr, size));
      return 0;
    }

    /** The loop over the lines of a request; it leaves early at the end of the area. */
    method LockFrom(start: int, size: int, ghost lines: nat)
      requires 0 <= start < AREA && size == 16 * lines
      modifies this
      ensures hw == LockLines(old(hw), start, lines)
    {
      var a, s := start, size;
      ghost var n: nat := lines;
      ghost var goal := LockLines(hw, start, lines);
      while s != 0
        invariant 0 <= a < AREA && s == 16 * n
        invariant LockLines(hw, a, n) == goal
        decreases s
      {
        LockOne(a);
        s := s - 16;
        a := a + 16;
        n := n - 1;
        if a >= AREA {
          return;
        }
      }
    }

    method CallBurstEnable() returns (r: int)
      modifies this
      ensures hw == BurstEnable(old(hw))
      ensures if old(hw).buffered && !old(hw).writeBack then r == 0 && hw.burst else r == -1 && hw == old(hw)
      ensures SameModes(old(hw).(burst := hw.burst), hw)
    {
      if !hw.buffered {
        return -1;
      }
      if hw.writeBack {
        return -1;
      }
      CallDrainWriteBuffer();
      hw := hw.(burst := true);
      return 0;
    }

    method CallBurstDisable()
      modifies this
      ensures hw == BurstDisable(old(hw))
      ensures SameModes(old(hw).(burst := false), hw) && (!old(hw).burst ==> hw == old(hw))
    {
      if !hw.burst {
        return;
      }
      CallDrainWriteBuffer();
      hw := hw.(burst := false);
    }

    method CallInit()
      modifies this
      ensures hw == Init(old(hw))
      ensures hw.enabled && hw.buffered && !hw.writeBack && !hw.burst
      ensures forall b, i :: 0 <= b < 4 ==> !hw.lines(b, i).valid
    {
      hw := hw.(enabled := false, buffered := false, writeBack := false, burst := false);
      ghost var off := hw;
      InvalidAllBanks();
      InvalidBanksEmpty(off, 4);
      InvalidBanksModes(off, 4);
      hw := hw.(enabled := true, buffered := true);
    }

    method CallEnable()
      modifies this
      ensures hw == Enable(old(hw))
      ensures hw.enabled && hw.writeBack == old(hw).writeBack && hw.burst == old(hw).burst
      ensures if old(hw).enabled then hw == old(hw) else hw.buffered
    {
      InvalidBanksModes(hw, 4);
      if hw.enabled {
        return;
      }
      InvalidAllBanks();
      hw := hw.(enabled := true, buffered := true);
    }

    method CallDisable()
      modifies this
      ensures hw == Disable(old(hw))
      ensures if old(hw).enabled then SameModes(old(hw).(enabled := false, buffered := false, writeBack := false), hw)
              else hw == old(hw)
    {
      if !hw.enabled {
        return;
      }
      if hw.writeBack {
        CallWriteBackDisable();
      }
      CallDrainWriteBuffer();
      hw := hw.(enabled := false, buffered := false);
    }

    method CallWriteBackEnable()
      modifies this
      ensures hw == WriteBackEnable(old(hw))
      ensures hw.enabled && hw.buffered && hw.writeBack && !hw.burst
    {
      if !hw.enabled {
        InvalidAllBanks();
      }
      CallBurstDisable();
      hw := hw.(enabled := true, buffered := true, writeBack := true);
    }

    method CallWriteBackDisable()
      modifies this
      ensures hw == WriteBackDisable(old(hw))
      ensures if old(hw).writeBack then SameModes(old(hw).(writeBack := false), hw) else hw == old(hw)
    {
      DrainBanksModes(hw.(writeBack := false), 4);
      if !hw.writeBack {
        return;
      }
      hw := hw.(writeBack := false);
      DrainAllBanks();
      CallDrainWriteBuffer();
    }
  }
}
