/** The loops of dma_memory_fill over memory, and its dealings with the driver's tables. */
module DmaMemory {
  import opened Bytes
  import opened CacheHardware
  import opened CacheRuns
  import CacheMachine
  import CacheCopies
  import DmaChannels
  import opened DmaFill
  import opened DmaWait
  import DmaDriver

  class Memory {
    var hw: Hw

    constructor (hw: Hw)
      ensures this.hw == hw
    {
      this.hw := hw;
    }

    method StoreByte(a: int, v: Byte)
      modifies this
      ensures hw == Store(old(hw), a, v)
    {
      hw := Store(hw, a, v);
    }

    /** A word whose four bytes are v. */
    method StoreWord(a: int, v: Byte)
      modifies this
      ensures hw == StoreRun(old(hw), a, v, 4)
    {
      ghost var was := hw;
      StoreByte(a, v);
      StoreByte(a + 1, v);
      StoreByte(a + 2, v);
      StoreByte(a + 3, v);
      hide Store;
      assert StoreRun(was, a, v, 4) == StoreRun(hw, a + 4, v, 0);
    }

    /** Byte stores upwards. */
    method StoreBytes(target: int, v: Byte, count: nat)
      modifies this
      ensures hw == StoreRun(old(hw), target, v, count)
    {
      hide Store;
      var t, n := target, count;
      while n > 0
        invariant StoreRun(hw, t, v, n) == StoreRun(old(hw), target, v, count)
      {
        StoreByte(t, v);
        t, n := t + 1, n - 1;
      }
    }

    /** Bytes up to the next word boundary. */
    method AlignStart(target: int, v: Byte, count: nat) returns (t: int, n: nat)
      requires count >= 16
      modifies this
      ensures t == target + Lead(target) && n == count - Lead(target)
      ensures hw == StoreRun(old(hw), target, v, Lead(target))
    {
      hide Store;
      t, n := target, count;
      while t % 4 != 0
        invariant t + Lead(t) == target + Lead(target) && n == count - (t - target) && n >= 13
        invariant StoreRun(hw, t, v, Lead(t)) == StoreRun(old(hw), target, v, Lead(target))
        decreases Lead(t)
      {
        StoreByte(t, v);
        t, n := t + 1, n - 1;
      }
    }

    /** Bytes from the end down to a whole number of words. */
    method AlignEnd(t: int, v: Byte, count: nat) returns (n: nat)
      modifies this
      ensures n == count - count % 4 && hw == TailRun(old(hw), t, v, count)
    {
      hide Store;
      n := count;
      while n % 4 != 0
        invariant n - n % 4 == count - count % 4
        invariant TailRun(hw, t, v, n) == TailRun(old(hw), t, v, count)
      {
        StoreByte(t + n - 1, v);
        n := n - 1;
      }
    }

    /** Word stores upwards. */
    method StoreWords(target: int, v: Byte, count: nat)
      requires count % 4 == 0
      modifies this
      ensures hw == StoreRun(old(hw), target, v, count)
    {
      hide Store;
      var t, n := target, count;
      while n > 0
        invariant n % 4 == 0
        invariant StoreRun(hw, t, v, n) == StoreRun(old(hw), target, v, count)
      {
        SplitRun(hw, t, v, 4, n - 4);
        StoreWord(t, v);
        hide StoreRun;
        t, n := t + 4, n - 4;
      }
    }

    /** dma_memory_fill. `w` says how its wait ends and what the others do with the driver meanwhile, `es` what
        channel, CPU and controller do with memory. */
    method MemoryFill(tables: DmaDriver.Tables, sp: nat, target: nat, v: Byte, byteCount: nat, w: Wait,
                      es: seq<CacheMachine.Event>) returns (code: int)
      requires tables.Valid() && CacheMachine.AllScoped(es)
      requires byteCount >= 16 ==> EndsSo(tables.Now(), RequestOf(sp, target, byteCount), w)
      modifies this, tables`jobs, tables.use, tables.who, tables.owner, tables.box
      ensures tables.Valid()
      ensures (hw, tables.Now(), code) == Filled(old(hw), old(tables.Now()), sp, target, v, byteCount, w, es)
    {
      hide StoreRun, TailRun, FillTables, EndsSo, CacheMachine.Run;
      if byteCount < 16 {
        StoreBytes(target, v, byteCount);
        return 0;
      }
      var t, n := AlignStart(target, v, byteCount);
      n := AlignEnd(t, v, n);
      if n < 128 {
        StoreWords(t, v, n);
        return 0;
      }
      ghost var s := tables.Now();
      ghost var r := RequestOf(sp, target, byteCount);
      var waiting := StartChannel(tables, DmaChannels.Request(sp, t, n / 4, 4, 0));
      if waiting {
        StoreWord(sp, v);
        hw := CacheMachine.Run(CacheCopies.Copying(hw, Source(sp), CacheMachine.Window(t, n)), es).hw;
        code := AwaitChannel(tables, s, r, w);
      } else {
        code := -1;
      }
    }

    /** A driver queue and a channel, or neither. */
    static method StartChannel(tables: DmaDriver.Tables, r: DmaChannels.Request) returns (waiting: bool)
      requires tables.Valid()
      modifies tables`jobs, tables.use, tables.who, tables.owner, tables.box
      ensures tables.Valid() && waiting == Waiting(old(tables.Now()), r)
      ensures waiting ==> tables.Now() == Started(old(tables.Now()), r)
      ensures !waiting ==> forall w :: FillTables(old(tables.Now()), r, w) == (tables.Now(), -1)
    {
      ghost var s := tables.Now();
      var j := |tables.jobs|;
      WithQueueHasJob(s);
      tables.DoStep(DmaChannels.BeginStep(DmaChannels.Waits));
      if tables.jobs[j].phase != DmaChannels.Queued {
        return false;
      }
      tables.DoStep(DmaChannels.StartStep(j, r));
      waiting := tables.jobs[j].phase == DmaChannels.Running;
    }

    /** The wait: the others go on, then there is a message, or ten seconds have passed and queue and channel are
        given back by number. */
    static method AwaitChannel(tables: DmaDriver.Tables, ghost s: DmaChannels.State, ghost r: DmaChannels.Request,
                               w: Wait)
      returns (code: int)
      requires tables.Valid() && DmaChannels.Shaped(s) && Waiting(s, r) && tables.Now() == Started(s, r)
      requires EndsSo(s, r, w)
      modifies tables`jobs, tables.use, tables.who, tables.owner, tables.box
      ensures tables.Valid() && (tables.Now(), code) == FillTables(s, r, w)
    {
      ghost var m := Mine(s);
      var j := |tables.jobs| - 1;
      WithQueueHasJob(s);
      assert j == m by { StartedJobs(s, r); }
      hide DmaChannels.Run;
      tables.DoSteps(w.before);
      match w
      case Woken(before) =>
        var _ := tables.WakeUp(j);
        code := 0;
      case TimedOut(before, between) =>
        tables.LeaveQueue(j);
        tables.DoSteps(between);
        code := if tables.jobs[j].told == 1 then 0 else -1;
        tables.LeaveChannel(j);
    }
  }

  lemma StartedJobs(s: DmaChannels.State, r: DmaChannels.Request)
    requires DmaChannels.Shaped(s)
    ensures |Started(s, r).jobs| == |s.jobs| + 1
  {
    hide DmaChannels.Check, DmaChannels.GetChannel;
  }

  lemma {:induction false} SplitRun(hw: Hw, a: int, v: Byte, m: nat, n: nat)
    ensures StoreRun(hw, a, v, m + n) == StoreRun(StoreRun(hw, a, v, m), a + m, v, n)
    decreases m
  {
    hide Store;
    if m > 0 {
      SplitRun(Store(hw, a, v), a + 1, v, m - 1, n);
    }
  }
}
