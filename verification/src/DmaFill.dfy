/** dma_memory_fill: the CPU sets the unaligned ends, and the middle goes by words or by a DMA channel that
    reads its word from the stack, all of it seen through the cache and on the driver's tables, while other
    tasks, the interrupt and the CPU go on. */
module DmaFill {
  import opened Bytes
  import opened CacheHardware
  import opened CacheRanges
  import opened CacheRuns
  import opened CacheMachine
  import opened CacheCopies
  import DmaChannels
  import opened DmaWait

  // ---- the CPU's part ----------------------------------------------------------------------------

  /** n byte stores upwards. */
  function StoreRun(hw: Hw, a: int, v: Byte, n: nat): Hw
    decreases n
  {
    if n == 0 then hw else StoreRun(Store(hw, a, v), a + 1, v, n - 1)
  }

  /** Byte stores from the end down, until a whole number of words is left. */
  function TailRun(hw: Hw, a: int, v: Byte, n: nat): Hw
    decreases n
  {
    if n % 4 == 0 then hw else TailRun(Store(hw, a + n - 1, v), a, v, n - 1)
  }

  /** Bytes up to the next word boundary. */
  function Lead(t: int): (r: int)
    ensures 0 <= r < 4
  {
    if t % 4 == 0 then 0 else 4 - t % 4
  }

  /** Seen by the CPU, byte x has become v when it is inside, and is as it was otherwise. */
  ghost predicate Painted(hw: Hw, h: Hw, x: int, inside: bool, v: Byte) {
    && Legal(h) && (Fresh(hw, x) ==> Fresh(h, x))
    && CpuView(h, x) == if inside then v else CpuView(hw, x)
  }

  lemma StorePaints(hw: Hw, a: int, v: Byte, x: int)
    requires Legal(hw) && 0 <= a < AREA && 0 <= x < AREA
    ensures Painted(hw, Store(hw, a, v), x, x == a, v)
  {
    StoreViews(hw, a, v, x);
    StoreLegal(hw, a, v);
    hide CpuView, Fresh, Store, Tidy;
  }

  lemma {:induction false} StoreRunPaints(hw: Hw, a: int, v: Byte, n: nat, x: int)
    requires Legal(hw) && 0 <= a && a + n <= AREA && 0 <= x < AREA
    ensures Painted(hw, StoreRun(hw, a, v, n), x, a <= x < a + n, v)
    decreases n
  {
    hide CpuView, Fresh, Store, Legal;
    if n > 0 {
      StorePaints(hw, a, v, x);
      StoreRunPaints(Store(hw, a, v), a + 1, v, n - 1, x);
    }
  }

  lemma {:induction false} TailRunPaints(hw: Hw, a: int, v: Byte, n: nat, x: int)
    requires Legal(hw) && 0 <= a && a + n <= AREA && 0 <= x < AREA
    ensures Painted(hw, TailRun(hw, a, v, n), x, a + (n - n % 4) <= x < a + n, v)
    decreases n
  {
    hide CpuView, Fresh, Store, Legal;
    if n % 4 != 0 {
      StorePaints(hw, a + n - 1, v, x);
      TailRunPaints(Store(hw, a + n - 1, v), a, v, n - 1, x);
      assert (n - 1) - (n - 1) % 4 == n - n % 4;
    }
  }

  lemma StoreRunFresh(hw: Hw, a: int, v: Byte, n: nat)
    requires Legal(hw) && AllFresh(hw) && 0 <= a && a + n <= AREA
    ensures Legal(StoreRun(hw, a, v, n)) && AllFresh(StoreRun(hw, a, v, n))
  {
    hide Legal, Fresh, StoreRun, CpuView;
    StoreRunPaints(hw, a, v, n, 0);
    forall x | 0 <= x < AREA ensures Fresh(StoreRun(hw, a, v, n), x) {
      StoreRunPaints(hw, a, v, n, x);
    }
  }

  // ---- the call ----------------------------------------------------------------------------------

  function Body(t: int, n: nat): int { n - Lead(t) - (n - Lead(t)) % 4 }

  /** The ends that the CPU sets. */
  function Ends(hw: Hw, t: int, v: Byte, n: nat): Hw
    requires n >= 16
  {
    TailRun(StoreRun(hw, t, v, Lead(t)), t + Lead(t), v, n - Lead(t))
  }

  /** The middle is set by the CPU too. */
  predicate Short(t: int, n: nat) { n < 16 || Body(t, n) < 128 }

  function Source(sp: int): Window { Window(sp, 4) }

  function Target(t: int, n: nat): Window { Window(t + Lead(t), Body(t, n)) }

  /** A channel with a fixed source address: the word on the stack over and over. */
  function Origin(sp: int, start: int): int -> int { y => sp + (y - start) % 4 }

  function RequestOf(sp: nat, t: nat, n: nat): DmaChannels.Request
    requires n >= 16
  {
    DmaChannels.Request(sp, t + Lead(t), Body(t, n) / 4, 4, 0)
  }

  /** Memory when the channel starts: the ends are set, the word is on the stack, the source is drained and the
      target invalidated. */
  function Loaded(hw: Hw, sp: int, t: int, v: Byte, n: nat): Machine
    requires n >= 16
  {
    Copying(Primed(hw, sp, t, v, n), Source(sp), Target(t, n))
  }

  /** The ends are set and the word is on the stack. */
  function Primed(hw: Hw, sp: int, t: int, v: Byte, n: nat): Hw
    requires n >= 16
  {
    StoreRun(Ends(hw, t, v, n), sp, v, 4)
  }

  /** dma_memory_fill: memory, the driver's tables and the return code; `es` is what channel, CPU and controller
      do while the call waits. */
  function Filled(hw: Hw, s: DmaChannels.State, sp: nat, t: nat, v: Byte, n: nat, w: Wait, es: seq<Event>)
    : (Hw, DmaChannels.State, int)
    requires DmaChannels.Shaped(s) && AllScoped(es)
  {
    if n < 16 then (StoreRun(hw, t, v, n), s, 0)
    else
      var h := Ends(hw, t, v, n);
      if Short(t, n) then (StoreRun(h, t + Lead(t), v, Body(t, n)), s, 0)
      else
        var (e, code) := FillTables(s, RequestOf(sp, t, n), w);
        (if Waiting(s, RequestOf(sp, t, n)) then CacheMachine.Run(Loaded(hw, sp, t, v, n), es).hw else h, e, code)
  }

  predicate AtEnds(t: int, n: nat, x: int) { t <= x < t + n && !(t + Lead(t) <= x < t + Lead(t) + Body(t, n)) }

  lemma EndsPaint(hw: Hw, t: int, v: Byte, n: nat, x: int)
    requires Legal(hw) && 0 <= t && 16 <= n && t + n <= AREA && 0 <= x < AREA
    ensures Painted(hw, Ends(hw, t, v, n), x, AtEnds(t, n, x), v)
  {
    hide CpuView, Fresh, Legal, StoreRun, TailRun;
    StoreRunPaints(hw, t, v, Lead(t), x);
    TailRunPaints(StoreRun(hw, t, v, Lead(t)), t + Lead(t), v, n - Lead(t), x);
  }

  lemma EndsFresh(hw: Hw, t: int, v: Byte, n: nat)
    requires Legal(hw) && AllFresh(hw) && 0 <= t && 16 <= n && t + n <= AREA
    ensures Legal(Ends(hw, t, v, n)) && AllFresh(Ends(hw, t, v, n))
  {
    hide Legal, Fresh, Ends, CpuView;
    EndsPaint(hw, t, v, n, 0);
    forall x | 0 <= x < AREA ensures Fresh(Ends(hw, t, v, n), x) {
      EndsPaint(hw, t, v, n, x);
    }
  }

  predicate Apart(sp: int, t: int, n: int) { sp + 4 <= t || t + n <= sp }

  /** The places of the call: the range in the cached area, an aligned word of stack apart from it. */
  predicate Placed(sp: nat, t: nat, n: nat) { t + n <= AREA && sp + 4 <= AREA && sp % 4 == 0 && Apart(sp, t, n) }

  lemma PlacedWindows(sp: nat, t: nat, n: nat)
    requires Placed(sp, t, n) && !Short(t, n)
    ensures GoodWindow(Source(sp)) && GoodWindow(Target(t, n)) && Disjoint(Source(sp), Target(t, n))
    ensures FillRequest(RequestOf(sp, t, n))
    ensures forall y :: Inside(Target(t, n), y) ==> Inside(Source(sp), Origin(sp, t + Lead(t))(y))
  {
    assert Body(t, n) % 4 == 0;
    assert (t + Lead(t)) % 4 == 0;
  }

  /** The interrupt reports the transfer only after the channel has moved every byte. */
  ghost predicate ReportMeansMoved(s: DmaChannels.State, sp: nat, t: nat, n: nat, w: Wait, es: seq<Event>)
    requires DmaChannels.Shaped(s) && n >= 16
  {
    var e := FillTables(s, RequestOf(sp, t, n), w).0;
    Mine(s) < |e.jobs| && e.jobs[Mine(s)].told == 1 ==>
      forall y :: Inside(Target(t, n), y) ==> Move(Origin(sp, t + Lead(t))(y), y) in es
  }

  /** What goes on during the wait: the channel moves its word, the CPU stores elsewhere, everybody else uses the
      driver carefully, and the report comes after the last byte. */
  ghost predicate FairWait(s: DmaChannels.State, sp: nat, t: nat, n: nat, w: Wait, es: seq<Event>)
    requires DmaChannels.Shaped(s) && n >= 16
  {
    && Channel(Source(sp), Target(t, n), Origin(sp, t + Lead(t)), es)
    && EndsSo(s, RequestOf(sp, t, n), w) && OthersCareful(s, RequestOf(sp, t, n), w)
    && ReportMeansMoved(s, sp, t, n, w, es)
  }

  lemma {:induction false} NoStore(s: Window, t: Window, origin: int -> int, es: seq<Event>, x: int, c: Cell)
    requires Channel(s, t, origin, es) && Inside(t, x)
    ensures LastStore(es, x, c) == c
    decreases |es|
  {
    if es != [] {
      var n := |es| - 1;
      assert ChannelEvent(s, t, origin, es[n]);
      assert forall k :: 0 <= k < n ==> es[..n][k] == es[k];
      NoStore(s, t, origin, es[..n], x, c);
    }
  }

  /** Byte x is right when the call has reported success: v inside the range, as it was outside, and since then
      only changed by the CPU's stores. */
  ghost predicate FilledRight(hw: Hw, s: DmaChannels.State, sp: nat, t: nat, v: Byte, n: nat, w: Wait,
                              es: seq<Event>, x: int)
    requires DmaChannels.Shaped(s) && AllScoped(es)
  {
    var (h, e, code) := Filled(hw, s, sp, t, v, n, w, es);
    var painted := Known(if t <= x < t + n then v else CpuView(hw, x));
    code == 0 ==> Known(CpuView(h, x)) == if Short(t, n) then painted else LastStore(es, x, painted)
  }

  lemma PrimedFresh(hw: Hw, sp: nat, t: nat, v: Byte, n: nat)
    requires Legal(hw) && AllFresh(hw) && Placed(sp, t, n) && n >= 16
    ensures Legal(Primed(hw, sp, t, v, n)) && AllFresh(Primed(hw, sp, t, v, n))
  {
    EndsFresh(hw, t, v, n);
    StoreRunFresh(Ends(hw, t, v, n), sp, v, 4);
  }

  lemma PrimedViews(hw: Hw, sp: nat, t: nat, v: Byte, n: nat, x: int)
    requires Legal(hw) && Placed(sp, t, n) && n >= 16 && 0 <= x < AREA
    ensures CpuView(Primed(hw, sp, t, v, n), x)
      == if InRange(sp, 4, x) || AtEnds(t, n, x) then v else CpuView(hw, x)
  {
    hide CpuView, Fresh, Legal, StoreRun, Ends;
    EndsPaint(hw, t, v, n, x);
    StoreRunPaints(Ends(hw, t, v, n), sp, v, 4, x);
  }

  /** From what the channel has copied to what the call has set. */
  lemma CopiedSets(hw: Hw, s: DmaChannels.State, sp: nat, t: nat, v: Byte, n: nat, w: Wait,
                   es: seq<Event>, x: int)
    requires Legal(hw) && DmaChannels.Inv(s) && AllScoped(es) && Placed(sp, t, n) && !Short(t, n)
    requires FairWait(s, sp, t, n, w, es) && 0 <= x < AREA && !InRange(sp, 4, x)
    requires CopiedRight(Primed(hw, sp, t, v, n), Source(sp), Target(t, n), Origin(sp, t + Lead(t)), es, x)
    ensures FilledRight(hw, s, sp, t, v, n, w, es, x)
  {
    hide CpuView, Legal, Primed, CacheMachine.Run, FillTables, LastStore, QueueFree, DmaChannels.Inv;
    PlacedWindows(sp, t, n);
    FillSucceeds(s, RequestOf(sp, t, n), w);
    WaitingExact(s, RequestOf(sp, t, n));
    PrimedViews(hw, sp, t, v, n, x);
    var origin := Origin(sp, t + Lead(t));
    if Inside(Target(t, n), x) {
      PrimedViews(hw, sp, t, v, n, origin(x));
      NoStore(Source(sp), Target(t, n), origin, es, x, Known(v));
    }
  }

  lemma ShortSets(hw: Hw, s: DmaChannels.State, sp: nat, t: nat, v: Byte, n: nat, w: Wait,
                  es: seq<Event>, x: int)
    requires Legal(hw) && DmaChannels.Shaped(s) && AllScoped(es) && Placed(sp, t, n) && Short(t, n) && 0 <= x < AREA
    ensures FilledRight(hw, s, sp, t, v, n, w, es, x)
  {
    hide CpuView, Fresh, Legal, StoreRun, TailRun, Ends, FillTables;
    if n < 16 {
      StoreRunPaints(hw, t, v, n, x);
    } else {
      EndsPaint(hw, t, v, n, x);
      StoreRunPaints(Ends(hw, t, v, n), t + Lead(t), v, Body(t, n), x);
    }
  }

  /** A fill that reports success has set exactly the bytes asked for, whatever the alignment and length, as long
      as no line of the channel's target is cached while it waits. */
  lemma FillSets(hw: Hw, s: DmaChannels.State, sp: nat, t: nat, v: Byte, n: nat, w: Wait,
                 es: seq<Event>, x: int)
    requires Legal(hw) && AllFresh(hw) && DmaChannels.Inv(s) && AllScoped(es) && Placed(sp, t, n)
    requires !Short(t, n) ==> FairWait(s, sp, t, n, w, es) && GoodRun(Loaded(hw, sp, t, v, n), es)
    requires 0 <= x < AREA && !InRange(sp, 4, x)
    ensures FilledRight(hw, s, sp, t, v, n, w, es, x)
  {
    assert DmaChannels.Shaped(s);
    hide Primed, FilledRight, Legal, Fresh, GoodRun, CopiedRight, DmaChannels.Inv;
    if Short(t, n) {
      ShortSets(hw, s, sp, t, v, n, w, es, x);
    } else {
      PlacedWindows(sp, t, n);
      PrimedFresh(hw, sp, t, v, n);
      CopySeen(Primed(hw, sp, t, v, n), Source(sp), Target(t, n), Origin(sp, t + Lead(t)), es, x);
      CopiedSets(hw, s, sp, t, v, n, w, es, x);
    }
  }

  /** The whole words inside [t, t + n). */
  lemma BodyIsWords(t: nat, n: nat)
    requires n >= 16
    ensures Body(t, n) == (t + n) / 4 * 4 - (t + 3) / 4 * 4
  {
  }

  /** It succeeds exactly when there are fewer than 16 bytes, or fewer than 128 in whole words, or a driver queue and a
      channel are free, the words are not too many for the count register and the channel reports by the end of the
      call. */
  lemma FilledExact(hw: Hw, s: DmaChannels.State, sp: nat, t: nat, v: Byte, n: nat, w: Wait,
                    es: seq<Event>)
    requires DmaChannels.Inv(s) && AllScoped(es) && Placed(sp, t, n)
    requires !Short(t, n) ==> EndsSo(s, RequestOf(sp, t, n), w) && OthersCareful(s, RequestOf(sp, t, n), w)
    ensures var (h, e, code) := Filled(hw, s, sp, t, v, n, w, es);
      var words := (t + n) / 4 * 4 - (t + 3) / 4 * 4;
      code == 0 <==>
        || n < 16 || words < 128
        || (QueueFree(s) && DmaChannels.SomeFree(s.use) && words <= 4 * 0xFF_FFFF
            && Mine(s) < |e.jobs| && e.jobs[Mine(s)].told == 1)
  {
    hide StoreRun, TailRun, Ends, CacheMachine.Run, FillTables, DmaChannels.Inv;
    if n >= 16 { BodyIsWords(t, n); }
    if !Short(t, n) {
      PlacedWindows(sp, t, n);
      assert Body(t, n) % 4 == 0;
      FillSucceeds(s, RequestOf(sp, t, n), w);
    }
  }

  /** The channel path cannot start: no driver queue, no channel, or too long for the count register. */
  ghost predicate Refused(s: DmaChannels.State, t: nat, n: nat)
    requires DmaChannels.Shaped(s)
  {
    !QueueFree(s) || !DmaChannels.SomeFree(s.use) || Body(t, n) > 4 * DmaChannels.COUNT_MAX
  }

  /** A fill that is refused has set the ends all the same, and nothing else; the tables are as before. */
  lemma RefusedFillPaintsEnds(hw: Hw, s: DmaChannels.State, sp: nat, t: nat, v: Byte, n: nat,
                              w: Wait, es: seq<Event>, x: int)
    requires Legal(hw) && DmaChannels.Inv(s) && AllScoped(es) && Placed(sp, t, n) && 0 <= x < AREA && !Short(t, n)
    requires Refused(s, t, n)
    ensures var (h, e, code) := Filled(hw, s, sp, t, v, n, w, es);
      && code == -1 && Painted(hw, h, x, AtEnds(t, n, x), v)
      && e.use == s.use && e.who == s.who && e.owner == s.owner
  {
    hide CpuView, Fresh, Legal, StoreRun, TailRun, Ends, FillTables;
    PlacedWindows(sp, t, n);
    assert Body(t, n) % 4 == 0;
    EndsPaint(hw, t, v, n, x);
    WaitingExact(s, RequestOf(sp, t, n));
  }

  /** A refused fill changes no byte in any state exactly when start and length are whole words. */
  lemma RefusedFillExact(s: DmaChannels.State, sp: nat, t: nat, n: nat, w: Wait, es: seq<Event>)
    requires DmaChannels.Inv(s) && AllScoped(es) && Placed(sp, t, n) && !Short(t, n) && Refused(s, t, n)
    ensures (forall hw, v, x :: Legal(hw) && 0 <= x < AREA ==>
               CpuView(Filled(hw, s, sp, t, v, n, w, es).0, x) == CpuView(hw, x))
      <==> t % 4 == 0 && n % 4 == 0
  {
    assert DmaChannels.Shaped(s);
    hide Filled, Refused, DmaChannels.Inv;
    if t % 4 == 0 && n % 4 == 0 {
      forall hw, v, x | Legal(hw) && 0 <= x < AREA
        ensures CpuView(Filled(hw, s, sp, t, v, n, w, es).0, x) == CpuView(hw, x)
      {
        RefusedFillPaintsEnds(hw, s, sp, t, v, n, w, es, x);
      }
    } else {
      var hw, v, x := EmptyCache(map[]), 1 as Byte, if t % 4 != 0 then t else t + n - 1;
      assert AtEnds(t, n, x) && CpuView(hw, x) == 0;
      RefusedFillPaintsEnds(hw, s, sp, t, v, n, w, es, x);
    }
  }
}
