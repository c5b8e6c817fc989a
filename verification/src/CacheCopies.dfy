/** A transfer from memory to memory while the CPU runs on: what a channel between two ranges copies, and exactly
    which ranges are safe from a CPU that only reads outside the target. */
module CacheCopies {
  import opened CacheHardware
  import opened CacheCalls
  import opened CacheRanges
  import opened CacheRuns
  import opened CacheKeeps
  import opened CacheMachine
  import opened CacheTransfers

  /** A channel that moves to each target byte y the source byte at `origin(y)`, in any order and as often as it
      likes, while the CPU stores outside both ranges. */
  ghost predicate ChannelEvent(s: Window, t: Window, origin: int -> int, e: Event) {
    match e
    case Cpu(step) => InScope(step) && (step.CpuStore? ==> !Inside(s, step.addr) && !Inside(t, step.addr))
    case Move(x, y) => 0 <= x < AREA && 0 <= y < AREA && Inside(s, x) && Inside(t, y) && x == origin(y)
    case _ => false
  }

  ghost predicate Channel(s: Window, t: Window, origin: int -> int, es: seq<Event>) {
    AllScoped(es) && forall k :: 0 <= k < |es| ==> ChannelEvent(s, t, origin, es[k])
  }

  predicate Disjoint(s: Window, t: Window) { s.at + s.size <= t.at || t.at + t.size <= s.at }

  function Copying(hw: Hw, s: Window, t: Window): Machine { Next(Machine(hw, [], []), OfferAndExpect(s, t)) }

  /** The last CPU store to x along the run, or `was`. */
  function LastStore(es: seq<Event>, x: int, was: Cell): Cell {
    if es == [] then was
    else
      var e := es[|es| - 1];
      if e.Cpu? && e.step.CpuStore? && e.step.addr == x then Known(e.step.v) else LastStore(es[..|es| - 1], x, was)
  }

  lemma {:induction false} PlainMoves(p: Plain, s: Window, t: Window, origin: int -> int, es: seq<Event>, x: int)
    requires Channel(s, t, origin, es) && Disjoint(s, t)
    requires forall y :: Inside(t, y) ==> Inside(s, origin(y))
    ensures Inside(s, x) ==> PlainRun(p, es)(x) == p(x)
    ensures Inside(t, x) ==> PlainRun(p, es)(x) == if Move(origin(x), x) in es then p(origin(x)) else p(x)
    ensures !Inside(s, x) && !Inside(t, x) ==> PlainRun(p, es)(x) == LastStore(es, x, p(x))
    decreases |es|
  {
    if es != [] {
      var n := |es| - 1;
      var f := es[..n];
      assert ChannelEvent(s, t, origin, es[n]) && es == f + [es[n]];
      forall k | 0 <= k < n ensures ChannelEvent(s, t, origin, f[k]) {
        assert f[k] == es[k];
      }
      PlainMoves(p, s, t, origin, f, x);
      if Inside(t, x) { PlainMoves(p, s, t, origin, f, origin(x)); }
    }
  }

  /** Byte x is right: once moved, as the CPU had its origin; elsewhere, as the CPU last stored it. */
  ghost predicate CopiedRight(hw: Hw, s: Window, t: Window, origin: int -> int, es: seq<Event>, x: int)
    requires AllScoped(es)
  {
    var h := Run(Copying(hw, s, t), es).hw;
    && (Inside(t, x) && Move(origin(x), x) in es ==> CpuView(h, x) == CpuView(hw, origin(x)))
    && (!Inside(t, x) && !Inside(s, x) ==> Known(CpuView(h, x)) == LastStore(es, x, Known(CpuView(hw, x))))
    && (Inside(s, x) ==> CpuView(h, x) == CpuView(hw, x))
  }

  /** A channel between two ranges of the area. */
  ghost predicate Copies(s: Window, t: Window, origin: int -> int) {
    && GoodWindow(s) && GoodWindow(t) && Disjoint(s, t) && s.at + s.size <= AREA
    && forall y :: Inside(t, y) ==> Inside(s, origin(y))
  }

  /** While no line of the target is cached every byte is right, for every order of moves and whatever the CPU
      stores outside both ranges. */
  lemma CopySeen(hw: Hw, s: Window, t: Window, origin: int -> int, es: seq<Event>, x: int)
    requires Legal(hw) && AllFresh(hw) && Copies(s, t, origin) && 0 <= x < AREA
    requires Channel(s, t, origin, es) && GoodRun(Copying(hw, s, t), es)
    ensures Inv(Run(Copying(hw, s, t), es)) && CopiedRight(hw, s, t, origin, es, x)
  {
    var m0, m := Machine(hw, [], []), Copying(hw, s, t);
    var p := PlainNext(View(hw), OfferAndExpect(s, t));
    RunStarts(hw);
    assert Good(m0, OfferAndExpect(s, t));
    NextAllOk(m0, View(hw), OfferAndExpect(s, t));
    CacheIsMemory(m, p, es);
    PlainMoves(p, s, t, origin, es, x);
    assert Agrees(Run(m, es).hw, PlainRun(p, es), x);
    LastStoreKnown(es, x, p(x));
    hide Run, PlainRun, Inv, GoodRun, CpuView;
  }

  lemma {:induction false} LastStoreKnown(es: seq<Event>, x: int, c: Cell)
    ensures c.Known? ==> LastStore(es, x, c).Known?
    decreases |es|
  {
    if es != [] {
      LastStoreKnown(es[..|es| - 1], x, c);
    }
  }

  // ---- readers beside the target -----------------------------------------------------------------

  /** The CPU does what it may do and reads only outside the target, and the driver locks nothing down. */
  ghost predicate Readers(hw: Hw, s: Window, t: Window, es: seq<Event>) {
    && AllScoped(es) && ReadsOutside(t, es)
    && forall k :: 0 <= k < |es| && es[k].Cpu? ==> Allowed(Run(Copying(hw, s, t), es[..k]).hw, es[k].step)
  }

  lemma {:induction false} CopyWindows(hw: Hw, s: Window, t: Window, origin: int -> int, es: seq<Event>)
    requires Channel(s, t, origin, es)
    ensures Run(Copying(hw, s, t), es).targets == [t] && Run(Copying(hw, s, t), es).sources == [s]
    decreases |es|
  {
    if es != [] {
      assert ChannelEvent(s, t, origin, es[|es| - 1]);
      CopyWindows(hw, s, t, origin, es[..|es| - 1]);
    }
  }

  /** A CPU that reads outside an aligned target caches no line of it. */
  lemma AlignedEventGood(hw: Hw, s: Window, t: Window, origin: int -> int, es: seq<Event>, k: nat)
    requires Copies(s, t, origin) && LineAligned(t) && Channel(s, t, origin, es) && Readers(hw, s, t, es)
    requires k < |es| && Inv(Run(Copying(hw, s, t), es[..k]))
    ensures Good(Run(Copying(hw, s, t), es[..k]), es[k])
  {
    var m := Run(Copying(hw, s, t), es[..k]);
    assert ChannelEvent(s, t, origin, es[k]);
    CopyWindows(hw, s, t, origin, es[..k]);
    hide Run, Copying, Caches, Inside, Beside;
    forall x ensures (InSome([t], x) <==> Inside(t, x)) && (InSome([s], x) <==> Inside(s, x)) {
      OneWindow(t, x);
      OneWindow(s, x);
    }
    forall x | es[k].Cpu? && 0 <= x < AREA && NearSome([t], x) ensures !Caches(m.hw, es[k].step, x) {
      OneWindow(t, x);
      AlignedNotCached(m.hw, t, es[k].step, x);
    }
  }

  lemma AlignedNotCached(hw: Hw, t: Window, step: Step, x: int)
    requires Legal(hw) && InScope(step) && GoodWindow(t) && LineAligned(t) && 0 <= x < AREA && Beside(t, x)
    requires !step.CallLockdown? && (step.LineFill? ==> !Inside(t, step.addr))
    ensures !Caches(hw, step, x)
  {
    hide Do, Cached, Legal;
    if Caches(hw, step, x) {
      FillCachesLine(hw, step, x);
      SameLineBeside(t, step.addr, x);
      AlignedBeside(t, step.addr);
    }
  }

  lemma {:induction false} AlignedCopyGood(hw: Hw, s: Window, t: Window, origin: int -> int, es: seq<Event>, k: nat)
    requires Legal(hw) && AllFresh(hw) && Copies(s, t, origin) && LineAligned(t)
    requires Channel(s, t, origin, es) && Readers(hw, s, t, es) && k <= |es|
    ensures GoodRun(Copying(hw, s, t), es[..k]) && Inv(Run(Copying(hw, s, t), es[..k]))
    decreases k
  {
    hide Inv, Good, Copying, Legal, AllFresh;
    var m := Copying(hw, s, t);
    if k > 0 {
      AlignedCopyGood(hw, s, t, origin, es, k - 1);
      AlignedEventGood(hw, s, t, origin, es, k - 1);
      forall j | 0 <= j < k ensures Good(Run(m, es[..k][..j]), es[..k][j]) {
        assert es[..k][..j] == es[..j];
        assert j < k - 1 ==> es[..k - 1][..j] == es[..j] && es[..k - 1][j] == es[j];
      }
    }
    forall j | 0 <= j < k ensures ChannelEvent(s, t, origin, es[..k][j]) {
      assert ChannelEvent(s, t, origin, es[j]);
    }
    CopySeen(hw, s, t, origin, es[..k], 0);
  }

  // ---- a reader beside an unaligned target -------------------------------------------------------

  /** Write-through mode with no line in the cache. */
  ghost predicate Blank(hw: Hw) {
    Legal(hw) && hw.enabled && !hw.writeBack && forall b, i :: !hw.lines(b, i).valid
  }

  lemma BlankViews(hw: Hw)
    requires Blank(hw)
    ensures AllFresh(hw) && forall x :: !Cached(hw, x) && CpuView(hw, x) == BufView(hw, x)
  {
  }

  lemma BlankCopying(hw: Hw, s: Window, t: Window, x: int)
    requires Blank(hw) && GoodWindow(t) && 0 <= x < AREA
    ensures var h := Copying(hw, s, t).hw;
      && Legal(h) && h.enabled && !Cached(h, x) && (forall b :: 0 <= b < 4 ==> !h.lines(b, SetOf(x)).valid)
      && CpuView(h, x) == CpuView(hw, x)
  {
    BlankViews(hw);
    InvalidRangeLegal(hw, t.at, t.size);
    InvalidRangeEffect(hw, t.at, t.size, x);
    NoLines(hw, t.at, t.size, x);
    assert DrainRange(hw, s.at, s.size) == hw;
    hide InvalidRange, DrainRange;
  }

  /** One read of a byte beside the target, and then the channel. */
  ghost predicate ReadFirst(es: seq<Event>, n: int) {
    es != [] && es[0] == Cpu(LineFill(n, 0)) && forall k :: 1 <= k < |es| ==> es[k].Move?
  }

  lemma {:induction false} OldStays(m: Machine, n: int, es: seq<Event>, k: nat, a: int)
    requires AllScoped(es) && ReadFirst(es, n) && 1 <= k <= |es|
    requires var h := Run(m, es[..1]).hw; h.enabled && Cached(h, a)
    ensures var h, g := Run(m, es[..1]).hw, Run(m, es[..k]).hw;
      g.enabled && Cached(g, a) && CpuView(g, a) == CpuView(h, a)
    decreases k
  {
    if k > 1 {
      OldStays(m, n, es, k - 1, a);
      var g, e := Run(m, es[..k - 1]), es[k - 1];
      assert es[..k][..k - 1] == es[..k - 1] && Run(m, es[..k]) == Next(g, e);
      SameHolder(g.hw, Write(g.hw, e.y, g.hw.mem(e.x)), a);
      hide Run, HolderFrom;
    }
  }

  /** The read brings the line back, and whatever the channel moves into it stays hidden behind the old bytes. */
  lemma ReadHides(hw: Hw, s: Window, t: Window, n: int, a: int, es: seq<Event>)
    requires Blank(hw) && GoodWindow(t) && 0 <= n < AREA && 0 <= a < AREA && SameLine16(a, n)
    requires AllScoped(es) && ReadFirst(es, n)
    ensures CpuView(Run(Copying(hw, s, t), es).hw, a) == CpuView(hw, a)
  {
    var m := Copying(hw, s, t);
    BlankCopying(hw, s, t, n);
    BlankCopying(hw, s, t, a);
    FillIntoEmpty(m.hw, n);
    FillViews(m.hw, n, 0, a);
    CachedSameLine(Fill(m.hw, n, 0), a, n);
    assert es[..1] == [es[0]] && es[..0] == [] && es[..|es|] == es;
    assert Run(m, es[..1]).hw == Fill(m.hw, n, 0) by { assert es[..1][..0] == []; }
    hide Run, Copying, Fill, CpuView, Cached;
    OldStays(m, n, es, |es|, a);
  }

  /** A read of a neighbour, and all allowed: the target is not touched. */
  lemma ReadFirstReaders(hw: Hw, s: Window, t: Window, n: int, es: seq<Event>)
    requires AllScoped(es) && ReadFirst(es, n) && 0 <= n < AREA && !Inside(t, n)
    ensures Readers(hw, s, t, es)
  {
  }

  /** A byte beside an unaligned target, and one inside it on the same line. */
  lemma NeighbourPair(t: Window) returns (n: int, a: int)
    requires GoodWindow(t) && t.at + t.size <= AREA && !LineAligned(t)
    ensures 0 <= n < AREA && 0 <= a < AREA && !Inside(t, n) && Inside(t, a) && SameLine16(a, n)
  {
    n := Neighbour(t);
    a := LineHasByte(t, n);
  }

  /** In every state and run whose CPU reads stay outside the target, every byte is right at every moment. */
  ghost predicate CopySafe(s: Window, t: Window, origin: int -> int) {
    forall hw, es, x ::
      Legal(hw) && AllFresh(hw) && Channel(s, t, origin, es) && Readers(hw, s, t, es) && 0 <= x < AREA
      ==> CopiedRight(hw, s, t, origin, es, x)
  }

  /** The run that fails, for every target that is not aligned: the CPU reads a neighbour, the channel moves a
      byte onto the same line, and the CPU reads the old byte. */
  lemma CopyHidden(s: Window, t: Window, origin: int -> int)
    requires Copies(s, t, origin) && t.at + t.size <= AREA && !LineAligned(t)
    ensures !CopySafe(s, t, origin)
  {
    var n, a := NeighbourPair(t);
    var hw := EmptyCache(map[]).(mem := x => if Inside(s, x) then 1 else 0);
    var es := [Cpu(LineFill(n, 0)), Move(origin(a), a)];
    assert Inside(s, origin(a)) && !Inside(s, a);
    assert Blank(hw) && CpuView(hw, origin(a)) == 1 && CpuView(hw, a) == 0;
    BlankViews(hw);
    ReadFirstReaders(hw, s, t, n, es);
    ReadHides(hw, s, t, n, a, es);
    assert Channel(s, t, origin, es) && Move(origin(a), a) in es;
    hide Run, CpuView, Copying;
    assert !CopiedRight(hw, s, t, origin, es, a);
  }

  /** A copy is safe from reads of its target's neighbours, in every state and run, exactly when the target starts
      and ends on a line boundary. */
  lemma CopyExact(s: Window, t: Window, origin: int -> int)
    requires Copies(s, t, origin) && t.at + t.size <= AREA
    ensures CopySafe(s, t, origin) <==> LineAligned(t)
  {
    if LineAligned(t) {
      forall hw, es, x |
        Legal(hw) && AllFresh(hw) && Channel(s, t, origin, es) && Readers(hw, s, t, es) && 0 <= x < AREA
        ensures CopiedRight(hw, s, t, origin, es, x)
      {
        AlignedCopyGood(hw, s, t, origin, es, |es|);
        assert es[..|es|] == es;
        CopySeen(hw, s, t, origin, es, x);
      }
    } else {
      CopyHidden(s, t, origin);
    }
  }
}
