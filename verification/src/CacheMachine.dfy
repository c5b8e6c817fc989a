/** Whole runs: the CPU, the controller, the driver's calls and DMA channels together, against plain memory.
    The driver invalidates what a channel will write and drains what it will read; the channel then moves
    single bytes at any moment while the CPU runs on. */
module CacheMachine {
  import opened Bytes
  import opened CacheHardware
  import opened CacheCalls
  import opened CacheRanges
  import opened CacheRuns
  import opened CacheKeeps

  datatype Window = Window(at: int, size: int)

  /** `targets` are the ranges channels may write now, `sources` those they may read. */
  datatype Machine = Machine(hw: Hw, targets: seq<Window>, sources: seq<Window>)

  datatype Event =
    | Cpu(step: Step)
    | Expect(t: Window)                     // cache_invalid_range; a device may write from now on
    | Offer(from: Window)                      // cache_drain_range; a device may read from now on
    | OfferAndExpect(from: Window, t: Window)   // both, for a transfer from memory to memory
    | In(a: int, v: Byte)                   // a device writes a byte
    | Move(x: int, y: int)                  // a channel moves the byte at x to y
    | Finish(k: nat) | Withdraw(k: nat)     // a target or a source is done with

  predicate GoodWindow(w: Window) { 0 <= w.at < AREA && 0 < w.size < WORD && Fits(w.at, w.size) }

  predicate Inside(w: Window, x: int) { InRange(w.at, w.size, x) }

  /** `x` shares a line with the window. */
  predicate Beside(w: Window, x: int) { InLines(w.at, w.size, x) }

  ghost predicate InSome(ws: seq<Window>, x: int) { exists k :: 0 <= k < |ws| && Inside(ws[k], x) }

  ghost predicate NearSome(ws: seq<Window>, x: int) { exists k :: 0 <= k < |ws| && Beside(ws[k], x) }

  predicate Scoped(e: Event) { e.Cpu? ==> InScope(e.step) }

  function Write(hw: Hw, a: int, v: Byte): Hw {
    var m := hw.mem;
    hw.(mem := x => if x == a then v else m(x))
  }

  function Without(ws: seq<Window>, k: nat): seq<Window> { if k < |ws| then ws[..k] + ws[k + 1..] else ws }

  function Next(m: Machine, e: Event): Machine
    requires Scoped(e)
  {
    match e
    case Cpu(s) => m.(hw := Do(m.hw, s))
    case Expect(t) => m.(hw := InvalidRange(m.hw, t.at, t.size), targets := m.targets + [t])
    case Offer(s) => m.(hw := DrainRange(m.hw, s.at, s.size), sources := m.sources + [s])
    case OfferAndExpect(s, t) =>
      Machine(InvalidRange(DrainRange(m.hw, s.at, s.size), t.at, t.size), m.targets + [t], m.sources + [s])
    case In(a, v) => m.(hw := Write(m.hw, a, v))
    case Move(x, y) => m.(hw := Write(m.hw, y, m.hw.mem(x)))
    case Finish(k) => m.(targets := Without(m.targets, k))
    case Withdraw(k) => m.(sources := Without(m.sources, k))
  }

  /** Everything but the caching of target lines: the CPU leaves windows alone, a device keeps to its window,
      and a range is only offered by draining while write-back is on. */
  ghost predicate Orderly(m: Machine, e: Event) {
    match e
    case Cpu(s) =>
      Allowed(m.hw, s) && (s.CpuStore? ==> !InSome(m.targets, s.addr) && !InSome(m.sources, s.addr))
    case Expect(t) => GoodWindow(t)
    case Offer(s) => GoodWindow(s) && m.hw.writeBack
    case OfferAndExpect(s, t) => GoodWindow(s) && GoodWindow(t)
    case In(a, _) => 0 <= a < AREA && InSome(m.targets, a)
    case Move(x, y) => 0 <= x < AREA && InSome(m.sources, x) && 0 <= y < AREA && InSome(m.targets, y)
    case _ => true
  }

  /** The event brings a line of a target into the cache. */
  ghost predicate CachesTarget(m: Machine, e: Event)
    requires Scoped(e)
  {
    e.Cpu? && exists x :: 0 <= x < AREA && NearSome(m.targets, x) && Caches(m.hw, e.step, x)
  }

  ghost predicate Good(m: Machine, e: Event) { Scoped(e) && Orderly(m, e) && !CachesTarget(m, e) }

  // ---- the invariant -----------------------------------------------------------------------------

  ghost predicate ByteOk(m: Machine, x: int) {
    && Fresh(m.hw, x)
    && (NearSome(m.targets, x) ==> !Cached(m.hw, x))
    && (InSome(m.targets, x) ==> Bare(m.hw, x))
    && (InSome(m.sources, x) ==> Settled(m.hw, x))
  }

  ghost predicate AllGood(ws: seq<Window>) { forall k :: 0 <= k < |ws| ==> GoodWindow(ws[k]) }

  ghost predicate Inv(m: Machine) {
    Legal(m.hw) && AllGood(m.targets) && forall x :: 0 <= x < AREA ==> ByteOk(m, x)
  }

  /** Plain memory with the same events; a byte is unknown between the driver's call and the device's write. */
  datatype Cell = Known(v: Byte) | Unknown

  type Plain = int -> Cell

  function Put(p: Plain, a: int, c: Cell): Plain { x => if x == a then c else p(x) }

  function Forget(p: Plain, w: Window): Plain { x => if Inside(w, x) then Unknown else p(x) }

  function PlainNext(p: Plain, e: Event): Plain {
    match e
    case Cpu(s) => if s.CpuStore? then Put(p, s.addr, Known(s.v)) else p
    case Expect(t) => Forget(p, t)
    case OfferAndExpect(_, t) => Forget(p, t)
    case In(a, v) => Put(p, a, Known(v))
    case Move(x, y) => Put(p, y, p(x))
    case _ => p
  }

  predicate Agrees(hw: Hw, p: Plain, x: int) { p(x).Known? ==> CpuView(hw, x) == p(x).v }

  ghost predicate AllAgree(hw: Hw, p: Plain) { forall x :: 0 <= x < AREA ==> Agrees(hw, p, x) }

  // ---- one event ---------------------------------------------------------------------------------

  lemma InsideBeside(w: Window, x: int)
    requires GoodWindow(w) && Inside(w, x)
    ensures Beside(w, x)
  {
    RangeInLines(w.at, w.size, x);
  }

  lemma TargetNear(ws: seq<Window>, x: int)
    requires AllGood(ws) && InSome(ws, x)
    ensures NearSome(ws, x)
  {
    var k :| 0 <= k < |ws| && Inside(ws[k], x);
    InsideBeside(ws[k], x);
  }

  lemma SomeMore(ws: seq<Window>, w: Window, x: int)
    ensures InSome(ws + [w], x) <==> InSome(ws, x) || Inside(w, x)
    ensures NearSome(ws + [w], x) <==> NearSome(ws, x) || Beside(w, x)
  {
    var vs := ws + [w];
    assert vs[|ws|] == w;
    assert forall k :: 0 <= k < |ws| ==> vs[k] == ws[k];
  }

  lemma SomeLess(ws: seq<Window>, k: nat, x: int)
    ensures InSome(Without(ws, k), x) ==> InSome(ws, x)
    ensures NearSome(Without(ws, k), x) ==> NearSome(ws, x)
  {
    if k < |ws| {
      var vs := Without(ws, k);
      assert forall j :: 0 <= j < |vs| ==> vs[j] == ws[if j < k then j else j + 1];
    }
  }

  /** The invalidate call: bytes outside the range read the same, bytes inside are bare. */
  lemma ExpectByte(hw: Hw, t: Window, x: int)
    requires Legal(hw) && GoodWindow(t) && 0 <= x < AREA && Fresh(hw, x)
    ensures var h := InvalidRange(hw, t.at, t.size);
      && Legal(h) && Fresh(h, x) && Keeps(hw, h, x)
      && (Beside(t, x) ==> !Cached(h, x)) && (Inside(t, x) ==> Bare(h, x))
      && (!Inside(t, x) ==> CpuView(h, x) == CpuView(hw, x))
  {
    InvalidRangeLegal(hw, t.at, t.size);
    InvalidRangeEffect(hw, t.at, t.size, x);
    KeepsInvalidRange(hw, t.at, t.size, x);
    if Inside(t, x) {
      InsideBeside(t, x);
    } else {
      InvalidRangeKeepsOutside(hw, t.at, t.size, x);
    }
    hide InvalidRange, Keeps, Sound;
  }

  /** The drain call in write-back mode: the range is in memory. */
  lemma OfferByte(hw: Hw, s: Window, x: int)
    requires Legal(hw) && GoodWindow(s) && 0 <= x < AREA && Fresh(hw, x)
    ensures var h := DrainRange(hw, s.at, s.size);
      && Legal(h) && Fresh(h, x) && Keeps(hw, h, x) && CpuView(h, x) == CpuView(hw, x)
      && (Inside(s, x) && hw.writeBack ==> Settled(h, x))
      && (!hw.writeBack ==> h == hw)
  {
    DrainRangeEffect(hw, s.at, s.size, x);
    KeepsDrainRange(hw, s.at, s.size, x);
    if Inside(s, x) { InsideBeside(s, x); }
    hide DrainRange, Keeps, Sound;
  }

  /** In write-through mode the invalidate call settles everything it leaves in the cache. */
  lemma ThroughSettled(hw: Hw, t: Window, x: int)
    requires Legal(hw) && GoodWindow(t) && 0 <= x < AREA && Fresh(hw, x) && !hw.writeBack
    ensures Settled(InvalidRange(hw, t.at, t.size), x)
  {
    InvalidRangeLegal(hw, t.at, t.size);
    InvalidRangeEffect(hw, t.at, t.size, x);
    AddressParts(x);
    var h := InvalidRange(hw, t.at, t.size);
    assert !DirtyAt(hw, x);
    assert h.pending == map[] && !DirtyAt(h, x);
    hide InvalidRange;
  }

  lemma WriteViews(hw: Hw, a: int, v: Byte, x: int)
    requires Bare(hw, a)
    ensures var h := Write(hw, a, v);
      && Holder(h, x) == Holder(hw, x) && DirtyAt(h, x) == DirtyAt(hw, x) && h.pending == hw.pending
      && (x == a ==> CpuView(h, x) == BufView(h, x) == h.mem(x) == v)
      && (x != a ==> CpuView(h, x) == CpuView(hw, x) && BufView(h, x) == BufView(hw, x) && h.mem(x) == hw.mem(x))
  {
    SameHolder(hw, Write(hw, a, v), x);
  }

  lemma WriteLegal(hw: Hw, a: int, v: Byte)
    requires Legal(hw)
    ensures Legal(Write(hw, a, v))
  {
  }

  lemma WriteByte(m: Machine, a: int, v: Byte, x: int)
    requires Inv(m) && 0 <= a < AREA && InSome(m.targets, a) && 0 <= x < AREA
    ensures ByteOk(m.(hw := Write(m.hw, a, v)), x)
    ensures CpuView(Write(m.hw, a, v), x) == if x == a then v else CpuView(m.hw, x)
  {
    assert ByteOk(m, a) && ByteOk(m, x);
    WriteViews(m.hw, a, v, x);
    hide CpuView, BufView, InSome, NearSome, Write;
  }

  lemma CpuByte(m: Machine, s: Step, x: int)
    requires Inv(m) && Good(m, Cpu(s)) && 0 <= x < AREA
    ensures ByteOk(m.(hw := Do(m.hw, s)), x) && Legal(Do(m.hw, s))
    ensures CpuView(Do(m.hw, s), x) == if s.CpuStore? && s.addr == x then s.v else CpuView(m.hw, x)
  {
    assert ByteOk(m, x);
    DoOne(m.hw, s, x);
    if s.CpuStore? && s.addr == x {
      assert ByteOk(m, x);
      if NearSome(m.targets, x) { StoreHolder(m.hw, s.addr, s.v, x); }
    } else {
      StepKeeps(m.hw, s, x);
      assert NearSome(m.targets, x) ==> !Caches(m.hw, s, x);
      assert InSome(m.targets, x) ==> !Cached(m.hw, x);
      if InSome(m.targets, x) && Caches(m.hw, s, x) {
        TargetNear(m.targets, x);
      }
    }
    hide Do, CpuView, BufView, Sound;
  }

  lemma NextByte(m: Machine, p: Plain, e: Event, x: int)
    requires Inv(m) && Good(m, e) && 0 <= x < AREA && AllAgree(m.hw, p)
    ensures ByteOk(Next(m, e), x) && Legal(Next(m, e).hw) && Agrees(Next(m, e).hw, PlainNext(p, e), x)
  {
    assert ByteOk(m, x) && Agrees(m.hw, p, x);
    hide InSome, NearSome, CpuView, Settled, Bare, Fresh, Cached;
    match e
    case Cpu(s) => CpuByte(m, s, x);
    case Expect(t) => ExpectNext(m, t, x);
    case Offer(s) => OfferNext(m, s, x);
    case OfferAndExpect(s, t) => BothNext(m, s, t, x);
    case In(a, v) => WriteByte(m, a, v, x); WriteLegal(m.hw, a, v);
    case Move(y, z) => MoveNext(m, p, y, z, x);
    case Finish(k) => SomeLess(m.targets, k, x);
    case Withdraw(k) => SomeLess(m.sources, k, x);
  }

  lemma ExpectNext(m: Machine, t: Window, x: int)
    requires Inv(m) && GoodWindow(t) && 0 <= x < AREA
    ensures var n := Next(m, Expect(t));
      ByteOk(n, x) && Legal(n.hw) && (!Inside(t, x) ==> CpuView(n.hw, x) == CpuView(m.hw, x))
  {
    assert ByteOk(m, x);
    ExpectByte(m.hw, t, x);
    SomeMore(m.targets, t, x);
    hide InvalidRange, CpuView, InSome, NearSome, Fresh, Cached, BufView;
  }

  lemma OfferNext(m: Machine, s: Window, x: int)
    requires Inv(m) && GoodWindow(s) && m.hw.writeBack && 0 <= x < AREA
    ensures var n := Next(m, Offer(s)); ByteOk(n, x) && Legal(n.hw) && CpuView(n.hw, x) == CpuView(m.hw, x)
  {
    assert ByteOk(m, x);
    OfferByte(m.hw, s, x);
    SomeMore(m.sources, s, x);
    hide DrainRange, CpuView, InSome, NearSome, Fresh, Cached, BufView;
  }

  lemma BothNext(m: Machine, s: Window, t: Window, x: int)
    requires Inv(m) && GoodWindow(s) && GoodWindow(t) && 0 <= x < AREA
    ensures var n := Next(m, OfferAndExpect(s, t));
      ByteOk(n, x) && Legal(n.hw) && (!Inside(t, x) ==> CpuView(n.hw, x) == CpuView(m.hw, x))
  {
    assert ByteOk(m, x);
    OfferByte(m.hw, s, x);
    var d := DrainRange(m.hw, s.at, s.size);
    ExpectByte(d, t, x);
    if !m.hw.writeBack { ThroughSettled(m.hw, t, x); }
    SomeMore(m.targets, t, x);
    SomeMore(m.sources, s, x);
    hide DrainRange, InvalidRange, CpuView, InSome, NearSome, Fresh, Cached, BufView, Bare, Settled;
  }

  /** A source byte is what the CPU reads there, so the channel moves what the CPU would have. */
  lemma MoveNext(m: Machine, p: Plain, y: int, z: int, x: int)
    requires Inv(m) && Good(m, Move(y, z)) && 0 <= x < AREA && AllAgree(m.hw, p)
    ensures var n := Next(m, Move(y, z));
      ByteOk(n, x) && Legal(n.hw) && Agrees(n.hw, PlainNext(p, Move(y, z)), x)
  {
    assert ByteOk(m, y) && Agrees(m.hw, p, y) && Agrees(m.hw, p, x);
    assert m.hw.mem(y) == CpuView(m.hw, y);
    WriteByte(m, z, m.hw.mem(y), x);
    WriteLegal(m.hw, z, m.hw.mem(y));
    hide CpuView, InSome, NearSome, ByteOk, Write, Legal;
  }

  lemma NextAllOk(m: Machine, p: Plain, e: Event)
    requires Inv(m) && Good(m, e) && AllAgree(m.hw, p)
    ensures Inv(Next(m, e)) && AllAgree(Next(m, e).hw, PlainNext(p, e))
  {
    assert Scoped(e);
    hide ByteOk, Agrees, Legal, Next, PlainNext, Good;
    NextByte(m, p, e, 0);
    forall x | 0 <= x < AREA ensures ByteOk(Next(m, e), x) && Agrees(Next(m, e).hw, PlainNext(p, e), x) {
      NextByte(m, p, e, x);
    }
    NextTargets(m, e);
  }

  lemma NextTargets(m: Machine, e: Event)
    requires AllGood(m.targets) && Good(m, e)
    ensures AllGood(Next(m, e).targets)
  {
  }

  // ---- runs --------------------------------------------------------------------------------------

  predicate AllScoped(es: seq<Event>) { forall k :: 0 <= k < |es| ==> Scoped(es[k]) }

  function Run(m: Machine, es: seq<Event>): Machine
    requires AllScoped(es)
  {
    if es == [] then m else Next(Run(m, es[..|es| - 1]), es[|es| - 1])
  }

  function PlainRun(p: Plain, es: seq<Event>): Plain {
    if es == [] then p else PlainNext(PlainRun(p, es[..|es| - 1]), es[|es| - 1])
  }

  ghost predicate GoodRun(m: Machine, es: seq<Event>)
    requires AllScoped(es)
  {
    forall k :: 0 <= k < |es| ==> Good(Run(m, es[..k]), es[k])
  }

  /** The CPU's view agrees with plain memory over every run in which the CPU leaves open windows alone and
      brings no line of a target into the cache: stores, fills, evictions, buffer traffic, mode switches,
      driver calls, and channels that read and write at any moment. */
  lemma {:induction false} CacheIsMemory(m: Machine, p: Plain, es: seq<Event>)
    requires Inv(m) && AllAgree(m.hw, p) && AllScoped(es) && GoodRun(m, es)
    ensures Inv(Run(m, es)) && AllAgree(Run(m, es).hw, PlainRun(p, es))
    decreases |es|
  {
    if es != [] {
      var n := |es| - 1;
      var t := es[..n];
      forall k | 0 <= k < n ensures t[..k] == es[..k] && t[k] == es[k] {
      }
      hide Inv, AllAgree, Good, Next, PlainNext;
      CacheIsMemory(m, p, t);
      NextAllOk(Run(m, t), PlainRun(p, t), es[n]);
    }
  }

  /** Any legal state without stale copies starts such a run, with plain memory as the CPU's view. */
  lemma RunStarts(hw: Hw)
    requires Legal(hw) && AllFresh(hw)
    ensures Inv(Machine(hw, [], [])) && AllAgree(hw, x => Known(CpuView(hw, x)))
  {
    assert AllGood([]);
    assert forall x :: !InSome([], x) && !NearSome([], x);
  }
}
