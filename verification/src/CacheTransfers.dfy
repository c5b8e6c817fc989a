/** Single transfers while the CPU runs on: exactly when a device's bytes are seen, and exactly when a device gets
    the CPU's bytes. */
module CacheTransfers {
  import opened Bytes
  import opened CacheHardware
  import opened CacheCalls
  import opened CacheRanges
  import opened CacheLockdown
  import opened CacheRuns
  import opened CacheKeeps
  import opened CacheMachine

  // ---- a transfer from a device ------------------------------------------------------------------

  /** What happens between the invalidate call and the completion: anything but CPU stores into the window. */
  ghost predicate TransferEvent(w: Window, e: Event) {
    match e
    case Cpu(s) => InScope(s) && (s.CpuStore? ==> !Inside(w, s.addr))
    case In(a, _) => 0 <= a < AREA && Inside(w, a)
    case _ => false
  }

  ghost predicate Transfer(hw: Hw, w: Window, es: seq<Event>) {
    && AllScoped(es)
    && (forall k :: 0 <= k < |es| ==> TransferEvent(w, es[k]))
    && (forall k :: 0 <= k < |es| && es[k].Cpu? ==> Allowed(Run(Expecting(hw, w), es[..k]).hw, es[k].step))
  }

  function Expecting(hw: Hw, w: Window): Machine { Next(Machine(hw, [], []), Expect(w)) }

  /** What the CPU would read in plain memory. */
  function View(hw: Hw): Plain { x => Known(CpuView(hw, x)) }

  /** Whatever byte the device writes, at whatever moment, the CPU then reads it, and at that moment every
      other byte too is what plain memory has. */
  ghost predicate AlwaysSeen(hw: Hw, w: Window, es: seq<Event>)
    requires AllScoped(es)
  {
    forall k, a, v :: 0 <= k <= |es| && 0 <= a < AREA && Inside(w, a) ==> SeenAt(hw, w, es[..k], a, v)
  }

  ghost predicate SeenAt(hw: Hw, w: Window, es: seq<Event>, a: int, v: Byte)
    requires AllScoped(es)
  {
    AllAgree(Next(Run(Expecting(hw, w), es), In(a, v)).hw,
             PlainNext(PlainRun(PlainNext(View(hw), Expect(w)), es), In(a, v)))
  }

  /** Some step brings a line of the window into the cache. */
  ghost predicate FillsLine(hw: Hw, w: Window, es: seq<Event>)
    requires AllScoped(es)
  {
    exists k, x :: 0 <= k < |es| && es[k].Cpu? && 0 <= x < AREA && Beside(w, x)
      && Caches(Run(Expecting(hw, w), es[..k]).hw, es[k].step, x)
  }

  lemma OneWindow(w: Window, x: int)
    ensures InSome([w], x) <==> Inside(w, x)
    ensures NearSome([w], x) <==> Beside(w, x)
  {
    assert [w][0] == w;
  }

  lemma {:induction false} TransferWindows(hw: Hw, w: Window, es: seq<Event>)
    requires AllScoped(es) && forall k :: 0 <= k < |es| ==> TransferEvent(w, es[k])
    ensures Run(Expecting(hw, w), es).targets == [w] && Run(Expecting(hw, w), es).sources == []
    decreases |es|
  {
    if es != [] {
      assert TransferEvent(w, es[|es| - 1]);
      TransferWindows(hw, w, es[..|es| - 1]);
    }
  }

  /** Without a fill the transfer is a good run. */
  lemma QuietIsGood(hw: Hw, w: Window, es: seq<Event>, j: nat)
    requires GoodWindow(w) && Transfer(hw, w, es) && j <= |es|
    requires forall k, x :: 0 <= k < j && es[k].Cpu? && 0 <= x < AREA && Beside(w, x) ==>
      !Caches(Run(Expecting(hw, w), es[..k]).hw, es[k].step, x)
    ensures GoodRun(Expecting(hw, w), es[..j])
  {
    var m := Expecting(hw, w);
    forall k | 0 <= k < j ensures Good(Run(m, es[..j][..k]), es[..j][k]) {
      assert es[..j][..k] == es[..k] && TransferEvent(w, es[k]);
      TransferWindows(hw, w, es[..k]);
      forall x ensures (InSome([w], x) <==> Inside(w, x)) && (NearSome([w], x) <==> Beside(w, x)) {
        OneWindow(w, x);
      }
      assert InSome([], 0) ==> false;
      hide Run, Expecting, Caches, Beside, Inside;
    }
  }

  lemma ExpectingOk(hw: Hw, w: Window)
    requires Legal(hw) && AllFresh(hw) && GoodWindow(w)
    ensures Inv(Expecting(hw, w)) && AllAgree(Expecting(hw, w).hw, PlainNext(View(hw), Expect(w)))
  {
    var m := Machine(hw, [], []);
    RunStarts(hw);
    assert AllAgree(hw, View(hw));
    assert Good(m, Expect(w));
    NextAllOk(m, View(hw), Expect(w));
  }

  /** The prefix before the first fill, and one more byte from the device. */
  lemma QuietSeen(hw: Hw, w: Window, es: seq<Event>, j: nat, a: int, v: Byte)
    requires Legal(hw) && AllFresh(hw) && GoodWindow(w) && Transfer(hw, w, es) && j <= |es|
    requires GoodRun(Expecting(hw, w), es[..j]) && 0 <= a < AREA && Inside(w, a)
    ensures Inv(Run(Expecting(hw, w), es[..j])) && SeenAt(hw, w, es[..j], a, v)
  {
    ExpectingOk(hw, w);
    var m, p := Expecting(hw, w), PlainNext(View(hw), Expect(w));
    CacheIsMemory(m, p, es[..j]);
    TransferWindows(hw, w, es[..j]);
    OneWindow(w, a);
    assert Good(Run(m, es[..j]), In(a, v));
    NextAllOk(Run(m, es[..j]), PlainRun(p, es[..j]), In(a, v));
    hide Inv, AllAgree, Run, PlainRun, Next, PlainNext;
  }

  lemma BeforeStart(t: int, x: int)
    requires 0 <= x && t - t % 16 <= x < t
    ensures SameLine16(t, x)
  {
  }

  lemma BehindEnd(e: int, x: int)
    requires 0 <= e <= x < RoundUp(e + 1) && 0 <= x
    ensures SameLine16(e, x)
  {
  }

  /** A line of the window has a byte of the window in it. */
  lemma LineHasByte(w: Window, x: int) returns (a: int)
    requires GoodWindow(w) && 0 <= x < AREA && Beside(w, x)
    ensures 0 <= a < AREA && Inside(w, a) && SameLine16(a, x)
  {
    if x < w.at {
      a := w.at;
      BeforeStart(w.at, x);
    } else if x < w.at + w.size {
      a := x;
    } else {
      a := w.at + w.size - 1;
      BehindEnd(a, x);
    }
  }

  lemma CachedSameLine(hw: Hw, a: int, x: int)
    requires 0 <= a && 0 <= x && SameLine16(a, x)
    ensures Cached(hw, a) == Cached(hw, x)
  {
    SameLineParts(a, x);
    SameTagHolder(hw, a, x, 0);
  }

  /** After a fill the device's byte is hidden behind the old one. */
  lemma FilledHides(m: Machine, s: Step, a: int, x: int, v: Byte)
    requires Legal(m.hw) && InScope(s) && Caches(m.hw, s, x) && 0 <= a < AREA && 0 <= x < AREA && SameLine16(a, x)
    requires v != CpuView(Do(m.hw, s), a)
    ensures CpuView(Write(Do(m.hw, s), a, v), a) != v
  {
    var h := Do(m.hw, s);
    CachedSameLine(h, a, x);
    assert h.enabled by { CachesEnabled(m.hw, s, x); }
    SameHolder(h, Write(h, a, v), a);
    hide Do, HolderFrom;
  }

  lemma CachesEnabled(hw: Hw, s: Step, x: int)
    requires InScope(s) && Legal(hw) && Caches(hw, s, x)
    ensures Do(hw, s).enabled
  {
    hide Cached, Legal, LockLines, Start, LineCount;
    if s.LineFill? {
      FillEnabled(hw, s.addr, s.bank, x);
      hide Fill;
    } else if LockdownAccepts(hw, s.addr, s.size) {
      LockdownEnabled(hw, s.addr, s.size);
      hide LockdownAccepts;
    }
  }

  lemma FillEnabled(hw: Hw, a: int, bank: int, x: int)
    requires Cached(hw, x) != Cached(Fill(hw, a, bank), x)
    ensures Fill(hw, a, bank).enabled
  {
    hide Cached;
  }

  lemma LockdownEnabled(hw: Hw, addr: int, size: int)
    requires Legal(hw) && 0 <= addr && LockdownAccepts(hw, addr, size)
    ensures LockLines(hw, Start(addr), LineCount(addr, size)).enabled
  {
    assert Sound(hw);
    hide Sound, LockLines;
    LockLinesSound(hw, Start(addr), LineCount(addr, size));
  }

  lemma FillHidesByte(hw: Hw, w: Window, es: seq<Event>, k: nat, x: int)
    requires Legal(hw) && AllFresh(hw) && GoodWindow(w) && Transfer(hw, w, es)
    requires k < |es| && es[k].Cpu? && 0 <= x < AREA && Beside(w, x)
    requires Inv(Run(Expecting(hw, w), es[..k])) && Caches(Run(Expecting(hw, w), es[..k]).hw, es[k].step, x)
    ensures !AlwaysSeen(hw, w, es)
  {
    var m := Run(Expecting(hw, w), es[..k]);
    var a := LineHasByte(w, x);
    var t := es[..k + 1];
    assert t[..k] == es[..k] && t[|t| - 1] == es[k];
    assert Run(Expecting(hw, w), t) == Next(m, es[k]);
    var v: Byte := if CpuView(Do(m.hw, es[k].step), a) == 0 then 1 else 0;
    FilledHides(m, es[k].step, a, x, v);
    assert !Agrees(Next(Run(Expecting(hw, w), t), In(a, v)).hw,
                   PlainNext(PlainRun(PlainNext(View(hw), Expect(w)), t), In(a, v)), a);
    assert !SeenAt(hw, w, t, a, v);
  }

  /** The least moment with a fill. */
  lemma {:induction false} FirstFill(hw: Hw, w: Window, es: seq<Event>, j: nat) returns (k: nat, x: int)
    requires GoodWindow(w) && Transfer(hw, w, es) && j <= |es| && FillsLine(hw, w, es[..j])
    ensures k < j && es[k].Cpu? && 0 <= x < AREA && Beside(w, x)
    ensures Caches(Run(Expecting(hw, w), es[..k]).hw, es[k].step, x)
    ensures GoodRun(Expecting(hw, w), es[..k])
    decreases j
  {
    hide Run, Expecting, Caches, Beside, GoodRun;
    var i, y :| 0 <= i < j && es[..j][i].Cpu? && 0 <= y < AREA && Beside(w, y)
      && Caches(Run(Expecting(hw, w), es[..j][..i]).hw, es[..j][i].step, y);
    assert es[..j][..i] == es[..i];
    if FillsLine(hw, w, es[..i]) {
      k, x := FirstFill(hw, w, es, i);
    } else {
      k, x := i, y;
      forall l, z | 0 <= l < i && es[l].Cpu? && 0 <= z < AREA && Beside(w, z)
        ensures !Caches(Run(Expecting(hw, w), es[..l]).hw, es[l].step, z)
      {
        assert es[..i][..l] == es[..l] && es[..i][l] == es[l];
      }
      QuietIsGood(hw, w, es, i);
    }
  }

  /** Between the invalidate call and the completion every byte of the device is seen, whatever it is and
      whenever it comes, and nothing else changes, exactly when no line of the window is brought into the
      cache. */
  lemma InputExact(hw: Hw, w: Window, es: seq<Event>)
    requires Legal(hw) && AllFresh(hw) && GoodWindow(w) && Transfer(hw, w, es)
    ensures AlwaysSeen(hw, w, es) <==> !FillsLine(hw, w, es)
  {
    assert es[..|es|] == es;
    if FillsLine(hw, w, es) {
      var k, x := FirstFill(hw, w, es, |es|);
      ExpectingOk(hw, w);
      CacheIsMemory(Expecting(hw, w), PlainNext(View(hw), Expect(w)), es[..k]);
      FillHidesByte(hw, w, es, k, x);
    } else {
      forall k, a, v | 0 <= k <= |es| && 0 <= a < AREA && Inside(w, a) ensures SeenAt(hw, w, es[..k], a, v) {
        QuietIsGood(hw, w, es, k);
        QuietSeen(hw, w, es, k, a, v);
      }
    }
  }

  // ---- aligned windows ---------------------------------------------------------------------------

  /** The CPU reads only outside the window, and nothing is locked down meanwhile. */
  ghost predicate ReadsOutside(w: Window, es: seq<Event>) {
    forall k :: 0 <= k < |es| && es[k].Cpu? ==>
      !es[k].step.CallLockdown? && (es[k].step.LineFill? ==> !Inside(w, es[k].step.addr))
  }

  predicate LineAligned(w: Window) { w.at % 16 == 0 && (w.at + w.size) % 16 == 0 }

  /** Nobody who only reads outside the window can hide a byte of it. */
  ghost predicate SafeFromReaders(w: Window) {
    forall hw, es :: Legal(hw) && AllFresh(hw) && Transfer(hw, w, es) && ReadsOutside(w, es) ==> AlwaysSeen(hw, w, es)
  }

  lemma AlignedBeside(w: Window, x: int)
    requires GoodWindow(w) && LineAligned(w) && Beside(w, x)
    ensures Inside(w, x)
  {
  }

  lemma SameLineBeside(w: Window, a: int, x: int)
    requires GoodWindow(w) && 0 <= a && 0 <= x && SameLine16(a, x) && Beside(w, x)
    ensures Beside(w, a)
  {
    LineStarts(w.at + w.size, a, x);
  }

  lemma LineStarts(e: int, a: int, x: int)
    requires 0 <= a && 0 <= x && SameLine16(a, x) && x < RoundUp(e)
    ensures a < RoundUp(e)
  {
    RoundUpLines(e);
  }

  lemma AlignedQuiet(hw: Hw, w: Window, es: seq<Event>)
    requires Legal(hw) && AllFresh(hw) && GoodWindow(w) && LineAligned(w) && Transfer(hw, w, es) && ReadsOutside(w, es)
    ensures !FillsLine(hw, w, es)
  {
    assert es[..|es|] == es;
    if FillsLine(hw, w, es) {
      var k, x := FirstFill(hw, w, es, |es|);
      var m, s := Run(Expecting(hw, w), es[..k]), es[k].step;
      ExpectingOk(hw, w);
      CacheIsMemory(Expecting(hw, w), PlainNext(View(hw), Expect(w)), es[..k]);
      assert TransferEvent(w, es[k]);
      FillCachesLine(m.hw, s, x);
      SameLineBeside(w, s.addr, x);
      AlignedBeside(w, s.addr);
    }
  }

  lemma FillCachesLine(hw: Hw, s: Step, x: int)
    requires Legal(hw) && InScope(s) && s.LineFill? && 0 <= x < AREA && Caches(hw, s, x)
    ensures SameLine16(s.addr, x)
  {
    KeepsFill(hw, s.addr, s.bank, x);
  }

  /** A byte outside an unaligned window that shares a line with it. */
  lemma Neighbour(w: Window) returns (a: int)
    requires GoodWindow(w) && w.at + w.size <= AREA && !LineAligned(w)
    ensures 0 <= a < AREA && !Inside(w, a) && Beside(w, a)
  {
    a := if w.at % 16 != 0 then w.at - 1 else w.at + w.size;
  }

  /** The CPU reads a variable beside an unaligned buffer while the device has still to write. */
  lemma NeighbourReadHides(w: Window)
    requires GoodWindow(w) && w.at + w.size <= AREA && !LineAligned(w)
    ensures !SafeFromReaders(w)
  {
    var a := Neighbour(w);
    var hw := EmptyCache(map[]);
    var es := [Cpu(LineFill(a, 0))];
    var m := Expecting(hw, w);
    assert es[..0] == [] && Run(m, es[..0]) == m;
    ExpectingOk(hw, w);
    assert ByteOk(m, a);
    EmptyExpecting(w, a);
    assert Transfer(hw, w, es) && ReadsOutside(w, es);
    FillIntoEmpty(m.hw, a);
    assert FillsLine(hw, w, es);
    InputExact(hw, w, es);
  }

  lemma EmptyExpecting(w: Window, a: int)
    requires GoodWindow(w) && 0 <= a < AREA
    ensures var h := Expecting(EmptyCache(map[]), w).hw;
      h.enabled && !Cached(h, a) && forall b :: 0 <= b < 4 ==> !h.lines(b, SetOf(a)).valid
  {
    var hw := EmptyCache(map[]);
    InvalidRangeLegal(hw, w.at, w.size);
    InvalidRangeEffect(hw, w.at, w.size, a);
    NoLines(hw, w.at, w.size, a);
  }

  lemma NoLines(hw: Hw, addr: int, size: int, a: int)
    requires !hw.writeBack && forall b, i :: !hw.lines(b, i).valid
    ensures forall b :: 0 <= b < 4 ==> !InvalidRange(hw, addr, size).lines(b, SetOf(a)).valid
  {
    InvalidBanksEmpty(hw, 4);
  }

  lemma FillIntoEmpty(hw: Hw, a: int)
    requires hw.enabled && !Cached(hw, a) && 0 <= a < AREA && !hw.lines(0, SetOf(a)).valid
    ensures Caches(hw, LineFill(a, 0), a)
  {
    var h := Fill(hw, a, 0);
    assert Holds(h.lines(0, SetOf(a)), a);
  }

  /** A buffer is safe from reads of its neighbours, in every state and run, exactly when it starts and ends on
      a line boundary. */
  lemma AlignedExact(w: Window)
    requires GoodWindow(w) && w.at + w.size <= AREA
    ensures SafeFromReaders(w) <==> LineAligned(w)
  {
    if LineAligned(w) {
      forall hw, es | Legal(hw) && AllFresh(hw) && Transfer(hw, w, es) && ReadsOutside(w, es)
        ensures AlwaysSeen(hw, w, es)
      {
        AlignedQuiet(hw, w, es);
        InputExact(hw, w, es);
      }
    } else {
      NeighbourReadHides(w);
    }
  }

  // ---- a transfer to a device --------------------------------------------------------------------

  /** Between the drain call and the completion: the CPU stores anywhere but into the source. */
  ghost predicate Outgoing(hw: Hw, w: Window, es: seq<Event>) {
    && AllScoped(es)
    && forall k :: 0 <= k < |es| ==>
         es[k].Cpu? && Allowed(Run(Offering(hw, w), es[..k]).hw, es[k].step)
         && (es[k].step.CpuStore? ==> !Inside(w, es[k].step.addr))
  }

  function Offering(hw: Hw, w: Window): Machine { Next(Machine(hw, [], []), Offer(w)) }

  /** Whenever the device reads a byte of the source, it gets what the CPU had there. */
  ghost predicate AlwaysSent(hw: Hw, w: Window, es: seq<Event>)
    requires AllScoped(es)
  {
    forall k, x :: 0 <= k <= |es| && 0 <= x < AREA && Inside(w, x) ==>
      Run(Offering(hw, w), es[..k]).hw.mem(x) == CpuView(hw, x)
  }

  ghost predicate Sends(writeBack: bool, w: Window) {
    forall hw, es :: Legal(hw) && AllFresh(hw) && hw.writeBack == writeBack && Outgoing(hw, w, es)
      ==> AlwaysSent(hw, w, es)
  }

  lemma {:induction false} OutgoingWindows(hw: Hw, w: Window, es: seq<Event>)
    requires AllScoped(es) && forall k :: 0 <= k < |es| ==> es[k].Cpu?
    ensures Run(Offering(hw, w), es).targets == [] && Run(Offering(hw, w), es).sources == [w]
    decreases |es|
  {
    if es != [] {
      assert es[|es| - 1].Cpu?;
      OutgoingWindows(hw, w, es[..|es| - 1]);
    }
  }

  lemma OutgoingIsGood(hw: Hw, w: Window, es: seq<Event>, j: nat)
    requires Outgoing(hw, w, es) && j <= |es|
    ensures GoodRun(Offering(hw, w), es[..j])
  {
    var m := Offering(hw, w);
    forall k | 0 <= k < j ensures Good(Run(m, es[..j][..k]), es[..j][k]) {
      assert es[..j][..k] == es[..k] && es[k].Cpu?;
      OutgoingWindows(hw, w, es[..k]);
      forall x ensures !InSome([], x) && !NearSome([], x) && (InSome([w], x) <==> Inside(w, x)) {
        OneWindow(w, x);
      }
      hide Run, Offering, Caches, Beside, Inside;
    }
  }

  lemma {:induction false} PlainOutgoing(p: Plain, w: Window, es: seq<Event>, x: int)
    requires Inside(w, x)
    requires forall k :: 0 <= k < |es| ==> es[k].Cpu? && (es[k].step.CpuStore? ==> !Inside(w, es[k].step.addr))
    ensures PlainRun(p, es)(x) == p(x)
    decreases |es|
  {
    if es != [] {
      assert es[|es| - 1].Cpu?;
      PlainOutgoing(p, w, es[..|es| - 1], x);
    }
  }

  lemma WriteBackSends(hw: Hw, w: Window, es: seq<Event>)
    requires Legal(hw) && AllFresh(hw) && hw.writeBack && GoodWindow(w) && Outgoing(hw, w, es)
    ensures AlwaysSent(hw, w, es)
  {
    var m0, m, p := Machine(hw, [], []), Offering(hw, w), View(hw);
    RunStarts(hw);
    assert Good(m0, Offer(w));
    NextAllOk(m0, p, Offer(w));
    forall k, x | 0 <= k <= |es| && 0 <= x < AREA && Inside(w, x)
      ensures Run(m, es[..k]).hw.mem(x) == CpuView(hw, x)
    {
      OutgoingIsGood(hw, w, es, k);
      CacheIsMemory(m, p, es[..k]);
      OutgoingWindows(hw, w, es[..k]);
      OneWindow(w, x);
      PlainOutgoing(p, w, es[..k], x);
      var n := Run(m, es[..k]);
      assert ByteOk(n, x) && Agrees(n.hw, PlainRun(p, es[..k]), x);
      hide Run, PlainRun, CpuView;
    }
  }

  /** A range that was only drained reaches the device as the CPU had it, in every state and run, exactly when
      write-back is on: in write-through mode the drain call returns with bytes still in the write buffer. */
  lemma OutputExact(writeBack: bool, w: Window)
    requires GoodWindow(w)
    ensures Sends(writeBack, w) <==> writeBack
  {
    if writeBack {
      forall hw, es | Legal(hw) && AllFresh(hw) && hw.writeBack && Outgoing(hw, w, es) ensures AlwaysSent(hw, w, es) {
        WriteBackSends(hw, w, es);
      }
    } else {
      var hw, es := EmptyCache(map[w.at := 1]), [];
      assert es[..0] == [] && Run(Offering(hw, w), es[..0]).hw == hw;
      assert Outgoing(hw, w, es) && Inside(w, w.at);
      assert !AlwaysSent(hw, w, es);
    }
  }

  // ---- inside the invalidate call ----------------------------------------------------------------

  lemma StoreSound(e: Hw, a: int, v: Byte)
    requires Sound(e) && 0 <= a < AREA
    ensures Sound(Store(e, a, v))
  {
  }

  lemma StoreBuffer(e: Hw, a: int, v: Byte)
    requires Sound(e)
    ensures BufView(Store(e, a, v), a) == if e.enabled && Cached(e, a) && e.writeBack then BufView(e, a) else v
  {
  }

  /** An interrupt stores to a byte beside the range after the edge lines have been drained and before the range
      is invalidated: the store is lost exactly when write-back is on and the byte's line is cached and touched
      by the range, unless it stores the old value. */
  lemma StoreInsideCall(hw: Hw, w: Window, a: int, v: Byte)
    requires Legal(hw) && Fresh(hw, a) && GoodWindow(w) && 0 <= a < AREA && !Inside(w, a)
    ensures var g := Store(Edged(hw, w.at, w.size), a, v);
      var h := InvalidSpan(g, Start(w.at), CallSpan(w.at, w.size));
      CpuView(h, a) == v <==> !(hw.writeBack && Beside(w, a) && Cached(hw, a)) || CpuView(hw, a) == v
  {
    var e := Edged(hw, w.at, w.size);
    EdgedEffect(hw, w.at, w.size, a);
    RangeArithmetic(w.at, w.size);
    EdgeIndexes(w.at, w.size, a);
    SpanCovers(w.at, w.size, a);
    if Beside(w, a) { OutsideIsEdge(w.at, w.size, a); }
    StoreViews(e, a, v, a);
    StoreHolder(e, a, v, a);
    StoreSound(e, a, v);
    StoreBuffer(e, a, v);
    InvalidSpanEffect(Store(e, a, v), Start(w.at), CallSpan(w.at, w.size), a);
    assert Cached(e, a) == Cached(hw, a) && e.enabled == hw.enabled && e.writeBack == hw.writeBack;
    assert Beside(w, a) && hw.writeBack ==> BufView(e, a) == CpuView(hw, a) by {
      assert Beside(w, a) && hw.writeBack ==> !DirtyAt(e, a);
    }
    hide Edged, InvalidSpan, Sound, Store, CpuView, BufView, RoundUp;
  }
}
