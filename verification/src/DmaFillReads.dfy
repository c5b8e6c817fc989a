/** Fills while other tasks read: exactly which ranges are safe from a CPU that only reads outside the channel's
    target. */
module DmaFillReads {
  import opened Bytes
  import opened CacheHardware
  import opened CacheKeeps
  import opened CacheRanges
  import opened CacheRuns
  import opened CacheMachine
  import opened CacheTransfers
  import opened CacheCopies
  import DmaChannels
  import opened DmaWait
  import opened DmaFill

  /** A fair wait in which the CPU reads only outside the channel's target, and the driver locks nothing down. */
  ghost predicate ReadersWait(hw: Hw, s: DmaChannels.State, sp: nat, t: nat, v: Byte, n: nat, w: Wait,
                              es: seq<Event>)
    requires DmaChannels.Shaped(s) && n >= 16
  {
    FairWait(s, sp, t, n, w, es) && Readers(Primed(hw, sp, t, v, n), Source(sp), Target(t, n), es)
  }

  /** In every state and run whose CPU reads stay outside the channel's target, success means that every byte is
      right. */
  ghost predicate FillSafe(sp: nat, t: nat, n: nat) {
    forall hw, s, v, w, es, x ::
      && Legal(hw) && AllFresh(hw) && DmaChannels.Inv(s) && AllScoped(es) && 0 <= x < AREA && !InRange(sp, 4, x)
      && (!Short(t, n) ==> ReadersWait(hw, s, sp, t, v, n, w, es))
      ==> FilledRight(hw, s, sp, t, v, n, w, es, x)
  }

  // ---- the safe fills ----------------------------------------------------------------------------

  lemma AlignedFillSets(hw: Hw, s: DmaChannels.State, sp: nat, t: nat, v: Byte, n: nat, w: Wait,
                        es: seq<Event>, x: int)
    requires Legal(hw) && AllFresh(hw) && DmaChannels.Inv(s) && AllScoped(es) && Placed(sp, t, n) && !Short(t, n)
    requires ReadersWait(hw, s, sp, t, v, n, w, es) && LineAligned(Target(t, n)) && 0 <= x < AREA
    requires !InRange(sp, 4, x)
    ensures FilledRight(hw, s, sp, t, v, n, w, es, x)
  {
    hide Primed, FilledRight, Legal, Fresh, GoodRun, DmaChannels.Inv;
    PlacedWindows(sp, t, n);
    PrimedFresh(hw, sp, t, v, n);
    AlignedCopyGood(Primed(hw, sp, t, v, n), Source(sp), Target(t, n), Origin(sp, t + Lead(t)), es, |es|);
    assert es[..|es|] == es;
    FillSets(hw, s, sp, t, v, n, w, es, x);
  }

  /** A fill that is too long for the count register never reports success. */
  lemma LongFillFails(hw: Hw, s: DmaChannels.State, sp: nat, t: nat, v: Byte, n: nat, w: Wait,
                      es: seq<Event>, x: int)
    requires DmaChannels.Inv(s) && AllScoped(es) && Placed(sp, t, n) && Body(t, n) > 4 * DmaChannels.COUNT_MAX
    requires !Short(t, n) && FairWait(s, sp, t, n, w, es)
    ensures FilledRight(hw, s, sp, t, v, n, w, es, x)
  {
    BodyIsWords(t, n);
    hide DmaChannels.Inv, CacheMachine.Run, FillTables, LastStore, Body, Lead, Filled, EndsSo, OthersCareful;
    FilledExact(hw, s, sp, t, v, n, w, es);
  }

  // ---- the run that fails ------------------------------------------------------------------------

  /** The interrupt reports the transfer and the waiting task is woken. */
  const REPORTED := Woken([DmaChannels.IsrStep(0)])

  lemma ResetReports(r: DmaChannels.Request)
    requires FillRequest(r) && r.count <= DmaChannels.COUNT_MAX
    ensures DmaChannels.Inv(DmaChannels.RESET)
    ensures EndsSo(DmaChannels.RESET, r, REPORTED) && OthersCareful(DmaChannels.RESET, r, REPORTED)
    ensures Waiting(DmaChannels.RESET, r) && FillTables(DmaChannels.RESET, r, REPORTED).1 == 0
  {
  }

  /** The channel's moves, one for each byte of the target. */
  function MovesOf(origin: int -> int, at: int, n: nat): (r: seq<Event>)
    ensures |r| == n && forall k :: 0 <= k < n ==> r[k] == Move(origin(at + k), at + k)
  {
    seq(n, k => Move(origin(at + k), at + k))
  }

  lemma {:induction false} StoreRunBlank(hw: Hw, a: int, v: Byte, n: nat)
    requires Blank(hw) && 0 <= a && a + n <= AREA
    ensures Blank(StoreRun(hw, a, v, n))
    decreases n
  {
    hide Blank, Store;
    if n > 0 {
      StoreBlank(hw, a, v);
      StoreRunBlank(Store(hw, a, v), a + 1, v, n - 1);
    }
  }

  lemma {:induction false} TailRunBlank(hw: Hw, a: int, v: Byte, n: nat)
    requires Blank(hw) && 0 <= a && a + n <= AREA
    ensures Blank(TailRun(hw, a, v, n))
    decreases n
  {
    hide Blank, Store;
    if n % 4 != 0 {
      StoreBlank(hw, a + n - 1, v);
      TailRunBlank(Store(hw, a + n - 1, v), a, v, n - 1);
    }
  }

  lemma StoreBlank(hw: Hw, a: int, v: Byte)
    requires Blank(hw) && 0 <= a < AREA
    ensures Blank(Store(hw, a, v))
  {
    BlankViews(hw);
    StoreLegal(hw, a, v);
    assert !Cached(hw, a);
  }

  lemma PrimedBlank(hw: Hw, sp: nat, t: nat, v: Byte, n: nat)
    requires Blank(hw) && Placed(sp, t, n) && n >= 16
    ensures Blank(Primed(hw, sp, t, v, n))
  {
    hide Blank, StoreRun, TailRun;
    StoreRunBlank(hw, t, v, Lead(t));
    TailRunBlank(StoreRun(hw, t, v, Lead(t)), t + Lead(t), v, n - Lead(t));
    StoreRunBlank(Ends(hw, t, v, n), sp, v, 4);
  }

  /** What the CPU and the channel do in the run that fails. */
  function HiddenRun(sp: nat, w: Window, next: int): (es: seq<Event>)
    requires w.size >= 0
  {
    [Cpu(LineFill(next, 0))] + MovesOf(Origin(sp, w.at), w.at, w.size)
  }

  lemma HiddenRunAt(sp: nat, w: Window, next: int, k: nat)
    requires w.size >= 0 && 1 <= k < |HiddenRun(sp, w, next)|
    ensures HiddenRun(sp, w, next)[k] == Move(Origin(sp, w.at)(w.at + k - 1), w.at + k - 1)
    ensures Inside(w, w.at + k - 1)
  {
    assert w.at + (k - 1) == w.at + k - 1;
  }

  lemma HiddenRunReads(sp: nat, w: Window, next: int)
    requires w.size >= 0 && 0 <= next < AREA
    ensures AllScoped(HiddenRun(sp, w, next)) && ReadFirst(HiddenRun(sp, w, next), next)
  {
    var es := HiddenRun(sp, w, next);
    forall k | 1 <= k < |es| ensures es[k].Move? {
      HiddenRunAt(sp, w, next, k);
    }
  }

  ghost predicate MovesAll(w: Window, origin: int -> int, es: seq<Event>) {
    forall y :: Inside(w, y) ==> Move(origin(y), y) in es
  }

  lemma HiddenRunMoves(sp: nat, w: Window, next: int)
    requires GoodWindow(w) && 0 <= next < AREA && !Inside(w, next) && w.at + w.size <= AREA && sp + 4 <= AREA
    ensures var es, origin := HiddenRun(sp, w, next), Origin(sp, w.at);
      && Channel(Source(sp), w, origin, es) && MovesAll(w, origin, es)
  {
    var es, origin := HiddenRun(sp, w, next), Origin(sp, w.at);
    HiddenRunReads(sp, w, next);
    forall y | Inside(w, y) ensures Move(origin(y), y) in es {
      HiddenRunAt(sp, w, next, 1 + y - w.at);
      assert es[1 + y - w.at] == Move(origin(y), y);
    }
    forall k | 0 <= k < |es| ensures ChannelEvent(Source(sp), w, origin, es[k]) {
      if k > 0 { HiddenRunAt(sp, w, next, k); }
    }
  }

  /** Every byte has been moved, whatever is reported. */
  lemma HiddenRunReport(s: DmaChannels.State, sp: nat, t: nat, n: nat, w: Wait, es: seq<Event>)
    requires DmaChannels.Shaped(s) && n >= 16
    requires MovesAll(Target(t, n), Origin(sp, t + Lead(t)), es)
    ensures ReportMeansMoved(s, sp, t, n, w, es)
  {
    hide FillTables, Origin;
  }

  /** The wait of the run that fails is fair. */
  lemma HiddenRunFair(s: DmaChannels.State, sp: nat, t: nat, n: nat, w: Wait, next: int)
    requires DmaChannels.Shaped(s) && Placed(sp, t, n) && !Short(t, n)
    requires EndsSo(s, RequestOf(sp, t, n), w) && OthersCareful(s, RequestOf(sp, t, n), w)
    requires 0 <= next < AREA && !Inside(Target(t, n), next)
    ensures Target(t, n).size >= 0 && FairWait(s, sp, t, n, w, HiddenRun(sp, Target(t, n), next))
  {
    hide Origin, HiddenRun, Channel, MovesAll, FairWait, EndsSo, OthersCareful, ReportMeansMoved;
    hide GoodWindow, FillRequest, Inside;
    FillShape(sp, t, n);
    TargetStarts(t, n);
    HiddenRunMoves(sp, Target(t, n), next);
    HiddenRunReport(s, sp, t, n, w, HiddenRun(sp, Target(t, n), next));
    FairFrom(s, sp, t, n, w, HiddenRun(sp, Target(t, n), next));
  }

  lemma TargetStarts(t: nat, n: nat)
    ensures Target(t, n).at == t + Lead(t)
  {
  }

  lemma FillShape(sp: nat, t: nat, n: nat)
    requires Placed(sp, t, n) && !Short(t, n)
    ensures n >= 16 && sp + 4 <= AREA && GoodWindow(Target(t, n)) && FillRequest(RequestOf(sp, t, n))
    ensures Target(t, n).size >= 0 && Target(t, n).at + Target(t, n).size <= AREA
    ensures Body(t, n) <= 4 * DmaChannels.COUNT_MAX ==> RequestOf(sp, t, n).count <= DmaChannels.COUNT_MAX
    ensures DmaChannels.Shaped(DmaChannels.RESET)
  {
    assert GoodWindow(Target(t, n)) && FillRequest(RequestOf(sp, t, n)) by { PlacedWindows(sp, t, n); }
    assert RequestOf(sp, t, n).count == Body(t, n) / 4;
    hide Lead, GoodWindow, FillRequest;
  }

  lemma FairFrom(s: DmaChannels.State, sp: nat, t: nat, n: nat, w: Wait, es: seq<Event>)
    requires DmaChannels.Shaped(s) && n >= 16 && Channel(Source(sp), Target(t, n), Origin(sp, t + Lead(t)), es)
    requires EndsSo(s, RequestOf(sp, t, n), w) && OthersCareful(s, RequestOf(sp, t, n), w)
    requires ReportMeansMoved(s, sp, t, n, w, es)
    ensures FairWait(s, sp, t, n, w, es)
  {
    hide EndsSo, OthersCareful, ReportMeansMoved, Channel;
  }

  /** Byte `a` is not right when the fill reports success. */
  lemma HiddenByte(hw: Hw, s: DmaChannels.State, sp: nat, t: nat, n: nat, w: Wait, next: int, a: int, es: seq<Event>)
    requires DmaChannels.Shaped(s)
    requires Blank(hw) && CpuView(hw, a) == 0 && Placed(sp, t, n) && !Short(t, n) && AllScoped(es)
    requires 0 <= next < AREA && 0 <= a < AREA && !Inside(Target(t, n), next) && Inside(Target(t, n), a)
    requires SameLine16(a, next) && ReadFirst(es, next) && FairWait(s, sp, t, n, w, es)
    requires Waiting(s, RequestOf(sp, t, n)) && FillTables(s, RequestOf(sp, t, n), w).1 == 0
    ensures Readers(Primed(hw, sp, t, 1, n), Source(sp), Target(t, n), es)
    ensures !FilledRight(hw, s, sp, t, 1, n, w, es, a)
  {
    PlacedWindows(sp, t, n);
    hide Primed, CpuView, CacheMachine.Run, FillTables, LastStore, Waiting, EndsSo, OthersCareful, ReportMeansMoved;
    PrimedBlank(hw, sp, t, 1, n);
    assert Legal(hw);
    PrimedViews(hw, sp, t, 1, n, a);
    ReadFirstReaders(Primed(hw, sp, t, 1, n), Source(sp), Target(t, n), next, es);
    ReadHides(Primed(hw, sp, t, 1, n), Source(sp), Target(t, n), next, a, es);
    NoStore(Source(sp), Target(t, n), Origin(sp, t + Lead(t)), es, a, Known(1));
    hide Blank, Readers, Origin, Channel;
  }

  lemma FillHiddenFrom(s: DmaChannels.State, sp: nat, t: nat, n: nat, w: Wait)
    requires Placed(sp, t, n) && !Short(t, n) && !LineAligned(Target(t, n)) && DmaChannels.Inv(s)
    requires EndsSo(s, RequestOf(sp, t, n), w) && OthersCareful(s, RequestOf(sp, t, n), w)
    requires Waiting(s, RequestOf(sp, t, n)) && FillTables(s, RequestOf(sp, t, n), w).1 == 0
    ensures !FillSafe(sp, t, n)
  {
    FillShape(sp, t, n);
    var next, a := NeighbourPair(Target(t, n));
    var hw, es := EmptyCache(map[]), HiddenRun(sp, Target(t, n), next);
    assert Blank(hw) && CpuView(hw, a) == 0 && Legal(hw) && AllFresh(hw) && !InRange(sp, 4, a);
    hide Primed, CpuView, FillTables, LastStore, DmaChannels.Inv, Legal, Fresh, HiddenRun, FairWait;
    hide Blank, Waiting, EndsSo, OthersCareful, Readers, LineAligned, Apart, EmptyCache, FilledRight;
    HiddenRunReads(sp, Target(t, n), next);
    HiddenRunFair(s, sp, t, n, w, next);
    HiddenByte(hw, s, sp, t, n, w, next, a, es);
    assert ReadersWait(hw, s, sp, t, 1, n, w, es);
  }

  /** A task reads a variable beside the target while the fill waits: the fill reports success, and a byte of the
      range still reads as before. */
  lemma FillHidden(sp: nat, t: nat, n: nat)
    requires Placed(sp, t, n) && !Short(t, n) && !LineAligned(Target(t, n)) && Body(t, n) <= 4 * DmaChannels.COUNT_MAX
    ensures !FillSafe(sp, t, n)
  {
    FillShape(sp, t, n);
    ResetReports(RequestOf(sp, t, n));
    hide *;
    FillHiddenFrom(DmaChannels.RESET, sp, t, n, REPORTED);
  }

  /** A fill is safe from reads of its neighbours, in every state and run, exactly when no channel is needed, the
      channel's target starts and ends on a line boundary, or it is too long to succeed at all. */
  lemma FillExact(sp: nat, t: nat, n: nat)
    requires Placed(sp, t, n)
    ensures FillSafe(sp, t, n) <==>
      Short(t, n) || LineAligned(Target(t, n)) || Body(t, n) > 4 * DmaChannels.COUNT_MAX
  {
    if Short(t, n) || LineAligned(Target(t, n)) || Body(t, n) > 4 * DmaChannels.COUNT_MAX {
      forall hw, s, v, w, es, x |
        && Legal(hw) && AllFresh(hw) && DmaChannels.Inv(s) && AllScoped(es) && 0 <= x < AREA && !InRange(sp, 4, x)
        && (!Short(t, n) ==> ReadersWait(hw, s, sp, t, v, n, w, es))
        ensures FilledRight(hw, s, sp, t, v, n, w, es, x)
      {
        hide FilledRight, Legal, Fresh, DmaChannels.Inv, Readers, FairWait;
        if Short(t, n) {
          ShortSets(hw, s, sp, t, v, n, w, es, x);
        } else if LineAligned(Target(t, n)) {
          AlignedFillSets(hw, s, sp, t, v, n, w, es, x);
        } else {
          LongFillFails(hw, s, sp, t, v, n, w, es, x);
        }
      }
    } else {
      FillHidden(sp, t, n);
    }
  }
}
