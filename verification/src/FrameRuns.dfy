/** Runs of the encoder and the file writer over the picture buffers, stops and starts included: who has which
    buffer, and what becomes of every finished picture. */
module FrameRuns {
  import opened FrameSlots

  /** `WroteStale(w)` is the report of a write that a start has overtaken. */
  datatype Step = Ask | Done | Failed | Wrote | WroteStale(w: nat) | Stop | Restart

  /** A run: the clock, how many pictures were finished, which of them went to the writer, in order, and
      which were dropped. `open` is C_AVI_ENCODE_START; `gone` are the slots of pictures that ended while it was
      not set, and `stale` those the writer still has although a start or a report has taken them from it. */
  datatype Trace = Trace(s: State, now: int, done: nat, sent: seq<nat>, dropped: seq<nat>, open: bool,
                         gone: set<nat>, stale: set<nat>)

  /** The pictures waiting, in the order of their stamps. */
  function Waiting(s: State): (r: seq<nat>)
    requires Shaped(s)
    ensures |r| == |s.stamps|
  {
    seq(|s.stamps|, k requires 0 <= k < |s.stamps| => s.slots[s.stamps[k]].picture)
  }

  function AskStep(t: Trace, now: int): Trace
    requires Shaped(t.s)
  {
    if t.s.busy || !t.open then t.(now := now)
    else
      var (s, r, d) := Get(t.s, now);
      t.(s := s, now := now, dropped := t.dropped + if 0 <= d < |t.s.stamps| then [Waiting(t.s)[d]] else [])
  }

  function DoneStep(t: Trace, now: int): Trace
    requires Shaped(t.s)
  {
    if !t.s.busy || t.s.cur >= SLOTS then t.(now := now)
    else if !t.open then t.(s := Abandon(t.s), now := now, gone := t.gone + {t.s.cur})
    else
      var s := Finish(t.s, now, t.done);
      t.(s := s, now := now, done := t.done + 1,
         sent := t.sent + if t.s.sent == NONE then [Pictured(s)] else [])
  }

  function FailStep(t: Trace, now: int): Trace
    requires Shaped(t.s)
  {
    if !t.s.busy || t.s.cur >= SLOTS then t.(now := now) else t.(s := Fail(t.s), now := now)
  }

  function WroteStep(t: Trace, now: int): Trace
    requires Shaped(t.s)
  {
    if !(0 <= t.s.sent < SLOTS) then t.(now := now)
    else
      var s := Written(t.s);
      t.(s := s, now := now, sent := t.sent + if t.s.stamps != [] then [Pictured(s)] else [])
  }

  /** The slot the writer has now. */
  function WithWriter(s: State): set<nat> { if s.sent >= 0 then {s.sent as nat} else {} }

  function StaleStep(t: Trace, w: nat, now: int): Trace
    requires Shaped(t.s)
  {
    if w !in t.stale || w >= SLOTS then t.(now := now)
    else
      var s := WrittenSlot(t.s, w);
      t.(s := s, now := now, sent := t.sent + (if t.s.stamps != [] then [Pictured(s)] else []),
         gone := t.gone - {w}, stale := t.stale - {w} + WithWriter(t.s))
  }

  function StopStep(t: Trace, now: int): Trace { t.(now := now, open := false) }

  function RestartStep(t: Trace, now: int): Trace
    requires Shaped(t.s)
  {
    if t.open then t.(now := now)
    else t.(s := Restarted(t.s), now := now, dropped := t.dropped + Waiting(t.s), open := true,
            gone := {}, stale := t.stale + WithWriter(t.s))
  }

  /** A start comes after the encoder has ended its picture, and a stale report for a slot that nobody, or the
      writer, has by then. */
  ghost predicate Careful(t: Trace, e: Step) {
    && (e.Restart? && !t.open ==> !t.s.busy)
    && (e.WroteStale? && e.w in t.stale ==> !Taken(t.s, e.w) || e.w == t.s.sent)
  }

  /** The picture in the writer's slot. */
  function Pictured(s: State): nat {
    if 0 <= s.sent < |s.slots| then s.slots[s.sent].picture else 0
  }

  function Next(t: Trace, e: Step, delay: nat): (u: Trace)
    requires Shaped(t.s)
    ensures Shaped(u.s)
  {
    match e
    case Ask => AskStep(t, t.now + delay)
    case Done => DoneStep(t, t.now + delay)
    case Failed => FailStep(t, t.now + delay)
    case Wrote => WroteStep(t, t.now + delay)
    case WroteStale(w) => StaleStep(t, w, t.now + delay)
    case Stop => StopStep(t, t.now + delay)
    case Restart => RestartStep(t, t.now + delay)
  }

  lemma Later(s: State, now: int, later: int)
    requires Inv(s, now) && now <= later
    ensures Inv(s, later)
  {
  }

  function Upto(n: nat): (r: seq<nat>)
    ensures |r| == n && forall k :: 0 <= k < n ==> r[k] == k
  {
    seq(n, k => k)
  }

  ghost predicate Increasing(q: seq<nat>) { forall i, j :: 0 <= i < j < |q| ==> q[i] < q[j] }

  /** Pictures passed on and then those waiting. */
  ghost function Line(t: Trace): seq<nat>
    requires Shaped(t.s)
  {
    t.sent + Waiting(t.s)
  }

  /** Every finished picture is in the line or was dropped, exactly one of these and once, and the line is in
      the order the pictures were finished. */
  ghost predicate Ordered(line: seq<nat>, dropped: seq<nat>, done: nat) {
    && Increasing(line) && (forall k :: 0 <= k < |line| ==> line[k] < done)
    && multiset(line) + multiset(dropped) == multiset(Upto(done))
  }

  ghost predicate Orderly(t: Trace) {
    Inv(t.s, t.now) && Ordered(Line(t), t.dropped, t.done) && SlotsRight(t)
  }

  /** The slots that are used and that nobody has are those of late pictures and some the writer still has. */
  ghost predicate SlotsRight(t: Trace)
    requires Shaped(t.s)
  {
    t.gone <= Stray(t.s) <= t.gone + t.stale && forall w :: w in t.stale ==> w < SLOTS
  }

  lemma OrderedDrop(line: seq<nat>, dropped: seq<nat>, done: nat, d: nat)
    requires Ordered(line, dropped, done) && d < |line|
    ensures Ordered(Without(line, d), dropped + [line[d]], done)
  {
    var w := Without(line, d);
    assert line == line[..d] + [line[d]] + line[d + 1..];
    assert forall k :: 0 <= k < |w| ==> w[k] == line[if k < d then k else k + 1];
  }

  lemma OrderedAppend(line: seq<nat>, dropped: seq<nat>, done: nat)
    requires Ordered(line, dropped, done)
    ensures Ordered(line + [done], dropped, done + 1)
  {
    assert Upto(done + 1) == Upto(done) + [done];
  }

  lemma WaitingSame(s: State, t: State)
    requires Shaped(s) && Shaped(t) && s.stamps == t.stamps
    requires forall k :: 0 <= k < |s.stamps| ==> t.slots[s.stamps[k]].picture == s.slots[s.stamps[k]].picture
    ensures Waiting(t) == Waiting(s)
  {
  }

  lemma WaitingWithout(s: State, t: State, d: nat)
    requires Shaped(s) && Shaped(t) && d < |s.stamps| && t.stamps == Without(s.stamps, d)
    requires t.slots == s.slots
    ensures Waiting(t) == Without(Waiting(s), d)
  {
  }

  lemma LineWithout(sent: seq<nat>, w: seq<nat>, d: nat)
    requires d < |w|
    ensures sent + Without(w, d) == Without(sent + w, |sent| + d) && (sent + w)[|sent| + d] == w[d]
  {
  }

  lemma AskOrderly(t: Trace, now: int)
    requires Orderly(t) && t.now <= now
    ensures Shaped(AskStep(t, now).s) && Orderly(AskStep(t, now))
  {
    Later(t.s, t.now, now);
    if !t.s.busy && t.open {
      GetKeeps(t.s, now);
      AskLine(t, now);
      hide Get, Ordered;
    }
    hide Inv, Ordered, Line, Stray;
  }

  /** What Get does to the stamps. */
  lemma GetStamps(s: State, now: int)
    requires Shaped(s)
    ensures var (t, r, d) := Get(s, now);
      && (d == NONE || 0 <= d < |s.stamps|)
      && t.stamps == if d == NONE then s.stamps else Without(s.stamps, d)
  {
    hide Choice, LastFree;
  }

  lemma AskLine(t: Trace, now: int)
    requires Shaped(t.s) && !t.s.busy && t.open && Shaped(Get(t.s, now).0)
    requires Ordered(Line(t), t.dropped, t.done)
    ensures var u := AskStep(t, now); Ordered(Line(u), u.dropped, u.done)
  {
    GetStamps(t.s, now);
    GetDrops(t.s, now);
    GetPictures(t.s, now);
    hide Get, Ordered, Waiting, Without;
    var (s, r, d) := Get(t.s, now);
    if d != NONE {
      WaitingWithout(t.s, s, d);
      DropLine(t.sent, Waiting(t.s), t.dropped, t.done, d);
    } else {
      WaitingSame(t.s, s);
      assert t.dropped + [] == t.dropped;
    }
  }

  lemma GetDrops(s: State, now: int)
    requires Shaped(s)
    ensures Get(s, now).2 != NONE ==> Get(s, now).0.slots == s.slots
  {
    hide Choice;
  }

  lemma GetPictures(s: State, now: int)
    requires Shaped(s)
    ensures var (t, r, d) := Get(s, now);
      |t.slots| == SLOTS && forall i :: 0 <= i < SLOTS ==> t.slots[i].picture == s.slots[i].picture
  {
    hide Choice;
  }

  lemma DropLine(sent: seq<nat>, w: seq<nat>, dropped: seq<nat>, done: nat, d: nat)
    requires Ordered(sent + w, dropped, done) && d < |w|
    ensures Ordered(sent + Without(w, d), dropped + [w[d]], done)
  {
    hide Ordered;
    LineWithout(sent, w, d);
    OrderedDrop(sent + w, dropped, done, |sent| + d);
    hide Without;
  }

  lemma StampedLine(sent: seq<nat>, w: seq<nat>, dropped: seq<nat>, done: nat)
    requires Ordered(sent + w, dropped, done)
    ensures Ordered(sent + (w + [done]), dropped, done + 1)
  {
    OrderedAppend(sent + w, dropped, done);
    hide Ordered;
    assert sent + (w + [done]) == (sent + w) + [done];
  }

  lemma SendHeadLine(s: State, sent: seq<nat>)
    requires Shaped(s) && s.stamps != []
    ensures Shaped(SendHead(s))
    ensures (sent + [Pictured(SendHead(s))]) + Waiting(SendHead(s)) == sent + Waiting(s)
  {
  }

  lemma StampLine(s: State, now: int, picture: nat)
    requires Inv(s, now) && s.busy
    ensures var t := s.(slots := s.slots[s.cur := Slot(s.slots[s.cur].used, now, picture)],
                        stamps := s.stamps + [s.cur], busy := false);
      Shaped(t) && Waiting(t) == Waiting(s) + [picture]
  {
  }

  lemma DoneLineIs(t: Trace, now: int)
    requires Inv(t.s, now) && t.s.busy && t.open && Shaped(Finish(t.s, now, t.done))
    ensures Line(DoneStep(t, now)) == t.sent + (Waiting(t.s) + [t.done])
  {
    StampLine(t.s, now, t.done);
    var s := t.s.(slots := t.s.slots[t.s.cur := Slot(t.s.slots[t.s.cur].used, now, t.done)],
                  stamps := t.s.stamps + [t.s.cur], busy := false);
    SendHeadLine(s, t.sent);
    assert t.sent + [] == t.sent;
    hide Inv, Waiting, Pictured, SendHead;
  }

  lemma DoneLine(t: Trace, now: int)
    requires Inv(t.s, now) && t.s.busy && t.open && Shaped(Finish(t.s, now, t.done))
    requires Ordered(Line(t), t.dropped, t.done)
    ensures var u := DoneStep(t, now); Ordered(Line(u), u.dropped, u.done)
  {
    hide Ordered, Waiting, Finish;
    DoneLineIs(t, now);
    StampedLine(t.sent, Waiting(t.s), t.dropped, t.done);
    hide Owned;
  }

  lemma DoneOrderly(t: Trace, now: int)
    requires Orderly(t) && t.now <= now
    ensures Shaped(DoneStep(t, now).s) && Orderly(DoneStep(t, now))
  {
    Later(t.s, t.now, now);
    if t.s.busy && t.open {
      FinishKeeps(t.s, now, t.done);
      DoneLine(t, now);
    } else if t.s.busy {
      AbandonKeeps(t.s, now);
      WaitingSame(t.s, Abandon(t.s));
    }
    hide Ordered, Waiting, Finish, Distinct, InTime, Stray;
  }

  lemma FailOrderly(t: Trace, now: int)
    requires Orderly(t) && t.now <= now
    ensures Shaped(FailStep(t, now).s) && Orderly(FailStep(t, now))
  {
    Later(t.s, t.now, now);
    if t.s.busy {
      FailKeeps(t.s, now);
      WaitingSame(t.s, Fail(t.s));
    }
    hide Owned, Ordered, Waiting;
  }

  lemma WroteOrderly(t: Trace, now: int)
    requires Orderly(t) && t.now <= now
    ensures Shaped(WroteStep(t, now).s) && Orderly(WroteStep(t, now))
  {
    Later(t.s, t.now, now);
    if t.s.sent != NONE {
      WrittenKeeps(t.s, now);
      var s := t.s.(slots := t.s.slots[t.s.sent := t.s.slots[t.s.sent].(used := false)], sent := NONE);
      WaitingSame(t.s, s);
      if s.stamps != [] {
        SendHeadLine(s, t.sent);
      }
      assert t.sent + [] == t.sent;
    }
    hide Owned, Ordered, Waiting, SendHead, Pictured;
  }

  lemma StopOrderly(t: Trace, now: int)
    requires Orderly(t) && t.now <= now
    ensures Shaped(StopStep(t, now).s) && Orderly(StopStep(t, now))
  {
    Later(t.s, t.now, now);
    hide Owned, Ordered, Stray, Waiting;
  }

  lemma DropWaiting(sent: seq<nat>, w: seq<nat>, dropped: seq<nat>, done: nat)
    requires Ordered(sent + w, dropped, done)
    ensures Ordered(sent, dropped + w, done)
  {
    assert forall k :: 0 <= k < |sent| ==> (sent + w)[k] == sent[k];
  }

  lemma RestartOrderly(t: Trace, now: int)
    requires Orderly(t) && t.now <= now && Careful(t, Restart)
    ensures Shaped(RestartStep(t, now).s) && Orderly(RestartStep(t, now))
  {
    Later(t.s, t.now, now);
    RestartExact(t.s, now);
    if !t.open {
      DropWaiting(t.sent, Waiting(t.s), t.dropped, t.done);
      assert Waiting(Restarted(t.s)) == [] && t.sent + [] == t.sent;
    }
    hide Owned, Ordered, Stray, Waiting, Restarted;
  }

  lemma StaleOrderly(t: Trace, w: nat, now: int)
    requires Orderly(t) && t.now <= now && Careful(t, WroteStale(w))
    ensures Shaped(StaleStep(t, w, now).s) && Orderly(StaleStep(t, w, now))
  {
    Later(t.s, t.now, now);
    assert w in t.stale ==> w < SLOTS;
    if w in t.stale {
      LateWriteExact(t.s, now, w);
      StaleLine(t.s, t.sent, w);
      StaleSlots(t, w, now);
    }
    hide Inv, Ordered, Waiting, WrittenSlot, Pictured, Stray, SlotsRight, WithWriter;
  }

  /** The line stays as it is when a report makes the writer take the next picture. */
  lemma StaleLine(s: State, sent: seq<nat>, w: nat)
    requires Shaped(s) && w < SLOTS
    ensures var u := WrittenSlot(s, w);
      Shaped(u) && (sent + if s.stamps != [] then [Pictured(u)] else []) + Waiting(u) == sent + Waiting(s)
  {
    var f := s.(slots := s.slots[w := s.slots[w].(used := false)], sent := NONE);
    WaitingSame(s, f);
    hide Waiting, Pictured, SendHead;
    if s.stamps != [] {
      SendHeadLine(f, sent);
    }
    assert sent + [] == sent;
  }

  lemma StaleSlots(t: Trace, w: nat, now: int)
    requires Inv(t.s, now) && SlotsRight(t) && w in t.stale && w < SLOTS && (!Taken(t.s, w) || w == t.s.sent)
    ensures Shaped(StaleStep(t, w, now).s) && SlotsRight(StaleStep(t, w, now))
  {
    LateWriteExact(t.s, now, w);
    assert t.s.sent != NONE ==> t.s.sent < SLOTS;
    hide Inv, WrittenSlot, Stray, Taken, Pictured;
  }

  lemma StepOrderly(t: Trace, e: Step, delay: nat)
    requires Shaped(t.s) && Orderly(t) && Careful(t, e)
    ensures Orderly(Next(t, e, delay))
  {
    hide AskStep, DoneStep, FailStep, WroteStep, StaleStep, StopStep, RestartStep, Orderly, Shaped, Careful;
    var now := t.now + delay;
    match e
    case Ask => AskOrderly(t, now);
    case Done => DoneOrderly(t, now);
    case Failed => FailOrderly(t, now);
    case Wrote => WroteOrderly(t, now);
    case WroteStale(w) => StaleOrderly(t, w, now);
    case Stop => StopOrderly(t, now);
    case Restart => RestartOrderly(t, now);
  }

  /** The owners stay right exactly when the step is careful. */
  lemma StepExact(t: Trace, e: Step, delay: nat)
    requires Shaped(t.s) && Orderly(t)
    ensures Inv(Next(t, e, delay).s, Next(t, e, delay).now) <==> Careful(t, e)
  {
    if Careful(t, e) {
      StepOrderly(t, e, delay);
    } else {
      Later(t.s, t.now, t.now + delay);
      if e.Restart? {
        RestartExact(t.s, t.now + delay);
      } else {
        LateWriteExact(t.s, t.now + delay, e.w);
      }
    }
    hide Owned, Ordered, Stray, Waiting, Restarted, Taken, WrittenSlot;
  }

  /** Besides the pictures: the clock, the recording flag, whose slot a failure or a report frees, and which reports
      are still to come for slots the writer has no longer on the books. */
  lemma StepEffects(t: Trace, e: Step, delay: nat)
    requires Shaped(t.s)
    ensures var u := Next(t, e, delay);
      && u.now == t.now + delay
      && (u.open <==> e.Restart? || (t.open && !e.Stop?))
      && (e.Failed? && t.s.busy && t.s.cur < 8 ==> !u.s.busy && !u.s.slots[t.s.cur].used)
      && (e.Wrote? && 0 <= t.s.sent < 8 ==> !u.s.slots[t.s.sent].used)
      && (e.WroteStale? && e.w in t.stale && e.w < 8 ==> !u.s.slots[e.w].used)
      && forall x: nat :: x in u.stale <==>
           || (x in t.stale && !(e == WroteStale(x) && x < 8))
           || (x == t.s.sent && ((e.Restart? && !t.open) || (e.WroteStale? && e.w in t.stale && e.w < 8)))
  {
    hide Get, Finish, Waiting;
  }

  function Run(t: Trace, steps: seq<(Step, nat)>): (u: Trace)
    requires Shaped(t.s)
    ensures Shaped(u.s)
    decreases |steps|
  {
    if steps == [] then t else Run(Next(t, steps[0].0, steps[0].1), steps[1..])
  }

  ghost predicate CarefulRun(t: Trace, steps: seq<(Step, nat)>)
    requires Shaped(t.s)
    decreases |steps|
  {
    steps == [] || (Careful(t, steps[0].0) && CarefulRun(Next(t, steps[0].0, steps[0].1), steps[1..]))
  }

  const IDLE := Trace(State(seq(SLOTS, _ => Slot(false, 0, 0)), [], 0, NONE, 0, false), 0, 0, [], [], false, {}, {})

  /** In every careful run of the encoder and the writer, whatever the clock does and however often encoding is
      stopped and started, no slot has two owners, every finished picture is passed on, waiting or dropped, once,
      and in the order it was finished, and the slots nobody has are those of pictures that ended after the stop,
      and some whose late report will free them. */
  lemma {:induction false} PicturesKept(t: Trace, steps: seq<(Step, nat)>)
    requires Shaped(t.s) && Orderly(t) && CarefulRun(t, steps)
    ensures Orderly(Run(t, steps))
    decreases |steps|
  {
    if steps != [] {
      StepOrderly(t, steps[0].0, steps[0].1);
      hide Orderly, Next, Careful;
      PicturesKept(Next(t, steps[0].0, steps[0].1), steps[1..]);
    }
  }

  ghost predicate RightAt(t: Trace)
    requires Shaped(t.s)
  {
    Inv(t.s, t.now)
  }

  /** The owners are right at every moment of the run. */
  ghost predicate RightThroughout(t: Trace, steps: seq<(Step, nat)>)
    requires Shaped(t.s)
  {
    forall n :: 0 <= n <= |steps| ==> RightAt(Run(t, steps[..n]))
  }

  lemma RightStep(t: Trace, steps: seq<(Step, nat)>)
    requires Shaped(t.s) && steps != []
    ensures RightThroughout(t, steps)
      <==> RightAt(t) && RightThroughout(Next(t, steps[0].0, steps[0].1), steps[1..])
  {
    hide RightAt, Next;
    var u := Next(t, steps[0].0, steps[0].1);
    forall n | 0 < n <= |steps| ensures Run(t, steps[..n]) == Run(u, steps[1..][..n - 1]) {
      assert steps[..n][1..] == steps[1..][..n - 1] && steps[..n][0] == steps[0];
    }
    assert Run(t, steps[..0]) == t;
    if RightThroughout(t, steps) {
      forall n | 0 <= n <= |steps| - 1 ensures RightAt(Run(u, steps[1..][..n])) {
        assert RightAt(Run(t, steps[..n + 1]));
      }
    }
  }

  /** Over every run, stops and starts included, every slot somebody has is used and has one owner at every moment
      exactly when no start comes while a picture is being encoded, and no late report of the writer names a slot
      that waits or is being encoded by then. */
  lemma {:induction false} RunExact(t: Trace, steps: seq<(Step, nat)>)
    requires Shaped(t.s) && Orderly(t)
    ensures RightThroughout(t, steps) <==> CarefulRun(t, steps)
    decreases |steps|
  {
    if steps == [] {
      assert forall n :: 0 <= n <= 0 ==> steps[..n] == [];
    } else {
      var u := Next(t, steps[0].0, steps[0].1);
      StepExact(t, steps[0].0, steps[0].1);
      RightStep(t, steps);
      if Careful(t, steps[0].0) { StepOrderly(t, steps[0].0, steps[0].1); }
      assert Run(u, steps[1..][..0]) == u;
      hide Orderly, Next, Careful, Inv;
      if Careful(t, steps[0].0) { RunExact(u, steps[1..]); }
    }
  }

  lemma IdleOrderly()
    ensures Shaped(IDLE.s) && Orderly(IDLE)
  {
    assert Waiting(IDLE.s) == [] && Upto(0) == [] && Line(IDLE) == [];
    assert LastFree(IDLE.s.slots, 0) == NONE;
  }

  /** The slots that nobody has and that no late report will free. */
  ghost function Lost(t: Trace): set<nat>
    requires Shaped(t.s)
  {
    Stray(t.s) - t.stale
  }

  /** Finished pictures are never lost: counted, they are those passed on, those waiting and those dropped. The
      slots are counted too, and a slot is lost exactly when its picture has ended while encoding was stopped and
      the writer does not have it. */
  lemma PicturesCounted(steps: seq<(Step, nat)>)
    requires Shaped(IDLE.s) && CarefulRun(IDLE, steps)
    ensures var u := Run(IDLE, steps);
      && Orderly(u) && u.done == |u.sent| + |u.s.stamps| + |u.dropped|
      && |Used(u.s)|
         == |u.s.stamps| + (if u.s.sent != NONE then 1 else 0) + (if u.s.busy then 1 else 0) + |Stray(u.s)|
      && Lost(u) == u.gone - u.stale && (u.stale == {} ==> Stray(u.s) == u.gone)
  {
    IdleOrderly();
    PicturesKept(IDLE, steps);
    var u := Run(IDLE, steps);
    UsedCounted(u.s, u.now);
    hide Run, Inv, Used, Stray;
    assert |multiset(Line(u)) + multiset(u.dropped)| == |multiset(Upto(u.done))|;
  }

  /** Nobody has a slot that the writer still has although it was taken from it. */
  ghost predicate Exclusive(t: Trace) { forall w :: w in t.stale ==> !Taken(t.s, w) }

  /** A new picture keeps it so exactly when the encoder is not given such a slot: the flags do not show it. */
  lemma AskExact(t: Trace, now: int)
    requires Shaped(t.s) && Orderly(t) && t.now <= now && Exclusive(t)
    ensures Shaped(AskStep(t, now).s)
    ensures Exclusive(AskStep(t, now)) <==> t.s.busy || !t.open || Get(t.s, now).1 !in t.stale
  {
    Later(t.s, t.now, now);
    if !t.s.busy && t.open {
      GetOwners(t.s, now);
    }
    hide Get, Inv, Ordered, Taken, Waiting, SlotsRight;
  }

  /** Nobody but the encoder gets a slot, and nobody gives one up but to the encoder. */
  lemma GetOwners(s: State, now: int)
    requires Inv(s, now) && !s.busy
    ensures var (t, r, d) := Get(s, now);
      forall i: nat :: Taken(t, i) <==> Taken(s, i) || i == r
  {
    GetExact(s, now);
    var (t, r, d) := Get(s, now);
    if d != NONE { WithoutKeeps(s.stamps, d); }
    hide Choice, LastFree;
  }
}
