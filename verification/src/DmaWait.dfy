/** What dma_memory_fill does to the driver's tables: take a driver queue, take a channel, wait for the
    interrupt while everybody else goes on, and give both back, on every exit. */
module DmaWait {
  import opened DmaChannels

  /** How the wait for the channel ends: with a message, or after the ten seconds; and what the other tasks and
      the interrupt do before that, and between the two halves of giving up. */
  datatype Wait =
    | Woken(before: seq<Step>)
    | TimedOut(before: seq<Step>, between: seq<Step>)

  /** The number of the fill's own transfer. */
  function Mine(s: State): nat { |s.jobs| }

  /** The call has its driver queue, or was refused one. */
  function WithQueue(s: State): State
    requires Shaped(s)
  {
    Next(s, BeginStep(Waits))
  }

  lemma WithQueueHasJob(s: State)
    requires Shaped(s)
    ensures Mine(s) < |WithQueue(s).jobs|
  {
  }

  function Started(s: State, r: Request): State
    requires Shaped(s)
  {
    Next(WithQueue(s), StartStep(Mine(s), r))
  }

  /** The call on the tables: the state it leaves and its return code. */
  function FillTables(s: State, r: Request, w: Wait): (State, int)
    requires Shaped(s)
  {
    WithQueueHasJob(s);
    var j, b, c := Mine(s), WithQueue(s), Started(s, r);
    if b.jobs[j].phase != Queued then (b, -1)
    else if c.jobs[j].phase != Running then (c, -1)
    else match w
      case Woken(before) => (Next(Run(c, before), WakeStep(j)), 0)
      case TimedOut(before, between) =>
        var u := Next(Run(c, before), GiveUpQueueStep(j));
        var g := Run(u, between);
        (Next(g, GiveUpChannelStep(j)), if g.jobs[j].told == 1 then 0 else -1)
  }

  /** The transfer reaches its wait. */
  predicate Waiting(s: State, r: Request)
    requires Shaped(s)
  {
    WithQueueHasJob(s);
    WithQueue(s).jobs[Mine(s)].phase == Queued && Started(s, r).jobs[Mine(s)].phase == Running
  }

  /** The wait ends as `w` says: there is a message, or the wait was still on when it timed out. */
  ghost predicate EndsSo(s: State, r: Request, w: Wait)
    requires Shaped(s)
  {
    Waiting(s, r) ==>
      var j, c := Mine(s), Started(s, r);
      match w
      case Woken(before) => Enabled(Run(c, before), WakeStep(j))
      case TimedOut(before, between) =>
        var u := Run(c, before);
        && Enabled(u, GiveUpQueueStep(j))
        && var g := Run(Next(u, GiveUpQueueStep(j)), between);
           Enabled(g, GiveUpChannelStep(j))
  }

  /** Everybody else is careful meanwhile. */
  ghost predicate OthersCareful(s: State, r: Request, w: Wait)
    requires Shaped(s)
  {
    Waiting(s, r) ==>
      var c := Started(s, r);
      CarefulRun(c, w.before)
      && (w.TimedOut? ==>
            var u := Next(Run(c, w.before), GiveUpQueueStep(Mine(s)));
            CarefulRun(u, w.between))
  }

  /** The channel is still this transfer's, or free, when a wait that timed out frees it. */
  ghost predicate StillOurs(s: State, r: Request, w: Wait)
    requires Shaped(s)
  {
    Waiting(s, r) && w.TimedOut? ==>
      var u := Next(Run(Started(s, r), w.before), GiveUpQueueStep(Mine(s)));
      var g := Run(u, w.between);
      GiveUpCareful(g, Mine(s))
  }

  lemma OverHasNoQueue(e: State, j: nat)
    requires QueuesRight(e) && j < |e.jobs| && e.jobs[j].phase.Over?
    ensures forall q :: 0 <= q < QUEUES ==> e.owner[q] != j
  {
    forall q | 0 <= q < QUEUES ensures e.owner[q] != j {
      assert QueueOk(e, q);
    }
  }

  lemma OverHasNoChannel(e: State, j: nat)
    requires Inv(e) && j < |e.jobs| && e.jobs[j].phase.Over?
    ensures forall c :: 0 <= c < CHANNELS ==> e.who[c] != j
  {
    forall c | 0 <= c < CHANNELS ensures e.who[c] != j {
      assert ChannelOk(e, c);
    }
  }

  lemma RefusedIsOver(s: State, j: nat, r: Request)
    requires Shaped(s) && j < |s.jobs| && s.jobs[j].phase == Queued && r.count > 0
    ensures Start(s, j, r).jobs[j].phase in {Over(false), Running}
  {
    hide Check, GetChannel;
  }

  /** On every exit, and whatever everybody else does, careful or not, the call is over and no driver queue is its
      any more. */
  lemma FillReleasesQueue(s: State, r: Request, w: Wait)
    requires QueuesRight(s) && r.count > 0 && EndsSo(s, r, w)
    ensures var (e, code) := FillTables(s, r, w);
      && Mine(s) < |e.jobs| && e.jobs[Mine(s)].phase.Over?
      && (forall q :: 0 <= q < QUEUES ==> e.owner[q] != Mine(s))
  {
    WithQueueHasJob(s);
    var j, b, c := Mine(s), WithQueue(s), Started(s, r);
    NextQueues(s, BeginStep(Waits));
    NextQueues(b, StartStep(j, r));
    BeginPhase(s);
    if b.jobs[j].phase == Queued { RefusedIsOver(b, j, r); }
    var e := FillTables(s, r, w).0;
    if Waiting(s, r) {
      QueueReleased(c, w.before);
      var u := Run(c, w.before);
      match w
      case Woken(before) => NextQueues(u, WakeStep(j));
      case TimedOut(before, between) =>
        NextQueues(u, GiveUpQueueStep(j));
        var v := Next(u, GiveUpQueueStep(j));
        QueueReleased(v, between);
        NextQueues(Run(v, between), GiveUpChannelStep(j));
    }
    assert QueuesRight(e) && e.jobs[j].phase.Over?;
    OverHasNoQueue(e, j);
  }

  lemma BeginPhase(s: State)
    requires Shaped(s)
    ensures Mine(s) < |WithQueue(s).jobs|
    ensures WithQueue(s).jobs[Mine(s)].phase in {Queued, Over(false)}
    ensures WithQueue(s).jobs[Mine(s)].phase == Queued <==>
      exists q :: 0 <= q < QUEUES && s.owner[q] == NULL
    ensures WithQueue(s).use == s.use && WithQueue(s).who == s.who
    ensures WithQueue(s).jobs[Mine(s)].phase != Queued ==> WithQueue(s).owner == s.owner
    ensures WithQueue(s).jobs[Mine(s)].kind == Waits
  {
  }

  /** The request of a fill: aligned words from the stack to the middle of the range. */
  predicate FillRequest(r: Request) {
    && r.width == 4 && r.s % 4 == 0 && r.t % 4 == 0 && r.s < 0x4000_0000 && r.t < 0x4000_0000
    && r.timeout == 0 && r.count > 0
  }

  lemma FillIsChecked(r: Request, use: seq<Use>)
    requires FillRequest(r) && |use| == CHANNELS
    ensures Check(r) == 0 && Searchable(use, r.t)
  {
  }

  ghost predicate QueueFree(s: State)
    requires Shaped(s)
  {
    exists q :: 0 <= q < QUEUES && s.owner[q] == NULL
  }

  /** The call waits for its channel exactly when a driver queue and a channel are free and the count fits;
      otherwise it is refused and the tables are as before. */
  lemma WaitingExact(s: State, r: Request)
    requires Inv(s) && FillRequest(r)
    ensures Waiting(s, r) <==> QueueFree(s) && SomeFree(s.use) && r.count <= COUNT_MAX
    ensures Inv(WithQueue(s)) && Inv(Started(s, r))
    ensures !Waiting(s, r) ==> forall w :: var (e, code) := FillTables(s, r, w);
      code == -1 && e.use == s.use && e.who == s.who && e.owner == s.owner && Inv(e)
  {
    var j, b, c := Mine(s), WithQueue(s), Started(s, r);
    BeginPhase(s);
    BeginKeeps(s, Waits);
    FillIsChecked(r, b.use);
    if b.jobs[j].phase == Queued {
      StartExact(b, j, r);
      StartKeeps(b, j, r);
      RefusedTables(s, b, j);
    }
    hide Start, Begin, Inv, Check, Searchable;
    if d :| Launched(b, c, j, d) {
      assert c.jobs[j].phase == Running;
    }
  }

  /** Taking a driver queue and giving it back changes no owner. */
  lemma RefusedTables(s: State, b: State, j: nat)
    requires Shaped(s) && b == WithQueue(s) && j == Mine(s) && b.jobs[j].phase == Queued
    ensures Refused(b, j).owner == s.owner && Refused(b, j).jobs[j].phase == Over(false)
    ensures Refused(b, j).use == s.use && Refused(b, j).who == s.who
  {
    var q := FreeQueue(s.owner, 0);
    assert s.owner[q := j][q := NULL] == s.owner;
  }

  /** With everybody else careful, the tables are right after the call exactly when a wait that timed out still
      had its channel, or nobody had it; and then the call has no channel any more: its old one is free unless
      another transfer has it. */
  lemma FillFreesChannel(s: State, r: Request, w: Wait)
    requires Inv(s) && FillRequest(r) && EndsSo(s, r, w) && OthersCareful(s, r, w)
    ensures var (e, code) := FillTables(s, r, w);
      && (Inv(e) <==> StillOurs(s, r, w))
      && (Inv(e) ==> Mine(s) < |e.jobs| && forall c :: 0 <= c < CHANNELS ==> e.who[c] != Mine(s))
  {
    WaitingExact(s, r);
    InvQueues(s);
    FillReleasesQueue(s, r, w);
    var j, c := Mine(s), Started(s, r);
    var e := FillTables(s, r, w).0;
    hide QueueFree, SomeFree, FillRequest, QueuesRight, Started, WithQueue, Run, Next, Inv, Careful;
    if Waiting(s, r) {
      RunKeeps(c, w.before);
      var u := Run(c, w.before);
      if w.Woken? {
        WakeRight(u, j);
      } else {
        GiveUpQueueRight(u, j);
        var v := Next(u, GiveUpQueueStep(j));
        RunKeeps(v, w.between);
        GiveUpChannelRight(Run(v, w.between), j);
      }
    }
    if Inv(e) { OverHasNoChannel(e, j); }
  }

  lemma WakeRight(u: State, j: nat)
    requires Inv(u)
    ensures Inv(Next(u, WakeStep(j)))
  {
    NextExact(u, WakeStep(j));
    hide Inv, Next;
  }

  lemma GiveUpQueueRight(u: State, j: nat)
    requires Inv(u)
    ensures Inv(Next(u, GiveUpQueueStep(j)))
  {
    NextExact(u, GiveUpQueueStep(j));
    hide Inv, Next;
  }

  lemma GiveUpChannelRight(u: State, j: nat)
    requires Inv(u) && Enabled(u, GiveUpChannelStep(j))
    ensures j < |u.jobs| && (Inv(Next(u, GiveUpChannelStep(j))) <==> GiveUpCareful(u, j))
  {
    NextExact(u, GiveUpChannelStep(j));
    hide Inv, Next;
  }

  /** A call that waits succeeds exactly when the interrupt has reported its transfer. */
  lemma FillTold(s: State, r: Request, w: Wait)
    requires Inv(s) && Waiting(s, r) && Inv(Started(s, r)) && EndsSo(s, r, w) && OthersCareful(s, r, w)
    ensures var (e, code) := FillTables(s, r, w);
      Mine(s) < |e.jobs| && (code == 0 <==> e.jobs[Mine(s)].told == 1)
  {
    WithQueueHasJob(s);
    var j, c := Mine(s), Started(s, r);
    hide Inv, Careful, Started, WithQueue, Run, Next, Enabled;
    if w.Woken? {
      RunKeeps(c, w.before);
      WokenTold(Run(c, w.before), j);
    } else {
      var u := Next(Run(c, w.before), GiveUpQueueStep(j));
      GivenUpTold(Run(u, w.between), j);
    }
  }

  lemma WokenTold(u: State, j: nat)
    requires Inv(u) && Enabled(u, WakeStep(j))
    ensures j < |Next(u, WakeStep(j)).jobs| && Next(u, WakeStep(j)).jobs[j].told == 1
  {
    WakeKeeps(u, j);
    WakeTold(u, j);
    hide Inv;
  }

  lemma GivenUpTold(g: State, j: nat)
    requires Shaped(g) && Enabled(g, GiveUpChannelStep(j))
    ensures j < |Next(g, GiveUpChannelStep(j)).jobs|
    ensures Next(g, GiveUpChannelStep(j)).jobs[j].told == g.jobs[j].told
  {
  }

  /** The call succeeds exactly when a driver queue and a channel are free, the count fits its register, and the
      interrupt has reported the transfer by the end of the call. */
  lemma FillSucceeds(s: State, r: Request, w: Wait)
    requires Inv(s) && FillRequest(r) && EndsSo(s, r, w) && OthersCareful(s, r, w)
    ensures var (e, code) := FillTables(s, r, w);
      Mine(s) < |e.jobs| && code == if
        QueueFree(s) && SomeFree(s.use) && r.count <= COUNT_MAX && e.jobs[Mine(s)].told == 1 then 0 else -1
  {
    WaitingExact(s, r);
    InvQueues(s);
    FillReleasesQueue(s, r, w);
    hide Inv, QueueFree, SomeFree, QueuesRight, FillTables, Waiting, EndsSo, OthersCareful, FillRequest, Started;
    if Waiting(s, r) { FillTold(s, r, w); }
  }

  lemma WakeTold(u: State, j: nat)
    requires Inv(u) && Enabled(u, WakeStep(j)) && u.jobs[j].phase == Reported
    ensures u.jobs[j].told == 1 && Next(u, WakeStep(j)).jobs[j].told == 1
  {
    assert JobOk(u, j);
  }
}
