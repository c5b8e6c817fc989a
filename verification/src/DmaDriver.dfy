/** The DMA driver's tables as its calls and its interrupt change them. */
module DmaDriver {
  import opened DmaChannels

  class Tables {
    const use: array<Use>        // dma_usage
    const who: array<int>        // dma_notify_variable and dma_notify_queue
    const owner: array<int>      // dma_q_usage
    const box: array<seq<int>>   // dma_driver_queue
    var jobs: seq<Job>

    ghost predicate Valid()
      reads this, use, who, owner, box
    {
      Shaped(Now()) && who != owner
    }

    ghost function Now(): State
      reads this, use, who, owner, box
    {
      State(use[..], who[..], owner[..], box[..], jobs)
    }

    /** dma_init. */
    constructor ()
      ensures Valid() && Now() == RESET && Inv(Now())
      ensures fresh(use) && fresh(who) && fresh(owner) && fresh(box)
    {
      use, who := new Use[CHANNELS](_ => Free), new int[CHANNELS](_ => NULL);
      owner, box := new int[QUEUES](_ => NULL), new seq<int>[QUEUES](_ => []);
      jobs := [];
      new;
      assert use[..] == RESET.use && who[..] == RESET.who && owner[..] == RESET.owner && box[..] == RESET.box;
    }

    /** dma_get_channel. */
    method AcquireChannel(target: nat, usage: Use) returns (c: nat)
      requires Valid()
      modifies use
      ensures Valid() && (c, use[..]) == GetChannel(old(use[..]), target, usage)
    {
      ghost var was := use[..];
      if target > HIGH {
        c := CHANNELS - 1;
        while c > 0
          invariant c < CHANNELS && use[..] == was && LastFree(was, CHANNELS - 1) == LastFree(was, c)
        {
          if use[c].Free? {
            use[c] := usage;
            assert use[..] == was[c := usage];
            return;
          }
          c := c - 1;
        }
      } else {
        c := 0;
        while c < CHANNELS
          invariant c <= CHANNELS && use[..] == was && FirstFree(was, 0) == FirstFree(was, c)
        {
          if use[c].Free? {
            use[c] := usage;
            assert use[..] == was[c := usage];
            return;
          }
          c := c + 1;
        }
      }
    }

    /** dma_free_channel. */
    method FreeChannel(c: nat)
      requires Valid() && c < CHANNELS
      modifies use, who
      ensures Valid() && Now() == Release(old(Now()), c)
    {
      ghost var s := Now();
      who[c] := NULL;
      use[c] := Free;
      assert use[..] == s.use[c := Free] && who[..] == s.who[c := NULL];
    }

    /** dma_get_queue, for the transfer that is next in `jobs`. */
    method AcquireQueue() returns (q: nat)
      requires Valid()
      modifies owner, box
      ensures Valid() && q == FreeQueue(old(owner[..]), 0)
      ensures q < QUEUES ==> owner[..] == old(owner[..])[q := |jobs|] && box[..] == old(box[..])[q := []]
      ensures q == QUEUES ==> owner[..] == old(owner[..]) && box[..] == old(box[..])
    {
      ghost var was, full := owner[..], box[..];
      q := 0;
      while q < QUEUES
        invariant q <= QUEUES && owner[..] == was && box[..] == full && FreeQueue(was, 0) == FreeQueue(was, q)
      {
        if owner[q] == NULL {
          owner[q] := |jobs|;
          box[q] := [];
          assert owner[..] == was[q := |jobs|] && box[..] == full[q := []];
          return;
        }
        q := q + 1;
      }
    }

    /** The head of each transfer call: a waiting one takes a driver queue. */
    method BeginTransfer(kind: Kind) returns (ok: bool)
      requires Valid()
      modifies this`jobs, owner, box
      ensures Valid() && Now() == Begin(old(Now()), kind)
      ensures ok <==> jobs[|jobs| - 1].phase == Queued
    {
      if kind != Waits {
        jobs := jobs + [Job(kind, Queued, 0, 0, 0)];
        return true;
      }
      var q := AcquireQueue();
      if q >= QUEUES {
        jobs := jobs + [Job(kind, Over(false), 0, 0, 0)];
        return false;
      }
      jobs := jobs + [Job(kind, Queued, 0, q, 0)];
      ok := true;
    }

    method Refuse(j: nat)
      requires Valid() && j < |jobs|
      modifies this`jobs, owner
      ensures Valid() && Now() == Refused(old(Now()), j)
    {
      ghost var s := Now();
      if jobs[j].kind == Waits {
        owner[jobs[j].q] := NULL;
        assert owner[..] == s.owner[s.jobs[j].q := NULL];
      }
      jobs := jobs[j := jobs[j].(phase := Over(false))];
    }

    /** The checks at the head of dma_transfer_extend. */
    static method CheckRequest(r: Request) returns (code: int)
      ensures code == Check(r)
    {
      if r.width == 2 || r.width == 4 {
        if r.s % r.width != 0 || r.t % r.width != 0 {
          return -1;
        }
      } else if r.width != 1 {
        return -1;
      }
      var fromDevice := 0xC000_0000 <= r.s <= 0xDFFF_FFFF;
      if fromDevice && !SourceDevice(r.s) {
        return -4;
      }
      if 0xC000_0000 <= r.t <= 0xDFFF_FFFF {
        if fromDevice {
          return -1;
        }
        if !TargetDevice(r.t) {
          return -5;
        }
      }
      code := 0;
    }

    /** dma_transfer_extend, with the caller's clean-up when it fails. */
    method TransferExtend(j: nat, r: Request) returns (code: int)
      requires Valid() && j < |jobs| && jobs[j].phase == Queued
      modifies this`jobs, use, who, owner
      ensures Valid() && Now() == Start(old(Now()), j, r)
      ensures r.count > 0 ==> (code == 0 <==> jobs[j].phase == Running)
      ensures r.count == 0 ==> code == 0
      ensures r.count > 0 && Check(r) != 0 ==> code == Check(r)
      ensures Check(r) == 0 ==> code == 0 || code == -1
    {
      ghost var s := Now();
      hide Check, Searchable, GetChannel;
      if r.count == 0 {
        jobs := jobs[j := jobs[j].(phase := if jobs[j].kind == Waits then Stranded else Over(true),
                                   told := jobs[j].told + 1)];
        return 0;
      }
      code := CheckRequest(r);
      if code != 0 {
        Refuse(j);
        return;
      }
      var c := AcquireChannel(r.t, UsageOf(jobs[j].kind));
      if c >= CHANNELS {
        assert use[..] == s.use by { NoChannel(s.use, r.t, UsageOf(s.jobs[j].kind)); }
        Refuse(j);
        return -1;
      }
      if r.count > COUNT_MAX || r.timeout > TIMEOUT_MAX {
        FreeChannel(c);
        Refuse(j);
        return -1;
      }
      who[c] := j;
      jobs := jobs[j := jobs[j].(phase := Running, chan := c)];
      assert who[..] == s.who[c := j];
      code := 0;
    }

    /** dma_isr: the pending channels in turn. */
    method Interrupt(pending: seq<bool>)
      requires Valid() && |pending| == CHANNELS
      modifies this`jobs, use, who, box
      ensures Valid() && Now() == IsrFrom(old(Now()), pending, 0)
    {
      ghost var s := Now();
      for c := 0 to CHANNELS
        invariant Valid() && IsrFrom(Now(), pending, c) == IsrFrom(s, pending, 0)
      {
        if pending[c] {
          Complete(c);
        }
      }
    }

    /** One channel's part of the interrupt. */
    method Complete(c: nat)
      requires Valid() && c < CHANNELS
      modifies this`jobs, use, who, box
      ensures Valid() && Now() == Isr(old(Now()), c)
    {
      if use[c].Free? {
        return;
      }
      var j := who[c];
      ghost var s := Now();
      if 0 <= j < |jobs| {
        var job := jobs[j];
        if job.kind == Waits && |box[job.q]| < 1 {
          box[job.q] := box[job.q] + [j];
        }
        assert job.kind == Waits ==> box[..] == s.box[job.q := Post(s.box[job.q], j)];
        jobs := jobs[j := job.(told := job.told + 1,
          phase := if use[c].Occupied? || job.phase != Running then job.phase
                   else if job.kind == Waits then Reported else Over(true))];
      }
      if !use[c].Occupied? {
        FreeChannel(c);
      }
    }

    /** The end of a wait that got its message: the queue is free again. */
    method WakeUp(j: nat) returns (message: int)
      requires Valid() && Enabled(Now(), WakeStep(j))
      modifies this`jobs, owner, box
      ensures Valid() && Now() == Wake(old(Now()), j)
      ensures message == old(box[jobs[j].q])[0]
      ensures Inv(old(Now())) ==> Inv(Now()) && message == j
    {
      ghost var s := Now();
      if Inv(s) { WakeKeeps(s, j); }
      hide Inv;
      var q := jobs[j].q;
      message := box[q][0];
      box[q] := [];
      owner[q] := NULL;
      jobs := jobs[j := jobs[j].(phase := Over(true))];
      assert box[..] == s.box[q := []] && owner[..] == s.owner[q := NULL];
    }

    /** dma_transfer_double_buf_free. */
    method FreeDoubleBuffer(j: nat)
      requires Valid() && j < |jobs| && jobs[j].kind == Double && jobs[j].phase == Running
      modifies this`jobs, use, who
      ensures Valid() && Now() == FreeDouble(old(Now()), j)
    {
      FreeChannel(jobs[j].chan);
      jobs := jobs[j := jobs[j].(phase := Over(true))];
    }

    /** A wait that timed out: dma_free_queue ... */
    method LeaveQueue(j: nat)
      requires Valid() && Enabled(Now(), GiveUpQueueStep(j))
      modifies this`jobs, owner
      ensures Valid() && Now() == GiveUpQueue(old(Now()), j)
    {
      ghost var s := Now();
      owner[jobs[j].q] := NULL;
      assert owner[..] == s.owner[s.jobs[j].q := NULL];
      jobs := jobs[j := jobs[j].(phase := Leaving)];
    }

    /** ... and dma_free_channel by the number kept since the start. */
    method LeaveChannel(j: nat)
      requires Valid() && Enabled(Now(), GiveUpChannelStep(j))
      modifies this`jobs, use, who
      ensures Valid() && Now() == GiveUpChannel(old(Now()), j)
    {
      FreeChannel(jobs[j].chan);
      jobs := jobs[j := jobs[j].(phase := Over(jobs[j].told == 1))];
    }

    /** Any step of any task or interrupt. */
    method DoStep(e: Step)
      requires Valid()
      modifies this`jobs, use, who, owner, box
      ensures Valid() && Now() == Next(old(Now()), e)
    {
      hide Start, Begin, Isr, Wake, Check, GetChannel;
      match e
      case BeginStep(kind) => var _ := BeginTransfer(kind);
      case StartStep(j, r) => if j < |jobs| && jobs[j].phase == Queued { var _ := TransferExtend(j, r); }
      case IsrStep(c) => if c < CHANNELS { Complete(c); }
      case WakeStep(j) =>
        if j < |jobs| && jobs[j].kind == Waits && box[jobs[j].q] != []
          && jobs[j].phase in {Queued, Running, Reported, Stranded} {
          var _ := WakeUp(j);
        }
      case FreeStep(j) =>
        if j < |jobs| && jobs[j].kind == Double && jobs[j].phase == Running { FreeDoubleBuffer(j); }
      case GiveUpQueueStep(j) =>
        if j < |jobs| && jobs[j].kind == Waits && jobs[j].phase in {Running, Reported} { LeaveQueue(j); }
      case GiveUpChannelStep(j) => if j < |jobs| && jobs[j].phase == Leaving { LeaveChannel(j); }
    }

    /** What the other tasks and the interrupt do meanwhile. */
    method DoSteps(steps: seq<Step>)
      requires Valid()
      modifies this`jobs, use, who, owner, box
      ensures Valid() && Now() == Run(old(Now()), steps)
    {
      ghost var s := Now();
      for k := 0 to |steps|
        invariant Valid() && Now() == Run(s, steps[..k])
      {
        RunSnoc(s, steps, k);
        hide Run, Next;
        DoStep(steps[k]);
      }
      assert steps[..|steps|] == steps;
    }
  }

  lemma NoChannel(use: seq<Use>, target: nat, usage: Use)
    requires |use| == CHANNELS && GetChannel(use, target, usage).0 >= CHANNELS
    ensures GetChannel(use, target, usage).1 == use
  {
  }

  /** The pending channels from c on, one after the other. */
  ghost function IsrFrom(s: State, pending: seq<bool>, c: nat): State
    requires |pending| == CHANNELS && c <= CHANNELS && Shaped(s)
    decreases CHANNELS - c
  {
    if c == CHANNELS then s else IsrFrom(if pending[c] then Next(s, IsrStep(c)) else s, pending, c + 1)
  }
}
