/** The four DMA channels and the four driver queues as transfers, completion interrupts and waiting tasks
    use them. */
module DmaChannels {
  const CHANNELS := 4
  const QUEUES := 4
  const COUNT_MAX := 0xFF_FFFF         // C_DMA_COUNT_MAX
  const TIMEOUT_MAX := 255             // C_DMA_MISC_TIMEOUT_MAX
  const HIGH := 0xF800_0000            // targets above it search the channels downwards
  const NULL := -1

  datatype Use = Free | Normal | Occupied

  /** Who started a transfer: dma_transfer_wait_ready, dma_transfer or dma_transfer_with_queue, or
      dma_transfer_with_double_buf. */
  datatype Kind = Waits | Plain | Double

  /** A transfer: before it has a channel, on its channel, reported but its task still to wake, given up with
      its queue freed and its channel not yet, over, or asleep on a queue nobody will post to. `told` counts
      its notifications. */
  datatype Phase = Queued | Running | Reported | Leaving | Over(ok: bool) | Stranded

  datatype Job = Job(kind: Kind, phase: Phase, chan: nat, q: nat, told: nat)

  /** `who` is the job behind dma_notify_variable and dma_notify_queue of a channel, `owner` the job that
      has a driver queue, `box` what is posted in it. */
  datatype State = State(use: seq<Use>, who: seq<int>, owner: seq<int>, box: seq<seq<int>>, jobs: seq<Job>)

  datatype Request = Request(s: nat, t: nat, count: nat, width: nat, timeout: nat)

  // ---- the allocators ----------------------------------------------------------------------------

  function FirstFree(use: seq<Use>, i: nat): (r: nat)
    requires i <= |use|
    ensures i <= r <= |use| && (r < |use| ==> use[r].Free?)
    ensures forall k :: i <= k < r ==> !use[k].Free?
    decreases |use| - i
  {
    if i == |use| || use[i].Free? then i else FirstFree(use, i + 1)
  }

  /** The downward search stops at channel 0 without looking at it. */
  function LastFree(use: seq<Use>, i: nat): (r: nat)
    requires i < |use|
    ensures r <= i && (r > 0 ==> use[r].Free?)
    ensures forall k :: r < k <= i ==> !use[k].Free?
  {
    if i == 0 || use[i].Free? then i else LastFree(use, i - 1)
  }

  /** dma_get_channel: the returned channel and the usage table. */
  function GetChannel(use: seq<Use>, target: nat, usage: Use): (nat, seq<Use>)
    requires |use| == CHANNELS
  {
    if target > HIGH then
      var c := LastFree(use, CHANNELS - 1);
      (c, if c > 0 then use[c := usage] else use)
    else
      var c := FirstFree(use, 0);
      (c, if c < CHANNELS then use[c := usage] else use)
  }

  /** The channel that comes back was free and now has the usage. */
  ghost predicate Acquires(use: seq<Use>, target: nat, usage: Use)
    requires |use| == CHANNELS
  {
    var (c, u) := GetChannel(use, target, usage);
    c < CHANNELS && use[c].Free? && u == use[c := usage]
  }

  ghost predicate Refuses(use: seq<Use>, target: nat, usage: Use)
    requires |use| == CHANNELS
  {
    var (c, u) := GetChannel(use, target, usage);
    c >= CHANNELS && u == use && forall k :: 0 <= k < CHANNELS ==> !use[k].Free?
  }

  predicate Searchable(use: seq<Use>, target: nat)
    requires |use| == CHANNELS
  {
    target <= 0xF800_0000 || use[1].Free? || use[2].Free? || use[3].Free?
  }

  /** The allocator hands out a free channel, or refuses because all are used, exactly when the target is not
      above 0xF8000000 or one of the channels 1 to 3 is free. */
  lemma GetChannelExact(use: seq<Use>, target: nat, usage: Use)
    requires |use| == CHANNELS && !usage.Free?
    ensures Acquires(use, target, usage) || Refuses(use, target, usage) <==> Searchable(use, target)
  {
    var c := LastFree(use, CHANNELS - 1);
    if target > HIGH && c == 0 {
      assert !use[1].Free? && !use[2].Free? && !use[3].Free?;
      if use[0].Free? {
        assert use[0 := usage][0] != use[0];
      }
    }
  }

  function FreeQueue(owner: seq<int>, i: nat): (r: nat)
    requires i <= |owner|
    ensures i <= r <= |owner| && (r < |owner| ==> owner[r] == NULL)
    ensures forall k :: i <= k < r ==> owner[k] != NULL
    decreases |owner| - i
  {
    if i == |owner| || owner[i] == NULL then i else FreeQueue(owner, i + 1)
  }

  // ---- what a request is checked for -------------------------------------------------------------

  predicate IsIo(a: nat) { 0xC000_0000 <= a <= 0xDFFF_FFFF }

  predicate SourceDevice(a: nat) {
    a in {0xC006_0000, 0xC00A_0004, 0xC008_0010, 0xC009_0010, 0xC00F_0014, 0xC00E_0018, 0xC011_0000,
          0xC011_0004, 0xC00C_0010, 0xC00C_0050}
  }

  predicate TargetDevice(a: nat) {
    a in {0xC006_0000, 0xC00A_0000, 0xC008_0008, 0xC009_0008, 0xC00D_0004, 0xC00D_0024, 0xC00F_0010,
          0xC00E_0018}
  }

  /** The checks of dma_transfer_extend before it looks for a channel. */
  function Check(r: Request): int {
    if r.width != 1 && r.width != 2 && r.width != 4 then -1
    else if r.s % r.width != 0 || r.t % r.width != 0 then -1
    else if IsIo(r.s) && !SourceDevice(r.s) then -4
    else if IsIo(r.t) && IsIo(r.s) then -1
    else if IsIo(r.t) && !TargetDevice(r.t) then -5
    else 0
  }

  predicate Aligned(r: Request) { r.width in {1, 2, 4} && r.s % r.width == 0 && r.t % r.width == 0 }

  /** A request passes exactly when it is aligned, moves from or to memory, and any device is one that can send
      or take, by the address of its data register: UART, SD card, SPI 0 and 1, MSC and CFC, and for sending SPU, ADC
      and microphone, for taking the two DAC channels. An unknown device is the reported cause only for an aligned
      request. */
  lemma CheckExact(r: Request)
    ensures var fromDevice := 0xC000_0000 <= r.s < 0xE000_0000; var toDevice := 0xC000_0000 <= r.t < 0xE000_0000;
      var sends := r.s in {0xC006_0000, 0xC00A_0004, 0xC008_0010, 0xC009_0010, 0xC00F_0014, 0xC00E_0018, 0xC011_0000,
                           0xC011_0004, 0xC00C_0010, 0xC00C_0050};
      var takes := r.t in {0xC006_0000, 0xC00A_0000, 0xC008_0008, 0xC009_0008, 0xC00D_0004, 0xC00D_0024, 0xC00F_0010,
                           0xC00E_0018};
      && (Check(r) == 0 <==>
           Aligned(r) && !(fromDevice && toDevice) && (fromDevice ==> sends) && (toDevice ==> takes))
      && (Check(r) == -4 <==> Aligned(r) && fromDevice && !sends)
      && (Check(r) == -5 <==> Aligned(r) && !fromDevice && toDevice && !takes)
      && Check(r) in {0, -1, -4, -5}
  {
  }

  // ---- the steps ---------------------------------------------------------------------------------

  function UsageOf(k: Kind): Use { if k == Double then Occupied else Normal }

  ghost predicate Shaped(s: State) {
    && |s.use| == |s.who| == CHANNELS == 4 && |s.owner| == |s.box| == QUEUES == 4
    && (forall j :: 0 <= j < |s.jobs| ==> s.jobs[j].chan < CHANNELS && s.jobs[j].q < QUEUES)
  }

  /** A new transfer; a waiting one takes a driver queue first, which is emptied. */
  function Begin(s: State, kind: Kind): (t: State)
    requires Shaped(s)
    ensures |t.jobs| == |s.jobs| + 1
  {
    var j := |s.jobs|;
    if kind != Waits then s.(jobs := s.jobs + [Job(kind, Queued, 0, 0, 0)])
    else
      var q := FreeQueue(s.owner, 0);
      if q == QUEUES then s.(jobs := s.jobs + [Job(kind, Over(false), 0, 0, 0)])
      else s.(owner := s.owner[q := j], box := s.box[q := []], jobs := s.jobs + [Job(kind, Queued, 0, q, 0)])
  }

  /** The transfer is refused: its driver queue, if it has one, is given back. */
  function Refused(s: State, j: nat): State
    requires Shaped(s) && j < |s.jobs|
  {
    var t := s.(jobs := s.jobs[j := s.jobs[j].(phase := Over(false))]);
    if s.jobs[j].kind == Waits then t.(owner := s.owner[s.jobs[j].q := NULL]) else t
  }

  /** dma_transfer_extend for a transfer that has its queue. */
  function Start(s: State, j: nat, r: Request): State
    requires Shaped(s) && j < |s.jobs|
  {
    var job := s.jobs[j];
    if r.count == 0 then
      s.(jobs := s.jobs[j := job.(phase := if job.kind == Waits then Stranded else Over(true),
                                  told := job.told + 1)])
    else if Check(r) != 0 then Refused(s, j)
    else
      var (c, use) := GetChannel(s.use, r.t, UsageOf(job.kind));
      if c >= CHANNELS then Refused(s, j)
      else if r.count > COUNT_MAX || r.timeout > TIMEOUT_MAX then
        Refused(s.(use := use[c := Free], who := s.who[c := NULL]), j)
      else s.(use := use, who := s.who[c := j], jobs := s.jobs[j := job.(phase := Running, chan := c)])
  }

  /** dma_free_channel. */
  function Release(s: State, c: nat): State
    requires Shaped(s) && c < CHANNELS
  {
    s.(use := s.use[c := Free], who := s.who[c := NULL])
  }

  function Post(box: seq<int>, j: int): seq<int> { if |box| < 1 then box + [j] else box }

  /** The part of dma_isr for channel c: notify, then free the channel unless it is occupied. */
  function Isr(s: State, c: nat): State
    requires Shaped(s) && c < CHANNELS
  {
    if s.use[c].Free? then s
    else
      var j := s.who[c];
      var t :=
        if !(0 <= j < |s.jobs|) then s
        else
          var job := s.jobs[j];
          var told := s.jobs[j := job.(told := job.told + 1,
            phase := if s.use[c].Occupied? || job.phase != Running then job.phase
                     else if job.kind == Waits then Reported else Over(true))];
          if job.kind == Waits then s.(jobs := told, box := s.box[job.q := Post(s.box[job.q], j)])
          else s.(jobs := told);
      if s.use[c].Occupied? then t else Release(t, c)
  }

  /** The waiting task wakes up with the message m and gives its queue back. */
  function Wake(s: State, j: nat): State
    requires Shaped(s) && j < |s.jobs|
  {
    var q := s.jobs[j].q;
    s.(box := s.box[q := []], owner := s.owner[q := NULL], jobs := s.jobs[j := s.jobs[j].(phase := Over(true))])
  }

  /** dma_transfer_double_buf_free. */
  function FreeDouble(s: State, j: nat): State
    requires Shaped(s) && j < |s.jobs|
  {
    Release(s, s.jobs[j].chan).(jobs := s.jobs[j := s.jobs[j].(phase := Over(true))])
  }

  /** A wait that timed out gives its driver queue back first ... */
  function GiveUpQueue(s: State, j: nat): State
    requires Shaped(s) && j < |s.jobs|
  {
    s.(owner := s.owner[s.jobs[j].q := NULL], jobs := s.jobs[j := s.jobs[j].(phase := Leaving)])
  }

  /** ... and then its channel, by number. */
  function GiveUpChannel(s: State, j: nat): State
    requires Shaped(s) && j < |s.jobs|
  {
    var job := s.jobs[j];
    Release(s, job.chan).(jobs := s.jobs[j := job.(phase := Over(job.told == 1))])
  }

  datatype Step = BeginStep(kind: Kind) | StartStep(j: nat, r: Request) | IsrStep(c: nat) | WakeStep(j: nat)
    | FreeStep(j: nat) | GiveUpQueueStep(j: nat) | GiveUpChannelStep(j: nat)

  predicate Enabled(s: State, e: Step)
    requires |s.box| == QUEUES
  {
    match e
    case BeginStep(_) => true
    case StartStep(j, r) => j < |s.jobs| && s.jobs[j].phase == Queued
    case IsrStep(c) => c < CHANNELS
    case WakeStep(j) => j < |s.jobs| && s.jobs[j].kind == Waits && s.jobs[j].q < QUEUES && s.box[s.jobs[j].q] != []
        && s.jobs[j].phase in {Queued, Running, Reported, Stranded}
    case FreeStep(j) => j < |s.jobs| && s.jobs[j].kind == Double && s.jobs[j].phase == Running
    case GiveUpQueueStep(j) => j < |s.jobs| && s.jobs[j].kind == Waits && s.jobs[j].phase in {Running, Reported}
    case GiveUpChannelStep(j) => j < |s.jobs| && s.jobs[j].phase == Leaving
  }

  function Next(s: State, e: Step): (t: State)
    requires Shaped(s)
    ensures Shaped(t) && |s.jobs| <= |t.jobs|
  {
    if !Enabled(s, e) then s
    else
      match e
      case BeginStep(kind) => Begin(s, kind)
      case StartStep(j, r) => Start(s, j, r)
      case IsrStep(c) => Isr(s, c)
      case WakeStep(j) => Wake(s, j)
      case FreeStep(j) => FreeDouble(s, j)
      case GiveUpQueueStep(j) => GiveUpQueue(s, j)
      case GiveUpChannelStep(j) => GiveUpChannel(s, j)
  }

  // ---- where the code goes wrong -----------------------------------------------------------------

  predicate TooLong(r: Request) { r.count > 0xFF_FFFF || r.timeout > 255 }

  /** Starting: the downward search must find a channel, unless the request is refused before it or the refusal
      after it frees a channel that was free. */
  predicate StartCareful(s: State, r: Request)
    requires |s.use| == CHANNELS
  {
    r.count == 0 || Check(r) != 0 || Searchable(s.use, r.t) || (TooLong(r) && s.use[0].Free?)
  }

  /** A completion: a transfer that has given up its queue must not report into it once another has it. */
  ghost predicate IsrCareful(s: State, c: nat)
    requires Shaped(s) && c < CHANNELS
  {
    && !s.use[c].Free? && 0 <= s.who[c] < |s.jobs|
    && s.jobs[s.who[c]].phase == Leaving && s.jobs[s.who[c]].kind == Waits ==>
      s.owner[s.jobs[s.who[c]].q] == NULL || s.box[s.jobs[s.who[c]].q] != []
  }

  /** Giving up a channel: it must not be another transfer's by now. */
  ghost predicate GiveUpCareful(s: State, j: nat)
    requires Shaped(s) && j < |s.jobs|
  {
    s.use[s.jobs[j].chan].Free? || s.who[s.jobs[j].chan] == j
  }

  ghost predicate Careful(s: State, e: Step)
    requires Shaped(s)
  {
    Enabled(s, e) ==>
      match e
      case StartStep(j, r) => StartCareful(s, r)
      case IsrStep(c) => IsrCareful(s, c)
      case GiveUpChannelStep(j) => GiveUpCareful(s, j)
      case _ => true
  }

  // ---- the invariant -----------------------------------------------------------------------------

  /** A transfer that owns its driver queue, with what has been posted in it. */
  ghost predicate HasQueue(s: State, j: nat, posted: seq<int>)
    requires Shaped(s) && j < |s.jobs|
  {
    s.jobs[j].kind == Waits ==> s.owner[s.jobs[j].q] == j && s.box[s.jobs[j].q] == posted
  }

  ghost predicate JobOk(s: State, j: nat)
    requires Shaped(s) && j < |s.jobs|
  {
    var job := s.jobs[j];
    match job.phase
    case Queued => HasQueue(s, j, []) && job.told == 0
    case Running =>
      && s.use[job.chan] == UsageOf(job.kind) && s.who[job.chan] == j && HasQueue(s, j, [])
      && (job.kind != Double ==> job.told == 0)
    case Reported => job.kind == Waits && HasQueue(s, j, [j]) && job.told == 1
    case Over(ok) => job.kind != Double ==> job.told == if ok then 1 else 0
    case Leaving =>
      && job.kind == Waits
      && (job.told == 1 || (job.told == 0 && s.use[job.chan] == Normal && s.who[job.chan] == j))
    case Stranded => job.kind == Waits && HasQueue(s, j, [])
  }

  /** The transfer has its channel. */
  predicate OnChannel(job: Job) { job.phase == Running || (job.phase == Leaving && job.told == 0) }

  /** The transfer has its driver queue. */
  predicate OwnsQueue(job: Job) { job.kind == Waits && job.phase in {Queued, Running, Reported, Stranded} }

  ghost predicate ChannelOk(s: State, c: nat)
    requires Shaped(s) && c < CHANNELS
  {
    if s.use[c].Free? then s.who[c] == NULL
    else 0 <= s.who[c] < |s.jobs| && OnChannel(s.jobs[s.who[c]]) && s.jobs[s.who[c]].chan == c
  }

  ghost predicate QueueOk(s: State, q: nat)
    requires Shaped(s) && q < QUEUES
  {
    s.owner[q] != NULL ==>
      0 <= s.owner[q] < |s.jobs| && OwnsQueue(s.jobs[s.owner[q]]) && s.jobs[s.owner[q]].q == q
  }

  /** Every used channel runs exactly one transfer and every running transfer has its own channel; the same
      for driver queues and waiting transfers; what is posted is the owner's own completion. */
  ghost predicate Inv(s: State) {
    && Shaped(s)
    && (forall j :: 0 <= j < |s.jobs| ==> JobOk(s, j))
    && (forall c :: 0 <= c < CHANNELS ==> ChannelOk(s, c))
    && (forall q :: 0 <= q < QUEUES ==> QueueOk(s, q))
  }

  lemma BeginKeeps(s: State, kind: Kind)
    requires Inv(s)
    ensures Inv(Begin(s, kind))
  {
    var t := Begin(s, kind);
    forall j | 0 <= j < |t.jobs| ensures JobOk(t, j) {
      if j < |s.jobs| { assert JobOk(s, j); }
    }
    forall c | 0 <= c < CHANNELS ensures ChannelOk(t, c) { assert ChannelOk(s, c); }
    forall q | 0 <= q < QUEUES ensures QueueOk(t, q) { assert QueueOk(s, q); }
  }

  /** Transfers other than j keep their channel and their queue. */
  ghost predicate OthersSame(s: State, t: State, j: nat)
    requires Shaped(s) && Shaped(t) && j < |s.jobs|
  {
    && |t.jobs| == |s.jobs| && (forall k :: 0 <= k < |s.jobs| && k != j ==> t.jobs[k] == s.jobs[k])
    && (forall c :: 0 <= c < CHANNELS && s.who[c] != j && !s.use[c].Free? ==>
          t.who[c] == s.who[c] && t.use[c] == s.use[c])
    && (forall q :: 0 <= q < QUEUES && s.owner[q] != j && s.owner[q] != NULL ==>
          t.owner[q] == s.owner[q] && t.box[q] == s.box[q])
  }

  lemma OthersKept(s: State, t: State, j: nat, k: nat)
    requires Inv(s) && Shaped(t) && j < |s.jobs| && OthersSame(s, t, j) && k < |s.jobs| && k != j
    ensures JobOk(t, k)
  {
    assert JobOk(s, k);
    var job := s.jobs[k];
    if OnChannel(job) { assert ChannelOk(s, job.chan); }
    if OwnsQueue(job) { assert QueueOk(s, job.q); }
  }

  /** A step of one transfer keeps the invariant when its own part and the tables are right afterwards. */
  lemma OwnStep(s: State, t: State, j: nat)
    requires Inv(s) && Shaped(t) && j < |s.jobs| && OthersSame(s, t, j) && JobOk(t, j)
    requires forall c :: 0 <= c < CHANNELS ==> ChannelOk(t, c)
    requires forall q :: 0 <= q < QUEUES ==> QueueOk(t, q)
    ensures Inv(t)
  {
    forall k | 0 <= k < |t.jobs| ensures JobOk(t, k) {
      if k != j { OthersKept(s, t, j, k); }
    }
  }

  lemma RefusedKeeps(s: State, j: nat)
    requires Inv(s) && j < |s.jobs| && s.jobs[j].phase == Queued
    ensures Inv(Refused(s, j))
  {
    var t := Refused(s, j);
    assert JobOk(s, j);
    forall c | 0 <= c < CHANNELS ensures ChannelOk(t, c) { assert ChannelOk(s, c); }
    forall q | 0 <= q < QUEUES ensures QueueOk(t, q) { assert QueueOk(s, q); }
    OwnStep(s, t, j);
  }

  lemma LaunchKeeps(s: State, j: nat, c: nat)
    requires Inv(s) && j < |s.jobs| && s.jobs[j].phase == Queued && c < CHANNELS && s.use[c].Free?
    ensures Inv(s.(use := s.use[c := UsageOf(s.jobs[j].kind)], who := s.who[c := j],
                   jobs := s.jobs[j := s.jobs[j].(phase := Running, chan := c)]))
  {
    var t := s.(use := s.use[c := UsageOf(s.jobs[j].kind)], who := s.who[c := j],
                jobs := s.jobs[j := s.jobs[j].(phase := Running, chan := c)]);
    assert JobOk(s, j);
    forall d | 0 <= d < CHANNELS ensures ChannelOk(t, d) { assert ChannelOk(s, d); }
    forall q | 0 <= q < QUEUES ensures QueueOk(t, q) { assert QueueOk(s, q); }
    OwnStep(s, t, j);
  }

  lemma EmptyStartKeeps(s: State, j: nat, r: Request)
    requires Inv(s) && j < |s.jobs| && s.jobs[j].phase == Queued && r.count == 0
    ensures Inv(Start(s, j, r))
    ensures var t := Start(s, j, r); var phase := if s.jobs[j].kind == Waits then Stranded else Over(true);
      && t.jobs == s.jobs[j := s.jobs[j].(phase := phase, told := 1)]
      && t.use == s.use && t.who == s.who && t.owner == s.owner && t.box == s.box
  {
    var t := Start(s, j, r);
    assert JobOk(s, j);
    forall d | 0 <= d < CHANNELS ensures ChannelOk(t, d) { assert ChannelOk(s, d); }
    forall q | 0 <= q < QUEUES ensures QueueOk(t, q) { assert QueueOk(s, q); }
    OwnStep(s, t, j);
  }

  ghost predicate SomeFree(use: seq<Use>)
    requires |use| == CHANNELS
  {
    exists c :: 0 <= c < CHANNELS && use[c].Free?
  }

  /** The transfer has started on channel c, which was free. */
  ghost predicate Launched(s: State, t: State, j: nat, c: nat)
    requires Shaped(s) && j < |s.jobs|
  {
    && c < CHANNELS && s.use[c].Free?
    && t == s.(use := s.use[c := UsageOf(s.jobs[j].kind)], who := s.who[c := j],
               jobs := s.jobs[j := s.jobs[j].(phase := Running, chan := c)])
  }

  /** What starting a transfer does, whichever way it ends. When the search can be trusted: it is refused and
      the tables are as before, its driver queue given back, or it has exactly one channel more, which was free.
      When it cannot: the transfer takes channel 0 as it is, or frees it. */
  lemma StartExact(s: State, j: nat, r: Request)
    requires Inv(s) && j < |s.jobs| && s.jobs[j].phase == Queued && r.count > 0
    ensures var t := Start(s, j, r);
      && (Check(r) != 0 ==> t == Refused(s, j))
      && (Check(r) == 0 && Searchable(s.use, r.t) && (TooLong(r) || !SomeFree(s.use)) ==> t == Refused(s, j))
      && (Check(r) == 0 && Searchable(s.use, r.t) && !TooLong(r) && SomeFree(s.use) ==>
            exists c :: Launched(s, t, j, c))
      && (Check(r) == 0 && !Searchable(s.use, r.t) && TooLong(r) ==> t == Refused(Release(s, 0), j))
      && (Check(r) == 0 && !Searchable(s.use, r.t) && !TooLong(r) ==>
            t == s.(who := s.who[0 := j], jobs := s.jobs[j := s.jobs[j].(phase := Running, chan := 0)]))
  {
    var usage := UsageOf(s.jobs[j].kind);
    if Check(r) == 0 {
      GetChannelExact(s.use, r.t, usage);
      var (c, use) := GetChannel(s.use, r.t, usage);
      if Searchable(s.use, r.t) {
        if c < CHANNELS {
          assert Acquires(s.use, r.t, usage);
          assert s.use[c].Free? && use == s.use[c := usage];
          assert ChannelOk(s, c);
          assert use[c := Free] == s.use && s.who[c := NULL] == s.who;
          assert !TooLong(r) ==> Launched(s, Start(s, j, r), j, c);
        } else {
          assert Refuses(s.use, r.t, usage);
        }
      } else {
        HighSearch(s.use, r.t, usage);
      }
    }
    hide Check, GetChannel, Searchable;
  }

  lemma HighSearch(use: seq<Use>, target: nat, usage: Use)
    requires |use| == CHANNELS && !Searchable(use, target)
    ensures GetChannel(use, target, usage) == (0, use)
  {
    var c := LastFree(use, CHANNELS - 1);
    assert c == 0 || c == 1 || c == 2 || c == 3;
  }

  /** Starting keeps channels and queues one-to-one with their transfers exactly when the search can be trusted,
      is not reached, or its refusal frees a channel that was free. */
  lemma StartKeeps(s: State, j: nat, r: Request)
    requires Inv(s) && j < |s.jobs| && s.jobs[j].phase == Queued
    ensures Inv(Start(s, j, r)) <==> StartCareful(s, r)
  {
    if r.count == 0 {
      EmptyStartKeeps(s, j, r);
    } else {
      StartExact(s, j, r);
      RefusedKeeps(s, j);
      var t := Start(s, j, r);
      assert ChannelOk(s, 0) && JobOk(s, j);
      if Check(r) == 0 && Searchable(s.use, r.t) {
        if !TooLong(r) && SomeFree(s.use) {
          var c :| Launched(s, t, j, c);
          LaunchKeeps(s, j, c);
        }
      } else if Check(r) == 0 {
        HighStartBreaks(s, j, r);
      }
      hide Start, Inv, Check, Searchable, SomeFree, Refused, Launched;
    }
  }

  /** With channels 1 to 3 in use the downward search gives channel 0 away as it is. */
  lemma HighStartBreaks(s: State, j: nat, r: Request)
    requires Inv(s) && j < |s.jobs| && s.jobs[j].phase == Queued && r.count > 0
    requires Check(r) == 0 && !Searchable(s.use, r.t)
    ensures Inv(Start(s, j, r)) <==> TooLong(r) && s.use[0].Free?
  {
    StartExact(s, j, r);
    var t := Start(s, j, r);
    assert ChannelOk(s, 0) && JobOk(s, j);
    hide Check, Searchable, Start;
    if TooLong(r) {
      if s.use[0].Free? {
        assert s.use[0 := Free] == s.use && s.who[0 := NULL] == s.who;
        RefusedKeeps(s, j);
      } else {
        var k := s.who[0];
        assert JobOk(s, k) && k != j;
        assert !JobOk(t, k);
      }
    } else if s.use[0].Free? {
      assert !ChannelOk(t, 0);
    } else {
      var k := s.who[0];
      assert JobOk(s, k) && k != j;
      assert !JobOk(t, k);
    }
  }

  /** A completion interrupt keeps them exactly when it does not report into a queue that was given up and is
      another transfer's now. */
  lemma IsrKeeps(s: State, c: nat)
    requires Inv(s) && c < CHANNELS
    ensures Inv(Isr(s, c)) <==> IsrCareful(s, c)
  {
    if IsrCareful(s, c) { IsrRight(s, c); } else { IsrWrong(s, c); }
    hide Inv, Isr, IsrCareful;
  }

  lemma IsrRight(s: State, c: nat)
    requires Inv(s) && c < CHANNELS && IsrCareful(s, c)
    ensures Inv(Isr(s, c))
  {
    assert ChannelOk(s, c);
    if !s.use[c].Free? {
      var j := s.who[c];
      assert JobOk(s, j);
      var t := Isr(s, c);
      forall d | 0 <= d < CHANNELS ensures ChannelOk(t, d) { assert ChannelOk(s, d); }
      forall q | 0 <= q < QUEUES ensures QueueOk(t, q) { assert QueueOk(s, q); }
      OwnStep(s, t, j);
    }
  }

  lemma IsrWrong(s: State, c: nat)
    requires Inv(s) && c < CHANNELS && !IsrCareful(s, c)
    ensures !Inv(Isr(s, c))
  {
    assert ChannelOk(s, c);
    var j, t := s.who[c], Isr(s, c);
    var k := s.owner[s.jobs[j].q];
    assert JobOk(s, j) && QueueOk(s, s.jobs[j].q) && JobOk(s, k) && k != j;
    assert t.box[s.jobs[j].q] == [j];
    assert !JobOk(t, k);
  }

  lemma WakeKeeps(s: State, j: nat)
    requires Inv(s) && Enabled(s, WakeStep(j))
    ensures Inv(Wake(s, j)) && s.jobs[j].phase == Reported && s.box[s.jobs[j].q] == [j]
    ensures Wake(s, j).box[s.jobs[j].q] == [] && Wake(s, j).jobs[j].phase == Over(true)
  {
    assert JobOk(s, j);
    var t := Wake(s, j);
    forall d | 0 <= d < CHANNELS ensures ChannelOk(t, d) { assert ChannelOk(s, d); }
    forall q | 0 <= q < QUEUES ensures QueueOk(t, q) { assert QueueOk(s, q); }
    OwnStep(s, t, j);
  }

  lemma FreeDoubleKeeps(s: State, j: nat)
    requires Inv(s) && j < |s.jobs| && s.jobs[j].kind == Double && s.jobs[j].phase == Running
    ensures Inv(FreeDouble(s, j))
    ensures FreeDouble(s, j).use[s.jobs[j].chan].Free? && FreeDouble(s, j).jobs[j].phase == Over(true)
  {
    assert JobOk(s, j);
    var t := FreeDouble(s, j);
    forall d | 0 <= d < CHANNELS ensures ChannelOk(t, d) { assert ChannelOk(s, d); }
    forall q | 0 <= q < QUEUES ensures QueueOk(t, q) { assert QueueOk(s, q); }
    OwnStep(s, t, j);
  }

  lemma GiveUpQueueKeeps(s: State, j: nat)
    requires Inv(s) && Enabled(s, GiveUpQueueStep(j))
    ensures Inv(GiveUpQueue(s, j))
  {
    assert JobOk(s, j);
    var t := GiveUpQueue(s, j);
    forall d | 0 <= d < CHANNELS ensures ChannelOk(t, d) { assert ChannelOk(s, d); }
    forall q | 0 <= q < QUEUES ensures QueueOk(t, q) { assert QueueOk(s, q); }
    OwnStep(s, t, j);
  }

  /** Giving up a channel keeps the tables exactly when the channel has not been reported and handed to another
      transfer in the meantime. */
  lemma GiveUpExact(s: State, j: nat)
    requires Inv(s) && Enabled(s, GiveUpChannelStep(j))
    ensures Inv(GiveUpChannel(s, j)) <==> GiveUpCareful(s, j)
  {
    var t, c := GiveUpChannel(s, j), s.jobs[j].chan;
    assert JobOk(s, j) && ChannelOk(s, c);
    if GiveUpCareful(s, j) {
      forall d | 0 <= d < CHANNELS ensures ChannelOk(t, d) { assert ChannelOk(s, d); }
      forall q | 0 <= q < QUEUES ensures QueueOk(t, q) { assert QueueOk(s, q); }
      OwnStep(s, t, j);
    } else {
      assert JobOk(s, s.who[c]);
      assert !JobOk(t, s.who[c]);
    }
  }

  /** Any step keeps the tables right exactly when it is careful. */
  lemma NextExact(s: State, e: Step)
    requires Inv(s)
    ensures Inv(Next(s, e)) <==> Careful(s, e)
  {
    if Enabled(s, e) {
      match e
      case BeginStep(kind) => BeginKeeps(s, kind); hide Begin, Inv;
      case StartStep(j, r) => StartKeeps(s, j, r); hide Start, Inv, StartCareful;
      case IsrStep(c) => IsrKeeps(s, c); hide Isr, Inv, IsrCareful;
      case WakeStep(j) => WakeKeeps(s, j); hide Wake, Inv;
      case FreeStep(j) => FreeDoubleKeeps(s, j); hide FreeDouble, Inv;
      case GiveUpQueueStep(j) => GiveUpQueueKeeps(s, j); hide GiveUpQueue, Inv;
      case GiveUpChannelStep(j) => GiveUpExact(s, j); hide GiveUpChannel, Inv, GiveUpCareful;
    }
  }

  // ---- runs --------------------------------------------------------------------------------------

  function Run(s: State, steps: seq<Step>): (t: State)
    requires Shaped(s)
    ensures Shaped(t) && |s.jobs| <= |t.jobs|
  {
    if steps == [] then s else Next(Run(s, steps[..|steps| - 1]), steps[|steps| - 1])
  }

  ghost predicate CarefulRun(s: State, steps: seq<Step>)
    requires Shaped(s)
  {
    forall k :: 0 <= k < |steps| ==> Careful(Run(s, steps[..k]), steps[k])
  }

  ghost predicate RightThroughout(s: State, steps: seq<Step>)
    requires Shaped(s)
  {
    forall k :: 0 <= k <= |steps| ==> Inv(Run(s, steps[..k]))
  }

  const RESET := State(seq(CHANNELS, _ => Free), seq(CHANNELS, _ => NULL), seq(QUEUES, _ => NULL),
                       seq(QUEUES, _ => []), [])

  lemma {:induction false} RunKeeps(s: State, steps: seq<Step>)
    requires Inv(s) && CarefulRun(s, steps)
    ensures Inv(Run(s, steps))
    decreases |steps|
  {
    assert Shaped(s);
    hide Inv, Careful, Next;
    if steps != [] {
      var n := |steps| - 1;
      var t := steps[..n];
      forall k | 0 <= k < n ensures t[..k] == steps[..k] && t[k] == steps[k] {
      }
      RunKeeps(s, t);
      NextExact(Run(s, t), steps[n]);
    }
  }

  lemma RunSnoc(s: State, steps: seq<Step>, k: nat)
    requires Shaped(s) && k < |steps|
    ensures Run(s, steps[..k + 1]) == Next(Run(s, steps[..k]), steps[k])
  {
    var t := steps[..k + 1];
    assert t[..k] == steps[..k] && t[k] == steps[k];
  }

  lemma {:induction false} CarefulPrefix(s: State, steps: seq<Step>, k: nat)
    requires Shaped(s) && k <= |steps| && forall i :: 0 <= i < k ==> Careful(Run(s, steps[..i]), steps[i])
    ensures CarefulRun(s, steps[..k])
  {
    var t := steps[..k];
    forall i | 0 <= i < k ensures t[..i] == steps[..i] && t[i] == steps[i] {
    }
    hide Careful, Run;
  }

  /** Over every run channels and driver queues belong to their transfers at every moment exactly when every step
      is careful. */
  lemma RunExact(s: State, steps: seq<Step>)
    requires Inv(s)
    ensures RightThroughout(s, steps) <==> CarefulRun(s, steps)
  {
    assert Shaped(s);
    hide Inv, Careful, Next, Run;
    if CarefulRun(s, steps) {
      forall k | 0 <= k <= |steps| ensures Inv(Run(s, steps[..k])) {
        CarefulPrefix(s, steps, k);
        RunKeeps(s, steps[..k]);
      }
    }
    if RightThroughout(s, steps) {
      forall k | 0 <= k < |steps| ensures Careful(Run(s, steps[..k]), steps[k]) {
        assert Inv(Run(s, steps[..k])) && Inv(Run(s, steps[..k + 1]));
        RunSnoc(s, steps, k);
        NextExact(Run(s, steps[..k]), steps[k]);
      }
    }
  }

  /** Told once when it has been reported, and not before. */
  predicate ToldRight(job: Job) {
    match job.phase
    case Queued => job.told == 0
    case Running => job.told == 0
    case Reported => job.told == 1
    case Leaving => job.told <= 1
    case Over(ok) => job.told == if ok then 1 else 0
    case Stranded => true
  }

  /** What the invariant means to the users of the driver: no two transfers are on one channel, a normal
      transfer is told once before its channel is free again and never twice, and a task that wakes has its own
      completion. */
  lemma {:induction false} TransfersApart(steps: seq<Step>)
    requires CarefulRun(RESET, steps)
    ensures var s := Run(RESET, steps);
      && Inv(s)
      && (forall j, k :: 0 <= j < k < |s.jobs| && OnChannel(s.jobs[j]) && OnChannel(s.jobs[k]) ==>
            s.jobs[j].chan != s.jobs[k].chan)
      && (forall j :: 0 <= j < |s.jobs| && s.jobs[j].kind != Double ==> ToldRight(s.jobs[j]))
      && (forall j :: 0 <= j < |s.jobs| && Enabled(s, WakeStep(j)) ==>
            s.jobs[j].phase == Reported && s.box[s.jobs[j].q] == [j])
  {
    RunKeeps(RESET, steps);
    var s := Run(RESET, steps);
    hide Run;
    forall j | 0 <= j < |s.jobs| && Enabled(s, WakeStep(j))
      ensures s.jobs[j].phase == Reported && s.box[s.jobs[j].q] == [j]
    {
      WakeKeeps(s, j);
    }
    forall j | 0 <= j < |s.jobs| && s.jobs[j].kind != Double ensures ToldRight(s.jobs[j]) {
      assert JobOk(s, j);
    }
    forall j, k | 0 <= j < k < |s.jobs| && OnChannel(s.jobs[j]) && OnChannel(s.jobs[k])
      ensures s.jobs[j].chan != s.jobs[k].chan
    {
      assert JobOk(s, j) && JobOk(s, k);
    }
  }

  /** When every transfer is over, nothing has leaked. */
  lemma NothingLeaks(s: State)
    requires Inv(s) && forall j :: 0 <= j < |s.jobs| ==> s.jobs[j].phase.Over?
    ensures s.use == RESET.use && s.who == RESET.who && s.owner == RESET.owner
  {
    forall c | 0 <= c < CHANNELS ensures s.use[c] == Free && s.who[c] == NULL { assert ChannelOk(s, c); }
    forall q | 0 <= q < QUEUES ensures s.owner[q] == NULL { assert QueueOk(s, q); }
  }

  /** An occupied channel survives its interrupts and everything the others do carefully; only freeing it gives
      it back. */
  lemma OccupiedStays(s: State, e: Step, c: nat)
    requires Inv(s) && c < CHANNELS && s.use[c].Occupied? && Careful(s, e)
    ensures Next(s, e).use[c].Occupied? && Next(s, e).who[c] == s.who[c]
      <==> !(e.FreeStep? && Enabled(s, e) && e.j == s.who[c])
  {
    assert ChannelOk(s, c);
    assert JobOk(s, s.who[c]);
    if Enabled(s, e) {
      match e
      case BeginStep(_) =>
      case StartStep(j, r) => if r.count > 0 { StartKeepsUsed(s, j, r, c); } hide Start;
      case IsrStep(d) => assert ChannelOk(s, d);
      case WakeStep(j) =>
      case FreeStep(j) => assert JobOk(s, j);
      case GiveUpQueueStep(j) =>
      case GiveUpChannelStep(j) => assert JobOk(s, j);
    }
  }

  lemma StartKeepsUsed(s: State, j: nat, r: Request, c: nat)
    requires Inv(s) && j < |s.jobs| && s.jobs[j].phase == Queued && r.count > 0 && StartCareful(s, r)
    requires c < CHANNELS && !s.use[c].Free?
    ensures Start(s, j, r).use[c] == s.use[c] && Start(s, j, r).who[c] == s.who[c]
  {
    StartExact(s, j, r);
    var t := Start(s, j, r);
    assert ChannelOk(s, 0);
    hide Start, Check, Searchable, Inv;
    if d :| Launched(s, t, j, d) {
    }
  }

  // ---- driver queues in every run ----------------------------------------------------------------

  /** Driver queues are one-to-one with the transfers that have one, careful or not. */
  ghost predicate QueuesRight(s: State) {
    && Shaped(s)
    && (forall q :: 0 <= q < QUEUES ==> QueueOk(s, q))
    && (forall j :: 0 <= j < |s.jobs| && OwnsQueue(s.jobs[j]) ==> s.owner[s.jobs[j].q] == j)
  }

  lemma InvQueues(s: State)
    requires Inv(s)
    ensures QueuesRight(s)
  {
    forall j | 0 <= j < |s.jobs| && OwnsQueue(s.jobs[j]) ensures s.owner[s.jobs[j].q] == j {
      assert JobOk(s, j);
    }
  }

  lemma NextQueues(s: State, e: Step)
    requires QueuesRight(s)
    ensures QueuesRight(Next(s, e))
  {
    hide GetChannel, Check, Start;
    if e.StartStep? {
      StartQueues(s, e);
    } else {
      var t := Next(s, e);
      forall q | 0 <= q < QUEUES ensures QueueOk(t, q) {
        assert QueueOk(s, q);
      }
    }
  }

  lemma StartQueues(s: State, e: Step)
    requires QueuesRight(s) && e.StartStep?
    ensures QueuesRight(Next(s, e))
  {
    hide GetChannel, Check;
    var t := Next(s, e);
    forall q | 0 <= q < QUEUES ensures QueueOk(t, q) {
      assert QueueOk(s, q);
    }
  }

  /** In every run, careful or not, a transfer that is over has no driver queue. */
  lemma {:induction false} QueueReleased(s: State, steps: seq<Step>)
    requires QueuesRight(s)
    ensures QueuesRight(Run(s, steps))
    ensures var t := Run(s, steps);
      forall j, q :: 0 <= j < |t.jobs| && t.jobs[j].phase.Over? && 0 <= q < QUEUES ==> t.owner[q] != j
    decreases |steps|
  {
    if steps != [] {
      QueueReleased(s, steps[..|steps| - 1]);
      NextQueues(Run(s, steps[..|steps| - 1]), steps[|steps| - 1]);
    }
    var t := Run(s, steps);
    forall j, q | 0 <= j < |t.jobs| && t.jobs[j].phase.Over? && 0 <= q < QUEUES ensures t.owner[q] != j {
      assert QueueOk(t, q);
    }
  }

  // ---- where it does not hold --------------------------------------------------------------------

  /** A waiting transfer of length 0 starts no channel, so nobody ever posts: in every careful run its task
      sleeps for ever and keeps the driver queue. */
  lemma {:induction false} EmptyWaitStrands(s: State, steps: seq<Step>, j: nat)
    requires Inv(s) && CarefulRun(s, steps) && j < |s.jobs| && s.jobs[j].phase == Stranded
    ensures var t := Run(s, steps);
      Inv(t) && t.jobs[j] == s.jobs[j] && t.owner[s.jobs[j].q] == j
    decreases |steps|
  {
    if steps == [] {
      assert JobOk(s, j);
    } else {
      var n := |steps| - 1;
      CarefulPrefix(s, steps, n);
      assert steps[..n + 1] == steps;
      RunSnoc(s, steps, n);
      EmptyWaitStrands(s, steps[..n], j);
      var u := Run(s, steps[..n]);
      NextExact(u, steps[n]);
      StaysStranded(u, steps[n], j);
      hide Run, Next, Careful;
      assert JobOk(Next(u, steps[n]), j);
    }
  }

  lemma StaysStranded(s: State, e: Step, j: nat)
    requires Inv(s) && j < |s.jobs| && s.jobs[j].phase == Stranded
    ensures Next(s, e).jobs[j] == s.jobs[j]
  {
    assert JobOk(s, j);
    if Enabled(s, e) {
      match e
      case BeginStep(_) =>
      case StartStep(k, r) => hide Check, GetChannel;
      case IsrStep(c) => assert ChannelOk(s, c);
      case WakeStep(k) => WakeKeeps(s, k);
      case FreeStep(k) =>
      case GiveUpQueueStep(k) =>
      case GiveUpChannelStep(k) =>
    }
  }

  /** With all channels in use, a transfer to a target above 0xF8000000 runs on channel 0 beside the transfer
      that has it. */
  lemma HighTargetShares(s: State, j: nat, r: Request)
    requires Inv(s) && j < |s.jobs| && s.jobs[j].phase == Queued && !SomeFree(s.use)
    requires Check(r) == 0 && r.count > 0 && !TooLong(r) && r.t > HIGH
    ensures var t := Start(s, j, r); var k := s.who[0];
      && 0 <= k < |s.jobs| && k != j && OnChannel(t.jobs[j]) && OnChannel(t.jobs[k])
      && t.jobs[j].chan == t.jobs[k].chan == 0 && t.who[0] == j
  {
    StartExact(s, j, r);
    assert ChannelOk(s, 0) && JobOk(s, s.who[0]);
    hide Start, Check;
  }

  /** A completion between the two halves of giving up lands in a queue that may be another's by then: its new
      owner can wake while its own transfer still runs. */
  lemma LateReportMisleads(s: State, j: nat, k: nat)
    requires Inv(s) && j < |s.jobs| && k < |s.jobs| && s.jobs[j].phase == Leaving && s.jobs[j].told == 0
    requires s.jobs[k].phase == Running && s.jobs[k].kind == Waits && s.jobs[k].q == s.jobs[j].q
    ensures var t := Isr(s, s.jobs[j].chan);
      t.jobs[k].phase == Running && t.box[t.jobs[k].q] == [j] && Enabled(t, WakeStep(k))
  {
    assert JobOk(s, j) && JobOk(s, k);
  }
}
