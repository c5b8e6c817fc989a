/** The line-band buffers of the camera: a free queue, two address registers the sensor fills in turn, the
    encoder's queue and the encoder's hand. An interrupt serves one register at a time; the encoder task
    puts buffers back. */
module CsiBuffers {
  const BUFFERS := 5                   // AVI_ENCODE_CSI_BUFFER_NO
  const FREE_MAX := 64                 // cmos_frame_q
  const TODO_MAX := 32                 // vid_enc_task_q
  const DUMMY := 0x4000_0000           // the register points nowhere
  const LAST := 0x8000_0000            // tag of the band that ends a frame

  /** A word in the encoder's queue: a buffer address, tagged on frame end, or some command. */
  datatype Item = Band(word: nat) | Command

  /** `flag` is csi_fifo_flag, `index` is g_csi_index; `on`: the sensor interrupt is enabled. */
  datatype State = State(free: seq<nat>, a: nat, b: nat, flag: bool, todo: seq<Item>, held: seq<nat>,
                         index: nat, on: bool)

  datatype Step =
    | Irq(frameEnd: bool, fifoEnd: bool)   // the interrupt, with the status bits it finds
    | Pend                                 // the encoder takes the head of its queue
    | Return                               // and gives the buffer back
    | Post                                 // somebody posts a command
    | Flush                                // MSG_VIDEO_ENCODE_TASK_STOP empties the encoder's queue
    | Start                                // MSG_AVI_START_SENSOR
    | StopA | StopB | Mask | FlushFree     // the steps of MSG_AVI_STOP_SENSOR

  /** csi_frame_addr: five addresses below the dummy. */
  ghost predicate Frames(frames: seq<nat>) {
    && |frames| == BUFFERS
    && (forall i :: 0 <= i < BUFFERS ==> 0 < frames[i] < DUMMY)
    && (forall i, j :: 0 <= i < j < BUFFERS ==> frames[i] != frames[j])
  }

  // ---- the calls ---------------------------------------------------------------------------------

  function Tag(frame: nat, last: bool): nat { if last then frame + LAST else frame }

  function Untag(word: nat): nat { word % LAST }

  /** avi_encode_get_csi_frame. */
  function NextIndex(i: nat): nat { if i + 1 >= BUFFERS then 0 else i + 1 }

  function Gets(frames: seq<nat>, i: nat, n: nat): (r: seq<nat>)
    requires |frames| == BUFFERS && i < BUFFERS
    ensures |r| == n
    decreases n
  {
    if n == 0 then [] else [frames[i]] + Gets(frames, NextIndex(i), n - 1)
  }

  function IndexAfter(i: nat, n: nat): nat
    decreases n
  {
    if n == 0 then i else IndexAfter(NextIndex(i), n - 1)
  }

  function Put(free: seq<nat>, frame: nat): seq<nat> {
    if |free| < FREE_MAX then free + [frame] else free
  }

  function NextFree(s: State): nat {
    if s.free == [] || s.free[0] == 0 then DUMMY else s.free[0]
  }

  /** The register gets the next free buffer, or the dummy. */
  function Exchange(s: State, toA: bool): State {
    var free := if s.free == [] then [] else s.free[1..];
    if toA then s.(free := free, a := NextFree(s)) else s.(free := free, b := NextFree(s))
  }

  /** The filled buffer goes to the encoder, or back when the encoder's queue is full. */
  function Deliver(s: State, ready: nat, last: bool): State {
    if ready == DUMMY then s
    else if |s.todo| < TODO_MAX then s.(todo := s.todo + [Band(Tag(ready, last))])
    else s.(free := Put(s.free, ready))
  }

  /** vid_enc_csi_fifo_end; `toA` is bit 0 of its flag. */
  function FifoEnd(s: State, toA: bool, last: bool): State {
    Deliver(Exchange(s, toA), if toA then s.a else s.b, last)
  }

  /** user_defined_video_codec_isr_csi: both bits at once are served as one frame end. */
  function Isr(s: State, frameEnd: bool, fifoEnd: bool): State {
    if !s.on || !(frameEnd || fifoEnd) then s
    else FifoEnd(s.(flag := !s.flag), !s.flag, frameEnd)
  }

  function Started(frames: seq<nat>, s: State): State
    requires |frames| == BUFFERS && s.index < BUFFERS
  {
    var all := Gets(frames, s.index, BUFFERS);
    s.(free := all[2..], a := all[0], b := all[1], on := true)
  }

  function Next(frames: seq<nat>, s: State, e: Step): (r: State)
    requires |frames| == BUFFERS && s.index < BUFFERS
    ensures r.index < BUFFERS
  {
    match e
    case Irq(frameEnd, fifoEnd) => Isr(s, frameEnd, fifoEnd)
    case Pend =>
      if s.held != [] || s.todo == [] then s
      else if s.todo[0].Command? then s.(todo := s.todo[1..])
      else s.(todo := s.todo[1..], held := [Untag(s.todo[0].word)])
    case Return => if s.held == [] then s else s.(free := Put(s.free, s.held[0]), held := s.held[1..])
    case Post => if |s.todo| < TODO_MAX then s.(todo := s.todo + [Command]) else s
    case Flush => s.(todo := [])
    case Start => if s.on then s else Started(frames, s)
    case StopA => s.(a := DUMMY)
    case StopB => s.(b := DUMMY)
    case Mask => s.(on := false)
    case FlushFree => s.(free := [])
  }

  // ---- where the buffers are ---------------------------------------------------------------------

  function Bands(todo: seq<Item>): seq<nat> {
    if todo == [] then []
    else (if todo[0].Band? then [Untag(todo[0].word)] else []) + Bands(todo[1..])
  }

  function Register(r: nat): multiset<nat> { if r == DUMMY then multiset{} else multiset{r} }

  function Places(s: State): multiset<nat> {
    multiset(s.free) + Register(s.a) + Register(s.b) + multiset(Bands(s.todo)) + multiset(s.held)
  }

  /** No buffer is in two places. */
  ghost predicate AtMostOnce(frames: seq<nat>, s: State) {
    s.index < BUFFERS && |s.held| <= 1 && Places(s) <= multiset(frames)
  }

  /** Every buffer is in exactly one place. */
  ghost predicate ExactlyOnce(frames: seq<nat>, s: State) {
    AtMostOnce(frames, s) && Places(s) == multiset(frames)
  }

  lemma {:induction false} BandsSnoc(todo: seq<Item>, x: Item)
    ensures Bands(todo + [x]) == Bands(todo) + if x.Band? then [Untag(x.word)] else []
    decreases |todo|
  {
    hide Untag;
    if todo == [] {
      assert [x][1..] == [] && todo + [x] == [x];
    } else {
      assert (todo + [x])[1..] == todo[1..] + [x] && (todo + [x])[0] == todo[0];
      BandsSnoc(todo[1..], x);
    }
  }

  /** Removing the tag gives the buffer back. */
  lemma UntagTag(frame: nat, last: bool)
    requires frame < DUMMY
    ensures Untag(Tag(frame, last)) == frame
  {
  }

  lemma FramesAt(frames: seq<nat>, f: nat)
    requires Frames(frames) && f in multiset(frames)
    ensures 0 < f < DUMMY
  {
    assert f in frames;
  }

  lemma SizeOfPart(a: multiset<nat>, b: multiset<nat>)
    requires a <= b
    ensures |a| <= |b|
  {
    assert b == a + (b - a);
  }

  /** There is always room in the free queue. */
  lemma FreeHasRoom(frames: seq<nat>, s: State)
    requires Frames(frames) && AtMostOnce(frames, s)
    ensures |s.free| <= 5 < 64 == FREE_MAX
    ensures forall f :: f in s.free ==> 0 < f < DUMMY
  {
    assert multiset(s.free) <= Places(s);
    SizeOfPart(multiset(s.free), multiset(frames));
    forall f | f in s.free ensures 0 < f < DUMMY {
      assert f in multiset(s.free);
      FramesAt(frames, f);
    }
  }

  lemma Head<T>(s: seq<T>)
    requires s != []
    ensures multiset(s) == multiset{s[0]} + multiset(s[1..])
  {
    assert s == [s[0]] + s[1..];
  }

  lemma Snoc<T>(s: seq<T>, x: T)
    ensures multiset(s + [x]) == multiset(s) + multiset{x}
  {
  }

  lemma Swap<T>(f: multiset<T>, n: multiset<T>, old1: multiset<T>, f1: multiset<T>, rest: multiset<T>)
    requires f == n + f1
    ensures (f1 + n + rest) + old1 == f + old1 + rest
  {
  }

  /** The exchange takes out of the circulation exactly the buffer the sensor filled. */
  lemma ExchangeTakes(s: State, toA: bool)
    requires forall f :: f in s.free ==> 0 < f < DUMMY
    ensures Places(Exchange(s, toA)) + Register(if toA then s.a else s.b) == Places(s)
  {
    hide Bands, Register, NextFree;
    var t := Exchange(s, toA);
    ExchangeSplits(s, toA);
    var rest := multiset(Bands(s.todo)) + multiset(s.held);
    var n := Register(NextFree(s));
    if toA {
      Swap(multiset(s.free), n, Register(s.a), multiset(t.free), Register(s.b) + rest);
    } else {
      Swap(multiset(s.free), n, Register(s.b), multiset(t.free), Register(s.a) + rest);
    }
  }

  lemma ExchangeSplits(s: State, toA: bool)
    requires forall f :: f in s.free ==> 0 < f < DUMMY
    ensures multiset(s.free) == Register(NextFree(s)) + multiset(Exchange(s, toA).free)
  {
    if s.free != [] {
      assert s.free[0] in s.free;
      Head(s.free);
    }
  }

  lemma MoveBand(s: State, todo: seq<Item>, f: nat)
    requires Bands(todo) == Bands(s.todo) + [f]
    ensures Places(s.(todo := todo)) == Places(s) + multiset{f}
  {
    Snoc(Bands(s.todo), f);
    hide Bands, Register;
  }

  lemma MoveFree(s: State, f: nat)
    ensures Places(s.(free := s.free + [f])) == Places(s) + multiset{f}
  {
    Snoc(s.free, f);
    hide Bands, Register;
  }

  /** And the delivery puts it back in one place. */
  lemma DeliverAdds(s: State, ready: nat, last: bool)
    requires |s.free| < FREE_MAX && ready <= DUMMY
    ensures Places(Deliver(s, ready, last)) == Places(s) + Register(ready)
  {
    hide Places, Bands, Tag, Untag;
    if ready != DUMMY {
      UntagTag(ready, last);
      var item := Band(Tag(ready, last));
      BandsSnoc(s.todo, item);
      MoveBand(s, s.todo + [item], ready);
      MoveFree(s, ready);
    }
  }

  lemma FifoEndKeeps(frames: seq<nat>, s: State, toA: bool, last: bool)
    requires Frames(frames) && AtMostOnce(frames, s)
    ensures Places(FifoEnd(s, toA, last)) == Places(s)
  {
    FreeHasRoom(frames, s);
    var ready := if toA then s.a else s.b;
    if ready != DUMMY {
      assert ready in Places(s);
      FramesAt(frames, ready);
    }
    assert |Exchange(s, toA).free| < FREE_MAX && ready <= DUMMY;
    hide Places, Deliver, Register, Exchange, AtMostOnce, Frames;
    ExchangeTakes(s, toA);
    DeliverAdds(Exchange(s, toA), ready, last);
  }

  /** The steps of a running sensor. */
  predicate Circulates(e: Step) { e.Irq? || e.Pend? || e.Return? || e.Post? }

  lemma PendKeeps(frames: seq<nat>, s: State)
    requires |frames| == BUFFERS && s.index < BUFFERS
    ensures Places(Next(frames, s, Pend)) == Places(s)
    ensures |s.held| <= 1 ==> |Next(frames, s, Pend).held| <= 1
  {
    hide Untag;
    if s.held == [] && s.todo != [] {
      var t := Next(frames, s, Pend);
      assert Bands(s.todo) == t.held + Bands(t.todo);
    }
  }

  lemma ReturnKeeps(frames: seq<nat>, s: State)
    requires |frames| == BUFFERS && s.index < BUFFERS && |s.free| < FREE_MAX
    ensures Places(Next(frames, s, Return)) == Places(s)
  {
    hide Bands, Register;
    if s.held != [] {
      Head(s.held);
      Snoc(s.free, s.held[0]);
    }
  }

  lemma PostKeeps(frames: seq<nat>, s: State)
    requires |frames| == BUFFERS && s.index < BUFFERS
    ensures Places(Next(frames, s, Post)) == Places(s)
  {
    BandsSnoc(s.todo, Command);
    hide Bands;
    assert Bands(s.todo) + [] == Bands(s.todo);
  }

  lemma IsrKeeps(frames: seq<nat>, s: State, frameEnd: bool, fifoEnd: bool)
    requires Frames(frames) && AtMostOnce(frames, s)
    ensures Places(Isr(s, frameEnd, fifoEnd)) == Places(s)
  {
    var t := s.(flag := !s.flag);
    assert Places(t) == Places(s);
    FifoEndKeeps(frames, t, !s.flag, frameEnd);
    hide FifoEnd, Places;
  }

  lemma CirculationShape(frames: seq<nat>, s: State, e: Step)
    requires |frames| == BUFFERS && s.index < BUFFERS && |s.held| <= 1 && Circulates(e)
    ensures Next(frames, s, e).index == s.index && |Next(frames, s, e).held| <= 1
  {
    hide Put, Tag, Untag, NextFree, Started;
  }

  lemma CirculationPlaces(frames: seq<nat>, s: State, e: Step)
    requires Frames(frames) && AtMostOnce(frames, s) && Circulates(e)
    ensures Places(Next(frames, s, e)) == Places(s)
  {
    FreeHasRoom(frames, s);
    hide Places, Isr, Put, Started;
    match e
    case Irq(frameEnd, fifoEnd) => IsrKeeps(frames, s, frameEnd, fifoEnd);
    case Pend => PendKeeps(frames, s);
    case Return => ReturnKeeps(frames, s);
    case Post => PostKeeps(frames, s);
  }

  lemma CirculationKeeps(frames: seq<nat>, s: State, e: Step)
    requires Frames(frames) && AtMostOnce(frames, s) && Circulates(e)
    ensures Places(Next(frames, s, e)) == Places(s) && AtMostOnce(frames, Next(frames, s, e))
  {
    CirculationShape(frames, s, e);
    CirculationPlaces(frames, s, e);
    hide Places, Next;
  }

  lemma DropKeeps(frames: seq<nat>, s: State, e: Step)
    requires Frames(frames) && AtMostOnce(frames, s) && !Circulates(e) && !e.Start?
    ensures AtMostOnce(frames, Next(frames, s, e))
  {
    assert Places(Next(frames, s, e)) <= Places(s);
  }

  // ---- loading the circulation -------------------------------------------------------------------

  /** Whatever the index is, five gets hand out every buffer once and leave the index where it was. */
  lemma GetsAll(frames: seq<nat>, i: nat)
    requires |frames| == BUFFERS && i < BUFFERS
    ensures Gets(frames, i, BUFFERS) == frames[i..] + frames[..i]
    ensures multiset(Gets(frames, i, BUFFERS)) == multiset(frames)
    ensures IndexAfter(i, BUFFERS) == i
  {
    hide Gets, IndexAfter;
    GetsWrap(frames, i, BUFFERS);
    IndexWrap(i, BUFFERS);
    Concat(frames[i..], frames[..i]);
    assert frames == frames[..i] + frames[i..];
  }

  lemma Concat<T>(a: seq<T>, b: seq<T>)
    ensures multiset(a + b) == multiset(b + a)
  {
  }

  lemma {:induction false} IndexWrap(i: nat, n: nat)
    requires i < BUFFERS && n <= BUFFERS
    ensures IndexAfter(i, n) == if i + n < BUFFERS then i + n else i + n - BUFFERS
    decreases n
  {
    if n > 0 {
      IndexWrap(NextIndex(i), n - 1);
    }
  }

  lemma {:induction false} GetsWrap(frames: seq<nat>, i: nat, n: nat)
    requires |frames| == BUFFERS && i < BUFFERS && n <= BUFFERS
    ensures Gets(frames, i, n)
      == if i + n <= BUFFERS then frames[i..i + n] else frames[i..] + frames[..i + n - BUFFERS]
    decreases n
  {
    if n > 0 {
      GetsWrap(frames, NextIndex(i), n - 1);
    }
  }

  lemma StartPlaces(frames: seq<nat>, s: State)
    requires Frames(frames) && s.index < BUFFERS
    ensures Places(Started(frames, s)) == multiset(frames) + multiset(Bands(s.todo)) + multiset(s.held)
  {
    GetsAll(frames, s.index);
    hide Gets, Bands, Frames;
    var all := Gets(frames, s.index, BUFFERS);
    assert multiset(all) == multiset(frames) && all[0] in multiset(all) && all[1] in multiset(all);
    FramesAt(frames, all[0]);
    FramesAt(frames, all[1]);
    Head(all);
    Head(all[1..]);
    assert all[1..][1..] == all[2..];
  }

  /** A start loads register A, register B and the free queue in this order, from the index on. */
  lemma StartLoads(frames: seq<nat>, s: State)
    requires Frames(frames) && s.index < BUFFERS
    ensures var t := Started(frames, s);
      [t.a, t.b] + t.free == frames[s.index..] + frames[..s.index]
      && t.on && t.index == s.index && t.todo == s.todo && t.held == s.held && t.flag == s.flag
  {
    GetsAll(frames, s.index);
    hide Gets;
    var all := Gets(frames, s.index, BUFFERS);
    assert all == [all[0], all[1]] + all[2..];
  }

  /** Starting the sensor puts every buffer in one place exactly when the encoder has none of them left: no
      band in its queue and none in its hand. */
  lemma StartExact(frames: seq<nat>, s: State)
    requires Frames(frames) && s.index < BUFFERS && |s.held| <= 1
    ensures ExactlyOnce(frames, Started(frames, s)) <==> Bands(s.todo) == [] && s.held == []
    ensures AtMostOnce(frames, Started(frames, s)) <==> Bands(s.todo) == [] && s.held == []
  {
    StartPlaces(frames, s);
    var left := multiset(Bands(s.todo)) + multiset(s.held);
    var p := Places(Started(frames, s));
    assert p == multiset(frames) + left;
    if p <= multiset(frames) {
      SizeOfPart(p, multiset(frames));
      assert |left| == 0;
    }
  }

  // ---- runs --------------------------------------------------------------------------------------

  /** A stop that nothing interrupts, an emptied encoder queue and a start put every buffer in exactly one place again,
      wherever the buffers were, if the encoder holds none. */
  lemma RestartCompletes(frames: seq<nat>, s: State)
    requires Frames(frames) && AtMostOnce(frames, s) && s.held == []
    ensures var stopped := Run(frames, s, [StopA, StopB, Mask, FlushFree, Flush]);
      && !stopped.on && stopped.free == [] && stopped.todo == [] && stopped.a == stopped.b == 0x4000_0000
      && ExactlyOnce(frames, Next(frames, stopped, Start))
  {
    var t := s.(a := DUMMY, b := DUMMY, on := false, free := [], todo := []);
    assert Run(frames, s, [StopA, StopB, Mask, FlushFree, Flush]) == t by {
      RunFive(frames, s, StopA, StopB, Mask, FlushFree, Flush);
    }
    hide AtMostOnce, Places, Started, Run;
    StartExact(frames, t);
  }

  lemma RunFive(frames: seq<nat>, s: State, e1: Step, e2: Step, e3: Step, e4: Step, e5: Step)
    requires |frames| == BUFFERS && s.index < BUFFERS
    ensures Run(frames, s, [e1, e2, e3, e4, e5])
      == Next(frames, Next(frames, Next(frames, Next(frames, Next(frames, s, e1), e2), e3), e4), e5)
  {
    hide Next, Run;
    var s1 := Next(frames, s, e1);
    var s2 := Next(frames, s1, e2);
    var s3 := Next(frames, s2, e3);
    var s4 := Next(frames, s3, e4);
    RunCons(frames, s, e1, [e2, e3, e4, e5]);
    RunCons(frames, s1, e2, [e3, e4, e5]);
    RunCons(frames, s2, e3, [e4, e5]);
    RunCons(frames, s3, e4, [e5]);
    RunCons(frames, s4, e5, []);
    assert [e1, e2, e3, e4, e5] == [e1] + [e2, e3, e4, e5] && [e2, e3, e4, e5] == [e2] + [e3, e4, e5];
    assert [e3, e4, e5] == [e3] + [e4, e5] && [e4, e5] == [e4] + [e5] && [e5] == [e5] + [];
  }

  lemma RunCons(frames: seq<nat>, s: State, e: Step, rest: seq<Step>)
    requires |frames| == BUFFERS && s.index < BUFFERS
    ensures Run(frames, s, [e] + rest) == Run(frames, Next(frames, s, e), rest)
    ensures Run(frames, s, []) == s && (rest == [] ==> Run(frames, s, [e] + rest) == Next(frames, s, e))
  {
    hide Next;
    assert ([e] + rest)[1..] == rest;
  }

  /** The encoder's queue takes a command while it has fewer than 32 words, and gives its words out one by one. */
  lemma CommandsPass(frames: seq<nat>, s: State)
    requires |frames| == BUFFERS && s.index < BUFFERS
    ensures Next(frames, s, Post) == s.(todo := if |s.todo| < 32 then s.todo + [Command] else s.todo)
    ensures s.held == [] && s.todo != [] ==> Next(frames, s, Pend).todo == s.todo[1..]
    ensures s.held == [] && s.todo != [] && s.todo[0].Command? ==> Next(frames, s, Pend).held == []
  {
  }

  function Run(frames: seq<nat>, s: State, steps: seq<Step>): (r: State)
    requires |frames| == BUFFERS && s.index < BUFFERS
    ensures r.index < BUFFERS
    decreases |steps|
  {
    if steps == [] then s else Run(frames, Next(frames, s, steps[0]), steps[1..])
  }

  ghost predicate AllCirculate(steps: seq<Step>) { forall k :: 0 <= k < |steps| ==> Circulates(steps[k]) }

  ghost predicate NoStart(steps: seq<Step>) { forall k :: 0 <= k < |steps| ==> !steps[k].Start? }

  /** While the sensor runs every buffer stays in exactly one place, however interrupts, commands and the
      encoder interleave, and also when the encoder's queue is full. */
  lemma {:induction false} BuffersConserved(frames: seq<nat>, s: State, steps: seq<Step>)
    requires Frames(frames) && ExactlyOnce(frames, s) && AllCirculate(steps)
    ensures ExactlyOnce(frames, Run(frames, s, steps))
    ensures forall f :: f in frames ==> Places(Run(frames, s, steps))[f] == 1
    decreases |steps|
  {
    if steps == [] {
      forall f | f in frames ensures multiset(frames)[f] == 1 {
        OnceInFrames(frames, f);
      }
    } else {
      assert Circulates(steps[0]);
      assert AllCirculate(steps[1..]) by { assert forall k :: 0 <= k < |steps| - 1 ==> steps[1..][k] == steps[k + 1]; }
      CirculationKeeps(frames, s, steps[0]);
      BuffersConserved(frames, Next(frames, s, steps[0]), steps[1..]);
    }
  }

  lemma OnceInFrames(frames: seq<nat>, f: nat)
    requires Frames(frames) && f in frames
    ensures multiset(frames)[f] == 1
  {
    var i :| 0 <= i < |frames| && frames[i] == f;
    assert frames == frames[..i] + [f] + frames[i + 1..];
    assert f !in frames[..i] && f !in frames[i + 1..];
    assert multiset(frames[..i])[f] == 0 && multiset(frames[i + 1..])[f] == 0;
  }

  /** Stopping and flushing, step by step with interrupts in between, never doubles a buffer. */
  lemma {:induction false} NeverTwice(frames: seq<nat>, s: State, steps: seq<Step>)
    requires Frames(frames) && AtMostOnce(frames, s) && NoStart(steps)
    ensures AtMostOnce(frames, Run(frames, s, steps))
    decreases |steps|
  {
    if steps != [] {
      assert !steps[0].Start?;
      assert NoStart(steps[1..]) by { assert forall k :: 0 <= k < |steps| - 1 ==> steps[1..][k] == steps[k + 1]; }
      if Circulates(steps[0]) {
        CirculationKeeps(frames, s, steps[0]);
      } else {
        DropKeeps(frames, s, steps[0]);
      }
      NeverTwice(frames, Next(frames, s, steps[0]), steps[1..]);
    }
  }

  // ---- stopping and starting again ---------------------------------------------------------------

  /** A start that takes effect finds the encoder without buffers. */
  predicate CleanStart(s: State, e: Step) { e.Start? && !s.on ==> Bands(s.todo) == [] && s.held == [] }

  lemma StepExact(frames: seq<nat>, s: State, e: Step)
    requires Frames(frames) && AtMostOnce(frames, s)
    ensures AtMostOnce(frames, Next(frames, s, e)) <==> CleanStart(s, e)
    ensures e.Start? && !s.on ==> (ExactlyOnce(frames, Next(frames, s, e)) <==> CleanStart(s, e))
  {
    if Circulates(e) {
      CirculationKeeps(frames, s, e);
    } else if e.Start? {
      StartExact(frames, s);
    } else {
      DropKeeps(frames, s, e);
    }
    hide Places, Bands, Started;
  }

  ghost predicate CleanStarts(frames: seq<nat>, s: State, steps: seq<Step>)
    requires |frames| == BUFFERS && s.index < BUFFERS
    decreases |steps|
  {
    steps == [] || (CleanStart(s, steps[0]) && CleanStarts(frames, Next(frames, s, steps[0]), steps[1..]))
  }

  /** No buffer is in two places at any moment of the run. */
  ghost predicate AlwaysOnce(frames: seq<nat>, s: State, steps: seq<Step>)
    requires |frames| == BUFFERS && s.index < BUFFERS
  {
    forall n :: 0 <= n <= |steps| ==> AtMostOnce(frames, Run(frames, s, steps[..n]))
  }

  lemma AlwaysOnceStep(frames: seq<nat>, s: State, steps: seq<Step>)
    requires |frames| == BUFFERS && s.index < BUFFERS && steps != []
    ensures AlwaysOnce(frames, s, steps)
      <==> AtMostOnce(frames, s) && AlwaysOnce(frames, Next(frames, s, steps[0]), steps[1..])
  {
    hide AtMostOnce, Next;
    var t := Next(frames, s, steps[0]);
    forall n | 0 < n <= |steps| ensures Run(frames, s, steps[..n]) == Run(frames, t, steps[1..][..n - 1]) {
      assert steps[..n][1..] == steps[1..][..n - 1] && steps[..n][0] == steps[0];
    }
    assert Run(frames, s, steps[..0]) == s;
    if AlwaysOnce(frames, s, steps) {
      forall n | 0 <= n <= |steps| - 1 ensures AtMostOnce(frames, Run(frames, t, steps[1..][..n])) {
        assert AtMostOnce(frames, Run(frames, s, steps[..n + 1]));
      }
    }
  }

  /** However often the sensor is stopped and started, with interrupts and encoder steps anywhere in between,
      no buffer is ever in two places exactly when every start finds the encoder without buffers. */
  lemma {:induction false} CyclesExact(frames: seq<nat>, s: State, steps: seq<Step>)
    requires Frames(frames) && AtMostOnce(frames, s)
    ensures AlwaysOnce(frames, s, steps) <==> CleanStarts(frames, s, steps)
    decreases |steps|
  {
    if steps != [] {
      var t := Next(frames, s, steps[0]);
      StepExact(frames, s, steps[0]);
      AlwaysOnceStep(frames, s, steps);
      hide AtMostOnce, Next, CleanStart;
      if CleanStart(s, steps[0]) {
        CyclesExact(frames, t, steps[1..]);
      } else {
        assert Run(frames, t, steps[1..][..0]) == t;
      }
    }
  }

  lemma {:induction false} CyclesKeep(frames: seq<nat>, s: State, steps: seq<Step>)
    requires Frames(frames) && AtMostOnce(frames, s) && CleanStarts(frames, s, steps)
    ensures AtMostOnce(frames, Run(frames, s, steps))
    decreases |steps|
  {
    if steps != [] {
      StepExact(frames, s, steps[0]);
      hide AtMostOnce, Next, CleanStart;
      CyclesKeep(frames, Next(frames, s, steps[0]), steps[1..]);
    }
  }

  /** After any number of such cycles, and from the next clean start on, every buffer is in exactly one place. */
  lemma CycleComplete(frames: seq<nat>, s: State, cycles: seq<Step>, after: seq<Step>)
    requires Frames(frames) && AtMostOnce(frames, s) && CleanStarts(frames, s, cycles) && AllCirculate(after)
    requires var stopped := Run(frames, s, cycles); !stopped.on && CleanStart(stopped, Start)
    ensures ExactlyOnce(frames, Run(frames, Next(frames, Run(frames, s, cycles), Start), after))
  {
    CyclesKeep(frames, s, cycles);
    var stopped := Run(frames, s, cycles);
    StepExact(frames, stopped, Start);
    hide Run, Places, Next, CleanStart;
    BuffersConserved(frames, Next(frames, stopped, Start), after);
  }

  // ---- order -------------------------------------------------------------------------------------

  /** One served interrupt: the buffer it took from the free queue, the one the sensor had filled, and
      whether that one went to the encoder. */
  datatype Served = Served(next: nat, ready: nat, posted: bool)

  function ServedBy(s: State): Served {
    var ready := if !s.flag then s.a else s.b;
    Served(NextFree(s), ready, ready != DUMMY && |s.todo| < TODO_MAX)
  }

  function Log(frames: seq<nat>, s: State, steps: seq<Step>): seq<Served>
    requires |frames| == BUFFERS && s.index < BUFFERS
    decreases |steps|
  {
    if steps == [] then []
    else (if s.on && steps[0].Irq? && (steps[0].frameEnd || steps[0].fifoEnd) then [ServedBy(s)] else [])
         + Log(frames, Next(frames, s, steps[0]), steps[1..])
  }

  function Taken(log: seq<Served>): (r: seq<nat>)
    ensures |r| == |log|
  {
    if log == [] then [] else [log[0].next] + Taken(log[1..])
  }

  function Ready(log: seq<Served>): (r: seq<nat>)
    ensures |r| == |log|
  {
    if log == [] then [] else [log[0].ready] + Ready(log[1..])
  }

  function Posted(log: seq<Served>): seq<nat> {
    if log == [] then [] else (if log[0].posted then [log[0].ready] else []) + Posted(log[1..])
  }

  /** What the encoder took out of its queue along a run. */
  function Pended(frames: seq<nat>, s: State, steps: seq<Step>): seq<nat>
    requires |frames| == BUFFERS && s.index < BUFFERS
    decreases |steps|
  {
    if steps == [] then []
    else (if steps[0].Pend? && s.held == [] && s.todo != [] && s.todo[0].Band? then [Untag(s.todo[0].word)] else [])
         + Pended(frames, Next(frames, s, steps[0]), steps[1..])
  }

  /** The registers, the one served next first. */
  function Window(s: State): seq<nat> { if !s.flag then [s.a, s.b] else [s.b, s.a] }

  lemma {:induction false} ReadyConcat(a: seq<Served>, b: seq<Served>)
    ensures Ready(a + b) == Ready(a) + Ready(b)
    decreases |a|
  {
    if a == [] {
      assert a + b == b;
    } else {
      assert (a + b)[1..] == a[1..] + b;
      ReadyConcat(a[1..], b);
    }
  }

  lemma {:induction false} TakenConcat(a: seq<Served>, b: seq<Served>)
    ensures Taken(a + b) == Taken(a) + Taken(b)
    decreases |a|
  {
    if a == [] {
      assert a + b == b;
    } else {
      assert (a + b)[1..] == a[1..] + b;
      TakenConcat(a[1..], b);
    }
  }

  lemma {:induction false} PostedConcat(a: seq<Served>, b: seq<Served>)
    ensures Posted(a + b) == Posted(a) + Posted(b)
    decreases |a|
  {
    if a == [] {
      assert a + b == b;
    } else {
      assert (a + b)[1..] == a[1..] + b;
      var head := if a[0].posted then [a[0].ready] else [];
      PostedConcat(a[1..], b);
      assert (a + b)[0] == a[0] && head + (Posted(a[1..]) + Posted(b)) == (head + Posted(a[1..])) + Posted(b);
    }
  }

  lemma LogCons(frames: seq<nat>, s: State, steps: seq<Step>)
    requires |frames| == BUFFERS && s.index < BUFFERS && steps != []
    ensures Log(frames, s, steps) == Log(frames, s, [steps[0]]) + Log(frames, Next(frames, s, steps[0]), steps[1..])
    ensures Pended(frames, s, steps)
      == Pended(frames, s, [steps[0]]) + Pended(frames, Next(frames, s, steps[0]), steps[1..])
  {
    hide Next, ServedBy, Untag;
    assert [steps[0]][1..] == [];
    var t := Next(frames, s, steps[0]);
    assert Log(frames, t, []) == [] && Pended(frames, t, []) == [];
  }

  lemma LogOne(frames: seq<nat>, s: State, e: Step)
    requires |frames| == BUFFERS && s.index < BUFFERS
    ensures Log(frames, s, [e])
      == if s.on && e.Irq? && (e.frameEnd || e.fifoEnd) then [ServedBy(s)] else []
    ensures Pended(frames, s, [e])
      == if e.Pend? && s.held == [] && s.todo != [] && s.todo[0].Band? then [Untag(s.todo[0].word)] else []
  {
    assert [e][1..] == [];
  }

  lemma ServedLog(x: Served)
    ensures Posted([x]) == (if x.posted then [x.ready] else []) && Posted([]) == []
    ensures Ready([x]) == [x.ready] && Taken([x]) == [x.next]
  {
    assert [x][1..] == [];
  }

  lemma IsrWindow(s: State, frameEnd: bool, fifoEnd: bool)
    requires s.on && (frameEnd || fifoEnd)
    ensures Window(s) == [ServedBy(s).ready, Window(s)[1]]
    ensures Window(Isr(s, frameEnd, fifoEnd)) == [Window(s)[1], ServedBy(s).next]
  {
    hide Put, Tag;
  }

  lemma UnservedWindow(frames: seq<nat>, s: State, e: Step)
    requires |frames| == BUFFERS && s.index < BUFFERS && Circulates(e)
    requires !(s.on && e.Irq? && (e.frameEnd || e.fifoEnd))
    ensures Window(Next(frames, s, e)) == Window(s)
  {
    hide Put, Untag, Started, FifoEnd;
  }

  lemma StepWindow(frames: seq<nat>, s: State, e: Step)
    requires Frames(frames) && AtMostOnce(frames, s) && Circulates(e)
    ensures var l := Log(frames, s, [e]);
      Ready(l) + Window(Next(frames, s, e)) == Window(s) + Taken(l)
  {
    LogOne(frames, s, e);
    ServedLog(ServedBy(s));
    if s.on && e.Irq? && (e.frameEnd || e.fifoEnd) {
      IsrWindow(s, e.frameEnd, e.fifoEnd);
      assert Next(frames, s, e) == Isr(s, e.frameEnd, e.fifoEnd);
      hide *;
    } else {
      UnservedWindow(frames, s, e);
      hide Next, Window, AtMostOnce;
    }
  }

  /** The sensor fills buffers in the order it was given them: those in the registers, the one served next
      first, and then those taken from the free queue. */
  lemma {:induction false} FilledInTurn(frames: seq<nat>, s: State, steps: seq<Step>)
    requires Frames(frames) && AtMostOnce(frames, s) && AllCirculate(steps)
    ensures var l := Log(frames, s, steps);
      Ready(l) + Window(Run(frames, s, steps)) == Window(s) + Taken(l)
    decreases |steps|
  {
    if steps != [] {
      assert Circulates(steps[0]);
      assert AllCirculate(steps[1..]) by { assert forall k :: 0 <= k < |steps| - 1 ==> steps[1..][k] == steps[k + 1]; }
      CirculationKeeps(frames, s, steps[0]);
      StepWindow(frames, s, steps[0]);
      LogCons(frames, s, steps);
      var t := Next(frames, s, steps[0]);
      FilledInTurn(frames, t, steps[1..]);
      var l1, l2 := Log(frames, s, [steps[0]]), Log(frames, t, steps[1..]);
      ReadyConcat(l1, l2);
      TakenConcat(l1, l2);
      Chain(Ready(l1), Window(t), Window(s), Taken(l1), Ready(l2), Window(Run(frames, s, steps)), Taken(l2));
    }
  }

  lemma Chain<T>(r1: seq<T>, wt: seq<T>, ws: seq<T>, t1: seq<T>, r2: seq<T>, wu: seq<T>, t2: seq<T>)
    requires r1 + wt == ws + t1 && r2 + wu == wt + t2
    ensures (r1 + r2) + wu == ws + (t1 + t2)
  {
    assert (r1 + r2) + wu == r1 + (r2 + wu) && (r1 + wt) + t2 == r1 + (wt + t2);
  }

  ghost predicate InOrder(frames: seq<nat>, s: State)
    requires |frames| == BUFFERS && s.index < BUFFERS
  {
    forall steps :: AllCirculate(steps) ==>
      Ready(Log(frames, s, steps)) <= [s.a, s.b] + Taken(Log(frames, s, steps))
  }

  /** In every run buffers are filled in the order they were taken, first register A's and then B's,
      exactly when the run starts with the flag at 0. */
  lemma OrderExact(frames: seq<nat>, s: State)
    requires Frames(frames) && AtMostOnce(frames, s) && s.on && s.a != s.b
    ensures InOrder(frames, s) <==> !s.flag
  {
    if s.flag {
      var steps := [Irq(false, true)];
      assert AllCirculate(steps);
      var l := Log(frames, s, steps);
      assert steps[1..] == [];
      assert l == [ServedBy(s)];
      assert Ready(l)[0] == s.b && ([s.a, s.b] + Taken(l))[0] == s.a;
    } else {
      forall steps | AllCirculate(steps)
        ensures Ready(Log(frames, s, steps)) <= [s.a, s.b] + Taken(Log(frames, s, steps))
      {
        FilledInTurn(frames, s, steps);
      }
    }
  }

  lemma IrqDelivers(frames: seq<nat>, s: State, frameEnd: bool, fifoEnd: bool)
    requires Frames(frames) && AtMostOnce(frames, s) && s.on && (frameEnd || fifoEnd)
    ensures Bands(Isr(s, frameEnd, fifoEnd).todo)
      == Bands(s.todo) + if ServedBy(s).posted then [ServedBy(s).ready] else []
  {
    var ready := ServedBy(s).ready;
    if ready != DUMMY {
      assert ready in Places(s);
      FramesAt(frames, ready);
      UntagTag(ready, frameEnd);
      BandsSnoc(s.todo, Band(Tag(ready, frameEnd)));
    }
    hide Bands, Places, Tag, Untag;
  }

  /** The word an interrupt posts, if any, is the filled buffer, tagged exactly on frame end. */
  lemma IrqTags(frames: seq<nat>, s: State, frameEnd: bool, fifoEnd: bool)
    requires Frames(frames) && AtMostOnce(frames, s) && s.on && (frameEnd || fifoEnd)
    ensures var t := Isr(s, frameEnd, fifoEnd);
      var filled := if s.flag then s.b else s.a;
      && t.flag == !s.flag
      && (if filled == 0x4000_0000 || |s.todo| >= 32 then t.todo == s.todo && !ServedBy(s).posted
          else
            && t.todo == s.todo + [Band(if frameEnd then filled + 0x8000_0000 else filled)]
            && ServedBy(s).posted && Untag(t.todo[|s.todo|].word) == filled)
  {
    hide Untag, Frames, Bands;
    var ready := ServedBy(s).ready;
    if ready != DUMMY {
      assert ready in Places(s);
      FramesAt(frames, ready);
      UntagTag(ready, frameEnd);
    }
    hide Places;
  }

  lemma PendDelivers(frames: seq<nat>, s: State)
    requires |frames| == BUFFERS && s.index < BUFFERS
    ensures (if s.held == [] && s.todo != [] && s.todo[0].Band? then [Untag(s.todo[0].word)] else [])
      + Bands(Next(frames, s, Pend).todo) == Bands(s.todo)
  {
    hide Untag;
  }

  lemma PostDelivers(frames: seq<nat>, s: State)
    requires |frames| == BUFFERS && s.index < BUFFERS
    ensures Bands(Next(frames, s, Post).todo) == Bands(s.todo)
  {
    BandsSnoc(s.todo, Command);
    hide Bands;
    assert Bands(s.todo) + [] == Bands(s.todo);
  }

  /** Other steps leave the encoder's queue alone. */
  lemma TodoStays(frames: seq<nat>, s: State, e: Step)
    requires |frames| == BUFFERS && s.index < BUFFERS
    requires e.Return? || (e.Irq? && !(s.on && (e.frameEnd || e.fifoEnd)))
    ensures Next(frames, s, e).todo == s.todo
  {
    hide Put;
  }

  lemma StepDelivers(frames: seq<nat>, s: State, e: Step)
    requires Frames(frames) && AtMostOnce(frames, s) && Circulates(e)
    ensures Pended(frames, s, [e]) + Bands(Next(frames, s, e).todo) == Bands(s.todo) + Posted(Log(frames, s, [e]))
  {
    assert s.index < BUFFERS && Posted([]) == [];
    LogOne(frames, s, e);
    if s.on && e.Irq? && (e.frameEnd || e.fifoEnd) {
      IrqServed(frames, s, e);
    } else {
      hide Log, Pended, ServedBy, Posted, Untag, Bands, Next, AtMostOnce, Frames;
      match e
      case Irq(_, _) => TodoStays(frames, s, e);
      case Pend => PendDelivers(frames, s);
      case Return => TodoStays(frames, s, e);
      case Post => PostDelivers(frames, s);
    }
  }

  lemma IrqServed(frames: seq<nat>, s: State, e: Step)
    requires Frames(frames) && AtMostOnce(frames, s) && s.on && e.Irq? && (e.frameEnd || e.fifoEnd)
    ensures Pended(frames, s, [e]) + Bands(Next(frames, s, e).todo) == Bands(s.todo) + Posted(Log(frames, s, [e]))
  {
    LogOne(frames, s, e);
    assert Next(frames, s, e) == Isr(s, e.frameEnd, e.fifoEnd);
    hide Log, Pended, ServedBy, Posted, Untag, Bands, Next, Isr, AtMostOnce, Frames;
    ServedLog(ServedBy(s));
    IrqDelivers(frames, s, e.frameEnd, e.fifoEnd);
  }

  /** The encoder takes exactly the posted buffers, untagged, in the order they were filled; a filled
      buffer is not posted exactly when it is the dummy or the queue is full. */
  lemma {:induction false} DeliveredInOrder(frames: seq<nat>, s: State, steps: seq<Step>)
    requires Frames(frames) && AtMostOnce(frames, s) && AllCirculate(steps)
    ensures Pended(frames, s, steps) + Bands(Run(frames, s, steps).todo)
      == Bands(s.todo) + Posted(Log(frames, s, steps))
    decreases |steps|
  {
    if steps != [] {
      assert Circulates(steps[0]);
      assert AllCirculate(steps[1..]) by { assert forall k :: 0 <= k < |steps| - 1 ==> steps[1..][k] == steps[k + 1]; }
      CirculationKeeps(frames, s, steps[0]);
      StepDelivers(frames, s, steps[0]);
      LogCons(frames, s, steps);
      var t := Next(frames, s, steps[0]);
      DeliveredInOrder(frames, t, steps[1..]);
      var l1, l2 := Log(frames, s, [steps[0]]), Log(frames, t, steps[1..]);
      PostedConcat(l1, l2);
      Chain(Pended(frames, s, [steps[0]]), Bands(t.todo), Bands(s.todo), Posted(l1),
            Pended(frames, t, steps[1..]), Bands(Run(frames, s, steps).todo), Posted(l2));
    }
  }

  // ---- the free queue ----------------------------------------------------------------------------

  /** What one step puts back into the free queue: the encoder's buffer, or one its full queue refused. */
  function Back(s: State, e: Step): seq<nat> {
    if e.Return? then s.held
    else if s.on && e.Irq? && (e.frameEnd || e.fifoEnd) && !ServedBy(s).posted && ServedBy(s).ready != DUMMY
    then [ServedBy(s).ready]
    else []
  }

  function BackAlong(frames: seq<nat>, s: State, steps: seq<Step>): seq<nat>
    requires |frames| == BUFFERS && s.index < BUFFERS
    decreases |steps|
  {
    if steps == [] then [] else Back(s, steps[0]) + BackAlong(frames, Next(frames, s, steps[0]), steps[1..])
  }

  /** The buffers among the taken ones; an empty queue gives the dummy. */
  function Real(q: seq<nat>): seq<nat> {
    if q == [] then [] else (if q[0] != DUMMY then [q[0]] else []) + Real(q[1..])
  }

  lemma {:induction false} RealConcat(a: seq<nat>, b: seq<nat>)
    ensures Real(a + b) == Real(a) + Real(b)
    decreases |a|
  {
    if a == [] {
      assert a + b == b;
    } else {
      assert (a + b)[1..] == a[1..] + b;
      RealConcat(a[1..], b);
    }
  }

  lemma ExchangeFree(s: State, toA: bool)
    requires forall f :: f in s.free ==> 0 < f < DUMMY
    ensures Real([NextFree(s)]) + Exchange(s, toA).free == s.free && |Exchange(s, toA).free| <= |s.free|
  {
    assert [NextFree(s)][1..] == [];
    if s.free != [] {
      assert s.free[0] in s.free;
      assert s.free == [s.free[0]] + s.free[1..];
    }
  }

  lemma DeliverFree(s: State, ready: nat, last: bool)
    requires |s.free| < FREE_MAX
    ensures Deliver(s, ready, last).free
      == s.free + if ready != DUMMY && |s.todo| >= TODO_MAX then [ready] else []
  {
    hide Tag;
  }

  lemma Append3<T>(a: seq<T>, b: seq<T>, c: seq<T>)
    ensures (a + b) + c == a + (b + c)
  {
  }

  lemma IsrFree(frames: seq<nat>, s: State, e: Step)
    requires Frames(frames) && AtMostOnce(frames, s)
    requires s.on && e.Irq? && (e.frameEnd || e.fifoEnd)
    ensures Real([ServedBy(s).next]) + Isr(s, e.frameEnd, e.fifoEnd).free == s.free + Back(s, e)
  {
    FreeHasRoom(frames, s);
    var t := s.(flag := !s.flag);
    assert NextFree(t) == NextFree(s);
    hide Places, Frames, Real, Exchange, Deliver, NextFree, AtMostOnce;
    ExchangeFree(t, !s.flag);
    var x := Exchange(t, !s.flag);
    ExchangeTodo(t, !s.flag);
    DeliverFree(x, if !s.flag then t.a else t.b, e.frameEnd);
    Append3(Real([ServedBy(s).next]), x.free, Back(s, e));
  }

  lemma ExchangeTodo(s: State, toA: bool)
    ensures Exchange(s, toA).todo == s.todo
  {
  }

  lemma UnservedFree(frames: seq<nat>, s: State, e: Step)
    requires Frames(frames) && AtMostOnce(frames, s) && Circulates(e)
    requires !(s.on && e.Irq? && (e.frameEnd || e.fifoEnd))
    ensures Next(frames, s, e).free == s.free + Back(s, e)
  {
    FreeHasRoom(frames, s);
    hide Places, Untag, AtMostOnce, Frames, FifoEnd, Started;
  }

  lemma StepFree(frames: seq<nat>, s: State, e: Step)
    requires Frames(frames) && AtMostOnce(frames, s) && Circulates(e)
    ensures Real(Taken(Log(frames, s, [e]))) + Next(frames, s, e).free == s.free + Back(s, e)
  {
    assert s.index < BUFFERS && Taken([]) == [] && Real([]) == [];
    assert e.Irq? ==> Next(frames, s, e) == Isr(s, e.frameEnd, e.fifoEnd);
    LogOne(frames, s, e);
    if s.on && e.Irq? && (e.frameEnd || e.fifoEnd) {
      hide Log, Places, Untag, Isr, ServedBy, Taken, Real, Back, Next, AtMostOnce, Frames;
      ServedLog(ServedBy(s));
      IsrFree(frames, s, e);
    } else {
      UnservedFree(frames, s, e);
      hide Log, Places, Untag, Isr, ServedBy, Taken, Real, Back, Next, AtMostOnce, Frames;
      assert [] + Next(frames, s, e).free == Next(frames, s, e).free;
    }
  }

  /** The free queue hands buffers out in the order they came back: those it held, then the encoder's and the
      refused ones. */
  lemma {:induction false} FreeInOrder(frames: seq<nat>, s: State, steps: seq<Step>)
    requires Frames(frames) && AtMostOnce(frames, s) && AllCirculate(steps)
    ensures Real(Taken(Log(frames, s, steps))) + Run(frames, s, steps).free
      == s.free + BackAlong(frames, s, steps)
    decreases |steps|
  {
    if steps != [] {
      assert Circulates(steps[0]);
      assert AllCirculate(steps[1..]) by { assert forall k :: 0 <= k < |steps| - 1 ==> steps[1..][k] == steps[k + 1]; }
      CirculationKeeps(frames, s, steps[0]);
      StepFree(frames, s, steps[0]);
      LogCons(frames, s, steps);
      var t := Next(frames, s, steps[0]);
      FreeInOrder(frames, t, steps[1..]);
      var l1, l2 := Log(frames, s, [steps[0]]), Log(frames, t, steps[1..]);
      TakenConcat(l1, l2);
      RealConcat(Taken(l1), Taken(l2));
      Chain(Real(Taken(l1)), t.free, s.free, Back(s, steps[0]),
            Real(Taken(l2)), Run(frames, s, steps).free, BackAlong(frames, t, steps[1..]));
    }
  }
}
