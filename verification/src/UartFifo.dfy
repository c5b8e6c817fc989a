/** The receive ring of the UART driver: the interrupt handler puts, a task gets, and nothing masks the
    interrupt, so any number of puts happen between the steps of one get. */
module UartFifo {
  import opened Bytes

  const SIZE := 32
  const FULL := -2
  const EMPTY := -2
  const NULL := -1

  /** `read` and `write` are p_read and p_write, counted from p_start; p_end is SIZE - 1. */
  datatype Ring = Ring(buf: seq<Byte>, write: nat, read: nat)

  ghost predicate Valid(r: Ring) { |r.buf| == SIZE && r.write < SIZE && r.read < SIZE }

  /** The unread slots, oldest first. */
  function Contents(r: Ring): seq<Byte>
    requires Valid(r)
  {
    if r.read <= r.write then r.buf[r.read..r.write] else r.buf[r.read..] + r.buf[..r.write]
  }

  function After(p: nat): nat { if p + 1 > SIZE - 1 then 0 else p + 1 }

  function Before(p: nat): nat { if p == 0 then SIZE - 1 else p - 1 }

  /** uart0_sw_fifo_put. */
  function Put(r: Ring, b: Byte): (Ring, int)
    requires Valid(r)
  {
    if r.write == Before(r.read) then (r, FULL)
    else (r.(buf := r.buf[r.write := b], write := After(r.write)), 0)
  }

  /** A put is refused exactly when 31 bytes are unread; otherwise it goes behind them and touches none. */
  lemma PutAppends(r: Ring, b: Byte)
    requires Valid(r)
    ensures var (s, ret) := Put(r, b);
      && Valid(s) && s.read == r.read
      && (ret == FULL <==> |Contents(r)| == SIZE - 1)
      && Contents(s) == if |Contents(r)| < SIZE - 1 then Contents(r) + [b] else Contents(r)
  {
    var s := Put(r, b).0;
    if s != r {
      if r.read <= r.write {
        if r.write == SIZE - 1 {
          assert s.buf[r.read..] == r.buf[r.read..r.write] + [b];
        } else {
          assert s.buf[r.read..r.write + 1] == r.buf[r.read..r.write] + [b];
        }
      } else {
        assert s.buf[..r.write + 1] == r.buf[..r.write] + [b];
        assert s.buf[r.read..] == r.buf[r.read..];
      }
    }
  }

  /** Moving p_read on takes exactly the oldest byte. */
  lemma AdvanceTakes(r: Ring)
    requires Valid(r) && r.write != r.read
    ensures var s := r.(read := After(r.read));
      Valid(s) && Contents(r) == [r.buf[r.read]] + Contents(s)
  {
  }

  lemma EmptyIsEqual(r: Ring)
    requires Valid(r)
    ensures r.write == r.read <==> Contents(r) == []
  {
  }

  /** A full ring drops what comes; the bytes it takes are the first ones. */
  function Fitted(bytes: seq<Byte>, incoming: seq<Byte>): seq<Byte>
    requires |bytes| <= SIZE - 1
  {
    var room := SIZE - 1 - |bytes|;
    bytes + if |incoming| <= room then incoming else incoming[..room]
  }

  lemma FittedNil(bytes: seq<Byte>)
    requires |bytes| <= SIZE - 1
    ensures Fitted(bytes, []) == bytes
  {
  }

  lemma FittedCons(bytes: seq<Byte>, incoming: seq<Byte>)
    requires |bytes| <= SIZE - 1 && incoming != []
    ensures Fitted(bytes, incoming)
      == Fitted(if |bytes| < SIZE - 1 then bytes + [incoming[0]] else bytes, incoming[1..])
  {
  }

  // ---- every interleaving ------------------------------------------------------------------------

  /** Where the task stands inside uart0_sw_fifo_get. */
  datatype Phase = Idle | Looked | Copied(byte: Byte)

  /** An interrupt, or the task's next step: look at p_write, copy the byte, move p_read. */
  datatype Step = Interrupt(byte: Byte) | Task

  /** What a step lets its caller see. */
  datatype Event = Taken(byte: Byte) | NoByte | PutDone(code: int) | Silent

  datatype State = State(ring: Ring, phase: Phase)

  ghost predicate Sound(s: State) {
    && Valid(s.ring)
    && (s.phase != Idle ==> Contents(s.ring) != [])
    && (s.phase.Copied? ==> Contents(s.ring) != [] && s.phase.byte == Contents(s.ring)[0])
  }

  function Next(s: State, e: Step): (State, Event)
    requires Valid(s.ring)
  {
    match e
    case Interrupt(b) => var (r, ret) := Put(s.ring, b); (s.(ring := r), PutDone(ret))
    case Task =>
      match s.phase
      case Idle => if s.ring.write == s.ring.read then (s, NoByte) else (s.(phase := Looked), Silent)
      case Looked => (s.(phase := Copied(s.ring.buf[s.ring.read])), Silent)
      case Copied(b) => (State(s.ring.(read := After(s.ring.read)), Idle), Taken(b))
  }

  /** The queue the callers think they have: at most 31 bytes, `taking` while a get is under way. */
  datatype Fifo = Fifo(bytes: seq<Byte>, taking: nat)

  function Want(f: Fifo, e: Step): (Fifo, Event) {
    match e
    case Interrupt(b) =>
      if |f.bytes| >= SIZE - 1 then (f, PutDone(FULL)) else (f.(bytes := f.bytes + [b]), PutDone(0))
    case Task =>
      if f.bytes == [] then (f, NoByte)
      else if f.taking < 2 then (f.(taking := f.taking + 1), Silent)
      else (Fifo(f.bytes[1..], 0), Taken(f.bytes[0]))
  }

  function Fifoed(s: State): Fifo
    requires Valid(s.ring)
  {
    Fifo(Contents(s.ring), if s.phase.Idle? then 0 else if s.phase.Looked? then 1 else 2)
  }

  /** Each step of either side is that step of the queue. */
  lemma StepIsFifo(s: State, e: Step)
    requires Sound(s)
    ensures Sound(Next(s, e).0)
    ensures Want(Fifoed(s), e) == (Fifoed(Next(s, e).0), Next(s, e).1)
  {
    EmptyIsEqual(s.ring);
    match e
    case Interrupt(b) => PutAppends(s.ring, b);
    case Task =>
      if s.ring.write != s.ring.read {
        AdvanceTakes(s.ring);
      }
  }

  function Run(s: State, steps: seq<Step>): (State, seq<Event>)
    requires Sound(s)
    decreases |steps|
  {
    if steps == [] then (s, [])
    else
      StepIsFifo(s, steps[0]);
      var (t, e) := Next(s, steps[0]);
      var (u, es) := Run(t, steps[1..]);
      (u, [e] + es)
  }

  function RunFifo(f: Fifo, steps: seq<Step>): (Fifo, seq<Event>)
    decreases |steps|
  {
    if steps == [] then (f, [])
    else
      var (g, e) := Want(f, steps[0]);
      var (h, es) := RunFifo(g, steps[1..]);
      (h, [e] + es)
  }

  /** Bytes whose put was accepted, and bytes the gets returned. */
  function Accepted(steps: seq<Step>, events: seq<Event>): seq<Byte>
    requires |steps| == |events|
  {
    if steps == [] then []
    else (if steps[0].Interrupt? && events[0] == PutDone(0) then [steps[0].byte] else [])
         + Accepted(steps[1..], events[1..])
  }

  function Delivered(events: seq<Event>): seq<Byte> {
    if events == [] then []
    else (if events[0].Taken? then [events[0].byte] else []) + Delivered(events[1..])
  }

  /** In every interleaving the ring answers as the queue does. */
  lemma {:induction false} RunIsFifo(s: State, steps: seq<Step>)
    requires Sound(s)
    ensures Sound(Run(s, steps).0)
    ensures RunFifo(Fifoed(s), steps) == (Fifoed(Run(s, steps).0), Run(s, steps).1)
    ensures |Run(s, steps).1| == |steps|
    decreases |steps|
  {
    if steps != [] {
      StepIsFifo(s, steps[0]);
      RunIsFifo(Next(s, steps[0]).0, steps[1..]);
      hide Next, Want, Sound;
    }
  }

  lemma Splice<T>(f: seq<T>, a: seq<T>, d: seq<T>, g: seq<T>, more: seq<T>, ds: seq<T>, h: seq<T>)
    requires f + a == d + g && g + more == ds + h
    ensures f + (a + more) == (d + ds) + h
  {
    assert f + (a + more) == (f + a) + more && (d + g) + more == d + (g + more);
  }

  lemma {:induction false} FifoConserves(f: Fifo, steps: seq<Step>)
    ensures var (g, es) := RunFifo(f, steps);
      |es| == |steps| && f.bytes + Accepted(steps, es) == Delivered(es) + g.bytes
    decreases |steps|
  {
    if steps != [] {
      var (g, e) := Want(f, steps[0]);
      FifoConserves(g, steps[1..]);
      var (h, es) := RunFifo(g, steps[1..]);
      assert ([e] + es)[1..] == es;
      var a := if steps[0].Interrupt? && e == PutDone(0) then [steps[0].byte] else [];
      var d := if e.Taken? then [e.byte] else [];
      assert f.bytes + a == d + g.bytes;
      hide Want;
      Splice(f.bytes, a, d, g.bytes, Accepted(steps[1..], es), Delivered(es), h.bytes);
    }
  }

  /** The bytes a task gets are the accepted bytes in their order, each exactly once; what is missing is
      still in the ring. */
  lemma NoByteLost(s: State, steps: seq<Step>)
    requires Sound(s) && Contents(s.ring) == []
    ensures var (t, es) := Run(s, steps);
      Valid(t.ring) && |es| == |steps| && Accepted(steps, es) == Delivered(es) + Contents(t.ring)
  {
    RunIsFifo(s, steps);
    FifoConserves(Fifoed(s), steps);
    var es := Run(s, steps).1;
    assert Fifoed(s).bytes + Accepted(steps, es) == Accepted(steps, es);
  }

  lemma TakeFirst<T>(d: seq<T>, c: seq<T>, rest: seq<T>)
    requires c != [] && c == [c[0]] + rest
    ensures d + c == (d + [c[0]]) + rest && rest == c[1..]
  {
  }

  // ---- the driver --------------------------------------------------------------------------------

  class Uart {
    const buf: array<Byte>       // sw_fifo_buf
    var write: nat               // sw_fifo_head.p_write
    var read: nat                // sw_fifo_head.p_read
    ghost var accepted: seq<Byte>
    ghost var delivered: seq<Byte>

    function Now(): Ring
      reads this, buf
    {
      Ring(buf[..], write, read)
    }

    /** What has been accepted has been delivered or is unread. */
    ghost predicate Kept()
      reads this, buf
    {
      Valid(Now()) && accepted == delivered + Contents(Now())
    }

    constructor ()
      ensures Kept() && Contents(Now()) == [] && delivered == [] && fresh(buf)
    {
      var b: array<Byte> := new Byte[SIZE];
      buf, write, read := b, 0, 0;
      accepted, delivered := [], [];
    }

    /** uart0_sw_fifo_init. */
    method Init() returns (ret: int)
      requires buf.Length == SIZE
      modifies this, buf
      ensures ret == 0 && Kept() && Contents(Now()) == [] && delivered == []
      ensures forall i :: 0 <= i < SIZE ==> buf[i] == 0
    {
      for i := 0 to SIZE
        invariant forall k :: 0 <= k < i ==> buf[k] == 0
      {
        buf[i] := 0;
      }
      write, read := 0, 0;
      accepted, delivered := [], [];
      ret := 0;
    }

    /** uart0_sw_fifo_put: reads p_read once and writes p_write once. */
    method PutByte(data: Byte) returns (ret: int)
      requires Kept()
      modifies this`write, this`accepted, buf
      ensures Kept() && (Now(), ret) == Put(old(Now()), data)
      ensures accepted == if ret == 0 then old(accepted) + [data] else old(accepted)
      ensures Contents(Now()) == if ret == 0 then Contents(old(Now())) + [data] else Contents(old(Now()))
      ensures ret == if |Contents(old(Now()))| < 31 then 0 else -2
    {
      PutAppends(Now(), data);
      var readPtr := read - 1;
      if readPtr < 0 {
        readPtr := SIZE - 1;
      }
      var writePtr := write;
      if writePtr == readPtr {
        return FULL;
      }
      ghost var was := Now();
      buf[writePtr] := data;
      writePtr := writePtr + 1;
      if writePtr > SIZE - 1 {
        writePtr := 0;
      }
      write := writePtr;
      accepted := accepted + [data];
      assert Now() == Put(was, data).0;
      ret := 0;
    }

    /** The two loops of uart0_isr: everything the receiver holds goes into the ring, as far as it fits. */
    method Isr(incoming: seq<Byte>)
      requires Kept()
      modifies this`write, this`accepted, buf
      ensures Kept()
      ensures Contents(Now()) == Fitted(Contents(old(Now())), incoming)
    {
      ghost var was := Contents(Now());
      assert |was| <= SIZE - 1;
      hide Contents, Put, Fitted;
      var rx := incoming;
      while rx != []
        invariant Kept() && |Contents(Now())| <= SIZE - 1
        invariant Fitted(Contents(Now()), rx) == Fitted(was, incoming)
        decreases |rx|
      {
        FittedCons(Contents(Now()), rx);
        var _ := PutByte(rx[0]);
        rx := rx[1..];
      }
      FittedNil(Contents(Now()));
    }

    /** Interrupts that come between two steps of the task: any number of them, any bytes. */
    method Interrupts()
      requires Kept()
      modifies this`write, this`accepted, buf
      ensures Kept() && Contents(old(Now())) <= Contents(Now()) && old(accepted) <= accepted
    {
      hide Contents, Put;
      ghost var was := Contents(Now());
      assert was <= was;
      var n: nat := *;
      while n > 0
        invariant Kept() && was <= Contents(Now()) && old(accepted) <= accepted
      {
        var b: Byte := *;
        var _ := PutByte(b);
        n := n - 1;
      }
    }

    /** uart0_sw_fifo_get, interrupted everywhere: the byte it returns is the oldest accepted one that has
        not been delivered; it says empty only when nothing was unread at its look. */
    method GetByte(missing: bool) returns (ret: int, data: Byte)
      requires Kept()
      modifies this, buf
      ensures Kept()
      ensures (ret == -1 <==> missing) && (ret == 0 || ret == -1 || ret == -2)
      ensures ret == 0 ==> delivered == old(delivered) + [data]
      ensures ret == 0 ==> |old(delivered)| < |accepted| && data == accepted[|old(delivered)|]
      ensures ret != 0 ==> delivered == old(delivered)
      ensures !missing && Contents(old(Now())) != [] ==> ret == 0 && data == Contents(old(Now()))[0]
    {
      hide Contents, Put;
      data := 0;
      if missing {
        return NULL, 0;
      }
      Interrupts();
      EmptyIsEqual(Now());
      if write == read {
        return EMPTY, 0;
      }
      Interrupts();
      EmptyIsEqual(Now());
      AdvanceTakes(Now());
      var readPtr := read;
      data := buf[readPtr];
      readPtr := readPtr + 1;
      if readPtr > SIZE - 1 {
        readPtr := 0;
      }
      Interrupts();
      MoveRead(readPtr);
      Interrupts();
      ret := 0;
    }

    /** The single write of p_read. */
    method MoveRead(readPtr: nat)
      requires Kept() && Contents(Now()) != [] && readPtr == After(read)
      modifies this`read, this`delivered
      ensures Kept() && delivered == old(delivered) + [Contents(old(Now()))[0]]
      ensures Contents(Now()) == Contents(old(Now()))[1..]
    {
      EmptyIsEqual(Now());
      AdvanceTakes(Now());
      hide Contents;
      ghost var was, before := Contents(Now()), delivered;
      delivered := delivered + [buf[read]];
      read := readPtr;
      TakeFirst(before, was, Contents(Now()));
    }
  }
}
