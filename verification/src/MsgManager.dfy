/** The calls of msg_manager.c as they change the block pool and the queue of pointers. A task's send and flush
    lock the scheduler only: any number of interrupts send between their steps. msgQReceive and msgQAccept are
    two calls each: up to the scheduler lock, and under it. */
module MsgManager {
  import opened Bytes
  import opened MsgQueue
  import opened MsgRuns

  /** What happens during a call: its own first step, then its own steps and those of interrupts. */
  predicate DuringCall(steps: seq<Step>, first: Step) {
    steps != [] && steps[0] == first && forall k :: 1 <= k < |steps| ==> steps[k].Go? || steps[k].Interrupt?
  }

  /** The reply to the last of the steps. */
  function LastReply(q: Box, steps: seq<Step>): Reply
    requires Formed(q) && steps != []
  {
    Next(Run(q, steps[..|steps| - 1]), steps[|steps| - 1]).1
  }

  lemma RunSnoc(q: Box, steps: seq<Step>, s: Step)
    requires Formed(q)
    ensures Run(q, steps + [s]) == Next(Run(q, steps), s).0
    ensures LastReply(q, steps + [s]) == Next(Run(q, steps), s).1
  {
    RunApp(q, steps, [s]);
    assert [s][1..] == [] && (steps + [s])[..|steps|] == steps;
  }

  class Manager {
    const pool: array<Block>     // pMsgPool, maxMsgs blocks
    const room: nat              // size of the operating-system queue
    const width: nat             // maxMsgLength
    var posted: seq<nat>         // the operating-system queue, as block numbers
    var held: map<nat, nat>      // pMsg of every task inside a receive
    ghost var owner: Owner       // where the task behind the lock is

    ghost function Now(): Box
      reads this, pool
    {
      Box(pool[..], posted, held, room, width, owner)
    }

    ghost predicate Valid()
      reads this, pool
    {
      Formed(Now())
    }

    /** msgQCreate, memory and queue granted. */
    constructor (maxQSize: nat, maxMsgs: nat, maxMsgLength: nat)
      ensures Valid() && fresh(pool) && Now() == Created(maxQSize, maxMsgs, maxMsgLength)
    {
      var length := (maxMsgLength + 3) % WORD / 4 * 4;
      room, width, posted, held, owner := maxQSize, length, [], map[], Idle;
      var blank := seq(length, _ => 0);
      pool := new Block[maxMsgs](_ => Block(0, blank));
      new;
      assert blank == Zeros(length);
      assert pool[..] == Created(maxQSize, maxMsgs, maxMsgLength).pool;
    }

    /** OSQPost and OSQPostFront. */
    method PostPointer(i: nat, urgent: bool) returns (ret: int)
      modifies this`posted
      ensures ret == if |old(posted)| >= room then 30 else 0
      ensures posted == if |old(posted)| >= room then old(posted)
                        else if urgent then [i] + old(posted) else old(posted) + [i]
    {
      if |posted| >= room {
        return Q_FULL;
      }
      posted := if urgent then [i] + posted else posted + [i];
      ret := 0;
    }

    /** msgQSend as an interrupt runs it. */
    method SendAtOnce(o: Order) returns (ret: int)
      requires Valid()
      modifies this`posted, pool
      ensures Valid() && Now() == Next(old(Now()), Interrupt(o)).0
      ensures Next(old(Now()), Interrupt(o)).1 == if ret == 0 then Sent(o.note) else Code(ret)
      ensures ret == if |o.note.text| > width || (forall i :: 0 <= i < pool.Length ==> old(pool[i].tag) != 0) then -1
                     else if |old(posted)| >= room then 30 else 0
    {
      if |o.note.text| > width {
        return -1;
      }
      var i := 0;
      while i < pool.Length && pool[i].tag != 0
        invariant 0 <= i <= pool.Length && FirstFree(pool[..], 0) == FirstFree(pool[..], i)
      {
        i := i + 1;
      }
      if i == pool.Length {
        return -1;
      }
      ghost var was := Now();
      pool[i] := pool[i].(tag := o.note.id);
      pool[i] := CopyIn(pool[i], o.note.text);
      ret := PostPointer(i, o.urgent);
      assert pool[..] == was.pool[i := Fill(was.pool[i], o.note)];
      assert Now() == Next(was, Interrupt(o)).0;
    }

    /** Any number of interrupts send. */
    method Interrupts() returns (ghost steps: seq<Step>)
      requires Valid()
      modifies this`posted, pool
      ensures Valid() && Now() == Run(old(Now()), steps)
      ensures forall k :: 0 <= k < |steps| ==> steps[k].Interrupt?
    {
      steps := [];
      var n: int := *;
      while n > 0
        invariant Valid() && Now() == Run(old(Now()), steps)
        invariant forall k :: 0 <= k < |steps| ==> steps[k].Interrupt?
      {
        n := n - 1;
        var o: Order := *;
        RunSnoc(old(Now()), steps, Interrupt(o));
        var _ := SendAtOnce(o);
        steps := steps + [Interrupt(o)];
      }
    }

    /** The interrupts before the next step of the task behind the lock. */
    method BeforeGo(ghost q: Box, ghost so: seq<Step>, ghost first: Step) returns (ghost steps: seq<Step>)
      requires Valid() && Formed(q) && Now() == Run(q, so) && DuringCall(so, first)
      modifies this`posted, pool
      ensures Valid() && DuringCall(steps, first) && Now() == Run(q, steps)
    {
      ghost var more := Interrupts();
      RunApp(q, so, more);
      steps := so + more;
    }

    /** msgQSend as a task runs it. */
    method SendMsg(o: Order) returns (ret: int, ghost steps: seq<Step>)
      requires Valid() && owner == Idle
      modifies this`posted, this`owner, pool
      ensures Valid() && owner == Idle && DuringCall(steps, Begin(o)) && Now() == Run(old(Now()), steps)
      ensures LastReply(old(Now()), steps) == if ret == 0 then Sent(o.note) else Code(ret)
      ensures (ret == 0 || ret == -1 || ret == 30) && (|o.note.text| > width ==> ret == -1)
    {
      ghost var q := Now();
      steps := [Begin(o)];
      RunSnoc(q, [], Begin(o));
      assert [] + [Begin(o)] == steps;
      if |o.note.text| > width {
        return -1, steps;
      }
      owner := Looking(0, o);
      var i, free;
      i, free, steps := Search(q, steps, o);
      steps := BeforeGo(q, steps, Begin(o));
      if !free {
        RunSnoc(q, steps, Go);
        owner := Idle;
        return -1, steps + [Go];
      }
      steps := WriteBlock(q, steps, i, o);
      steps := BeforeGo(q, steps, Begin(o));
      ret, steps := PostBlock(q, steps, i, o);
    }

    method PostBlock(ghost q: Box, ghost so: seq<Step>, i: nat, o: Order) returns (ret: int, ghost steps: seq<Step>)
      requires Valid() && owner == Copied(i, o) && Formed(q) && Now() == Run(q, so) && DuringCall(so, Begin(o))
      modifies this`posted, this`owner
      ensures Valid() && owner == Idle && DuringCall(steps, Begin(o)) && Now() == Run(q, steps)
      ensures LastReply(q, steps) == if ret == 0 then Sent(o.note) else Code(ret)
      ensures ret == 0 || ret == 30
    {
      RunSnoc(q, so, Go);
      ret := PostPointer(i, o.urgent);
      owner := Idle;
      steps := so + [Go];
    }

    /** The loop that looks for a free block. */
    method Search(ghost q: Box, ghost so: seq<Step>, o: Order) returns (i: nat, free: bool, ghost steps: seq<Step>)
      requires Valid() && owner == Looking(0, o) && Formed(q) && Now() == Run(q, so) && DuringCall(so, Begin(o))
      modifies this`posted, this`owner, pool
      ensures Valid() && DuringCall(steps, Begin(o)) && Now() == Run(q, steps)
      ensures if free then i < pool.Length && owner == Found(i, o) else owner == Looking(pool.Length, o)
    {
      i, free, steps := 0, false, so;
      while i < pool.Length && !free
        invariant Valid() && 0 <= i <= pool.Length && DuringCall(steps, Begin(o)) && Now() == Run(q, steps)
        invariant owner == (if free then Found(i, o) else Looking(i, o)) && (free ==> i < pool.Length)
        decreases pool.Length - i, !free
      {
        steps := BeforeGo(q, steps, Begin(o));
        free, steps := Look(q, steps, i, o);
        i := if free then i else i + 1;
      }
    }

    /** One turn of it. */
    method Look(ghost q: Box, ghost so: seq<Step>, i: nat, o: Order) returns (free: bool, ghost steps: seq<Step>)
      requires Valid() && owner == Looking(i, o) && i < pool.Length
      requires Formed(q) && Now() == Run(q, so) && DuringCall(so, Begin(o))
      modifies this`owner
      ensures Valid() && owner == (if free then Found(i, o) else Looking(i + 1, o))
      ensures DuringCall(steps, Begin(o)) && Now() == Run(q, steps)
    {
      RunSnoc(q, so, Go);
      free := pool[i].tag == 0;
      owner := if free then Found(i, o) else Looking(i + 1, o);
      steps := so + [Go];
    }

    /** The tag and then the message go into the block the task has found. */
    method WriteBlock(ghost q: Box, ghost so: seq<Step>, i: nat, o: Order) returns (ghost steps: seq<Step>)
      requires Valid() && owner == Found(i, o) && Formed(q) && Now() == Run(q, so) && DuringCall(so, Begin(o))
      modifies this`posted, this`owner, pool
      ensures Valid() && owner == Copied(i, o) && DuringCall(steps, Begin(o)) && Now() == Run(q, steps)
    {
      steps := so;
      RunSnoc(q, steps, Go);
      ghost var was := Now();
      pool[i], owner := pool[i].(tag := o.note.id), Tagging(i, o);
      steps := steps + [Go];
      assert pool[..] == was.pool[i := was.pool[i].(tag := o.note.id)];
      steps := BeforeGo(q, steps, Begin(o));
      RunSnoc(q, steps, Go);
      was := Now();
      pool[i], owner := CopyIn(pool[i], o.note.text), Copied(i, o);
      steps := steps + [Go];
      assert pool[..] == was.pool[i := CopyIn(was.pool[i], o.note.text)];
    }

    /** msgQReceive up to the lock, when there is a message: OSQPend gives a pointer. */
    method PendMsg(task: nat)
      requires Valid() && posted != [] && task !in held
      modifies this`posted, this`held
      ensures Valid() && Now() == Next(old(Now()), Pend(task)).0
    {
      posted, held := posted[1..], held[task := posted[0]];
    }

    /** msgQAccept up to the lock. */
    method PollMsg(task: nat) returns (ret: int)
      requires Valid() && task !in held
      modifies this`posted, this`held
      ensures Valid() && Now() == Next(old(Now()), Poll(task)).0
      ensures Next(old(Now()), Poll(task)).1 == if ret == 0 then Quiet else Code(ret)
      ensures ret == if old(posted) == [] then -1 else 0
      ensures ret == 0 ==> held == old(held)[task := old(posted)[0]] && posted == old(posted)[1..]
    {
      if posted == [] {
        return -1;
      }
      posted, held := posted[1..], held[task := posted[0]];
      ret := 0;
    }

    /** The locked part of both: copy the block and free it. */
    method CollectMsg(task: nat, max: nat, wanted: bool) returns (ret: int, id: nat, para: seq<Byte>)
      requires Valid() && owner == Idle && task in held
      modifies this`held, pool
      ensures Valid() && Now() == Next(old(Now()), Collect(task, max, wanted)).0
      ensures Next(old(Now()), Collect(task, max, wanted)).1 == if ret == 0 then Got(id, para) else Code(ret)
      ensures ret == if max > width then -1 else 0
    {
      ghost var was := Now();
      var i := held[task];
      held := held - {task};
      if max > width {
        return -1, 0, [];
      }
      id, para := pool[i].tag, [];
      if wanted && max > 0 {
        para := pool[i].area[..max];
      }
      pool[i] := pool[i].(tag := 0);
      ret := 0;
      assert pool[..] == was.pool[i := was.pool[i].(tag := 0)];
      assert was.pool[i].area[..0] == [];
    }

    /** msgQFlush. */
    method FlushMsgs() returns (ghost steps: seq<Step>)
      requires Valid() && owner == Idle
      modifies this`posted, this`owner, pool
      ensures Valid() && owner == Idle && DuringCall(steps, Flush) && Now() == Run(old(Now()), steps)
    {
      ghost var q := Now();
      steps := [Flush];
      RunSnoc(q, [], Flush);
      assert [] + [Flush] == steps;
      posted, owner := [], Wiping(0);
      var blank := Block(0, seq(width, _ => 0));
      assert blank.area == Zeros(width);
      for i := 0 to pool.Length
        invariant Valid() && owner == Wiping(i) && DuringCall(steps, Flush) && Now() == Run(q, steps)
      {
        steps := BeforeGo(q, steps, Flush);
        steps := WipeBlock(q, steps, i, blank);
      }
      steps := BeforeGo(q, steps, Flush);
      RunSnoc(q, steps, Go);
      owner := Idle;
      steps := steps + [Go];
    }

    method WipeBlock(ghost q: Box, ghost so: seq<Step>, i: nat, blank: Block) returns (ghost steps: seq<Step>)
      requires Valid() && owner == Wiping(i) && i < pool.Length && blank == Block(0, Zeros(width))
      requires Formed(q) && Now() == Run(q, so) && DuringCall(so, Flush)
      modifies this`owner, pool
      ensures Valid() && owner == Wiping(i + 1) && DuringCall(steps, Flush) && Now() == Run(q, steps)
    {
      RunSnoc(q, so, Go);
      ghost var was := Now();
      pool[i], owner := blank, Wiping(i + 1);
      steps := so + [Go];
      assert pool[..] == was.pool[i := blank];
    }

    /** msgQSizeGet. */
    method SizeGet() returns (n: nat)
      ensures n == |Now().posted|
    {
      n := |posted|;
    }
  }
}
