/** Three short runs of the message queue in which a message is lost or comes in the wrong order: a message id
    0, an interrupt send inside another send, and one inside a flush. */
module MsgFailures {
  import opened Bytes
  import opened MsgQueue
  import opened MsgRuns

  /** The replies of a run from its step `n` on, found from the last one back. */
  ghost predicate Replied(q: Box, steps: seq<Step>, replies: seq<Reply>, n: nat) {
    n <= |steps| == |replies| && Formed(q) && Replies(q, steps[n..]) == replies[n..]
  }

  lemma Before(q: Box, p: Box, steps: seq<Step>, replies: seq<Reply>, n: nat)
    requires n < |steps| == |replies| && Formed(q) && Next(q, steps[n]) == (p, replies[n])
    requires Replied(p, steps, replies, n + 1)
    ensures Replied(q, steps, replies, n)
  {
    assert steps[n..][1..] == steps[n + 1..] && replies[n..] == [replies[n]] + replies[n + 1..];
  }

  lemma Ended(q: Box, steps: seq<Step>, replies: seq<Reply>)
    requires |steps| == |replies| && Formed(q)
    ensures Replied(q, steps, replies, |steps|)
  {
    assert steps[|steps|..] == [] && replies[|replies|..] == [];
  }

  lemma ReplyAll(steps: seq<Step>, replies: seq<Reply>)
    requires Replied(Small(0, 0, 0, false, Idle), steps, replies, 0)
    ensures Replies(Created(4, 4, 4), steps) == replies
  {
    assert steps[0..] == steps && replies[0..] == replies;
    assert Zeros(4) == [0, 0, 0, 0];
    assert Created(4, 4, 4).pool == [BLANK, BLANK, BLANK, BLANK];
  }

  // ---- a small queue -----------------------------------------------------------------------------

  const BLANK := Block(0, [0, 0, 0, 0])

  function HandOf(busy: bool): map<nat, nat> { if busy then map[0 := 0] else map[] }

  /** A queue of four blocks of which only the first is used: its tag and first byte, how often it is queued, and
      whether the receiver has it in its hand. */
  function Small(tag: nat, byte: Byte, n: nat, busy: bool, owner: Owner): Box {
    Box([Block(tag, [byte, 0, 0, 0]), BLANK, BLANK, BLANK], seq(n, _ => 0), HandOf(busy), 4, 4, owner)
  }

  lemma SmallWrite(b: Block, c: Block)
    ensures [b, BLANK, BLANK, BLANK][0 := c] == [c, BLANK, BLANK, BLANK]
  {
  }

  lemma SmallPost(n: nat)
    ensures seq(n, _ => 0) + [0] == seq(n + 1, _ => 0)
  {
  }

  function Byte1(id: nat, b: Byte): Order { Order(Note(id, [b]), false) }

  /** An interrupt sends one byte into the first block. */
  lemma SmallSend(byte: Byte, n: nat, owner: Owner, id: nat, b: Byte)
    requires n < 4 && (owner in {Idle, Wiping(0)} || (owner.Found? && owner.at == 0 && |owner.order.note.text| == 1))
    ensures Formed(Small(0, byte, n, false, owner))
    ensures Next(Small(0, byte, n, false, owner), Interrupt(Byte1(id, b)))
      == (Small(id, b, n + 1, false, owner), Sent(Byte1(id, b).note))
  {
    var q := Small(0, byte, n, false, owner);
    assert FirstFree(q.pool, 0) == 0;
    assert [b] + q.pool[0].area[1..] == [b, 0, 0, 0];
    SmallWrite(q.pool[0], Block(id, [b, 0, 0, 0]));
    SmallPost(n);
  }

  lemma SmallPend(tag: nat, byte: Byte, n: nat)
    requires n > 0
    ensures Formed(Small(tag, byte, n, false, Idle))
    ensures Next(Small(tag, byte, n, false, Idle), Pend(0)) == (Small(tag, byte, n - 1, true, Idle), Quiet)
  {
    var q := Small(tag, byte, n, false, Idle);
    assert q.held[0 := 0] == HandOf(true) && q.posted[1..] == seq(n - 1, _ => 0);
  }

  lemma SmallCollect(tag: nat, byte: Byte, n: nat)
    ensures Formed(Small(tag, byte, n, true, Idle))
    ensures Next(Small(tag, byte, n, true, Idle), Collect(0, 1, true))
      == (Small(0, byte, n, false, Idle), Got(tag, [byte]))
  {
    var q := Small(tag, byte, n, true, Idle);
    assert q.held - {0} == HandOf(false) && q.pool[0].area[..1] == [byte];
    SmallWrite(q.pool[0], Block(0, [byte, 0, 0, 0]));
  }

  /** A task's send, up to its finding the first block free. */
  lemma SmallBegin(o: Order)
    requires |o.note.text| <= 4
    ensures Formed(Small(0, 0, 0, false, Idle)) && Formed(Small(0, 0, 0, false, Looking(0, o)))
    ensures Next(Small(0, 0, 0, false, Idle), Begin(o)) == (Small(0, 0, 0, false, Looking(0, o)), Quiet)
    ensures Next(Small(0, 0, 0, false, Looking(0, o)), Go) == (Small(0, 0, 0, false, Found(0, o)), Quiet)
  {
  }

  /** The rest of it, whatever has happened to the block. */
  lemma SmallFinish(tag: nat, byte: Byte, n: nat, id: nat, b: Byte)
    requires n < 4
    ensures var o, q := Byte1(id, b), Small(tag, byte, n, false, Found(0, Byte1(id, b)));
      Formed(q) && Next(q, Go) == (Small(id, byte, n, false, Tagging(0, o)), Quiet)
    ensures var o, q := Byte1(id, b), Small(tag, byte, n, false, Tagging(0, Byte1(id, b)));
      Formed(q) && Next(q, Go) == (Small(tag, b, n, false, Copied(0, o)), Quiet)
    ensures var o, q := Byte1(id, b), Small(tag, byte, n, false, Copied(0, Byte1(id, b)));
      Formed(q) && Next(q, Go) == (Small(tag, byte, n + 1, false, Idle), Sent(o.note))
  {
    var q := Small(tag, byte, n, false, Idle);
    SmallWrite(q.pool[0], Block(id, [byte, 0, 0, 0]));
    assert [b] + q.pool[0].area[1..] == [b, 0, 0, 0];
    SmallWrite(q.pool[0], Block(tag, [b, 0, 0, 0]));
    SmallPost(n);
  }

  lemma SmallFlush()
    ensures Formed(Small(0, 0, 0, false, Idle))
    ensures Next(Small(0, 0, 0, false, Idle), Flush) == (Small(0, 0, 0, false, Wiping(0)), Quiet)
  {
    assert Small(0, 0, 0, false, Idle).posted == [];
  }

  lemma SmallWipe(tag: nat, byte: Byte, n: nat, at: nat)
    requires at <= 4
    ensures var q := Small(tag, byte, n, false, Wiping(at));
      && Formed(q)
      && (at == 0 ==> Next(q, Go) == (Small(0, 0, n, false, Wiping(1)), Quiet))
      && (0 < at < 4 ==> Next(q, Go) == (Small(tag, byte, n, false, Wiping(at + 1)), Quiet))
      && (at == 4 ==> Next(q, Go) == (Small(tag, byte, n, false, Idle), Quiet))
  {
    var q := Small(tag, byte, n, false, Wiping(at));
    assert Zeros(4) == [0, 0, 0, 0];
    if at == 0 { SmallWrite(q.pool[0], BLANK); } else if at < 4 { assert q.pool[at := BLANK] == q.pool; }
  }

  // ---- the runs ----------------------------------------------------------------------------------

  const ZERO_RUN := [Interrupt(Byte1(0, 1)), Interrupt(Byte1(7, 2)),
                     Pend(0), Collect(0, 1, true), Pend(0), Collect(0, 1, true)]

  const ZERO_REPLIES := [Sent(Note(0, [1])), Sent(Note(7, [2])), Quiet, Got(7, [2]), Quiet, Got(0, [2])]

  lemma ZeroReceives()
    ensures Replied(Small(7, 2, 2, false, Idle), ZERO_RUN, ZERO_REPLIES, 2)
  {
    hide Next, Formed, Small, Replied, Replies;
    SmallPend(7, 2, 2);
    SmallCollect(7, 2, 1);
    SmallPend(0, 2, 1);
    SmallCollect(0, 2, 0);
    Ended(Small(0, 2, 0, false, Idle), ZERO_RUN, ZERO_REPLIES);
    Before(Small(0, 2, 0, true, Idle), Small(0, 2, 0, false, Idle), ZERO_RUN, ZERO_REPLIES, 5);
    Before(Small(0, 2, 1, false, Idle), Small(0, 2, 0, true, Idle), ZERO_RUN, ZERO_REPLIES, 4);
    Before(Small(7, 2, 1, true, Idle), Small(0, 2, 1, false, Idle), ZERO_RUN, ZERO_REPLIES, 3);
    Before(Small(7, 2, 2, false, Idle), Small(7, 2, 1, true, Idle), ZERO_RUN, ZERO_REPLIES, 2);
  }

  /** Id 0 leaves its block free for the next send: 0 and 7 are sent, 7 and then 0 received. */
  lemma ZeroIdReorders()
    ensures Replies(Created(4, 4, 4), ZERO_RUN) == ZERO_REPLIES
  {
    hide Next, Formed, Small, Replied, Replies;
    ZeroReceives();
    SmallSend(0, 0, Idle, 0, 1);
    SmallSend(1, 1, Idle, 7, 2);
    Before(Small(0, 1, 1, false, Idle), Small(7, 2, 2, false, Idle), ZERO_RUN, ZERO_REPLIES, 1);
    Before(Small(0, 0, 0, false, Idle), Small(0, 1, 1, false, Idle), ZERO_RUN, ZERO_REPLIES, 0);
    ReplyAll(ZERO_RUN, ZERO_REPLIES);
  }

  const SHARED := [Begin(Byte1(5, 2)), Go, Interrupt(Byte1(7, 3)), Go, Go, Go,
                   Pend(0), Collect(0, 1, true), Pend(0), Collect(0, 1, true)]

  const SHARED_REPLIES := [Quiet, Quiet, Sent(Note(7, [3])), Quiet, Quiet, Sent(Note(5, [2])),
                           Quiet, Got(5, [2]), Quiet, Got(0, [2])]

  lemma CollisionReceives()
    ensures Replied(Small(5, 2, 2, false, Idle), SHARED, SHARED_REPLIES, 6)
  {
    hide Next, Formed, Small, Replied, Replies;
    SmallPend(5, 2, 2);
    SmallCollect(5, 2, 1);
    SmallPend(0, 2, 1);
    SmallCollect(0, 2, 0);
    Ended(Small(0, 2, 0, false, Idle), SHARED, SHARED_REPLIES);
    Before(Small(0, 2, 0, true, Idle), Small(0, 2, 0, false, Idle), SHARED, SHARED_REPLIES, 9);
    Before(Small(0, 2, 1, false, Idle), Small(0, 2, 0, true, Idle), SHARED, SHARED_REPLIES, 8);
    Before(Small(5, 2, 1, true, Idle), Small(0, 2, 1, false, Idle), SHARED, SHARED_REPLIES, 7);
    Before(Small(5, 2, 2, false, Idle), Small(5, 2, 1, true, Idle), SHARED, SHARED_REPLIES, 6);
  }

  lemma CollisionFinishes()
    ensures Replied(Small(7, 3, 1, false, Found(0, Byte1(5, 2))), SHARED, SHARED_REPLIES, 3)
  {
    hide Next, Formed, Small, Replied, Replies;
    CollisionReceives();
    SmallFinish(7, 3, 1, 5, 2);
    SmallFinish(5, 3, 1, 5, 2);
    SmallFinish(5, 2, 1, 5, 2);
    Before(Small(5, 2, 1, false, Copied(0, Byte1(5, 2))), Small(5, 2, 2, false, Idle), SHARED, SHARED_REPLIES, 5);
    Before(Small(5, 3, 1, false, Tagging(0, Byte1(5, 2))), Small(5, 2, 1, false, Copied(0, Byte1(5, 2))),
           SHARED, SHARED_REPLIES, 4);
    Before(Small(7, 3, 1, false, Found(0, Byte1(5, 2))), Small(5, 3, 1, false, Tagging(0, Byte1(5, 2))),
           SHARED, SHARED_REPLIES, 3);
  }

  lemma CollisionSends()
    ensures Replied(Small(0, 0, 0, false, Found(0, Byte1(5, 2))), SHARED, SHARED_REPLIES, 2)
  {
    hide Next, Formed, Small, Replied, Replies;
    CollisionFinishes();
    SmallSend(0, 0, Found(0, Byte1(5, 2)), 7, 3);
    Before(Small(0, 0, 0, false, Found(0, Byte1(5, 2))), Small(7, 3, 1, false, Found(0, Byte1(5, 2))),
           SHARED, SHARED_REPLIES, 2);
  }

  /** An interrupt send between a task's look and its tag: 7 and 5 are sent with success, 5 and 0 received. */
  lemma CollisionLoses()
    ensures Replies(Created(4, 4, 4), SHARED) == SHARED_REPLIES
  {
    hide Next, Formed, Small, Replied, Replies;
    CollisionSends();
    SmallBegin(Byte1(5, 2));
    Before(Small(0, 0, 0, false, Looking(0, Byte1(5, 2))), Small(0, 0, 0, false, Found(0, Byte1(5, 2))),
           SHARED, SHARED_REPLIES, 1);
    Before(Small(0, 0, 0, false, Idle), Small(0, 0, 0, false, Looking(0, Byte1(5, 2))), SHARED, SHARED_REPLIES, 0);
    ReplyAll(SHARED, SHARED_REPLIES);
  }

  const WIPED := [Flush, Interrupt(Byte1(7, 3)), Go, Go, Go, Go, Go, Pend(0), Collect(0, 1, true)]

  const WIPED_REPLIES := [Quiet, Sent(Note(7, [3])), Quiet, Quiet, Quiet, Quiet, Quiet, Quiet, Got(0, [0])]

  lemma WipedReceives()
    ensures Replied(Small(0, 0, 1, false, Idle), WIPED, WIPED_REPLIES, 7)
  {
    hide Next, Formed, Small, Replied, Replies;
    SmallPend(0, 0, 1);
    SmallCollect(0, 0, 0);
    Ended(Small(0, 0, 0, false, Idle), WIPED, WIPED_REPLIES);
    Before(Small(0, 0, 0, true, Idle), Small(0, 0, 0, false, Idle), WIPED, WIPED_REPLIES, 8);
    Before(Small(0, 0, 1, false, Idle), Small(0, 0, 0, true, Idle), WIPED, WIPED_REPLIES, 7);
  }

  lemma WipedWipes()
    ensures Replied(Small(7, 3, 1, false, Wiping(0)), WIPED, WIPED_REPLIES, 2)
  {
    hide Next, Formed, Small, Replied, Replies;
    WipedReceives();
    SmallWipe(7, 3, 1, 0);
    SmallWipe(0, 0, 1, 1);
    SmallWipe(0, 0, 1, 2);
    SmallWipe(0, 0, 1, 3);
    SmallWipe(0, 0, 1, 4);
    Before(Small(0, 0, 1, false, Wiping(4)), Small(0, 0, 1, false, Idle), WIPED, WIPED_REPLIES, 6);
    Before(Small(0, 0, 1, false, Wiping(3)), Small(0, 0, 1, false, Wiping(4)), WIPED, WIPED_REPLIES, 5);
    Before(Small(0, 0, 1, false, Wiping(2)), Small(0, 0, 1, false, Wiping(3)), WIPED, WIPED_REPLIES, 4);
    Before(Small(0, 0, 1, false, Wiping(1)), Small(0, 0, 1, false, Wiping(2)), WIPED, WIPED_REPLIES, 3);
    Before(Small(7, 3, 1, false, Wiping(0)), Small(0, 0, 1, false, Wiping(1)), WIPED, WIPED_REPLIES, 2);
  }

  /** An interrupt send at the start of a flush: 7 is sent with success, 0 received. */
  lemma FlushLoses()
    ensures Replies(Created(4, 4, 4), WIPED) == WIPED_REPLIES
  {
    hide Next, Formed, Small, Replied, Replies;
    WipedWipes();
    SmallFlush();
    SmallSend(0, 0, Wiping(0), 7, 3);
    Before(Small(0, 0, 0, false, Wiping(0)), Small(7, 3, 1, false, Wiping(0)), WIPED, WIPED_REPLIES, 1);
    Before(Small(0, 0, 0, false, Idle), Small(0, 0, 0, false, Wiping(0)), WIPED, WIPED_REPLIES, 0);
    ReplyAll(WIPED, WIPED_REPLIES);
  }
}
