/** Runs of the message queue: whatever tasks and interrupts do, it answers as the double-ended
    queue does, as long as no interrupt sends into another sender's or a flush's way. */
module MsgRuns {
  import opened MsgQueue

  // ---- runs --------------------------------------------------------------------------------------

  function Run(q: Box, steps: seq<Step>): (r: Box)
    requires Formed(q)
    ensures Formed(r)
    decreases |steps|
  {
    if steps == [] then q else Run(Next(q, steps[0]).0, steps[1..])
  }

  lemma {:induction false} RunApp(q: Box, a: seq<Step>, b: seq<Step>)
    requires Formed(q)
    ensures Run(q, a + b) == Run(Run(q, a), b)
    decreases |a|
  {
    hide Next;
    if a == [] {
      assert a + b == b;
    } else {
      assert (a + b)[1..] == a[1..] + b;
      RunApp(Next(q, a[0]).0, a[1..], b);
    }
  }

  function Replies(q: Box, steps: seq<Step>): (r: seq<Reply>)
    requires Formed(q)
    ensures |r| == |steps|
    decreases |steps|
  {
    if steps == [] then [] else [Next(q, steps[0]).1] + Replies(Next(q, steps[0]).0, steps[1..])
  }

  ghost predicate OrdinaryRun(q: Box, steps: seq<Step>)
    requires Formed(q)
    decreases |steps|
  {
    steps == [] || (Ordinary(q, steps[0]) && OrdinaryRun(Next(q, steps[0]).0, steps[1..]))
  }

  /** The steps of the double-ended queue a run stands for: the same, some of them left out. */
  function Meanings(q: Box, steps: seq<Step>): (r: seq<Step>)
    requires Formed(q)
    ensures |r| == |steps| && forall k :: 0 <= k < |steps| ==> r[k] == steps[k] || (steps[k] == Go && r[k] == Rest)
    decreases |steps|
  {
    if steps == [] then [] else [Meaning(q, steps[0])] + Meanings(Next(q, steps[0]).0, steps[1..])
  }

  function RunDeque(d: Deque, l: Limits, steps: seq<Step>): Deque
    decreases |steps|
  {
    if steps == [] then d else RunDeque(Want(d, l, steps[0]).0, l, steps[1..])
  }

  function Wanted(d: Deque, l: Limits, steps: seq<Step>): (r: seq<Reply>)
    ensures |r| == |steps|
    decreases |steps|
  {
    if steps == [] then [] else [Want(d, l, steps[0]).1] + Wanted(Want(d, l, steps[0]).0, l, steps[1..])
  }

  /** The sets of lost blocks along a run: the last of them. */
  ghost function RunLost(q: Box, lost: set<nat>, steps: seq<Step>): set<nat>
    requires Formed(q)
    decreases |steps|
  {
    if steps == [] then lost else RunLost(Next(q, steps[0]).0, NextLost(q, steps[0], lost), steps[1..])
  }

  ghost predicate AllAnswer(steps: seq<Step>, r: seq<Reply>, a: seq<Reply>) {
    |steps| == |r| == |a| && forall k :: 0 <= k < |steps| ==> Answers(steps[k], r[k], a[k])
  }

  lemma AllAnswerCons(steps: seq<Step>, r: seq<Reply>, a: seq<Reply>)
    requires |steps| == |r| == |a| && steps != []
    requires Answers(steps[0], r[0], a[0]) && AllAnswer(steps[1..], r[1..], a[1..])
    ensures AllAnswer(steps, r, a)
  {
    hide Answers;
    forall k | 0 <= k < |steps| ensures Answers(steps[k], r[k], a[k]) {
      if k > 0 { assert steps[k] == steps[1..][k - 1]; }
    }
  }

  lemma {:induction false} RunRefines(q: Box, d: Deque, lost: set<nat>, steps: seq<Step>)
    requires Refines(q, d, lost) && OrdinaryRun(q, steps)
    ensures Refines(Run(q, steps), RunDeque(d, LimitsOf(q), Meanings(q, steps)), RunLost(q, lost, steps))
    ensures AllAnswer(steps, Replies(q, steps), Wanted(d, LimitsOf(q), Meanings(q, steps)))
    decreases |steps|
  {
    if steps != [] {
      StepRefines(q, d, lost, steps[0]);
      hide Refines, Want, Next, Answers, NextLost, AllAnswer, Formed, Meaning;
      var p, e := Next(q, steps[0]).0, Want(d, LimitsOf(q), Meaning(q, steps[0])).0;
      RunRefines(p, e, NextLost(q, steps[0], lost), steps[1..]);
      AllAnswerCons(steps, Replies(q, steps), Wanted(d, LimitsOf(q), Meanings(q, steps)));
    }
  }

  const NOTHING := Deque([], map[], 0, Nobody)

  lemma CreatedRefines(room: nat, msgs: nat, length: nat)
    ensures Refines(Created(room, msgs, length), NOTHING, {})
    ensures var width := Created(room, msgs, length).width;
      width % 4 == 0 && if length <= 0xFFFF_FFFC then length <= width < length + 4 else length < WORD ==> width == 0
  {
    var q := Created(room, msgs, length);
    assert Formed(q) && Part(q) == q.pool;
    assert Tagged(q.pool) == {};
    hide RoundUp4;
    CreatedWidth(length);
  }

  lemma CreatedWidth(length: nat)
    ensures RoundUp4(length) % 4 == 0
    ensures if length <= 0xFFFF_FFFC then length <= RoundUp4(length) < length + 4
            else length < WORD ==> RoundUp4(length) == 0
  {
  }

  /** From its creation on, the pool with its queue of pointers is the bounded double-ended queue: the same
      answers in every run, the tagged blocks exactly those queued, in a receiver's hand or counted lost. */
  lemma QueueIsDeque(room: nat, msgs: nat, length: nat, steps: seq<Step>)
    requires OrdinaryRun(Created(room, msgs, length), steps)
    ensures var q := Created(room, msgs, length); var l := Limits(msgs, room, q.width);
      && Refines(Run(q, steps), RunDeque(NOTHING, l, Meanings(q, steps)), RunLost(q, {}, steps))
      && AllAnswer(steps, Replies(q, steps), Wanted(NOTHING, l, Meanings(q, steps)))
  {
    CreatedRefines(room, msgs, length);
    RunRefines(Created(room, msgs, length), NOTHING, {}, steps);
  }

  // ---- overflow and loss -------------------------------------------------------------------------

  ghost predicate Within(d: Deque, l: Limits) { Count(d) <= l.msgs }

  lemma WantWithin(d: Deque, l: Limits, s: Step)
    requires Within(d, l)
    ensures Within(Want(d, l, s).0, l)
  {
    match s
    case Pend(t) => if d.waiting != [] && t !in d.held { TakeHand(d, t); hide Took; }
    case Poll(t) => if d.waiting != [] && t !in d.held { TakeHand(d, t); hide Took; }
    case Collect(t, _, _) => if t in d.held { DropHand(d, t); }
    case _ =>
  }

  lemma TakeHand(d: Deque, task: nat)
    requires d.waiting != [] && task !in d.held
    ensures |Took(d, task).held| == |d.held| + 1
    ensures |Took(d, task).waiting| == |d.waiting| - 1 && Took(d, task).lost == d.lost
  {
    assert Took(d, task).held.Keys == d.held.Keys + {task};
    assert |Took(d, task).held.Keys| == |d.held.Keys| + 1;
  }

  predicate FitsWidth(l: Limits, s: Step) { s.Collect? ==> s.max <= l.width }

  /** With a queue as large as the pool no post fails, and no place is lost unless a receiver asks for more
      bytes than a message can have. */
  lemma {:induction false} NothingLost(d: Deque, l: Limits, steps: seq<Step>)
    requires Within(d, l) && l.msgs <= l.room
    ensures forall k :: 0 <= k < |steps| ==> Wanted(d, l, steps)[k] != Code(Q_FULL)
    ensures (forall k :: 0 <= k < |steps| ==> FitsWidth(l, steps[k])) ==> RunDeque(d, l, steps).lost <= d.lost
    decreases |steps|
  {
    if steps != [] {
      WantWithin(d, l, steps[0]);
      var e := Want(d, l, steps[0]).0;
      NothingLost(e, l, steps[1..]);
      assert Want(d, l, steps[0]).1 != Code(Q_FULL);
      if forall k :: 0 <= k < |steps| ==> FitsWidth(l, steps[k]) {
        assert FitsWidth(l, steps[0]);
        assert forall k :: 0 <= k < |steps| - 1 ==> steps[1..][k] == steps[k + 1];
        assert e.lost <= d.lost;
      }
    }
  }

  const ONE := Interrupt(Order(Note(1, []), false))

  function Sends(n: nat): (r: seq<Step>)
    ensures |r| == n && forall k :: 0 <= k < n ==> r[k] == ONE
  {
    seq(n, _ => ONE)
  }

  lemma {:induction false} SendsFill(d: Deque, l: Limits, n: nat)
    requires d.held == map[] && d.lost == 0 && d.owner == Nobody && |d.waiting| + n <= l.room && l.room < l.msgs
    ensures var e := RunDeque(d, l, Sends(n));
      e.held == map[] && e.lost == 0 && e.owner == Nobody && |e.waiting| == |d.waiting| + n
    decreases n
  {
    if n > 0 {
      SendsFill(Want(d, l, ONE).0, l, n - 1);
      assert Sends(n)[1..] == Sends(n - 1);
    }
  }

  lemma {:induction false} LastWanted(d: Deque, l: Limits, steps: seq<Step>, s: Step)
    ensures Wanted(d, l, steps + [s])[|steps|] == Want(RunDeque(d, l, steps), l, s).1
    decreases |steps|
  {
    if steps == [] {
      assert steps + [s] == [s];
    } else {
      assert (steps + [s])[1..] == steps[1..] + [s];
      LastWanted(Want(d, l, steps[0]).0, l, steps[1..], s);
    }
  }

  lemma {:induction false} SendsOrdinary(q: Box, n: nat)
    requires Formed(q) && q.owner == Idle
    ensures OrdinaryRun(q, Sends(n))
    decreases n
  {
    if n > 0 {
      assert Sends(n)[1..] == Sends(n - 1);
      SendsOrdinary(Next(q, ONE).0, n - 1);
    }
  }

  ghost predicate NeverOverflows(q: Box)
    requires Formed(q)
  {
    forall steps: seq<Step>, k :: OrdinaryRun(q, steps) && 0 <= k < |steps| ==> Replies(q, steps)[k] != Code(Q_FULL)
  }

  lemma RoomForAll(room: nat, msgs: nat, length: nat, steps: seq<Step>, k: nat)
    requires msgs <= room && OrdinaryRun(Created(room, msgs, length), steps) && k < |steps|
    ensures Replies(Created(room, msgs, length), steps)[k] != Code(Q_FULL)
  {
    var q := Created(room, msgs, length);
    CreatedRefines(room, msgs, length);
    assert LimitsOf(q).msgs == msgs && LimitsOf(q).room == room && Within(NOTHING, LimitsOf(q));
    hide Created, Refines, Wanted, Replies, OrdinaryRun, Meanings, Answers, Within, LimitsOf, FitsWidth, RunDeque;
    var l, meant := LimitsOf(q), Meanings(q, steps);
    RunRefines(q, NOTHING, {}, steps);
    NothingLost(NOTHING, l, meant);
    NotFull(steps[k], Replies(q, steps)[k], Wanted(NOTHING, l, meant)[k]);
  }

  lemma NotFull(s: Step, r: Reply, a: Reply)
    requires Answers(s, r, a) && a != Code(Q_FULL)
    ensures r != Code(Q_FULL)
  {
  }

  lemma OneTooMany(room: nat, msgs: nat, length: nat)
    requires room < msgs
    ensures var last := Sends(room + 1);
      OrdinaryRun(Created(room, msgs, length), last) && Replies(Created(room, msgs, length), last)[room] == Code(Q_FULL)
  {
    var q, last := Created(room, msgs, length), Sends(room + 1);
    var l := LimitsOf(q);
    CreatedRefines(room, msgs, length);
    SendsFill(NOTHING, l, room);
    SendsOrdinary(q, room + 1);
    LastWanted(NOTHING, l, Sends(room), ONE);
    assert Sends(room) + [ONE] == last && Meanings(q, last) == last;
    hide Refines, Replies, OrdinaryRun, Wanted, RunDeque;
    RunRefines(q, NOTHING, {}, last);
    assert Answers(last[room], Replies(q, last)[room], Wanted(NOTHING, l, last)[room]);
  }

  /** A block found free can always be posted, in every run, exactly when the queue has room for the pool. */
  lemma OverflowExact(room: nat, msgs: nat, length: nat)
    ensures NeverOverflows(Created(room, msgs, length)) <==> msgs <= room
  {
    assert Formed(Created(room, msgs, length));
    hide Created, Replies, OrdinaryRun;
    if msgs <= room {
      forall steps: seq<Step>, k | OrdinaryRun(Created(room, msgs, length), steps) && 0 <= k < |steps|
        ensures Replies(Created(room, msgs, length), steps)[k] != Code(Q_FULL)
      {
        RoomForAll(room, msgs, length, steps, k);
      }
    } else {
      OneTooMany(room, msgs, length);
    }
  }

  // ---- order -------------------------------------------------------------------------------------

  /** What the successful sends of a run sent. */
  function Accepted(replies: seq<Reply>): seq<Note> {
    if replies == [] then []
    else (if replies[0].Sent? then [replies[0].note] else []) + Accepted(replies[1..])
  }

  /** What its receivers were handed. */
  function Handed(replies: seq<Reply>): seq<Reply> {
    if replies == [] then []
    else (if replies[0].Got? || replies[0].Given? then [replies[0]] else []) + Handed(replies[1..])
  }

  function NotesOf(d: Deque): seq<Note> { (if 0 in d.held then [d.held[0]] else []) + d.waiting }

  /** Ordinary traffic: one receiver, no urgent message, no flush. */
  predicate Plain(l: Limits, s: Step) {
    match s
    case Begin(o) => o.note.id != 0 && !o.urgent
    case Interrupt(o) => o.note.id != 0 && !o.urgent
    case Pend(task) => task == 0
    case Poll(task) => task == 0
    case Collect(task, max, _) => task == 0 && max <= l.width
    case Flush => false
    case _ => true
  }

  predicate PlainState(d: Deque) {
    && (forall t :: t in d.held ==> t == 0)
    && (d.owner.Asking? || d.owner.Reserved? ==> !d.owner.order.urgent)
  }

  function Notes(replies: seq<Reply>): seq<Note> {
    if replies == [] then []
    else (if replies[0].Given? then [replies[0].note] else []) + Notes(replies[1..])
  }

  lemma PlainStep(d: Deque, l: Limits, s: Step)
    requires Plain(l, s) && PlainState(d)
    ensures var (e, r) := Want(d, l, s);
      PlainState(e) && Notes([r]) + NotesOf(e) == NotesOf(d) + Accepted([r])
  {
    var (e, r) := Want(d, l, s);
    assert [r][1..] == [];
    hide Count;
  }

  lemma {:induction false} DequeInOrder(d: Deque, l: Limits, steps: seq<Step>)
    requires PlainState(d) && forall k :: 0 <= k < |steps| ==> Plain(l, steps[k])
    ensures var r := Wanted(d, l, steps);
      Notes(r) + NotesOf(RunDeque(d, l, steps)) == NotesOf(d) + Accepted(r)
    decreases |steps|
  {
    if steps != [] {
      var (e, r) := Want(d, l, steps[0]);
      PlainStep(d, l, steps[0]);
      hide Want, NotesOf, Plain, PlainState;
      DequeInOrder(e, l, steps[1..]);
      var rest := Wanted(e, l, steps[1..]);
      AcceptedCons(r, rest);
      Weave(Notes([r]), NotesOf(e), NotesOf(d), Accepted([r]),
            Notes(rest), NotesOf(RunDeque(d, l, steps)), Accepted(rest));
    }
  }

  lemma AcceptedCons(r: Reply, rest: seq<Reply>)
    ensures Accepted([r] + rest) == Accepted([r]) + Accepted(rest)
    ensures Notes([r] + rest) == Notes([r]) + Notes(rest)
  {
    assert ([r] + rest)[1..] == rest && [r][1..] == [];
  }

  lemma Weave<T>(n: seq<T>, e: seq<T>, d: seq<T>, a: seq<T>, ns: seq<T>, last: seq<T>, more: seq<T>)
    requires n + e == d + a && ns + last == e + more
    ensures (n + ns) + last == d + (a + more)
  {
    assert (n + ns) + last == n + (ns + last);
    assert n + (e + more) == (n + e) + more;
  }

  /** The handed-over bytes start as the message did. */
  ghost predicate Matches(r: Reply, n: Note) {
    r.Got? && r.id == n.id && forall k :: 0 <= k < |r.bytes| && k < |n.text| ==> r.bytes[k] == n.text[k]
  }

  ghost predicate AllMatch(handed: seq<Reply>, notes: seq<Note>) {
    |handed| == |notes| && forall j :: 0 <= j < |notes| ==> Matches(handed[j], notes[j])
  }

  lemma AllMatchCons(r: Reply, n: Note, handed: seq<Reply>, notes: seq<Note>)
    requires Matches(r, n) && AllMatch(handed, notes)
    ensures AllMatch([r] + handed, [n] + notes)
  {
    hide Matches;
  }

  lemma AllAnswerTail(steps: seq<Step>, r: seq<Reply>, a: seq<Reply>)
    requires AllAnswer(steps, r, a) && steps != []
    ensures Answers(steps[0], r[0], a[0]) && AllAnswer(steps[1..], r[1..], a[1..])
  {
    hide Answers;
  }

  lemma {:induction false} HandedMatch(steps: seq<Step>, r: seq<Reply>, a: seq<Reply>)
    requires AllAnswer(steps, r, a) && forall k :: 0 <= k < |a| ==> !a[k].Got?
    ensures Accepted(r) == Accepted(a)
    ensures AllMatch(Handed(r), Notes(a))
    decreases |steps|
  {
    if steps != [] {
      AllAnswerTail(steps, r, a);
      hide AllAnswer;
      HandedMatch(steps[1..], r[1..], a[1..]);
      hide AllMatch;
      assert !a[0].Got?;
      if a[0].Given? {
        AllMatchCons(r[0], a[0].note, Handed(r[1..]), Notes(a[1..]));
      } else {
        assert r[0] == a[0];
        assert [] + Handed(r[1..]) == Handed(r[1..]) && [] + Notes(a[1..]) == Notes(a[1..]);
      }
      hide Answers, Matches;
    }
  }

  lemma {:induction false} WantedGivesNotes(d: Deque, l: Limits, steps: seq<Step>)
    ensures forall k :: 0 <= k < |steps| ==> !Wanted(d, l, steps)[k].Got?
    decreases |steps|
  {
    if steps != [] {
      WantedGivesNotes(Want(d, l, steps[0]).0, l, steps[1..]);
    }
  }

  /** One receiver gets the accepted messages in the order of the sends, each once, each with its own bytes. */
  lemma ReceivedAsSent(room: nat, msgs: nat, length: nat, steps: seq<Step>)
    requires var q := Created(room, msgs, length);
      OrdinaryRun(q, steps) && forall k :: 0 <= k < |steps| ==> Plain(LimitsOf(q), steps[k])
    ensures var r := Replies(Created(room, msgs, length), steps);
      && |Handed(r)| <= |Accepted(r)|
      && (forall j :: 0 <= j < |Handed(r)| ==> Matches(Handed(r)[j], Accepted(r)[j]))
  {
    var q := Created(room, msgs, length);
    var l, meant := LimitsOf(q), Meanings(q, steps);
    assert l == Limits(msgs, room, q.width) && NotesOf(NOTHING) == [] && PlainState(NOTHING);
    forall k | 0 <= k < |meant| ensures Plain(l, meant[k]) {
      assert meant[k] == steps[k] || meant[k] == Rest;
    }
    hide Created, Refines, OrdinaryRun, Wanted, RunDeque, Run, Plain, Replies, NotesOf, Matches;
    QueueIsDeque(room, msgs, length, steps);
    var r, a := Replies(q, steps), Wanted(NOTHING, l, meant);
    WantedGivesNotes(NOTHING, l, meant);
    DequeInOrder(NOTHING, l, meant);
    HandedMatch(steps, r, a);
    assert Accepted(a) == Notes(a) + NotesOf(RunDeque(NOTHING, l, meant));
  }

  // ---- an urgent message overtakes ---------------------------------------------------------------

  /** What the next receiver gets after an urgent message has been accepted, whatever waited before: its id, its bytes
      and, behind them, what the block held before, up to the length it asks for. */
  lemma UrgentIsNext(q: Box, o: Order, task: nat, max: nat)
    requires Formed(q) && q.owner == Idle && task !in q.held && o.urgent
    requires |o.note.text| <= max <= q.width && Next(q, Interrupt(o)).1 == Sent(o.note)
    ensures var i := FirstFree(q.pool, 0);
      var t := Next(Next(q, Interrupt(o)).0, Poll(task)).0;
      var (u, reply) := Next(t, Collect(task, max, true));
      && i < |q.pool| && reply == Got(o.note.id, o.note.text + q.pool[i].area[|o.note.text|..max])
      && u.posted == q.posted && u.held == q.held && u.pool[i].tag == 0
  {
    var i := FirstFree(q.pool, 0);
    var s := Next(q, Interrupt(o)).0;
    assert s.posted == [i] + q.posted && s.posted[1..] == q.posted;
    var b := Fill(q.pool[i], o.note);
    assert b.area[..max] == o.note.text + q.pool[i].area[|o.note.text|..max];
    hide FirstFree, InPool, WellSized, Fill;
  }

  /** A message that is not urgent waits behind all others. */
  lemma OrdinaryIsLast(q: Box, o: Order)
    requires Formed(q) && !o.urgent && Next(q, Interrupt(o)).1 == Sent(o.note)
    ensures var t := Next(q, Interrupt(o)).0; var i := FirstFree(q.pool, 0);
      && i < |q.pool| && t.posted == q.posted + [i] && t.pool[i].tag == o.note.id && o.note.text <= t.pool[i].area
  {
    var i := FirstFree(q.pool, 0);
    hide FirstFree, InPool, WellSized;
    assert CopyIn(q.pool[i], o.note.text).area[..|o.note.text|] == o.note.text;
  }

  // ---- a send that nothing interrupts ------------------------------------------------------------

  function Gos(n: nat): (r: seq<Step>)
    ensures |r| == n && forall k :: 0 <= k < n ==> r[k] == Go
  {
    seq(n, _ => Go)
  }

  /** How many steps a send takes behind its lock. */
  function SendLength(q: Box, o: Order): nat
    requires Formed(q)
  {
    var i := FirstFree(q.pool, 0);
    if |o.note.text| > q.width then 0 else if i == |q.pool| then i + 1 else i + 4
  }

  /** Tag, copy and post, once the search has found block `i`. */
  lemma LastSteps(q: Box, o: Order, i: nat)
    requires Formed(q) && q.owner == Idle && |o.note.text| <= q.width && i == FirstFree(q.pool, 0) < |q.pool|
    ensures Run(q.(owner := Looking(i, o)), Gos(4)) == Sending(q, o).0
  {
    var p := q.(owner := Looking(i, o));
    var p1 := q.(owner := Found(i, o));
    var b := q.pool[i].(tag := o.note.id);
    var p2 := q.(owner := Tagging(i, o), pool := q.pool[i := b]);
    var p3 := q.(owner := Copied(i, o), pool := q.pool[i := Fill(q.pool[i], o.note)]);
    assert Next(p, Go).0 == p1 && Next(p1, Go).0 == p2;
    assert p2.pool[i := CopyIn(b, o.note.text)] == p3.pool;
    assert Next(p2, Go).0 == p3 && Next(p3, Go).0 == Sending(q, o).0;
    hide Next, Sending;
    FourGos(p);
  }

  lemma FourGos(p: Box)
    requires Formed(p)
    ensures Run(p, Gos(4)) == Next(Next(Next(Next(p, Go).0, Go).0, Go).0, Go).0
  {
    hide Next;
    assert Gos(4) == [Go, Go, Go, Go];
    assert [Go, Go, Go, Go][1..] == [Go, Go, Go] && [Go, Go, Go][1..] == [Go, Go] && [Go, Go][1..] == [Go];
    assert [Go][1..] == [];
  }

  /** A look at a tagged block goes on to the next. */
  lemma LookStep(q: Box, o: Order, at: nat, n: nat)
    requires Formed(q) && |o.note.text| <= q.width && at < FirstFree(q.pool, 0) && n > 0
    ensures Run(q.(owner := Looking(at, o)), Gos(n)) == Run(q.(owner := Looking(at + 1, o)), Gos(n - 1))
  {
    var p := q.(owner := Looking(at, o));
    assert Next(p, Go).0 == q.(owner := Looking(at + 1, o));
    assert Gos(n)[1..] == Gos(n - 1);
    hide Next;
  }

  lemma NoneLeft(q: Box, o: Order)
    requires Formed(q) && q.owner == Idle && |o.note.text| <= q.width && FirstFree(q.pool, 0) == |q.pool|
    ensures Run(q.(owner := Looking(|q.pool|, o)), Gos(1)) == Sending(q, o).0
  {
    var p := q.(owner := Looking(|q.pool|, o));
    assert Next(p, Go).0 == q;
    assert Gos(1)[1..] == [];
    hide Next;
  }

  lemma {:induction false} LooksOn(q: Box, o: Order, at: nat, n: nat)
    requires Formed(q) && q.owner == Idle && |o.note.text| <= q.width && at <= FirstFree(q.pool, 0)
    requires n == SendLength(q, o) - at
    ensures Run(q.(owner := Looking(at, o)), Gos(n)) == Sending(q, o).0
    decreases n
  {
    hide Next, Sending, Run, FirstFree;
    var i := FirstFree(q.pool, 0);
    if at < i {
      LookStep(q, o, at, n);
      LooksOn(q, o, at + 1, n - 1);
    } else if i < |q.pool| {
      LastSteps(q, o, i);
    } else {
      NoneLeft(q, o);
    }
  }

  /** Step by step, a task's send leaves what an interrupt's send leaves at once. */
  lemma SendAlone(q: Box, o: Order)
    requires Formed(q) && q.owner == Idle
    ensures Run(q, [Begin(o)] + Gos(SendLength(q, o))) == Sending(q, o).0
  {
    var n := SendLength(q, o);
    assert ([Begin(o)] + Gos(n))[1..] == Gos(n);
    if |o.note.text| <= q.width { LooksOn(q, o, 0, n); }
  }
}
