/** The message queue of msg_manager.c: a pool of tagged blocks and an operating-system queue of pointers
    into it, against the double-ended queue of messages its callers think they have. Tasks lock the scheduler
    and not the interrupts, and the system timer's interrupt sends too: an interrupt comes between any two
    steps of a task's send or flush. A receive takes the pointer and copies the block in two separate steps. */
module MsgQueue {
  import opened Bytes
  import opened Counting

  const Q_FULL := 30
  const WORD := 0x1_0000_0000

  /** A pool block: the tag (0 when free) and the message area behind it. */
  datatype Block = Block(tag: nat, area: seq<Byte>)

  datatype Note = Note(id: nat, text: seq<Byte>)

  /** What a caller of msgQSend asks for. */
  datatype Order = Order(note: Note, urgent: bool)

  /** The task behind the scheduler lock, if any. A sender looks at block `at`, or has found it free, or has
      written its tag, or has copied its message; a flush has yet to wipe the blocks from `at` on. */
  datatype Owner = Idle | Looking(at: nat, order: Order) | Found(at: nat, order: Order)
    | Tagging(at: nat, order: Order) | Copied(at: nat, order: Order) | Wiping(at: nat)

  /** `posted` is the operating-system queue of block numbers, at most `room` of them; `held` says which
      block each task inside a receive has in its hand; `width` is maxMsgLength. */
  datatype Box = Box(pool: seq<Block>, posted: seq<nat>, held: map<nat, nat>, room: nat, width: nat, owner: Owner)

  datatype Step =
    | Begin(order: Order)                          // msgQSend by a task, up to its lock
    | Go                                           // the next step of the task behind the lock
    | Interrupt(order: Order)                      // msgQSend by an interrupt
    | Pend(task: nat)                              // msgQReceive up to its lock; blocks while empty
    | Poll(task: nat)                              // msgQAccept up to its lock
    | Collect(task: nat, max: nat, wanted: bool)   // the rest of either; `wanted`: para is not null
    | Flush                                        // msgQFlush up to its wiping
    | Rest                                         // nothing the callers could notice

  datatype Reply = Code(code: int) | Sent(note: Note) | Got(id: nat, bytes: seq<Byte>) | Given(note: Note) | Quiet

  // ---- the calls ---------------------------------------------------------------------------------

  predicate WellSized(q: Box) { forall i :: 0 <= i < |q.pool| ==> |q.pool[i].area| == q.width }

  /** Block numbers in use are inside the pool. */
  predicate InPool(q: Box) {
    && (forall k :: 0 <= k < |q.posted| ==> q.posted[k] < |q.pool|)
    && (forall t :: t in q.held ==> q.held[t] < |q.pool|)
  }

  predicate OwnerFits(q: Box) {
    match q.owner
    case Idle => true
    case Looking(at, o) => |o.note.text| <= q.width && at <= |q.pool|
    case Found(at, o) => |o.note.text| <= q.width && at < |q.pool|
    case Tagging(at, o) => |o.note.text| <= q.width && at < |q.pool|
    case Copied(at, o) => |o.note.text| <= q.width && at < |q.pool|
    case Wiping(at) => at <= |q.pool|
  }

  predicate Formed(q: Box) { WellSized(q) && InPool(q) && OwnerFits(q) }

  predicate SameShape(q: Box, r: Box) {
    Formed(r) && |r.pool| == |q.pool| && r.room == q.room && r.width == q.width
  }

  /** The length in whole words, as an INT32U. */
  function RoundUp4(n: nat): nat { (n + 3) % WORD / 4 * 4 }

  function Created(room: nat, msgs: nat, length: nat): Box {
    var width := RoundUp4(length);
    Box(seq(msgs, _ => Block(0, Zeros(width))), [], map[], room, width, Idle)
  }

  function Zeros(n: nat): seq<Byte> { seq(n, _ => 0) }

  function FirstFree(pool: seq<Block>, i: nat): (r: nat)
    requires i <= |pool|
    ensures i <= r <= |pool|
    ensures forall k :: i <= k < r ==> pool[k].tag != 0
    ensures r < |pool| ==> pool[r].tag == 0
    decreases |pool| - i
  {
    if i == |pool| || pool[i].tag == 0 then i else FirstFree(pool, i + 1)
  }

  function CopyIn(b: Block, text: seq<Byte>): Block
    requires |text| <= |b.area|
  {
    b.(area := text + b.area[|text|..])
  }

  function Fill(b: Block, n: Note): Block
    requires |n.text| <= |b.area|
  {
    CopyIn(b, n.text).(tag := n.id)
  }

  /** OSQPost and OSQPostFront. */
  function Push<T>(s: seq<T>, x: T, urgent: bool): seq<T> { if urgent then [x] + s else s + [x] }

  /** The whole of msgQSend at once, as an interrupt does it. */
  function Sending(q: Box, o: Order): (r: (Box, Reply))
    requires Formed(q)
    ensures SameShape(q, r.0)
  {
    var i := FirstFree(q.pool, 0);
    if |o.note.text| > q.width || i == |q.pool| then (q, Code(-1))
    else
      var p := q.(pool := q.pool[i := Fill(q.pool[i], o.note)]);
      if |q.posted| >= q.room then (p, Code(Q_FULL)) else (p.(posted := Push(q.posted, i, o.urgent)), Sent(o.note))
  }

  /** The next step of the task that holds the lock. */
  function Advance(q: Box): (r: (Box, Reply))
    requires Formed(q)
    ensures SameShape(q, r.0)
  {
    match q.owner
    case Idle => (q, Quiet)
    case Looking(at, o) =>
      if at == |q.pool| then (q.(owner := Idle), Code(-1))
      else if q.pool[at].tag == 0 then (q.(owner := Found(at, o)), Quiet)
      else (q.(owner := Looking(at + 1, o)), Quiet)
    case Found(at, o) =>
      (q.(pool := q.pool[at := q.pool[at].(tag := o.note.id)], owner := Tagging(at, o)), Quiet)
    case Tagging(at, o) =>
      (q.(pool := q.pool[at := CopyIn(q.pool[at], o.note.text)], owner := Copied(at, o)), Quiet)
    case Copied(at, o) =>
      if |q.posted| >= q.room then (q.(owner := Idle), Code(Q_FULL))
      else (q.(posted := Push(q.posted, at, o.urgent), owner := Idle), Sent(o.note))
    case Wiping(at) =>
      if at == |q.pool| then (q.(owner := Idle), Quiet)
      else (q.(pool := q.pool[at := Block(0, Zeros(q.width))], owner := Wiping(at + 1)), Quiet)
  }

  function Taking(q: Box, task: nat): (r: Box)
    requires |q.posted| > 0
    ensures Formed(q) ==> SameShape(q, r)
  {
    q.(posted := q.posted[1..], held := q.held[task := q.posted[0]])
  }

  function Collecting(q: Box, task: nat, max: nat, wanted: bool): (r: (Box, Reply))
    requires Formed(q) && task in q.held
    ensures SameShape(q, r.0)
  {
    var i := q.held[task];
    var p := q.(held := q.held - {task});
    if max > q.width then (p, Code(-1))
    else (p.(pool := q.pool[i := q.pool[i].(tag := 0)]),
          Got(q.pool[i].tag, if wanted then q.pool[i].area[..max] else []))
  }

  /** One step of any task or interrupt; a step that cannot be taken now changes nothing. A task behind
      the lock keeps other tasks from locked parts. */
  function Next(q: Box, s: Step): (r: (Box, Reply))
    requires Formed(q)
    ensures SameShape(q, r.0)
  {
    match s
    case Begin(o) =>
      if q.owner != Idle then (q, Quiet)
      else if |o.note.text| > q.width then (q, Code(-1))
      else (q.(owner := Looking(0, o)), Quiet)
    case Go => Advance(q)
    case Interrupt(o) => Sending(q, o)
    case Pend(task) => if q.posted == [] || task in q.held then (q, Quiet) else (Taking(q, task), Quiet)
    case Poll(task) =>
      if task in q.held then (q, Quiet)
      else if q.posted == [] then (q, Code(-1))
      else (Taking(q, task), Quiet)
    case Collect(task, max, wanted) =>
      if task !in q.held || q.owner != Idle then (q, Quiet) else Collecting(q, task, max, wanted)
    case Flush => if q.owner != Idle then (q, Quiet) else (q.(posted := [], owner := Wiping(0)), Quiet)
    case Rest => (q, Quiet)
  }

  // ---- the double-ended queue --------------------------------------------------------------------

  /** A sender is still asking, or has its place; or the queue is being flushed. */
  datatype Asked = Nobody | Asking(order: Order) | Reserved(order: Order) | Flushing

  /** `lost` counts places that no call gives back any more. */
  datatype Deque = Deque(waiting: seq<Note>, held: map<nat, Note>, lost: nat, owner: Asked)

  datatype Limits = Limits(msgs: nat, room: nat, width: nat)

  function Count(d: Deque): nat { |d.waiting| + |d.held| + d.lost + if d.owner.Reserved? then 1 else 0 }

  function Arrives(d: Deque, l: Limits, o: Order): (Deque, Reply) {
    if |d.waiting| >= l.room then (d.(lost := d.lost + 1), Code(Q_FULL))
    else (d.(waiting := Push(d.waiting, o.note, o.urgent)), Sent(o.note))
  }

  function Want(d: Deque, l: Limits, s: Step): (Deque, Reply) {
    match s
    case Begin(o) =>
      if d.owner != Nobody then (d, Quiet)
      else if |o.note.text| > l.width then (d, Code(-1))
      else (d.(owner := Asking(o)), Quiet)
    case Go => (
      match d.owner
      case Nobody => (d, Quiet)
      case Asking(o) =>
        if Count(d) >= l.msgs then (d.(owner := Nobody), Code(-1)) else (d.(owner := Reserved(o)), Quiet)
      case Reserved(o) => Arrives(d.(owner := Nobody), l, o)
      case Flushing => (d.(owner := Nobody), Quiet))
    case Interrupt(o) => if |o.note.text| > l.width || Count(d) >= l.msgs then (d, Code(-1)) else Arrives(d, l, o)
    case Pend(task) => if d.waiting == [] || task in d.held then (d, Quiet) else (Took(d, task), Quiet)
    case Poll(task) =>
      if task in d.held then (d, Quiet)
      else if d.waiting == [] then (d, Code(-1))
      else (Took(d, task), Quiet)
    case Collect(task, max, wanted) =>
      if task !in d.held || d.owner != Nobody then (d, Quiet)
      else if max > l.width then (d.(held := d.held - {task}, lost := d.lost + 1), Code(-1))
      else (d.(held := d.held - {task}), Given(d.held[task]))
    case Flush => if d.owner != Nobody then (d, Quiet) else (d.(waiting := [], lost := 0, owner := Flushing), Quiet)
    case Rest => (d, Quiet)
  }

  function Took(d: Deque, task: nat): Deque
    requires d.waiting != []
  {
    d.(waiting := d.waiting[1..], held := d.held[task := d.waiting[0]])
  }

  function LimitsOf(q: Box): Limits { Limits(|q.pool|, q.room, q.width) }

  /** What a step of the pool means for the double-ended queue: looking at a tagged block, tagging, copying and
      wiping mean nothing. */
  function Meaning(q: Box, s: Step): Step
    requires Formed(q)
  {
    if s.Go? && (match q.owner
                 case Looking(at, _) => at < |q.pool| && q.pool[at].tag != 0
                 case Found(_, _) => true
                 case Tagging(_, _) => true
                 case Wiping(at) => at < |q.pool|
                 case _ => false)
    then Rest else s
  }

  // ---- what the tags mean ------------------------------------------------------------------------

  /** The sender has written the tag of block i and not posted it yet. */
  predicate Reserves(q: Box, i: nat) { (q.owner.Tagging? || q.owner.Copied?) && q.owner.at == i }

  ghost predicate InUse(q: Box, i: nat) { i in q.posted || i in q.held.Values || Reserves(q, i) }

  ghost predicate Apart(q: Box) {
    && (forall i, j :: 0 <= i < j < |q.posted| ==> q.posted[i] != q.posted[j])
    && (forall t, u :: t in q.held && u in q.held && t != u ==> q.held[t] != q.held[u])
    && (forall i, t :: 0 <= i < |q.posted| && t in q.held ==> q.posted[i] != q.held[t])
    && (forall i :: 0 <= i < |q.posted| ==> !Reserves(q, q.posted[i]))
    && (forall t :: t in q.held ==> !Reserves(q, q.held[t]))
  }

  /** Every block queued, in a receiver's hand or being filled is tagged, and no two of them are the same. */
  ghost predicate Sound(q: Box) {
    && Formed(q) && Apart(q)
    && (forall i :: 0 <= i < |q.posted| ==> q.pool[q.posted[i]].tag != 0)
    && (forall t :: t in q.held ==> q.pool[q.held[t]].tag != 0)
    && (q.owner.Tagging? || q.owner.Copied? ==> q.pool[q.owner.at].tag != 0)
  }

  ghost function Tagged(pool: seq<Block>): set<nat> {
    set i: nat | i < |pool| && pool[i].tag != 0
  }

  /** The blocks that count: during a flush, those it has wiped. */
  function Part(q: Box): (r: seq<Block>)
    requires Formed(q)
    ensures q.owner.Wiping? ==> |r| == q.owner.at
    ensures !q.owner.Wiping? ==> r == q.pool
    ensures forall k :: 0 <= k < |r| ==> r[k] == q.pool[k]
  {
    if q.owner.Wiping? then q.pool[..q.owner.at] else q.pool
  }

  /** The tagged blocks are those in use and the lost ones. */
  ghost predicate Accounted(q: Box, lost: set<nat>)
    requires Formed(q)
  {
    && (forall i :: i in lost ==> i in Tagged(Part(q)) && !InUse(q, i))
    && (forall i :: i in Tagged(Part(q)) ==> InUse(q, i) || i in lost)
  }

  ghost predicate Shows(b: Block, n: Note) {
    b.tag == n.id && |n.text| <= |b.area| && b.area[..|n.text|] == n.text
  }

  ghost predicate Mirrors(q: Box, d: Deque)
    requires InPool(q)
  {
    && |q.posted| == |d.waiting| && q.held.Keys == d.held.Keys
    && (forall i :: 0 <= i < |q.posted| ==> Shows(q.pool[q.posted[i]], d.waiting[i]))
    && (forall t :: t in q.held ==> Shows(q.pool[q.held[t]], d.held[t]))
  }

  /** The blocks before the one the sender looks at were tagged when it looked, and still are; a block it has
      found free still is. Nothing in use is still to be wiped. */
  ghost predicate OwnerMirrors(q: Box, d: Deque)
    requires Formed(q)
  {
    match q.owner
    case Idle => d.owner == Nobody
    case Looking(at, o) => d.owner == Asking(o) && o.note.id != 0 && forall k :: 0 <= k < at ==> q.pool[k].tag != 0
    case Found(at, o) =>
      && d.owner == Reserved(o) && o.note.id != 0 && q.pool[at].tag == 0
      && forall k :: 0 <= k < at ==> q.pool[k].tag != 0
    case Tagging(at, o) => d.owner == Reserved(o) && o.note.id != 0 && q.pool[at].tag == o.note.id
    case Copied(at, o) => d.owner == Reserved(o) && o.note.id != 0 && Shows(q.pool[at], o.note)
    case Wiping(at) =>
      && d.owner == Flushing && (forall k :: 0 <= k < |q.posted| ==> q.posted[k] < at)
      && (forall t :: t in q.held ==> q.held[t] < at)
  }

  ghost predicate Refines(q: Box, d: Deque, lost: set<nat>) {
    && Sound(q) && Accounted(q, lost) && Mirrors(q, d) && OwnerMirrors(q, d)
    && |lost| == d.lost && |Tagged(Part(q))| + (if q.owner.Found? then 1 else 0) == Count(d)
  }

  // ---- one step ----------------------------------------------------------------------------------

  /** An interrupt sends between a task's look at a free block and its writing of the tag, or finds no block
      that a flush has wiped while the flush still has blocks to wipe. */
  predicate Collides(q: Box, s: Step) {
    s.Interrupt? && |s.order.note.text| <= q.width
    && match q.owner
       case Found(_, _) => true
       case Wiping(at) => at < |q.pool| && FirstFree(q.pool, 0) >= at
       case _ => false
  }

  /** Message ids are not 0, and nobody flushes while a receiver has a block in its hand. */
  predicate Proper(q: Box, s: Step) {
    (s.Begin? || s.Interrupt? ==> s.order.note.id != 0) && (s.Flush? ==> q.held == map[])
  }

  predicate Ordinary(q: Box, s: Step) { Proper(q, s) && !Collides(q, s) }

  ghost predicate Answers(s: Step, r: Reply, a: Reply) {
    match a
    case Given(n) =>
      && s.Collect? && r.Got? && r.id == n.id
      && |r.bytes| == (if s.wanted then s.max else 0)
      && (forall k :: 0 <= k < |r.bytes| && k < |n.text| ==> r.bytes[k] == n.text[k])
    case _ => r == a
  }

  ghost function NextLost(q: Box, s: Step, lost: set<nat>): set<nat>
    requires Formed(q)
  {
    match s
    case Interrupt(_) => if Next(q, s).1 == Code(Q_FULL) then lost + {FirstFree(q.pool, 0)} else lost
    case Go => if q.owner.Copied? && |q.posted| >= q.room then lost + {q.owner.at} else lost
    case Collect(t, max, _) => if t in q.held && q.owner == Idle && max > q.width then lost + {q.held[t]} else lost
    case Flush => if q.owner == Idle then {} else lost
    case _ => lost
  }

  /** The search comes back empty-handed exactly when as many blocks are tagged as there are. */
  lemma SearchFails(pool: seq<Block>)
    ensures FirstFree(pool, 0) == |pool| <==> |Tagged(pool)| >= |pool|
  {
    var all := Below(|pool|);
    SmallerSet(Tagged(pool), all);
    var i := FirstFree(pool, 0);
    if i == |pool| {
      assert Tagged(pool) == all;
    } else {
      assert i in all && i !in Tagged(pool);
    }
  }

  // ---- a block goes from free to tagged ----------------------------------------------------------

  lemma FreeNotInUse(q: Box, i: nat)
    requires Sound(q) && i < |q.pool| && q.pool[i].tag == 0
    ensures !InUse(q, i)
  {
  }

  lemma FreeUntagged(pool: seq<Block>, i: nat)
    requires i < |pool| && pool[i].tag == 0
    ensures i !in Tagged(pool)
  {
  }

  lemma WriteTagged(pool: seq<Block>, i: nat, b: Block)
    requires i < |pool|
    ensures b.tag != 0 ==> Tagged(pool[i := b]) == Tagged(pool) + {i}
    ensures b.tag == 0 ==> Tagged(pool[i := b]) == Tagged(pool) - {i}
  {
  }

  lemma WriteSound(q: Box, i: nat, b: Block)
    requires Sound(q) && i < |q.pool| && b.tag != 0 && |b.area| == q.width
    ensures Sound(q.(pool := q.pool[i := b]))
  {
  }

  lemma WriteMirrors(q: Box, d: Deque, i: nat, b: Block)
    requires Formed(q) && Mirrors(q, d) && i < |q.pool| && i !in q.posted && i !in q.held.Values && |b.area| == q.width
    ensures Mirrors(q.(pool := q.pool[i := b]), d)
  {
    hide Shows;
    var p := q.(pool := q.pool[i := b]);
    forall j | 0 <= j < |p.posted| ensures Shows(p.pool[p.posted[j]], d.waiting[j]) {
      assert q.posted[j] in q.posted;
    }
    forall t | t in p.held ensures Shows(p.pool[p.held[t]], d.held[t]) {
      assert q.held[t] in q.held.Values;
    }
  }

  /** Tagging a free block does not disturb a sender that has not found one, or has tagged its own. */
  lemma WriteOwner(q: Box, d: Deque, i: nat, b: Block)
    requires Formed(q) && OwnerMirrors(q, d) && i < |q.pool| && q.pool[i].tag == 0 && b.tag != 0
    requires |b.area| == q.width && !q.owner.Found?
    ensures OwnerMirrors(q.(pool := q.pool[i := b]), d)
  {
    hide Shows;
    var p := q.(pool := q.pool[i := b]);
    if q.owner.Copied? {
      assert q.owner.at != i by { ShowsTag(q.pool[q.owner.at], q.owner.order.note); }
    }
  }

  lemma ShowsTag(b: Block, n: Note)
    requires Shows(b, n)
    ensures b.tag == n.id
  {
  }

  /** A block goes on one end of the operating-system queue. */
  function Post(q: Box, i: nat, urgent: bool): Box { q.(posted := Push(q.posted, i, urgent)) }

  lemma PushAt<T>(s: seq<T>, x: T, urgent: bool, j: nat)
    requires j < |s| + 1
    ensures |Push(s, x, urgent)| == |s| + 1
    ensures Push(s, x, urgent)[j] == if urgent then (if j == 0 then x else s[j - 1]) else (if j < |s| then s[j] else x)
  {
  }

  lemma PushIn<T>(s: seq<T>, x: T, urgent: bool, y: T)
    ensures y in Push(s, x, urgent) <==> y in s || y == x
  {
  }

  lemma PostApart(q: Box, i: nat, urgent: bool)
    requires Apart(q) && i !in q.posted && i !in q.held.Values && !Reserves(q, i)
    ensures Apart(Post(q, i, urgent))
  {
    var p := Post(q, i, urgent);
    forall j, k | 0 <= j < k < |p.posted| ensures p.posted[j] != p.posted[k] {
      PushAt(q.posted, i, urgent, j);
      PushAt(q.posted, i, urgent, k);
    }
    forall j, t | 0 <= j < |p.posted| && t in p.held ensures p.posted[j] != p.held[t] {
      PushAt(q.posted, i, urgent, j);
      assert q.held[t] in q.held.Values;
    }
    forall j | 0 <= j < |p.posted| ensures !Reserves(p, p.posted[j]) {
      PushAt(q.posted, i, urgent, j);
    }
  }

  lemma PostSound(q: Box, i: nat, urgent: bool)
    requires Sound(q) && i < |q.pool| && i !in q.posted && i !in q.held.Values && !Reserves(q, i) && q.pool[i].tag != 0
    ensures Sound(Post(q, i, urgent))
  {
    PostApart(q, i, urgent);
    var p := Post(q, i, urgent);
    forall j | 0 <= j < |p.posted| ensures p.posted[j] < |p.pool| && p.pool[p.posted[j]].tag != 0 {
      PushAt(q.posted, i, urgent, j);
    }
    hide Apart;
  }

  lemma PostMirrors(q: Box, d: Deque, i: nat, n: Note, urgent: bool)
    requires Formed(q) && Mirrors(q, d) && i < |q.pool| && Shows(q.pool[i], n) && Formed(Post(q, i, urgent))
    ensures Mirrors(Post(q, i, urgent), d.(waiting := Push(d.waiting, n, urgent)))
  {
    hide Shows;
    var p, e := Post(q, i, urgent), d.(waiting := Push(d.waiting, n, urgent));
    PushAt(q.posted, i, urgent, 0);
    PushAt(d.waiting, n, urgent, 0);
    forall j | 0 <= j < |p.posted| ensures Shows(p.pool[p.posted[j]], e.waiting[j]) {
      PushAt(q.posted, i, urgent, j);
      PushAt(d.waiting, n, urgent, j);
    }
  }

  lemma UseUnchanged(q: Box, p: Box)
    requires p.posted == q.posted && p.held == q.held && forall k: nat :: Reserves(p, k) == Reserves(q, k)
    ensures forall k: nat :: InUse(p, k) <==> InUse(q, k)
  {
  }

  /** The accounts after block `i` is tagged: it is in use, or it is lost. */
  lemma TagAccounted(q: Box, p: Box, lost: set<nat>, i: nat)
    requires Formed(q) && Formed(p) && Accounted(q, lost)
    requires i !in Tagged(Part(q)) && Tagged(Part(p)) == Tagged(Part(q)) + {i}
    ensures (forall k: nat :: InUse(p, k) <==> InUse(q, k) || k == i) ==> Accounted(p, lost)
    ensures !InUse(q, i) && (forall k: nat :: InUse(p, k) <==> InUse(q, k))
      ==> Accounted(p, lost + {i}) && |lost + {i}| == |lost| + 1
    ensures |Tagged(Part(p))| == |Tagged(Part(q))| + 1
  {
    hide InUse, Tagged;
  }

  /** The accounts after a receiver lets go of block `i`, which it frees or loses. */
  lemma DropAccounted(q: Box, p: Box, lost: set<nat>, i: nat)
    requires Formed(q) && Formed(p) && Accounted(q, lost) && InUse(q, i) && i in Tagged(Part(q))
    requires forall k: nat :: InUse(p, k) <==> InUse(q, k) && k != i
    ensures Tagged(Part(p)) == Tagged(Part(q)) - {i}
      ==> Accounted(p, lost) && |Tagged(Part(p))| == |Tagged(Part(q))| - 1
    ensures Tagged(Part(p)) == Tagged(Part(q))
      ==> Accounted(p, lost + {i}) && |lost + {i}| == |lost| + 1
  {
    hide InUse, Tagged;
  }

  // ---- an interrupt sends ------------------------------------------------------------------------

  /** A free block is tagged and filled at once. */
  lemma LoseRefines(q: Box, d: Deque, lost: set<nat>, i: nat, b: Block)
    requires Refines(q, d, lost) && i < |q.pool| && q.pool[i].tag == 0 && b.tag != 0 && |b.area| == q.width
    requires !q.owner.Found? && i < |Part(q)|
    ensures Refines(q.(pool := q.pool[i := b]), d.(lost := d.lost + 1), lost + {i})
    ensures !InUse(q, i)
  {
    FreeNotInUse(q, i);
    FreeUntagged(Part(q), i);
    WriteTagged(Part(q), i, b);
    PartWritten(q, i, b);
    WriteSound(q, i, b);
    WriteMirrors(q, d, i, b);
    WriteOwner(q, d, i, b);
    var p := q.(pool := q.pool[i := b]);
    UseUnchanged(q, p);
    hide Tagged, InUse, Sound, Mirrors, Accounted, Shows;
    TagAccounted(q, p, lost, i);
    OwnerSame(p, d, d.(lost := d.lost + 1));
    MirrorsSame(p, d, d.(lost := d.lost + 1));
    hide OwnerMirrors;
  }

  lemma OwnerSame(q: Box, d: Deque, e: Deque)
    requires Formed(q) && OwnerMirrors(q, d) && e.owner == d.owner
    ensures OwnerMirrors(q, e)
  {
  }

  lemma MirrorsSame(q: Box, d: Deque, e: Deque)
    requires InPool(q) && Mirrors(q, d) && e.waiting == d.waiting && e.held == d.held
    ensures Mirrors(q, e)
  {
  }

  lemma PartWritten(q: Box, i: nat, b: Block)
    requires Formed(q) && i < |Part(q)| && |b.area| == q.width
    ensures Part(q.(pool := q.pool[i := b])) == Part(q)[i := b]
  {
  }

  /** A lost block that nobody has is posted after all. */
  lemma FindRefines(p: Box, d: Deque, lost: set<nat>, i: nat, n: Note, urgent: bool)
    requires Refines(p, d, lost + {i}) && i !in lost && d.lost > 0 && i < |p.pool| && Shows(p.pool[i], n)
    ensures Refines(Post(p, i, urgent), d.(waiting := Push(d.waiting, n, urgent), lost := d.lost - 1), lost)
  {
    var r := Post(p, i, urgent);
    var e := d.(waiting := Push(d.waiting, n, urgent), lost := d.lost - 1);
    assert i in lost + {i} && i in Tagged(Part(p)) && !InUse(p, i);
    PostSound(p, i, urgent);
    PostMirrors(p, d, i, n, urgent);
    MirrorsSame(r, d.(waiting := Push(d.waiting, n, urgent)), e);
    OwnerPost(p, d, i, urgent, e);
    PushAt(d.waiting, n, urgent, 0);
    forall k: nat ensures InUse(r, k) <==> InUse(p, k) || k == i {
      PushIn(p.posted, i, urgent, k);
    }
    assert |lost + {i}| == |lost| + 1;
    assert Part(r) == Part(p);
    hide Sound, Mirrors, OwnerMirrors, InUse, Tagged, Shows, Push;
    assert Accounted(r, lost);
  }

  lemma OwnerPost(p: Box, d: Deque, i: nat, urgent: bool, e: Deque)
    requires Formed(p) && Formed(Post(p, i, urgent)) && OwnerMirrors(p, d) && e.owner == d.owner && i < |Part(p)|
    ensures OwnerMirrors(Post(p, i, urgent), e)
  {
    hide Shows;
    if p.owner.Wiping? {
      forall k | 0 <= k < |p.posted| + 1 ensures Push(p.posted, i, urgent)[k] < p.owner.at {
        PushAt(p.posted, i, urgent, k);
      }
    }
  }

  lemma ShowsFilled(b: Block, n: Note)
    requires |n.text| <= |b.area|
    ensures Shows(Fill(b, n), n) && |Fill(b, n).area| == |b.area|
  {
  }

  /** Unless it collides, the search tells whether there is a place left. */
  lemma SearchTells(q: Box, s: Step)
    requires Formed(q) && s.Interrupt? && !Collides(q, s) && |s.order.note.text| <= q.width
    ensures var i := FirstFree(q.pool, 0);
      if |Tagged(Part(q))| < |q.pool| then i < |Part(q)| && q.pool[i].tag == 0 else i == |q.pool|
  {
    SearchFails(q.pool);
    var i := FirstFree(q.pool, 0);
    if i < |Part(q)| {
      SomeUntagged(Part(q), i);
    } else {
      assert Part(q) == q.pool;
    }
  }

  /** A send that finds block `i` free. */
  lemma FillRefines(q: Box, d: Deque, lost: set<nat>, i: nat, o: Order)
    requires Refines(q, d, lost) && !q.owner.Found? && i < |Part(q)| && q.pool[i].tag == 0 && o.note.id != 0
    requires |o.note.text| <= q.width
    ensures var p := q.(pool := q.pool[i := Fill(q.pool[i], o.note)]);
      && Refines(p, d.(lost := d.lost + 1), lost + {i})
      && Refines(Post(p, i, o.urgent), d.(waiting := Push(d.waiting, o.note, o.urgent)), lost)
      && |q.posted| == |d.waiting|
  {
    var b := Fill(q.pool[i], o.note);
    ShowsFilled(q.pool[i], o.note);
    LoseRefines(q, d, lost, i, b);
    LostTagged(q, lost, i);
    FindRefines(q.(pool := q.pool[i := b]), d.(lost := d.lost + 1), lost, i, o.note, o.urgent);
    assert d.(lost := d.lost + 1).(waiting := Push(d.waiting, o.note, o.urgent), lost := d.lost)
      == d.(waiting := Push(d.waiting, o.note, o.urgent));
    hide Push, Shows, Fill, Tagged, Sound, OwnerMirrors, Accounted;
  }

  lemma CountSame(q: Box, d: Deque, lost: set<nat>)
    requires Refines(q, d, lost)
    ensures Count(d) == |Tagged(Part(q))| + if q.owner.Found? then 1 else 0
  {
  }

  lemma InterruptRefines(q: Box, d: Deque, lost: set<nat>, s: Step)
    requires Refines(q, d, lost) && s.Interrupt? && Ordinary(q, s)
    ensures Refines(Next(q, s).0, Want(d, LimitsOf(q), s).0, NextLost(q, s, lost))
    ensures Next(q, s).1 == Want(d, LimitsOf(q), s).1
  {
    var o := s.order;
    CountSame(q, d, lost);
    assert |o.note.text| <= q.width ==> !q.owner.Found? && o.note.id != 0;
    hide Refines, Fill, Push, Tagged, Count, Collides, Part, FirstFree;
    if |o.note.text| <= q.width {
      SearchTells(q, s);
      var i := FirstFree(q.pool, 0);
      if i < |q.pool| { FillRefines(q, d, lost, i, o); }
    }
  }

  lemma LostTagged(q: Box, lost: set<nat>, i: nat)
    requires Formed(q) && Accounted(q, lost) && i < |q.pool| && q.pool[i].tag == 0
    ensures i !in lost
  {
  }

  // ---- a task sends ------------------------------------------------------------------------------

  lemma AllTagged(pool: seq<Block>)
    requires forall k :: 0 <= k < |pool| ==> pool[k].tag != 0
    ensures |Tagged(pool)| == |pool|
  {
    assert Tagged(pool) == Below(|pool|);
  }

  lemma SomeUntagged(pool: seq<Block>, i: nat)
    requires i < |pool| && pool[i].tag == 0
    ensures |Tagged(pool)| < |pool|
  {
    assert i in Below(|pool|) && i !in Tagged(pool);
    SmallerSet(Tagged(pool), Below(|pool|));
  }

  /** Only the sender's own record changes, and it has no block yet. */
  lemma MoveOwner(q: Box, d: Deque, lost: set<nat>, p: Box, e: Deque)
    requires Refines(q, d, lost) && p == q.(owner := p.owner) && e == d.(owner := e.owner)
    requires (forall k: nat :: !Reserves(q, k)) && (forall k: nat :: !Reserves(p, k)) && OwnerFits(p)
    requires OwnerMirrors(p, e) && !q.owner.Wiping? && !p.owner.Wiping?
    requires Count(e) - Count(d) == (if p.owner.Found? then 1 else 0) - (if q.owner.Found? then 1 else 0)
    ensures Refines(p, e, lost)
  {
    UseUnchanged(q, p);
    MoveSound(q, d, p, e);
    hide InUse, Mirrors, OwnerMirrors, Tagged, Apart, Sound, Count;
  }

  lemma MoveSound(q: Box, d: Deque, p: Box, e: Deque)
    requires Sound(q) && Mirrors(q, d) && p == q.(owner := p.owner) && e == d.(owner := e.owner)
    requires (forall k: nat :: !Reserves(p, k)) && OwnerFits(p) && !q.owner.Wiping? && !p.owner.Wiping?
    ensures Sound(p) && Mirrors(p, e) && Part(p) == Part(q)
  {
    hide Shows;
    assert !(p.owner.Tagging? || p.owner.Copied?) by {
      assert p.owner.Tagging? || p.owner.Copied? ==> Reserves(p, p.owner.at);
    }
  }

  lemma LookRefines(q: Box, d: Deque, lost: set<nat>)
    requires Refines(q, d, lost) && (q.owner.Looking? || q.owner.Idle?)
    ensures Refines(Next(q, Go).0, Want(d, LimitsOf(q), Meaning(q, Go)).0, lost)
    ensures Next(q, Go).1 == Want(d, LimitsOf(q), Meaning(q, Go)).1
  {
    if q.owner.Looking? {
      var at, p, e := q.owner.at, Next(q, Go).0, Want(d, LimitsOf(q), Meaning(q, Go)).0;
      if at == |q.pool| { AllTagged(Part(q)); } else if q.pool[at].tag == 0 { SomeUntagged(q.pool, at); }
      MoveOwner(q, d, lost, p, e);
      hide Sound, Mirrors, Accounted, Tagged;
    }
  }

  lemma TagRefines(q: Box, d: Deque, lost: set<nat>)
    requires Refines(q, d, lost) && q.owner.Found?
    ensures Refines(Next(q, Go).0, d, lost) && Next(q, Go).1 == Quiet
  {
    var at, o, p := q.owner.at, q.owner.order, Next(q, Go).0;
    var b := q.pool[at].(tag := o.note.id);
    FreeNotInUse(q, at);
    FreeUntagged(q.pool, at);
    WriteTagged(q.pool, at, b);
    WriteMirrors(q, d, at, b);
    TagSound(q);
    forall k: nat ensures InUse(p, k) <==> InUse(q, k) || k == at {
    }
    assert Mirrors(p, d) by { MirrorsMoved(q.(pool := q.pool[at := b]), p, d); }
    hide Tagged, InUse, Sound, Mirrors, Shows;
    TagAccounted(q, p, lost, at);
    hide Accounted;
  }

  lemma MirrorsMoved(q: Box, p: Box, d: Deque)
    requires InPool(q) && Mirrors(q, d) && p == q.(owner := p.owner)
    ensures InPool(p) && Mirrors(p, d)
  {
  }

  lemma TagSound(q: Box)
    requires Sound(q) && q.owner.Found? && q.pool[q.owner.at].tag == 0 && q.owner.order.note.id != 0
    ensures Sound(Next(q, Go).0)
  {
  }

  lemma CopyRefines(q: Box, d: Deque, lost: set<nat>)
    requires Refines(q, d, lost) && q.owner.Tagging?
    ensures Refines(Next(q, Go).0, d, lost) && Next(q, Go).1 == Quiet
  {
    var at, o, p := q.owner.at, q.owner.order, Next(q, Go).0;
    var b := CopyIn(q.pool[at], o.note.text);
    assert at !in q.posted && at !in q.held.Values;
    WriteTagged(q.pool, at, b);
    assert at in Tagged(Part(q));
    WriteMirrors(q, d, at, b);
    MirrorsMoved(q.(pool := q.pool[at := b]), p, d);
    CopySound(q);
    UseUnchanged(q, p);
    CopyShows(q.pool[at], o.note);
    hide Tagged, InUse, Sound, Mirrors, Shows, CopyIn;
    assert Tagged(Part(p)) == Tagged(Part(q));
  }

  lemma CopySound(q: Box)
    requires Sound(q) && q.owner.Tagging?
    ensures Sound(Next(q, Go).0)
  {
  }

  lemma CopyShows(b: Block, n: Note)
    requires b.tag == n.id && |n.text| <= |b.area|
    ensures Shows(CopyIn(b, n.text), n)
  {
  }

  lemma FinishRefines(q: Box, d: Deque, lost: set<nat>)
    requires Refines(q, d, lost) && q.owner.Copied?
    ensures Refines(Next(q, Go).0, Want(d, LimitsOf(q), Go).0, NextLost(q, Go, lost))
    ensures Next(q, Go).1 == Want(d, LimitsOf(q), Go).1
  {
    var at, o := q.owner.at, q.owner.order;
    CopiedBlock(q, d, lost);
    LetOwnerGo(q, d, lost);
    assert Want(d, LimitsOf(q), Go) == Arrives(d.(owner := Nobody), LimitsOf(q), o);
    assert Next(q, Go) == if |q.posted| >= q.room then (q.(owner := Idle), Code(Q_FULL))
                          else (Post(q.(owner := Idle), at, o.urgent), Sent(o.note));
    hide Refines, Shows, Push, Want, Next, Post;
    if |q.posted| < q.room {
      FindRefines(q.(owner := Idle), d.(owner := Nobody, lost := d.lost + 1), lost, at, o.note, o.urgent);
    }
  }

  lemma CopiedBlock(q: Box, d: Deque, lost: set<nat>)
    requires Refines(q, d, lost) && q.owner.Copied?
    ensures |q.posted| == |d.waiting| && q.owner.at !in lost && Shows(q.pool[q.owner.at], q.owner.order.note)
    ensures d.owner == Reserved(q.owner.order)
  {
    assert Reserves(q, q.owner.at);
    hide Shows;
  }

  /** The sender forgets its block: for a moment nobody has it. */
  lemma LetOwnerGo(q: Box, d: Deque, lost: set<nat>)
    requires Refines(q, d, lost) && q.owner.Copied?
    ensures Refines(q.(owner := Idle), d.(owner := Nobody, lost := d.lost + 1), lost + {q.owner.at})
  {
    var at, p, e := q.owner.at, q.(owner := Idle), d.(owner := Nobody, lost := d.lost + 1);
    CopiedBlock(q, d, lost);
    assert InUse(q, at) && at in Tagged(Part(q)) by { assert Reserves(q, at); }
    LetOwnerUse(q);
    LetOwnerSound(q, d);
    hide Tagged, InUse, Sound, Mirrors, Shows, Accounted;
    DropAccounted(q, p, lost, at);
  }

  lemma LetOwnerSound(q: Box, d: Deque)
    requires Sound(q) && Mirrors(q, d) && q.owner.Copied?
    ensures Sound(q.(owner := Idle)) && Part(q.(owner := Idle)) == Part(q)
    ensures Mirrors(q.(owner := Idle), d.(owner := Nobody, lost := d.lost + 1))
  {
    hide Shows;
  }

  lemma LetOwnerUse(q: Box)
    requires Sound(q) && q.owner.Copied?
    ensures forall k: nat :: InUse(q.(owner := Idle), k) <==> InUse(q, k) && k != q.owner.at
  {
    assert Reserves(q, q.owner.at);
    forall k: nat ensures InUse(q.(owner := Idle), k) <==> InUse(q, k) && k != q.owner.at {
      if k in q.posted { var j :| 0 <= j < |q.posted| && q.posted[j] == k; }
      if k in q.held.Values { var t :| t in q.held && q.held[t] == k; }
    }
  }

  lemma TakeSound(q: Box, task: nat)
    requires Sound(q) && q.posted != [] && task !in q.held
    ensures Sound(Taking(q, task))
  {
    var p := Taking(q, task);
    assert forall i :: 0 <= i < |p.posted| ==> p.posted[i] == q.posted[i + 1];
  }

  lemma TakeMirrors(q: Box, d: Deque, task: nat)
    requires q.posted != [] && Formed(q) && Formed(Taking(q, task)) && Mirrors(q, d) && task !in q.held
    ensures Mirrors(Taking(q, task), Took(d, task))
  {
    hide Shows;
    var p, e := Taking(q, task), Took(d, task);
    assert e.held.Keys == d.held.Keys + {task};
    forall i | 0 <= i < |p.posted| ensures Shows(p.pool[p.posted[i]], e.waiting[i]) {
      assert p.posted[i] == q.posted[i + 1] && e.waiting[i] == d.waiting[i + 1];
    }
  }

  lemma TakeUse(q: Box, task: nat, k: nat)
    requires q.posted != [] && task !in q.held
    ensures InUse(Taking(q, task), k) <==> InUse(q, k)
  {
    var p := Taking(q, task);
    if k in q.posted && k != q.posted[0] {
      var i :| 0 <= i < |q.posted| && q.posted[i] == k;
      assert p.posted[i - 1] == k;
    }
    if k in q.held.Values {
      var t :| t in q.held && q.held[t] == k;
      assert p.held[t] == k;
    }
    if k == q.posted[0] { assert p.held[task] == k; }
  }

  lemma TakeOwner(q: Box, d: Deque, task: nat)
    requires Formed(q) && OwnerMirrors(q, d) && q.posted != [] && d.waiting != [] && Formed(Taking(q, task))
    ensures OwnerMirrors(Taking(q, task), Took(d, task))
  {
    hide Shows;
  }

  lemma TakeAccounted(q: Box, p: Box, lost: set<nat>)
    requires Formed(q) && Formed(p) && Accounted(q, lost) && Tagged(Part(p)) == Tagged(Part(q))
    requires forall k: nat :: InUse(p, k) <==> InUse(q, k)
    ensures Accounted(p, lost)
  {
    hide InUse, Tagged;
  }

  lemma TakeRefines(q: Box, d: Deque, lost: set<nat>, task: nat)
    requires Refines(q, d, lost) && q.posted != [] && task !in q.held
    ensures d.waiting != [] && Refines(Taking(q, task), Took(d, task), lost)
  {
    var p, e := Taking(q, task), Took(d, task);
    assert d.waiting != [] && task !in d.held;
    assert e.held.Keys == d.held.Keys + {task};
    assert |e.held| == |d.held| + 1 by { assert |e.held.Keys| == |d.held.Keys| + 1; }
    TakeSound(q, task);
    assert Formed(q) && Formed(p) && Part(p) == Part(q);
    TakeMirrors(q, d, task);
    TakeOwner(q, d, task);
    hide Tagged, InUse, Sound, Mirrors, OwnerMirrors, Accounted;
    forall k: nat ensures InUse(p, k) <==> InUse(q, k) {
      TakeUse(q, task, k);
    }
    TakeAccounted(q, p, lost);
  }

  lemma DropUse(q: Box, task: nat, k: nat)
    requires Apart(q) && task in q.held
    ensures InUse(q.(held := q.held - {task}), k) <==> InUse(q, k) && k != q.held[task]
  {
    var p := q.(held := q.held - {task});
    if k in q.held.Values && k != q.held[task] {
      var t :| t in q.held && q.held[t] == k;
      assert p.held[t] == k;
    }
    assert q.held[task] in q.held.Values;
  }

  /** A block taken out of a receiver's hand may be written over. */
  lemma DropSound(q: Box, d: Deque, task: nat, b: Block)
    requires Sound(q) && Mirrors(q, d) && task in q.held && |b.area| == q.width
    ensures var p := q.(held := q.held - {task}, pool := q.pool[q.held[task] := b]);
      Sound(p) && Mirrors(p, d.(held := d.held - {task}))
  {
    DropApart(q, task, b);
    DropMirrors(q, d, task, b);
    hide Shows, Reserves, Apart, Mirrors;
  }

  lemma DropApart(q: Box, task: nat, b: Block)
    requires Apart(q) && task in q.held && q.held[task] < |q.pool|
    ensures Apart(q.(held := q.held - {task}, pool := q.pool[q.held[task] := b]))
  {
  }

  lemma DropMirrors(q: Box, d: Deque, task: nat, b: Block)
    requires InPool(q) && Apart(q) && Mirrors(q, d) && task in q.held
    ensures var p := q.(held := q.held - {task}, pool := q.pool[q.held[task] := b]);
      InPool(p) && Mirrors(p, d.(held := d.held - {task}))
  {
    hide Shows, Reserves;
  }

  lemma DropHand(d: Deque, task: nat)
    requires task in d.held
    ensures |d.held - {task}| == |d.held| - 1
  {
    var m := d.held - {task};
    assert m.Keys == d.held.Keys - {task};
    assert |m.Keys| == |d.held.Keys| - 1;
  }

  lemma CollectAnswers(q: Box, d: Deque, lost: set<nat>, s: Step)
    requires Refines(q, d, lost) && s.Collect? && s.task in q.held && q.owner == Idle
    ensures Answers(s, Next(q, s).1, Want(d, LimitsOf(q), s).1)
  {
    if s.max <= q.width {
      CollectBytes(q.pool[q.held[s.task]], d.held[s.task], s.max);
    }
  }

  /** The receiver lets go of its block and frees it. */
  lemma FreeRefines(q: Box, d: Deque, lost: set<nat>, task: nat, b: Block)
    requires Refines(q, d, lost) && task in q.held && |b.area| == q.width && q.owner == Idle && b.tag == 0
    ensures Refines(q.(held := q.held - {task}, pool := q.pool[q.held[task] := b]), d.(held := d.held - {task}), lost)
  {
    DropSound(q, d, task, b);
    DropCounts(d, task);
    FreeAccounted(q, lost, task, b);
    hide Tagged, Sound, Mirrors, Accounted, Count;
  }

  /** The receiver lets go of its block, which stays tagged for ever. */
  lemma LeakRefines(q: Box, d: Deque, lost: set<nat>, task: nat)
    requires Refines(q, d, lost) && task in q.held && q.owner == Idle
    ensures Refines(q.(held := q.held - {task}), d.(held := d.held - {task}, lost := d.lost + 1),
                    lost + {q.held[task]})
  {
    LeakSound(q, d, task);
    DropCounts(d, task);
    LeakAccounted(q, lost, task);
    hide Tagged, Sound, Mirrors, Accounted, Count;
  }

  lemma LeakSound(q: Box, d: Deque, task: nat)
    requires Sound(q) && Mirrors(q, d) && task in q.held
    ensures Sound(q.(held := q.held - {task}))
    ensures Mirrors(q.(held := q.held - {task}), d.(held := d.held - {task}, lost := d.lost + 1))
  {
    hide Shows;
  }

  lemma LeakAccounted(q: Box, lost: set<nat>, task: nat)
    requires Sound(q) && Accounted(q, lost) && task in q.held && q.owner == Idle
    ensures var i, p := q.held[task], q.(held := q.held - {task});
      Formed(p) && Accounted(p, lost + {i}) && |lost + {i}| == |lost| + 1
  {
    var i, p := q.held[task], q.(held := q.held - {task});
    assert i in Tagged(q.pool) && InUse(q, i) by { assert i in q.held.Values; }
    assert Formed(p) && Part(p) == Part(q);
    forall k: nat ensures InUse(p, k) <==> InUse(q, k) && k != i {
      DropUse(q, task, k);
    }
    hide Tagged, Accounted, InUse, Apart;
    DropAccounted(q, p, lost, i);
  }

  lemma DropCounts(d: Deque, task: nat)
    requires task in d.held
    ensures Count(d.(held := d.held - {task})) == Count(d) - 1
    ensures Count(d.(held := d.held - {task}, lost := d.lost + 1)) == Count(d)
  {
    DropHand(d, task);
  }

  lemma FreeAccounted(q: Box, lost: set<nat>, task: nat, b: Block)
    requires Sound(q) && Accounted(q, lost) && task in q.held && |b.area| == q.width && q.owner == Idle && b.tag == 0
    ensures var i := q.held[task]; var p := q.(held := q.held - {task}, pool := q.pool[i := b]);
      Formed(p) && Accounted(p, lost) && |Tagged(p.pool)| == |Tagged(q.pool)| - 1
  {
    var i := q.held[task];
    var p := q.(held := q.held - {task}, pool := q.pool[i := b]);
    assert i in Tagged(q.pool) && InUse(q, i) by { assert i in q.held.Values; }
    assert Formed(p);
    WriteTagged(q.pool, i, b);
    LetGoUse(q, task, b);
    hide Tagged, Accounted, InUse, Apart;
    DropAccounted(q, p, lost, i);
  }

  lemma LetGoUse(q: Box, task: nat, b: Block)
    requires Apart(q) && task in q.held && q.held[task] < |q.pool|
    ensures var p := q.(held := q.held - {task}, pool := q.pool[q.held[task] := b]);
      forall k: nat :: InUse(p, k) <==> InUse(q, k) && k != q.held[task]
  {
    var h := q.(held := q.held - {task});
    var p := h.(pool := q.pool[q.held[task] := b]);
    hide Apart, InUse;
    forall k: nat ensures InUse(p, k) <==> InUse(q, k) && k != q.held[task] {
      DropUse(q, task, k);
      UseUnchanged(h, p);
    }
  }

  lemma CollectRefines(q: Box, d: Deque, lost: set<nat>, s: Step)
    requires Refines(q, d, lost) && s.Collect? && s.task in q.held && q.owner == Idle
    ensures Refines(Next(q, s).0, Want(d, LimitsOf(q), s).0, NextLost(q, s, lost))
  {
    HeldSame(q, d, lost);
    HeldTagged(q, s.task);
    assert Next(q, s) == Collecting(q, s.task, s.max, s.wanted);
    assert Want(d, LimitsOf(q), s).0 == if s.max > q.width
      then d.(held := d.held - {s.task}, lost := d.lost + 1) else d.(held := d.held - {s.task});
    hide Refines, Sound, Next, Want;
    var i := q.held[s.task];
    if s.max <= q.width {
      FreeRefines(q, d, lost, s.task, q.pool[i].(tag := 0));
    } else {
      LeakRefines(q, d, lost, s.task);
    }
  }

  lemma HeldTagged(q: Box, task: nat)
    requires Sound(q) && task in q.held
    ensures q.held[task] < |q.pool| && q.pool[q.held[task]].tag != 0 && |q.pool[q.held[task]].area| == q.width
  {
  }

  lemma CollectBytes(b: Block, n: Note, max: nat)
    requires Shows(b, n) && max <= |b.area|
    ensures forall k :: 0 <= k < max && k < |n.text| ==> b.area[..max][k] == n.text[k]
  {
    assert forall k :: 0 <= k < |n.text| ==> b.area[..|n.text|][k] == b.area[k];
  }

  lemma FlushRefines(q: Box, d: Deque, lost: set<nat>)
    requires Refines(q, d, lost) && q.held == map[] && q.owner == Idle
    ensures Refines(Next(q, Flush).0, Want(d, LimitsOf(q), Flush).0, {})
  {
    assert Part(Next(q, Flush).0) == [];
    assert Tagged(Part(Next(q, Flush).0)) == {};
    assert |d.held.Keys| == 0;
  }

  lemma WipeTagged(q: Box)
    requires Formed(q) && q.owner.Wiping?
    ensures Tagged(Part(Next(q, Go).0)) == Tagged(Part(q))
  {
    var at, p := q.owner.at, Next(q, Go).0;
    if at < |q.pool| {
      assert Part(p) == Part(q) + [Block(0, Zeros(q.width))];
    } else {
      assert Part(p) == Part(q);
    }
  }

  lemma WipeSound(q: Box, d: Deque)
    requires Sound(q) && Mirrors(q, d) && OwnerMirrors(q, d) && q.owner.Wiping?
    ensures Sound(Next(q, Go).0) && Mirrors(Next(q, Go).0, d)
  {
    hide Shows;
  }

  lemma WipeRefines(q: Box, d: Deque, lost: set<nat>)
    requires Refines(q, d, lost) && q.owner.Wiping?
    ensures Refines(Next(q, Go).0, Want(d, LimitsOf(q), Meaning(q, Go)).0, lost)
    ensures Next(q, Go).1 == Want(d, LimitsOf(q), Meaning(q, Go)).1
  {
    var at, p := q.owner.at, Next(q, Go).0;
    UseUnchanged(q, p);
    WipeTagged(q);
    WipeSound(q, d);
    hide Tagged, Part, InUse, Sound, Mirrors, Shows;
  }

  ghost predicate Follows(q: Box, d: Deque, lost: set<nat>, s: Step)
    requires Formed(q)
  {
    var e := Want(d, LimitsOf(q), Meaning(q, s));
    Refines(Next(q, s).0, e.0, NextLost(q, s, lost)) && Answers(s, Next(q, s).1, e.1)
  }

  /** Every step on the pool is the step of the double-ended queue, its answer included, as long as no interrupt
      sends between another sender's look and its tag. */
  lemma StepRefines(q: Box, d: Deque, lost: set<nat>, s: Step)
    requires Refines(q, d, lost) && Ordinary(q, s)
    ensures Refines(Next(q, s).0, Want(d, LimitsOf(q), Meaning(q, s)).0, NextLost(q, s, lost))
    ensures Answers(s, Next(q, s).1, Want(d, LimitsOf(q), Meaning(q, s)).1)
  {
    assert s.Begin? ==> s.order.note.id != 0;
    assert s.Flush? ==> q.held == map[];
    FollowsMeans(q, d, lost, s);
    hide Refines, Follows, Ordinary, Next, Want, Meaning, NextLost, Answers;
    match s
    case Begin(o) => BeginRefines(q, d, lost, o);
    case Go => GoRefines(q, d, lost);
    case Interrupt(_) => InterruptFollows(q, d, lost, s);
    case Pend(_) => PointerRefines(q, d, lost, s);
    case Poll(_) => PointerRefines(q, d, lost, s);
    case Collect(_, _, _) => CollectFollows(q, d, lost, s);
    case Flush => FlushFollows(q, d, lost);
    case Rest => RestFollows(q, d, lost);
  }

  lemma FollowsMeans(q: Box, d: Deque, lost: set<nat>, s: Step)
    requires Formed(q)
    ensures Follows(q, d, lost, s) <==>
      && Refines(Next(q, s).0, Want(d, LimitsOf(q), Meaning(q, s)).0, NextLost(q, s, lost))
      && Answers(s, Next(q, s).1, Want(d, LimitsOf(q), Meaning(q, s)).1)
  {
    hide Refines, Next, Want, Meaning, NextLost, Answers;
  }

  lemma RestFollows(q: Box, d: Deque, lost: set<nat>)
    requires Refines(q, d, lost)
    ensures Follows(q, d, lost, Rest)
  {
    assert Formed(q);
    hide Refines;
  }

  lemma InterruptFollows(q: Box, d: Deque, lost: set<nat>, s: Step)
    requires Refines(q, d, lost) && s.Interrupt? && Ordinary(q, s)
    ensures Follows(q, d, lost, s)
  {
    InterruptAnswer(d, LimitsOf(q), s);
    assert Meaning(q, s) == s;
    hide Refines, Next, Want, NextLost, Meaning;
    InterruptRefines(q, d, lost, s);
  }

  lemma InterruptAnswer(d: Deque, l: Limits, s: Step)
    requires s.Interrupt?
    ensures !Want(d, l, s).1.Given?
  {
  }

  lemma CollectFollows(q: Box, d: Deque, lost: set<nat>, s: Step)
    requires Refines(q, d, lost) && s.Collect?
    ensures Follows(q, d, lost, s)
  {
    HeldSame(q, d, lost);
    if s.task in q.held && q.owner == Idle {
      CollectAnswers(q, d, lost, s);
      CollectRefines(q, d, lost, s);
      hide Refines, Next, Want, NextLost, Answers;
    } else {
      hide Refines, Collecting;
    }
  }

  lemma FlushFollows(q: Box, d: Deque, lost: set<nat>)
    requires Refines(q, d, lost) && q.held == map[]
    ensures Follows(q, d, lost, Flush)
  {
    HeldSame(q, d, lost);
    if q.owner == Idle { FlushRefines(q, d, lost); }
    hide Refines;
  }

  lemma PointerRefines(q: Box, d: Deque, lost: set<nat>, s: Step)
    requires Refines(q, d, lost) && (s.Pend? || s.Poll?)
    ensures Follows(q, d, lost, s)
  {
    HeldSame(q, d, lost);
    if q.posted != [] && s.task !in q.held {
      TakeRefines(q, d, lost, s.task);
      PointerTaken(q, d, lost, s);
      hide Refines, Next, Want, Taking, Took, NextLost;
    } else {
      hide Refines, Taking, Took;
    }
  }

  lemma PointerTaken(q: Box, d: Deque, lost: set<nat>, s: Step)
    requires Formed(q) && (s.Pend? || s.Poll?) && q.posted != [] && d.waiting != []
    requires s.task !in q.held && s.task !in d.held
    ensures Next(q, s) == (Taking(q, s.task), Quiet) && NextLost(q, s, lost) == lost
    ensures Want(d, LimitsOf(q), Meaning(q, s)) == (Took(d, s.task), Quiet)
  {
    hide Taking, Took;
  }

  lemma BeginRefines(q: Box, d: Deque, lost: set<nat>, o: Order)
    requires Refines(q, d, lost) && o.note.id != 0
    ensures Follows(q, d, lost, Begin(o))
  {
    HeldSame(q, d, lost);
    if q.owner == Idle && |o.note.text| <= q.width {
      MoveOwner(q, d, lost, Next(q, Begin(o)).0, Want(d, LimitsOf(q), Begin(o)).0);
    }
    hide Sound, Mirrors, Accounted, Tagged;
  }

  lemma HeldSame(q: Box, d: Deque, lost: set<nat>)
    requires Refines(q, d, lost)
    ensures |q.posted| == |d.waiting| && q.held.Keys == d.held.Keys && (q.owner == Idle <==> d.owner == Nobody)
  {
  }

  lemma GoRefines(q: Box, d: Deque, lost: set<nat>)
    requires Refines(q, d, lost)
    ensures Follows(q, d, lost, Go)
  {
    GoMeans(q, d, lost);
    hide Refines, Follows;
    match q.owner
    case Found(_, _) => TagRefines(q, d, lost);
    case Tagging(_, _) => CopyRefines(q, d, lost);
    case Copied(_, _) => FinishRefines(q, d, lost);
    case Wiping(_) => WipeRefines(q, d, lost);
    case _ => LookRefines(q, d, lost);
  }

  /** What is left to show of a step behind the lock. */
  lemma GoMeans(q: Box, d: Deque, lost: set<nat>)
    requires Formed(q)
    ensures var e := Want(d, LimitsOf(q), Meaning(q, Go));
      Refines(Next(q, Go).0, e.0, NextLost(q, Go, lost)) && Next(q, Go).1 == e.1 ==> Follows(q, d, lost, Go)
  {
    assert !Next(q, Go).1.Given?;
    hide Refines, Next, Want, NextLost, Meaning;
  }

  // ---- which steps keep the queue sound ----------------------------------------------------------

  /** A send at once keeps the blocks apart and tagged unless it queues a message of id 0. */
  lemma SendKeepsSound(q: Box, o: Order)
    requires Sound(q)
    ensures Sound(Sending(q, o).0) <==>
      o.note.id != 0 || |o.note.text| > q.width || FirstFree(q.pool, 0) == |q.pool| || |q.posted| >= q.room
  {
    var i, r := FirstFree(q.pool, 0), Sending(q, o).0;
    if |o.note.text| <= q.width && i < |q.pool| {
      var b := Fill(q.pool[i], o.note);
      var p := q.(pool := q.pool[i := b]);
      FreeNotInUse(q, i);
      if |q.posted| >= q.room {
        assert Apart(r) && r.posted == q.posted;
      } else if o.note.id != 0 {
        WriteSound(q, i, b);
        PostSound(p, i, o.urgent);
      } else {
        var k := if o.urgent then 0 else |q.posted|;
        PushAt(q.posted, i, o.urgent, k);
        assert r.posted[k] == i && r.pool[i].tag == 0;
      }
      hide Apart, Fill, Push;
    }
  }

  /** A task that writes its tag keeps them so unless its id is 0 or another sender has taken the block since
      the task found it free. */
  lemma TagKeepsSound(q: Box)
    requires Sound(q) && q.owner.Found?
    ensures Sound(Next(q, Go).0) <==> q.owner.order.note.id != 0 && !InUse(q, q.owner.at)
  {
    var at, p := q.owner.at, Next(q, Go).0;
    assert Reserves(p, at) && p.pool[at].tag == q.owner.order.note.id;
    if at in q.posted {
      var j :| 0 <= j < |q.posted| && q.posted[j] == at;
      assert p.posted[j] == at;
    } else if at in q.held.Values {
      var t :| t in q.held && q.held[t] == at;
      assert p.held[t] == at;
    } else if q.owner.order.note.id != 0 {
      assert Apart(p);
    }
  }

  /** A flush that wipes a block keeps them so unless the block is queued or in a receiver's hand. */
  lemma WipeKeepsSound(q: Box)
    requires Sound(q) && q.owner.Wiping? && q.owner.at < |q.pool|
    ensures Sound(Next(q, Go).0) <==> !InUse(q, q.owner.at)
  {
    var at, p := q.owner.at, Next(q, Go).0;
    assert p.pool[at].tag == 0 && !Reserves(q, at);
    if at in q.posted {
      var j :| 0 <= j < |q.posted| && q.posted[j] == at;
      assert p.posted[j] == at;
    } else if at in q.held.Values {
      var t :| t in q.held && q.held[t] == at;
      assert p.held[t] == at;
    } else {
      assert Apart(p);
    }
  }
}
