/** Interrupt sends that come at the wrong moment: between a task's look at a free block and its writing of the
    tag, or ahead of a flush that is still wiping. They are exactly what parts the message queue from the
    double-ended queue. */
module MsgCollisions {
  import opened Counting
  import opened MsgQueue
  import opened MsgRuns

  // ---- one step ----------------------------------------------------------------------------------

  /** The step is the step of the double-ended queue, its answer included. */
  ghost predicate Agrees(q: Box, d: Deque, s: Step)
    requires Formed(q)
  {
    && Answers(s, Next(q, s).1, Want(d, LimitsOf(q), Meaning(q, s)).1)
    && exists lost: set<nat> :: Refines(Next(q, s).0, Want(d, LimitsOf(q), Meaning(q, s)).0, lost)
  }

  /** The interrupt takes the block the task has found. */
  lemma TakesFound(q: Box, d: Deque, lost: set<nat>, o: Order)
    requires Refines(q, d, lost) && q.owner.Found? && |o.note.text| <= q.width
    ensures FirstFree(q.pool, 0) == q.owner.at
    ensures Next(q, Interrupt(o)).0.pool == q.pool[q.owner.at := Fill(q.pool[q.owner.at], o.note)]
    ensures Next(q, Interrupt(o)).0.owner == q.owner
  {
    assert q.pool[q.owner.at].tag == 0;
    assert FirstFree(q.pool, 0) == q.owner.at;
    hide Refines, Fill;
  }

  lemma FoundDisagrees(q: Box, d: Deque, lost: set<nat>, s: Step)
    requires Refines(q, d, lost) && Proper(q, s) && Collides(q, s) && q.owner.Found?
    ensures !Agrees(q, d, s)
  {
    TakesFound(q, d, lost, s.order);
    hide Want;
    assert Next(q, s).0.pool[q.owner.at].tag != 0;
  }

  lemma WipingDisagrees(q: Box, d: Deque, lost: set<nat>, s: Step)
    requires Refines(q, d, lost) && Collides(q, s) && q.owner.Wiping?
    ensures !Agrees(q, d, s)
  {
    var i, at, o, r := FirstFree(q.pool, 0), q.owner.at, s.order, Next(q, s).0;
    SmallerSet(Tagged(Part(q)), Below(at));
    assert Count(d) == |Tagged(Part(q))| <= at < |q.pool| && |q.posted| == |d.waiting|;
    if i < |q.pool| && |q.posted| < q.room {
      var k := if o.urgent then 0 else |q.posted|;
      PushAt(q.posted, i, o.urgent, k);
      assert r.posted[k] == i >= at;
      hide Want;
    } else if i < |q.pool| {
      assert Part(r) == Part(q);
      assert Count(Want(d, LimitsOf(q), s).0) == Count(d) + 1;
      hide Want, Count, Sound, Mirrors, OwnerMirrors, Accounted;
    } else {
      assert Next(q, s).1 == Code(-1);
      hide Refines;
    }
  }

  /** A step of callers who keep to the rules is the step of the double-ended queue exactly when it is no
      interrupt send that collides. */
  lemma StepExact(q: Box, d: Deque, lost: set<nat>, s: Step)
    requires Refines(q, d, lost) && Proper(q, s)
    ensures Agrees(q, d, s) <==> !Collides(q, s)
  {
    if !Collides(q, s) {
      StepRefines(q, d, lost, s);
    } else if q.owner.Found? {
      FoundDisagrees(q, d, lost, s);
    } else {
      WipingDisagrees(q, d, lost, s);
    }
    hide Refines, Next, Want, Meaning, Answers;
  }

  // ---- runs --------------------------------------------------------------------------------------

  predicate ProperRun(q: Box, steps: seq<Step>)
    requires Formed(q)
    decreases |steps|
  {
    steps == [] || (Proper(q, steps[0]) && ProperRun(Next(q, steps[0]).0, steps[1..]))
  }

  /** Every step of the run agrees with the double-ended queue. */
  ghost predicate AllAgree(q: Box, d: Deque, steps: seq<Step>)
    requires Formed(q)
    decreases |steps|
  {
    steps == [] || (Agrees(q, d, steps[0])
                    && AllAgree(Next(q, steps[0]).0, Want(d, LimitsOf(q), Meaning(q, steps[0])).0, steps[1..]))
  }

  lemma {:induction false} RunExact(q: Box, d: Deque, lost: set<nat>, steps: seq<Step>)
    requires Refines(q, d, lost) && ProperRun(q, steps)
    ensures AllAgree(q, d, steps) <==> OrdinaryRun(q, steps)
    decreases |steps|
  {
    if steps != [] {
      var s := steps[0];
      StepExact(q, d, lost, s);
      if !Collides(q, s) {
        StepRefines(q, d, lost, s);
        hide Refines, Next, Want, Meaning, Answers, Agrees, NextLost;
        RunExact(Next(q, s).0, Want(d, LimitsOf(q), Meaning(q, s)).0, NextLost(q, s, lost), steps[1..]);
      }
      hide Refines, Next, Want, Meaning, Agrees;
    }
  }

  /** From its creation on, whatever callers who keep to the rules do, the message queue is the double-ended
      queue, state by state and answer by answer, exactly when no interrupt send collides. */
  lemma CreatedExact(room: nat, msgs: nat, length: nat, steps: seq<Step>)
    requires ProperRun(Created(room, msgs, length), steps)
    ensures AllAgree(Created(room, msgs, length), NOTHING, steps) <==> OrdinaryRun(Created(room, msgs, length), steps)
  {
    CreatedRefines(room, msgs, length);
    RunExact(Created(room, msgs, length), NOTHING, {}, steps);
  }

  // ---- what a collision does ---------------------------------------------------------------------

  /** The queue after an interrupt send and the rest of the send it interrupted. */
  function Collided(q: Box, o: Order): (r: Box)
    requires Formed(q)
    ensures SameShape(q, r)
  {
    Next(Next(Next(Next(q, Interrupt(o)).0, Go).0, Go).0, Go).0
  }

  /** Both senders use one block: it is queued twice while there is room, and the interrupt's message in it is
      written over by the task's. */
  lemma CollisionEffect(q: Box, d: Deque, lost: set<nat>, o: Order)
    requires Refines(q, d, lost) && q.owner.Found? && |o.note.text| <= q.width
    ensures var at, mine, r := q.owner.at, q.owner.order, Collided(q, o);
      && Shows(r.pool[at], mine.note) && r.owner == Idle
      && (|q.posted| + 1 < q.room ==>
        r.posted == Push(Push(q.posted, at, o.urgent), at, mine.urgent) && !Apart(r))
      && (|q.posted| + 1 == q.room ==> r.posted == Push(q.posted, at, o.urgent))
      && (|q.posted| >= q.room ==> r.posted == q.posted)
  {
    var at, mine := q.owner.at, q.owner.order;
    TakesFound(q, d, lost, o);
    var p := Next(q, Interrupt(o)).0;
    assert p.posted == if |q.posted| >= q.room then q.posted else Push(q.posted, at, o.urgent);
    var b := p.pool[at].(tag := mine.note.id);
    assert Next(p, Go).0.pool[at] == b;
    CopyShows(b, mine.note);
    hide Refines, Shows, Push, Fill;
    var r := Collided(q, o);
    assert r.pool[at] == CopyIn(b, mine.note.text);
    if |q.posted| + 1 < q.room {
      PushAt(q.posted, at, o.urgent, 0);
      TwiceNotApart(r, q.posted, at, o.urgent, mine.urgent);
    }
    assert |q.posted| + 1 == q.room ==> r.posted == Push(q.posted, at, o.urgent) by {
      PushAt(q.posted, at, o.urgent, 0);
    }
  }

  lemma TwiceNotApart(r: Box, s: seq<nat>, i: nat, first: bool, second: bool)
    requires r.posted == Push(Push(s, i, first), i, second)
    ensures !Apart(r)
  {
    if first && second { assert r.posted[0] == r.posted[1]; }
    else if !first && !second { assert r.posted[|s|] == r.posted[|s| + 1]; }
    else { assert r.posted[0] == r.posted[|s| + 1]; }
  }

  // ---- a flush without interrupts ----------------------------------------------------------------

  lemma {:induction false} WipesRest(q: Box)
    requires Formed(q) && q.owner.Wiping? && q.posted == []
    requires forall k :: 0 <= k < q.owner.at ==> q.pool[k].tag == 0
    ensures var r := Run(q, Gos(|q.pool| - q.owner.at + 1));
      && r.posted == [] && r.held == q.held && r.owner == Idle && |r.pool| == |q.pool|
      && forall k :: 0 <= k < |r.pool| ==> r.pool[k].tag == 0
    decreases |q.pool| - q.owner.at
  {
    var n := |q.pool| - q.owner.at + 1;
    assert Gos(n)[1..] == Gos(n - 1) && Gos(1)[1..] == [];
    if n > 1 { WipesRest(Next(q, Go).0); }
  }

  /** A flush that no interrupt disturbs leaves no message, and a sound queue exactly when no receiver had a
      block in its hand. */
  lemma FlushExact(q: Box)
    requires Sound(q) && q.owner == Idle
    ensures var r := Run(q, [Flush] + Gos(|q.pool| + 1));
      && r.posted == [] && r.held == q.held && r.owner == Idle && (Sound(r) <==> q.held == map[])
  {
    var steps := [Flush] + Gos(|q.pool| + 1);
    assert steps[1..] == Gos(|q.pool| + 1);
    WipesRest(Next(q, Flush).0);
    var r := Run(q, steps);
    if q.held != map[] {
      var t :| t in q.held;
      assert r.pool[r.held[t]].tag == 0;
    }
  }
}
