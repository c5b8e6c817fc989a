/** What the two sector transfer commands of USB mass storage share: transfers in flight, the results of the
    device calls, and where a command stops for given results. */
module UsbTransfer {
  const SECTOR := 256                 // halfwords in a 512-byte sector
  const WORD := 0x1_0000_0000

  type Sector = s: seq<int> | |s| == 256 witness seq(256, _ => 0)

  /** A transfer in flight: the half of BUF it uses, its sector and the words moved so far. */
  datatype Job = Idle | Busy(at: int, sector: int, done: nat)

  /** The device calls of one transfer command, by sector. */
  datatype Call =
    | Command | CommandEnd
    | ReadSync(i: nat) | ReadStart(i: nat) | ReadWait(i: nat) | SendStart(i: nat) | SendWait(i: nat)
    | RecvStart(i: nat) | RecvWait(i: nat) | WriteStart(i: nat) | WriteWait(i: nat)

  /** What every device call of the command returns; 0 is success. */
  type Results = Call -> int

  function Flat(s: seq<Sector>): seq<int> {
    if s == [] then [] else Flat(s[..|s| - 1]) + s[|s| - 1]
  }

  lemma FlatSnoc(m: seq<Sector>, from: nat, to: nat)
    requires from <= to < |m|
    ensures Flat(m[from..to + 1]) == Flat(m[from..to]) + m[to]
  {
    assert m[from..to + 1][..to - from] == m[from..to];
  }

  predicate HalfOfBuf(at: int) { at == 0 || at == SECTOR }

  predicate Later(was: Job, now: Job) {
    was == now || (was.Busy? && now.Busy? && was.at == now.at && was.sector == now.sector && was.done <= now.done)
  }

  /** Word `k` of BUF belongs to the half the transfer uses. */
  predicate InFlight(j: Job, k: int) { j.Busy? && j.at <= k < j.at + SECTOR }

  // ---- where a command stops ---------------------------------------------------------------------

  /** `Broke(i)`: the sector loop was left at sector i with an error. */
  datatype Outcome = Finished | Broke(at: nat)

  /** The error tests of Read_10's loop. The result of waiting for the medium is overwritten by the USB wait
      that follows it, so `ReadWait` is not among them. */
  function ReadWalk(rc: Results, n: nat, i: nat): Outcome
    decreases n - i
  {
    if i >= n then Finished
    else if rc(if i == 0 then ReadSync(0) else ReadStart(i)) != 0 then Broke(i)
    else if i > 0 && rc(SendWait(i - 1)) != 0 then Broke(i)
    else if rc(SendStart(i)) != 0 then Broke(i)
    else if i == n - 1 && rc(SendWait(i)) != 0 then Broke(i)
    else ReadWalk(rc, n, i + 1)
  }

  /** Where the loop is left at sector i, or that it goes on to the next. */
  lemma ReadStep(rc: Results, n: nat, i: nat)
    requires i < n
    ensures var filled := rc(if i == 0 then ReadSync(0) else ReadStart(i)) == 0 && (i > 0 ==> rc(SendWait(i - 1)) == 0);
      var sent := rc(SendStart(i)) == 0 && (i == n - 1 ==> rc(SendWait(i)) == 0);
      ReadWalk(rc, n, i) == if !filled || !sent then Broke(i) else ReadWalk(rc, n, i + 1)
  {
  }

  /** Read_10 gives up with the send of the sector before still in flight. */
  predicate ReadLeaves(rc: Results, n: nat) {
    match ReadWalk(rc, n, 0)
    case Finished => false
    case Broke(i) => i > 0 && rc(ReadStart(i)) != 0
  }

  /** What is still in flight when the loop is left at sector i, or has run out. */
  lemma ReadLeft(rc: Results, n: nat, i: nat)
    requires i <= n && ReadWalk(rc, n, 0) == ReadWalk(rc, n, i)
    ensures ReadWalk(rc, n, i) == Broke(i) ==> (ReadLeaves(rc, n) <==> i > 0 && rc(ReadStart(i)) != 0)
    ensures i == n ==> ReadWalk(rc, n, i) == Finished && !ReadLeaves(rc, n)
  {
  }

  /** The calls for sector `k` whose result Read_10 looks at. */
  predicate ReadCallsOk(rc: Results, k: nat) {
    rc(if k == 0 then ReadSync(0) else ReadStart(k)) == 0 && rc(SendStart(k)) == 0 && rc(SendWait(k)) == 0
  }

  /** Read_10 reports success exactly when those calls succeed, whatever the waits for the medium say. */
  lemma {:induction false} ReadReportsSuccess(rc: Results, n: nat, i: nat)
    requires i < n && (i > 0 ==> rc(SendWait(i - 1)) == 0)
    ensures ReadWalk(rc, n, i) == Finished <==> forall k :: i <= k < n ==> ReadCallsOk(rc, k)
    decreases n - i
  {
    if ReadCallsOk(rc, i) {
      if i + 1 < n { ReadReportsSuccess(rc, n, i + 1); }
    } else if i + 1 < n && rc(SendWait(i)) != 0 {
      assert ReadWalk(rc, n, i + 1) != Finished;
    }
  }

  /** The turn of sector `k` passes: filling it, sending the one before and starting its own send succeed, and
      for the last one its own send too. */
  predicate ReadPasses(rc: Results, n: nat, k: nat) {
    && (k == 0 ==> rc(ReadSync(0)) == 0) && (k > 0 ==> rc(ReadStart(k)) == 0 && rc(SendWait(k - 1)) == 0)
    && rc(SendStart(k)) == 0 && (k == n - 1 ==> rc(SendWait(k)) == 0)
  }

  /** Sector i is the first whose turn does not pass. */
  predicate ReadStops(rc: Results, n: nat, i: nat) {
    i < n && !ReadPasses(rc, n, i) && forall k :: 0 <= k < i ==> ReadPasses(rc, n, k)
  }

  lemma {:induction false} ReadStopsFrom(rc: Results, n: nat, i: nat, at: nat)
    requires at <= n && forall k :: 0 <= k < at ==> ReadPasses(rc, n, k)
    ensures ReadWalk(rc, n, at) == Broke(i) <==> ReadStops(rc, n, i)
    ensures ReadWalk(rc, n, at) == Finished <==> forall k :: 0 <= k < n ==> ReadPasses(rc, n, k)
    decreases n - at
  {
    if at < n {
      ReadStep(rc, n, at);
      if ReadPasses(rc, n, at) { ReadStopsFrom(rc, n, i, at + 1); }
    }
  }

  /** The error tests of Write_10's loop: from the second sector on the result of starting to receive is
      overwritten by the wait for the medium. */
  function WriteWalk(rc: Results, n: nat, i: nat): Outcome
    decreases n - i
  {
    if i >= n then Finished
    else if rc(if i == 0 then RecvStart(0) else WriteWait(i - 1)) != 0 then Broke(i)
    else if rc(RecvWait(i)) != 0 then Broke(i)
    else if rc(WriteStart(i)) != 0 then Broke(i)
    else if i == n - 1 && rc(WriteWait(i)) != 0 then Broke(i)
    else WriteWalk(rc, n, i + 1)
  }

  /** The rest of the walk once the receive of sector i has been started or its start error overwritten. */
  function AfterWait(rc: Results, n: nat, i: nat): Outcome {
    if i >= n then Finished
    else if i > 0 && rc(WriteWait(i - 1)) != 0 then Broke(i)
    else if rc(RecvWait(i)) != 0 then Broke(i)
    else if rc(WriteStart(i)) != 0 then Broke(i)
    else if i == n - 1 && rc(WriteWait(i)) != 0 then Broke(i)
    else WriteWalk(rc, n, i + 1)
  }

  /** Where the loop is left at sector i, or that it goes on to the next. */
  lemma WalkStep(rc: Results, n: nat, i: nat)
    requires i < n
    ensures var arrived := (i > 0 ==> rc(WriteWait(i - 1)) == 0) && rc(RecvWait(i)) == 0;
      var passed := rc(WriteStart(i)) == 0 && (i == n - 1 ==> rc(WriteWait(i)) == 0);
      AfterWait(rc, n, i)
      == if !arrived || !passed then Broke(i) else if i == n - 1 then Finished else AfterWait(rc, n, i + 1)
    ensures i == 0 ==> WriteWalk(rc, n, 0) == if rc(RecvStart(0)) != 0 then Broke(0) else AfterWait(rc, n, 0)
  {
  }

  /** What is still in flight when the loop is left at sector i. */
  lemma LeavesStep(rc: Results, n: nat, i: nat)
    requires i < n && rc(RecvStart(0)) == 0 && WriteWalk(rc, n, 0) == AfterWait(rc, n, i)
    ensures var arrived := (i > 0 ==> rc(WriteWait(i - 1)) == 0) && rc(RecvWait(i)) == 0;
      var passed := rc(WriteStart(i)) == 0 && (i == n - 1 ==> rc(WriteWait(i)) == 0);
      !arrived || !passed || i == n - 1 ==>
        (WriteLeaves(rc, n) <==> i > 0 && rc(WriteWait(i - 1)) != 0 && rc(RecvStart(i)) == 0)
  {
    WalkStep(rc, n, i);
    hide WriteWalk, AfterWait;
  }

  /** The turn of sector `k` passes: the first receive was started or the sector before is stored, this one has
      arrived, its store is started, and for the last one ended. */
  predicate WritePasses(rc: Results, n: nat, k: nat) {
    && (k == 0 ==> rc(RecvStart(0)) == 0) && (k > 0 ==> rc(WriteWait(k - 1)) == 0)
    && rc(RecvWait(k)) == 0 && rc(WriteStart(k)) == 0 && (k == n - 1 ==> rc(WriteWait(k)) == 0)
  }

  /** Sector i is the first whose turn does not pass. */
  predicate WriteStops(rc: Results, n: nat, i: nat) {
    i < n && !WritePasses(rc, n, i) && forall k :: 0 <= k < i ==> WritePasses(rc, n, k)
  }

  lemma {:induction false} WriteStopsFrom(rc: Results, n: nat, i: nat, at: nat)
    requires at <= n && forall k :: 0 <= k < at ==> WritePasses(rc, n, k)
    ensures WriteWalk(rc, n, at) == Broke(i) <==> WriteStops(rc, n, i)
    ensures WriteWalk(rc, n, at) == Finished <==> forall k :: 0 <= k < n ==> WritePasses(rc, n, k)
    decreases n - at
  {
    if at < n && WritePasses(rc, n, at) { WriteStopsFrom(rc, n, i, at + 1); }
  }

  /** Write_10 ends with a receive still in flight. */
  predicate WriteLeaves(rc: Results, n: nat) {
    match WriteWalk(rc, n, 0)
    case Finished => n == 0 && rc(RecvStart(0)) == 0
    case Broke(i) => i > 0 && rc(WriteWait(i - 1)) != 0 && rc(RecvStart(i)) == 0
  }

  /** The calls for sector `k` whose result Write_10 looks at. */
  predicate WriteCallsOk(rc: Results, k: nat) {
    (k == 0 ==> rc(RecvStart(0)) == 0) && rc(RecvWait(k)) == 0 && rc(WriteStart(k)) == 0 && rc(WriteWait(k)) == 0
  }

  /** Write_10's loop finishes exactly when those calls succeed. */
  lemma {:induction false} WriteReportsSuccess(rc: Results, n: nat, i: nat)
    requires i < n && (i > 0 ==> rc(WriteWait(i - 1)) == 0)
    ensures WriteWalk(rc, n, i) == Finished <==> forall k :: i <= k < n ==> WriteCallsOk(rc, k)
    decreases n - i
  {
    if WriteCallsOk(rc, i) {
      if i + 1 < n { WriteReportsSuccess(rc, n, i + 1); }
    } else {
      assert !forall k :: i <= k < n ==> WriteCallsOk(rc, k);
      if i + 1 < n && rc(WriteWait(i)) != 0 {
        assert WriteWalk(rc, n, i + 1) == Broke(i + 1);
      }
    }
  }

  /** The range test adds in 32 bits. */
  predicate RangeAccepted(lba: int, len: int, capacity: int) { (lba + len) % WORD <= capacity }

  /** It keeps transfers inside the medium exactly as far as the sum does not wrap. */
  lemma RangeTestExact(lba: int, len: int, capacity: int)
    requires 0 <= lba < WORD && 0 <= len < 0x1_0000 && 0 <= capacity < WORD
    ensures RangeAccepted(lba, len, capacity) <==>
      lba + len <= capacity || (lba + len >= 0x1_0000_0000 && lba + len - 0x1_0000_0000 <= capacity)
  {
    if lba + len >= WORD { assert (lba + len) % WORD == lba + len - WORD; }
  }
}
