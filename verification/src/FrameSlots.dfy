/** The eight picture buffers between the encoder and the file writer. Finished pictures wait in time order;
    when no buffer is free the encoder drops the waiting picture whose absence leaves the shortest gap. A picture
    that ends after encoding was stopped is not stamped, and its buffer is lost until the next start. */
module FrameSlots {
  import opened Counting

  const SLOTS := 8                     // AVI_ENCODE_VIDEO_BUFFER_NO
  const NEVER := 0x1_0000              // the delay a drop must stay below
  const NONE := -1

  /** `time` is buffer_time; `picture` numbers the pictures in the order they were finished. */
  datatype Slot = Slot(used: bool, time: int, picture: nat)

  /** `stamps` is time_stamp_buffer up to its size, `first` is first_time, `sent` the slot the file writer
      has (JpegSendFlag is 0 when it has none), `cur` and `busy` the slot being encoded and
      jpeg_start_flag. */
  datatype State = State(slots: seq<Slot>, stamps: seq<nat>, first: int, sent: int, cur: nat, busy: bool)

  ghost predicate Shaped(s: State) {
    && |s.slots| == SLOTS
    && (forall k :: 0 <= k < |s.stamps| ==> s.stamps[k] < SLOTS)
  }

  // ---- avi_encode_get_video_frame ----------------------------------------------------------------

  /** The last free slot among the first n. */
  function LastFree(slots: seq<Slot>, n: nat): (r: int)
    requires n <= |slots|
    ensures NONE <= r < n
    ensures r == NONE <==> forall i :: 0 <= i < n ==> slots[i].used
    ensures r >= 0 ==> !slots[r].used && forall i :: r < i < n ==> slots[i].used
  {
    if n == 0 then NONE else if !slots[n - 1].used then n - 1 else LastFree(slots, n - 1)
  }

  /** A difference of two INT32U ticks, read as an INT32S. */
  function Signed(x: int): int { (x + 0x8000_0000) % 0x1_0000_0000 - 0x8000_0000 }

  /** The gap around position i: from the picture before it to the one behind it, or to now. */
  function Before(s: State, i: nat): int
    requires Shaped(s) && i <= |s.stamps|
  {
    if i == 0 then s.first else s.slots[s.stamps[i - 1]].time
  }

  function Behind(s: State, now: int, i: nat): int
    requires Shaped(s) && i <= |s.stamps|
  {
    if i + 1 >= |s.stamps| then now + 3 else s.slots[s.stamps[i + 1]].time
  }

  function Gap(s: State, now: int, i: nat): int
    requires Shaped(s) && i <= |s.stamps|
  {
    Signed(Behind(s, now, i) - Before(s, i))
  }

  /** The search loop from position i on, with the best position so far and its delay. */
  function Search(s: State, now: int, i: nat, best: nat, delay: int): nat
    requires Shaped(s)
    decreases |s.stamps| + 1 - i
  {
    if i >= |s.stamps| + 1 then best
    else if Gap(s, now, i) < delay then Search(s, now, i + 2, i, Gap(s, now, i))
    else Search(s, now, i + 2, best, delay)
  }

  function Choice(s: State, now: int): nat
    requires Shaped(s)
  {
    Search(s, now, 0, |s.stamps|, NEVER)
  }

  function Without(stamps: seq<nat>, d: nat): seq<nat>
    requires d < |stamps|
  {
    stamps[..d] + stamps[d + 1..]
  }

  /** The slot the encoder gets, or NONE, and the position of the dropped picture, or NONE. */
  function Get(s: State, now: int): (State, int, int)
    requires Shaped(s)
  {
    var f := LastFree(s.slots, SLOTS);
    if f >= 0 then (s.(slots := s.slots[f := s.slots[f].(used := true)], cur := f, busy := true), f, NONE)
    else if s.stamps != [] && Choice(s, now) < |s.stamps| then
      var d := Choice(s, now);
      (s.(stamps := Without(s.stamps, d), cur := s.stamps[d], busy := true), s.stamps[d], d)
    else (s.(cur := SLOTS, busy := false), NONE, NONE)
  }

  // ---- the other steps ---------------------------------------------------------------------------

  /** The head of the waiting pictures goes to the file writer. */
  function SendHead(s: State): State
    requires Shaped(s) && s.stamps != []
  {
    s.(sent := s.stamps[0], first := s.slots[s.stamps[0]].time, stamps := s.stamps[1..])
  }

  /** The encoded picture is stamped and waits; it is sent at once when the writer is idle. */
  function Finish(s: State, now: int, picture: nat): State
    requires Shaped(s) && s.busy && s.cur < SLOTS
  {
    var t := s.(slots := s.slots[s.cur := Slot(s.slots[s.cur].used, now, picture)],
                stamps := s.stamps + [s.cur], busy := false);
    if s.sent == NONE then SendHead(t) else t
  }

  /** The picture ends when C_AVI_ENCODE_START is no longer set: nothing is stamped or sent, and nothing freed. */
  function Abandon(s: State): State { s.(busy := false) }

  /** MSG_AVI_START_ENCODE clears the flags and the stamp table, whoever has the slots. */
  function Restarted(s: State): State
    requires Shaped(s)
  {
    s.(slots := seq(SLOTS, i requires 0 <= i < SLOTS => s.slots[i].(used := false)), stamps := [], sent := NONE)
  }

  /** Encoding failed: the slot is given up. */
  function Fail(s: State): State
    requires Shaped(s) && s.cur < SLOTS
  {
    if s.busy then s.(slots := s.slots[s.cur := s.slots[s.cur].(used := false)], busy := false) else s
  }

  /** AVIPACKER_MSG_VIDEO_WRITE_DONE for the slot that was sent. */
  function Written(s: State): State
    requires Shaped(s) && 0 <= s.sent < SLOTS
  {
    WrittenSlot(s, s.sent)
  }

  /** The same for any slot `w`: the message names the slot, and the code believes it. */
  function WrittenSlot(s: State, w: nat): State
    requires Shaped(s) && w < SLOTS
  {
    var t := s.(slots := s.slots[w := s.slots[w].(used := false)], sent := NONE);
    if t.stamps != [] then SendHead(t) else t
  }

  // ---- the invariant -----------------------------------------------------------------------------

  ghost predicate Distinct(q: seq<nat>) { forall i, j :: 0 <= i < j < |q| ==> q[i] != q[j] }

  /** Who has slot i: a waiting picture, the file writer, or the encoder. */
  ghost predicate Taken(s: State, i: nat) { i in s.stamps || i == s.sent || (s.busy && i == s.cur) }

  ghost predicate InTime(s: State, now: int)
    requires Shaped(s)
  {
    && s.first <= now
    && (forall k :: 0 <= k < |s.stamps| ==> s.first <= s.slots[s.stamps[k]].time <= now)
    && (forall j, k :: 0 <= j < k < |s.stamps| ==> s.slots[s.stamps[j]].time <= s.slots[s.stamps[k]].time)
  }

  /** Every slot somebody has is used and has one owner, waiting pictures are in time order, the first gap starts at the
      picture the writer has, and pictures wait only while the writer is busy. */
  ghost predicate Inv(s: State, now: int) {
    Owned(s, now) && (s.stamps != [] ==> s.sent != NONE)
  }

  ghost predicate Owned(s: State, now: int) {
    && Shaped(s) && Distinct(s.stamps) && InTime(s, now)
    && NONE <= s.sent < SLOTS && s.sent !in s.stamps
    && (s.sent != NONE ==> s.first == s.slots[s.sent].time)
    && (s.busy ==> s.cur < SLOTS && s.cur !in s.stamps && s.cur != s.sent)
    && (forall i :: 0 <= i < SLOTS && Taken(s, i) ==> s.slots[i].used)
  }

  /** The slots that are used and that nobody has: they are lost. */
  ghost function Stray(s: State): set<nat>
    requires Shaped(s)
  {
    set i: nat | i < SLOTS && s.slots[i].used && !Taken(s, i)
  }

  ghost function Used(s: State): set<nat>
    requires Shaped(s)
  {
    set i: nat | i < SLOTS && s.slots[i].used
  }

  ghost function Set(q: seq<nat>): set<nat> { set x | x in q }

  lemma {:induction false} DistinctSize(q: seq<nat>)
    requires Distinct(q)
    ensures |Set(q)| == |q|
    decreases |q|
  {
    if q != [] {
      DistinctSize(q[1..]);
      assert q == [q[0]] + q[1..];
      assert Set(q) == {q[0]} + Set(q[1..]);
      assert q[0] !in q[1..];
    }
  }

  /** Of the used slots one may be with the encoder, one with the writer, some wait, and the others are lost. */
  lemma UsedCounted(s: State, now: int)
    requires Inv(s, now)
    ensures |Used(s)| == |s.stamps| + (if s.sent != NONE then 1 else 0) + (if s.busy then 1 else 0) + |Stray(s)|
  {
    DistinctSize(s.stamps);
    UsedParts(s, now);
    hide Inv, Used, Stray, Set;
    DisjointSizes(Set(s.stamps), SentSet(s), CurSet(s), Stray(s));
  }

  ghost function SentSet(s: State): set<nat> { if s.sent >= 0 then {s.sent as nat} else {} }

  ghost function CurSet(s: State): set<nat> { if s.busy then {s.cur} else {} }

  lemma UsedParts(s: State, now: int)
    requires Inv(s, now)
    ensures Used(s) == Set(s.stamps) + SentSet(s) + CurSet(s) + Stray(s)
    ensures Set(s.stamps) !! SentSet(s) !! CurSet(s) !! Stray(s)
  {
    assert forall i: nat :: Taken(s, i) <==> i in Set(s.stamps) + SentSet(s) + CurSet(s);
    assert forall i :: i in s.stamps ==> i < SLOTS;
    hide InTime, Distinct;
  }

  lemma DisjointSizes(a: set<nat>, b: set<nat>, c: set<nat>, d: set<nat>)
    requires a !! b !! c !! d
    ensures |a + b + c + d| == |a| + |b| + |c| + |d|
  {
    assert |a + b + c| == |a + b| + |c|;
  }

  /** The stamp table never overflows: with a picture still being encoded at most seven wait. */
  lemma StampsFit(s: State, now: int)
    requires Inv(s, now)
    ensures |s.stamps| < SLOTS
  {
    UsedCounted(s, now);
    SmallerSet(Used(s), Below(SLOTS));
    hide Owned, Used, Stray;
  }

  /** When every slot is used, none is being encoded and none is lost, one is with the writer and seven wait. */
  lemma FullMeansSeven(s: State, now: int)
    requires Inv(s, now) && !s.busy && LastFree(s.slots, SLOTS) == NONE && Stray(s) == {}
    ensures s.sent != NONE && |s.stamps| == SLOTS - 1
  {
    UsedCounted(s, now);
    assert Used(s) == Below(SLOTS);
    hide Owned;
  }

  // ---- what the search finds ---------------------------------------------------------------------

  ghost predicate FirstLeast(s: State, now: int, r: nat, limit: int)
    requires Shaped(s) && r <= |s.stamps|
  {
    && r % 2 == 0 && Gap(s, now, r) < limit
    && forall j :: 0 <= j <= |s.stamps| && j % 2 == 0 ==>
         Gap(s, now, r) <= Gap(s, now, j) && (j < r ==> Gap(s, now, r) < Gap(s, now, j))
  }

  ghost predicate NoGap(s: State, now: int)
    requires Shaped(s)
  {
    forall j :: 0 <= j <= |s.stamps| && j % 2 == 0 ==> Gap(s, now, j) >= NEVER
  }

  lemma {:induction false} SearchFinds(s: State, now: int, i: nat, best: nat, delay: int)
    requires Shaped(s) && i % 2 == 0 && best <= |s.stamps| && delay <= NEVER
    requires delay < NEVER ==> best < i && best % 2 == 0 && delay == Gap(s, now, best)
    requires delay == NEVER ==> best == |s.stamps|
    requires forall j :: 0 <= j < i && j <= |s.stamps| && j % 2 == 0 ==>
      delay <= Gap(s, now, j) && (j < best && delay < NEVER ==> delay < Gap(s, now, j))
    ensures var r := Search(s, now, i, best, delay);
      r <= |s.stamps| && ((NoGap(s, now) && r == |s.stamps|) || FirstLeast(s, now, r, NEVER))
    decreases |s.stamps| + 1 - i
  {
    hide Gap;
    if i < |s.stamps| + 1 {
      if Gap(s, now, i) < delay {
        SearchFinds(s, now, i + 2, i, Gap(s, now, i));
      } else {
        SearchFinds(s, now, i + 2, best, delay);
      }
    }
  }

  /** The choice is the first even position with the least gap, if any gap is below 0x10000. */
  lemma ChoiceIsFirstLeast(s: State, now: int)
    requires Shaped(s)
    ensures var r := Choice(s, now);
      r <= |s.stamps| && ((NoGap(s, now) && r == |s.stamps|) || FirstLeast(s, now, r, NEVER))
  {
    SearchFinds(s, now, 0, |s.stamps|, NEVER);
  }

  lemma SignedIsTrue(x: int)
    requires -0x8000_0000 <= x < 0x8000_0000
    ensures Signed(x) == x
  {
  }

  lemma SignedOfStored(x: int, y: int)
    ensures Signed(x % 0x1_0000_0000 - y % 0x1_0000_0000) == Signed(x - y)
  {
  }

  /** The gap is the time the film would stand still, while all stamps lie within half the tick range. */
  lemma GapIsTrue(s: State, now: int, i: nat)
    requires Inv(s, now) && i <= |s.stamps| && now + 3 - s.first < 0x8000_0000
    ensures Gap(s, now, i) == Behind(s, now, i) - Before(s, i) >= 0
  {
    SignedIsTrue(Behind(s, now, i) - Before(s, i));
  }

  // ---- the steps keep it -------------------------------------------------------------------------

  lemma WithoutKeeps(q: seq<nat>, d: nat)
    requires Distinct(q) && d < |q|
    ensures Distinct(Without(q, d)) && q[d] !in Without(q, d)
    ensures forall x :: x in q <==> x == q[d] || x in Without(q, d)
  {
    assert q == q[..d] + [q[d]] + q[d + 1..];
    var w := Without(q, d);
    assert forall k :: 0 <= k < |w| ==> w[k] == q[if k < d then k else k + 1];
  }

  lemma DropInTime(s: State, now: int, d: nat)
    requires Inv(s, now) && d < |s.stamps|
    ensures Shaped(s.(stamps := Without(s.stamps, d))) && InTime(s.(stamps := Without(s.stamps, d)), now)
  {
    var w := Without(s.stamps, d);
    assert forall k :: 0 <= k < |w| ==> w[k] == s.stamps[if k < d then k else k + 1];
  }

  /** The encoder gets the last free slot; with none free, the slot of the dropped picture: the first even
      position with the least gap. It gets nothing exactly when all slots are used and nothing waits, no gap is
      below 0x10000, or the least gap is the one behind the last picture. All other pictures keep their slots
      and their order. */
  lemma GetExact(s: State, now: int)
    requires Inv(s, now) && !s.busy
    ensures var (t, r, d) := Get(s, now); var full := LastFree(s.slots, SLOTS) == NONE;
      && (r == NONE <==> full && (s.stamps == [] || NoGap(s, now) || FirstLeast(s, now, |s.stamps|, NEVER)))
      && (r != NONE ==> 0 <= r < SLOTS && t.busy && t.cur == r && t.slots[r].used && r !in t.stamps)
      && (r != NONE && d == NONE ==> !s.slots[r].used && forall i :: r < i < SLOTS ==> s.slots[i].used)
      && (d != NONE ==> full && 0 <= d < |s.stamps| && FirstLeast(s, now, d, NEVER) && r == s.stamps[d])
      && (d != NONE ==> t.stamps == Without(s.stamps, d))
      && (d == NONE ==> t.stamps == s.stamps)
      && (r == NONE ==> t.cur == 8 && !t.busy)
      && t.sent == s.sent && t.first == s.first
      && (forall i :: 0 <= i < SLOTS && i != r ==> t.slots[i] == s.slots[i])
  {
    if LastFree(s.slots, SLOTS) == NONE {
      ChoiceIsFirstLeast(s, now);
      hide Search, Gap;
      var c := Choice(s, now);
      if c < |s.stamps| {
        WithoutKeeps(s.stamps, c);
        LeastIsOne(s, now, c, |s.stamps|);
        assert FirstLeast(s, now, c, NEVER) ==> !NoGap(s, now);
      }
    }
  }

  // ---- the choice in times alone -----------------------------------------------------------------

  /** The times the film shows something new: the picture the writer has, those that wait, and the next one. */
  ghost function Timeline(s: State, now: int): (t: seq<int>)
    requires Shaped(s)
    ensures |t| == |s.stamps| + 2
  {
    [s.first] + seq(|s.stamps|, k requires 0 <= k < |s.stamps| => s.slots[s.stamps[k]].time) + [now + 3]
  }

  /** How long the film would stand still at t[j] without t[j + 1]; at the end up to the last time. */
  ghost function Hole(t: seq<int>, j: nat): int
    requires j + 1 < |t|
  {
    (if j + 2 < |t| then t[j + 2] else t[j + 1]) - t[j]
  }

  lemma GapIsHole(s: State, now: int, j: nat)
    requires Shaped(s) && j <= |s.stamps|
    ensures Gap(s, now, j) == Signed(Hole(Timeline(s, now), j))
  {
  }

  lemma HoleIsTrue(s: State, now: int, j: nat)
    requires Inv(s, now) && j <= |s.stamps| && now + 3 - s.first < 0x8000_0000
    ensures Signed(Hole(Timeline(s, now), j)) == Hole(Timeline(s, now), j) >= 0
  {
    GapIsTrue(s, now, j);
    GapIsHole(s, now, j);
    SignedIsTrue(Hole(Timeline(s, now), j));
  }

  lemma TimelineWithout(s: State, t: State, now: int, d: nat)
    requires Shaped(s) && d < |s.stamps| && t.stamps == Without(s.stamps, d)
    requires Shaped(t) && t.first == s.first && forall k :: 0 <= k < SLOTS ==> t.slots[k].time == s.slots[k].time
    ensures Timeline(t, now) == Timeline(s, now)[..d + 1] + Timeline(s, now)[d + 2..]
  {
  }

  /** A drop takes one time out of the film, behind an even position. While all times lie within half the tick range
      that leaves the first shortest hole there is, and one below 0x10000; with a longer range the same is true of the
      holes as signed 32-bit numbers. */
  lemma DropExact(s: State, now: int)
    requires Inv(s, now) && !s.busy && Get(s, now).2 != NONE
    ensures var (t, r, d) := Get(s, now); var film := Timeline(s, now);
      && 0 <= d < |s.stamps| && d % 2 == 0 && Timeline(t, now) == film[..d + 1] + film[d + 2..]
      && Signed(Hole(film, d)) < 0x1_0000
      && (forall j :: 0 <= j <= |s.stamps| && j % 2 == 0 ==>
           Signed(Hole(film, d)) <= Signed(Hole(film, j)) && (j < d ==> Signed(Hole(film, d)) < Signed(Hole(film, j))))
      && (now + 3 - s.first < 0x8000_0000 ==>
           && Hole(film, d) < 0x1_0000
           && forall j :: 0 <= j <= |s.stamps| && j % 2 == 0 ==>
                Hole(film, d) <= Hole(film, j) && (j < d ==> Hole(film, d) < Hole(film, j)))
  {
    GetExact(s, now);
    var d := Get(s, now).2;
    var film := Timeline(s, now);
    hide Inv, Get, Gap, Hole, Timeline, Signed;
    TimelineWithout(s, Get(s, now).0, now, d);
    forall j | 0 <= j <= |s.stamps|
      ensures Gap(s, now, j) == Signed(Hole(film, j))
      ensures now + 3 - s.first < 0x8000_0000 ==> Signed(Hole(film, j)) == Hole(film, j)
    {
      GapIsHole(s, now, j);
      if now + 3 - s.first < 0x8000_0000 {
        HoleIsTrue(s, now, j);
      }
    }
  }

  /** With all slots used and none lost, nothing is dropped exactly when every even hole is 0x10000 or longer. */
  lemma NoDropExact(s: State, now: int)
    requires Inv(s, now) && !s.busy && Stray(s) == {} && LastFree(s.slots, SLOTS) == NONE
    requires now + 3 - s.first < 0x8000_0000
    ensures Get(s, now).1 == NONE <==> forall j :: 0 <= j <= |s.stamps| && j % 2 == 0 ==>
      Hole(Timeline(s, now), j) >= 0x1_0000
  {
    GetNoneExact(s, now);
    hide Inv, Get, Gap, Hole, Timeline, Signed, Stray;
    forall j | 0 <= j <= |s.stamps|
      ensures Gap(s, now, j) == Hole(Timeline(s, now), j)
    {
      GapIsHole(s, now, j);
      HoleIsTrue(s, now, j);
    }
  }

  const FULL := State([Slot(true, 50, 0), Slot(true, 60, 1), Slot(true, 61, 2), Slot(true, 200, 3),
                       Slot(true, 260, 4), Slot(true, 320, 5), Slot(true, 380, 6), Slot(true, 0, 7)],
                      [0, 1, 2, 3, 4, 5, 6], 0, 7, 0, false)

  lemma FullInTime()
    ensures Shaped(FULL) && InTime(FULL, 437)
  {
  }

  lemma FullIsOrdinary()
    ensures Inv(FULL, 437)
  {
    FullInTime();
    hide InTime;
    assert forall k :: 0 <= k < 7 ==> FULL.stamps[k] == k;
  }

  /** The holes are 60, 140, 120 and 120 ticks at tick 437: the picture of tick 50 goes. */
  lemma KnownDrop()
    ensures Inv(FULL, 437) && Get(FULL, 437).1 == 0
  {
    var s := FULL;
    FullIsOrdinary();
    hide Inv;
    assert LastFree(s.slots, SLOTS) == NONE;
    assert Gap(s, 437, 0) == 60 && Gap(s, 437, 2) == 140 && Gap(s, 437, 4) == 120 && Gap(s, 437, 6) == 120;
    hide Gap;
    assert Search(s, 437, 2, 0, 60) == 0;
  }

  lemma LeastIsOne(s: State, now: int, c: nat, d: nat)
    requires Shaped(s) && c < d <= |s.stamps| && FirstLeast(s, now, c, NEVER)
    ensures !FirstLeast(s, now, d, NEVER)
  {
    hide Gap;
  }

  /** As long as no slot is lost, that is when all slots are used and no gap is below 0x10000. */
  lemma GetNoneExact(s: State, now: int)
    requires Inv(s, now) && !s.busy && Stray(s) == {}
    ensures Get(s, now).1 == NONE <==> LastFree(s.slots, SLOTS) == NONE && NoGap(s, now)
  {
    GetExact(s, now);
    hide Get, Gap;
    if LastFree(s.slots, SLOTS) == NONE { FullMeansSeven(s, now); }
  }

  lemma GiveFree(s: State, now: int, f: nat)
    requires Inv(s, now) && !s.busy && f < SLOTS && !s.slots[f].used
    ensures Inv(s.(slots := s.slots[f := s.slots[f].(used := true)], cur := f, busy := true), now)
    ensures Stray(s.(slots := s.slots[f := s.slots[f].(used := true)], cur := f, busy := true)) == Stray(s)
  {
    var t := s.(slots := s.slots[f := s.slots[f].(used := true)], cur := f, busy := true);
    assert !Taken(s, f);
    assert forall i :: 0 <= i < SLOTS ==> (Taken(t, i) <==> Taken(s, i) || i == f);
    assert forall k :: 0 <= k < |s.stamps| ==> t.slots[s.stamps[k]] == s.slots[s.stamps[k]];
  }

  lemma GiveDropped(s: State, now: int, d: nat)
    requires Inv(s, now) && !s.busy && d < |s.stamps|
    ensures Inv(s.(stamps := Without(s.stamps, d), cur := s.stamps[d], busy := true), now)
    ensures Stray(s.(stamps := Without(s.stamps, d), cur := s.stamps[d], busy := true)) == Stray(s)
  {
    WithoutKeeps(s.stamps, d);
    DropInTime(s, now, d);
    var t := s.(stamps := Without(s.stamps, d), cur := s.stamps[d], busy := true);
    hide Without;
    assert forall i :: 0 <= i < SLOTS ==> (Taken(t, i) <==> Taken(s, i));
    assert InTime(t, now);
    hide InTime;
  }

  lemma GiveNothing(s: State, now: int)
    requires Inv(s, now) && !s.busy
    ensures Inv(s.(cur := SLOTS, busy := false), now)
    ensures Stray(s.(cur := SLOTS, busy := false)) == Stray(s)
  {
    var t := s.(cur := SLOTS, busy := false);
    assert forall i :: 0 <= i < SLOTS ==> (Taken(t, i) <==> Taken(s, i));
  }

  lemma GetKeeps(s: State, now: int)
    requires Inv(s, now) && !s.busy
    ensures Inv(Get(s, now).0, now) && Stray(Get(s, now).0) == Stray(s)
  {
    var f := LastFree(s.slots, SLOTS);
    GiveNothing(s, now);
    if f >= 0 {
      GiveFree(s, now, f);
    } else if s.stamps != [] && Choice(s, now) < |s.stamps| {
      GiveDropped(s, now, Choice(s, now));
    }
    hide Owned, Choice, LastFree;
  }

  lemma SendHeadKeeps(s: State, now: int)
    requires Owned(s, now) && s.stamps != [] && s.sent == NONE
    ensures Inv(SendHead(s), now) && Stray(SendHead(s)) == Stray(s)
  {
    var t := SendHead(s);
    assert s.stamps == [s.stamps[0]] + t.stamps;
    assert forall i :: 0 <= i < SLOTS ==> (Taken(t, i) <==> Taken(s, i));
  }

  lemma StampKeeps(s: State, now: int, picture: nat)
    requires Inv(s, now) && s.busy
    ensures var t := s.(slots := s.slots[s.cur := Slot(s.slots[s.cur].used, now, picture)],
                        stamps := s.stamps + [s.cur], busy := false);
      Owned(t, now) && Stray(t) == Stray(s)
  {
    var t := s.(slots := s.slots[s.cur := Slot(s.slots[s.cur].used, now, picture)],
                stamps := s.stamps + [s.cur], busy := false);
    assert forall i :: 0 <= i < SLOTS ==> (Taken(t, i) <==> Taken(s, i));
    assert forall k :: 0 <= k < |s.stamps| ==> t.slots[t.stamps[k]] == s.slots[s.stamps[k]];
  }

  lemma FinishKeeps(s: State, now: int, picture: nat)
    requires Inv(s, now) && s.busy
    ensures Inv(Finish(s, now, picture), now) && Stray(Finish(s, now, picture)) == Stray(s)
  {
    StampKeeps(s, now, picture);
    var t := s.(slots := s.slots[s.cur := Slot(s.slots[s.cur].used, now, picture)],
                stamps := s.stamps + [s.cur], busy := false);
    if s.sent == NONE {
      SendHeadKeeps(t, now);
    }
    hide Owned, SendHead;
  }

  /** A finished picture carries its time and goes to the writer at once exactly when the writer is idle, since
      then nothing else waits; otherwise it waits behind the others. */
  lemma FinishExact(s: State, now: int, picture: nat)
    requires Inv(s, now) && s.busy
    ensures var t := Finish(s, now, picture);
      && !t.busy && t.slots == s.slots[s.cur := Slot(true, now, picture)]
      && if s.sent == NONE then t.sent == s.cur && t.stamps == [] && t.first == now
         else t.sent == s.sent && t.stamps == s.stamps + [s.cur] && t.first == s.first
  {
    assert Taken(s, s.cur);
  }

  /** A finished write frees its slot alone; the writer then gets the picture that waited longest. */
  lemma WrittenExact(s: State, now: int)
    requires Inv(s, now) && s.sent != NONE
    ensures var t := Written(s);
      && t.slots == s.slots[s.sent := s.slots[s.sent].(used := false)] && t.busy == s.busy && t.cur == s.cur
      && if s.stamps == [] then t.sent == NONE && t.stamps == [] && t.first == s.first
         else [t.sent as nat] + t.stamps == s.stamps && t.first == s.slots[s.stamps[0]].time
  {
  }

  lemma FailKeeps(s: State, now: int)
    requires Inv(s, now) && s.cur < SLOTS
    ensures Inv(Fail(s), now) && Stray(Fail(s)) == Stray(s)
  {
    var t := Fail(s);
    assert s.busy ==> forall i :: 0 <= i < SLOTS ==> (Taken(t, i) <==> Taken(s, i) && i != s.cur);
  }

  lemma FreeSent(s: State, now: int)
    requires Inv(s, now) && s.sent != NONE
    ensures var t := s.(slots := s.slots[s.sent := s.slots[s.sent].(used := false)], sent := NONE);
      Owned(t, now) && Stray(t) == Stray(s)
  {
    var t := s.(slots := s.slots[s.sent := s.slots[s.sent].(used := false)], sent := NONE);
    assert forall i :: 0 <= i < SLOTS ==> (Taken(t, i) <==> Taken(s, i) && i != s.sent);
  }

  lemma WrittenKeeps(s: State, now: int)
    requires Inv(s, now) && s.sent != NONE
    ensures Inv(Written(s), now) && Stray(Written(s)) == Stray(s)
  {
    FreeSent(s, now);
    var t := s.(slots := s.slots[s.sent := s.slots[s.sent].(used := false)], sent := NONE);
    if t.stamps != [] {
      SendHeadKeeps(t, now);
    }
    hide Owned, SendHead;
  }

  /** A picture that ends after the stop loses its slot, and nothing else changes hands. */
  lemma AbandonKeeps(s: State, now: int)
    requires Inv(s, now) && s.busy
    ensures Inv(Abandon(s), now) && Stray(Abandon(s)) == Stray(s) + {s.cur} && s.cur !in Stray(s)
  {
    assert Taken(s, s.cur);
    assert forall i: nat :: Taken(s, i) <==> Taken(Abandon(s), i) || i == s.cur;
  }

  /** A start finds every lost slot again. It keeps the owners right exactly when no picture is being encoded. */
  lemma RestartExact(s: State, now: int)
    requires Inv(s, now)
    ensures Stray(Restarted(s)) == {} && (Inv(Restarted(s), now) <==> !s.busy)
  {
    var t := Restarted(s);
    if s.busy { assert Taken(t, s.cur); }
  }

  /** A write that was under way when a start cleared the table is reported afterwards, for a slot that may
      have a new owner: the owners stay right exactly when it has none, or is with the writer again. */
  lemma LateWriteExact(s: State, now: int, w: nat)
    requires Inv(s, now) && w < SLOTS
    ensures Shaped(WrittenSlot(s, w)) && (Inv(WrittenSlot(s, w), now) <==> !Taken(s, w) || w == s.sent)
    ensures !Taken(s, w) || w == s.sent ==>
      Stray(WrittenSlot(s, w)) == Stray(s) - {w} + if s.sent != NONE && s.sent != w then {s.sent as nat} else {}
  {
    var f := s.(slots := s.slots[w := s.slots[w].(used := false)], sent := NONE);
    var t := WrittenSlot(s, w);
    assert s.stamps != [] ==> s.stamps == [s.stamps[0]] + t.stamps;
    if Taken(s, w) && w != s.sent {
      assert Taken(t, w) && !t.slots[w].used;
    } else {
      assert w !in s.stamps && (s.busy ==> w != s.cur);
      FreeSlot(s, now, w);
      if s.stamps != [] { SendHeadKeeps(f, now); }
      hide Owned, SendHead;
    }
  }

  lemma FreeSlot(s: State, now: int, w: nat)
    requires Inv(s, now) && w < SLOTS && w !in s.stamps && (s.busy ==> w != s.cur)
    ensures var t := s.(slots := s.slots[w := s.slots[w].(used := false)], sent := NONE);
      && Owned(t, now)
      && Stray(t) == Stray(s) - {w} + if s.sent != NONE && s.sent != w then {s.sent as nat} else {}
  {
    var t := s.(slots := s.slots[w := s.slots[w].(used := false)], sent := NONE);
    assert s.sent != NONE ==> Taken(s, s.sent);
    assert forall i: nat :: Taken(t, i) <==> Taken(s, i) && i != s.sent;
  }
}
