/** The picture buffers as the encoder changes them: flags and stamp table in place. */
module FrameDriver {
  import opened FrameSlots
  import FrameRuns

  class Encoder {
    const slots: array<Slot>     // video_encode_addr
    const table: array<nat>      // time_stamp_buffer
    var size: nat                // time_stamp_buffer_size
    var first: int               // first_time
    var sent: int                // what the writer has; JpegSendFlag says whether
    var cur: nat                 // g_video_index
    var busy: bool               // jpeg_start_flag

    ghost predicate Valid()
      reads this, slots, table
    {
      && slots.Length == SLOTS && table.Length == SLOTS && size <= SLOTS
      && (forall k :: 0 <= k < size ==> table[k] < SLOTS)
    }

    ghost function Now(): State
      reads this, slots, table
      requires table.Length == SLOTS && size <= SLOTS
    {
      State(slots[..], table[..size], first, sent, cur, busy)
    }

    constructor ()
      ensures Valid() && fresh(slots) && fresh(table) && Now() == FrameRuns.IDLE.s
    {
      slots := new Slot[SLOTS](_ => Slot(false, 0, 0));
      table := new nat[SLOTS](_ => 0);
      size, first, sent, cur, busy := 0, 0, NONE, 0, false;
      new;
      assert slots[..] == FrameRuns.IDLE.s.slots;
    }

    /** The search over the flags. */
    method FindFree() returns (bak: int)
      requires Valid()
      ensures bak == LastFree(slots[..], SLOTS)
    {
      bak := NONE;
      for i := 0 to SLOTS
        invariant bak == LastFree(slots[..], i)
      {
        if !slots[i].used {
          bak := i;
        }
      }
    }

    /** The search for the picture to drop. */
    method FindDrop(now: int) returns (best: nat)
      requires Valid()
      ensures best == Choice(Now(), now)
    {
      best := size;
      var delay := NEVER;
      var i := 0;
      ghost var s := Now();
      while i < size + 1
        invariant s == Now() && Shaped(s) && |s.stamps| == size
        invariant Search(s, now, i, best, delay) == Choice(s, now)
      {
        var prev, next := first, now + 3;
        if i != 0 {
          prev := slots[table[i - 1]].time;
        }
        if i + 1 < size {
          next := slots[table[i + 1]].time;
        }
        var diff := Signed(next - prev);
        assert diff == Gap(s, now, i);
        if diff < delay {
          delay, best := diff, i;
        }
        i := i + 2;
      }
    }

    /** The stamps behind position d move up. */
    method RemoveStamp(d: nat)
      requires Valid() && d < size
      modifies this`size, table
      ensures Valid() && size == old(size) - 1
      ensures Now().stamps == Without(old(Now()).stamps, d)
    {
      ghost var was := Now().stamps;
      for i := d to size
        invariant size == old(size) && |was| == size
        invariant forall k :: 0 <= k < d ==> table[k] == was[k]
        invariant forall k :: d <= k < i && k + 1 < size ==> table[k] == was[k + 1]
        invariant forall k :: i <= k < size ==> table[k] == was[k]
      {
        if i + 1 < size {
          table[i] := table[i + 1];
        } else {
          table[i] := 0;
        }
      }
      size := size - 1;
      assert table[..size] == Without(was, d);
    }

    /** avi_encode_get_video_frame: the slot, or NONE for address 0. */
    method GetVideoFrame(now: int) returns (slot: int)
      requires Valid()
      modifies this`size, this`cur, this`busy, slots, table
      ensures Valid()
      ensures var (t, r, d) := Get(old(Now()), now); Now() == t && slot == r
    {
      ghost var s := Now();
      var f := FindFree();
      var count := if f == NONE then 0 else 1;
      if count == 0 && size > 0 {
        var d := FindDrop(now);
        if d < size {
          count, f := 1, table[d];
          slots[f] := slots[f].(used := false);
          RemoveStamp(d);
        }
      }
      if count != 0 {
        slots[f] := slots[f].(used := true);
        cur, busy, slot := f, true, f;
      } else {
        cur, busy, slot := SLOTS, false, NONE;
      }
      assert s.stamps == [] <==> |s.stamps| == 0;
      assert slots[..] == Get(s, now).0.slots;
    }

    /** The waiting picture at the head goes to the writer. */
    method SendFirst()
      requires Valid() && size > 0
      modifies this`size, this`first, this`sent, table
      ensures Valid() && Now() == SendHead(old(Now()))
    {
      ghost var s := Now();
      sent, first := table[0], slots[table[0]].time;
      size := size - 1;
      assert forall k :: 0 <= k <= size ==> table[k] == s.stamps[k];
      for i := 0 to size
        invariant size == old(size) - 1 && |s.stamps| == old(size)
        invariant sent == s.stamps[0] && first == s.slots[s.stamps[0]].time
        invariant forall k :: 0 <= k < i ==> table[k] == s.stamps[k + 1]
        invariant forall k :: i <= k <= size ==> table[k] == s.stamps[k]
      {
        table[i] := table[i + 1];
      }
      table[size] := 0;
      assert table[..size] == s.stamps[1..];
    }

    /** The end of an encoded picture; `open` says whether C_AVI_ENCODE_START is still set. The stamp table has
        room because of the invariant. */
    method FinishPicture(now: int, picture: nat, open: bool)
      requires Valid() && busy && Inv(Now(), now)
      modifies this`size, this`first, this`sent, this`busy, slots, table
      ensures Valid() && Inv(Now(), now)
      ensures Now() == if open then Finish(old(Now()), now, picture) else Abandon(old(Now()))
    {
      ghost var s := Now();
      StampsFit(s, now);
      FinishKeeps(s, now, picture);
      AbandonKeeps(s, now);
      assert cur < SLOTS && size < SLOTS;
      hide Inv;
      if open {
        slots[cur] := slots[cur].(time := now, picture := picture);
        table[size] := cur;
        size := size + 1;
        assert table[..size] == s.stamps + [cur];
        assert slots[..] == s.slots[cur := Slot(s.slots[cur].used, now, picture)];
      }
      busy := false;
      if open && sent == NONE {
        SendFirst();
      }
    }

    /** MSG_AVI_START_ENCODE, as far as it touches the buffers. */
    method StartEncode(ghost now: int)
      requires Valid() && Inv(Now(), now)
      modifies this`size, this`sent, slots, table
      ensures Valid() && Now() == Restarted(old(Now())) && (Inv(Now(), now) <==> !busy)
    {
      ghost var s := Now();
      RestartExact(s, now);
      hide Inv;
      sent, size := NONE, 0;
      for i := 0 to SLOTS
        invariant size == 0 && sent == NONE
        invariant forall k :: 0 <= k < i ==> slots[k] == s.slots[k].(used := false)
        invariant forall k :: i <= k < SLOTS ==> slots[k] == s.slots[k]
      {
        table[i] := 0;
        slots[i] := slots[i].(used := false);
      }
      assert slots[..] == Restarted(s).slots && table[..0] == [];
    }

    /** The failure exit of the encoder. */
    method FailPicture(ghost now: int)
      requires Valid() && cur < SLOTS && Inv(Now(), now)
      modifies this`busy, slots
      ensures Valid() && Inv(Now(), now) && Now() == Fail(old(Now()))
    {
      ghost var s := Now();
      FailKeeps(s, now);
      hide Inv;
      if busy {
        slots[cur] := slots[cur].(used := false);
        busy := false;
        assert slots[..] == s.slots[cur := s.slots[cur].(used := false)];
      }
    }

    /** AVIPACKER_MSG_VIDEO_WRITE_DONE for the slot the writer had. */
    method WriteDone(ghost now: int)
      requires Valid() && 0 <= sent < SLOTS && Inv(Now(), now)
      modifies this`size, this`first, this`sent, slots, table
      ensures Valid() && Inv(Now(), now) && Now() == Written(old(Now()))
    {
      ghost var s := Now();
      WrittenKeeps(s, now);
      hide Inv;
      slots[sent] := slots[sent].(used := false);
      assert slots[..] == s.slots[sent := s.slots[sent].(used := false)];
      sent := NONE;
      if size > 0 {
        SendFirst();
      }
    }
  }
}
