/** Write_10: USB fills one half of BUF while the medium takes the other. */
module UsbWrite {
  import opened UsbTransfer

  lemma ResidueWraps(len: nat, i: nat)
    requires i < len < 0x1_0000 || i == len == 0
    ensures (len - i - 1) * 512 % WORD == if len == 0 then WORD - 512 else (len - i - 1) * 512
  {
    if len == 0 { assert -512 % WORD == WORD - 512; }
  }

  lemma SameSlice(s: seq<int>, t: seq<int>, lo: int, hi: int)
    requires 0 <= lo <= hi <= |s| == |t| && forall k :: lo <= k < hi ==> s[k] == t[k]
    ensures s[lo..hi] == t[lo..hi]
  {
  }

  class WritePipeline {
    const buf: array<int>             // BUF[512]: two sectors
    var medium: seq<Sector>
    const feed: seq<Sector>           // the sectors the host has to send
    var fed: nat                      // how many of them have been asked for
    var storage: Job
    var usb: Job
    var residue: int                  // CSW_Residue
    var sense: int                    // Sense_Code

    /** The invariant of a write command. A receive the host has nothing for makes no progress. */
    ghost predicate Writing()
      reads this, buf
    {
      && buf.Length == 2 * SECTOR
      && (storage.Busy? ==> StorageSound(storage))
      && (usb.Busy? ==> UsbSound(usb))
      && (storage.Busy? && usb.Busy? ==> storage.at != usb.at)
    }

    ghost predicate StorageSound(j: Job)
      requires j.Busy? && buf.Length == 2 * SECTOR
      reads this, buf
    {
      && HalfOfBuf(j.at) && j.done <= SECTOR && 0 <= j.sector < |medium|
      && medium[j.sector][..j.done] == buf[j.at..j.at + j.done]
    }

    ghost predicate UsbSound(j: Job)
      requires j.Busy? && buf.Length == 2 * SECTOR
      reads this, buf
    {
      && HalfOfBuf(j.at) && j.done <= SECTOR && 0 <= j.sector
      && (j.sector < |feed| || j.done == 0)
      && (j.sector < |feed| ==> buf[j.at..j.at + j.done] == feed[j.sector][..j.done])
    }

    /** Only the sector in flight to the medium may differ from `was`. */
    ghost predicate OthersKept(was: seq<Sector>, j: Job)
      reads this
    {
      |medium| == |was| && forall k :: 0 <= k < |was| && !(j.Busy? && k == j.sector) ==> medium[k] == was[k]
    }

    method StorageStep()
      requires Writing() && storage.Busy? && storage.done < SECTOR
      modifies this`storage, this`medium
      ensures Writing() && storage == old(storage).(done := old(storage.done) + 1)
      ensures OthersKept(old(medium), storage)
    {
      var sector := medium[storage.sector];
      medium := medium[storage.sector := sector[storage.done := buf[storage.at + storage.done]]];
      storage := storage.(done := storage.done + 1);
    }

    method UsbStep()
      requires Writing() && usb.Busy? && usb.done < SECTOR && usb.sector < |feed|
      modifies this`usb, buf
      ensures Writing() && usb == old(usb).(done := old(usb.done) + 1)
      ensures forall k :: 0 <= k < 2 * SECTOR && !InFlight(usb, k) ==> buf[k] == old(buf[k])
    {
      buf[usb.at + usb.done] := feed[usb.sector][usb.done];
      usb := usb.(done := usb.done + 1);
    }

    /** Any number of words of either transfer, in any order. */
    method Interleave()
      requires Writing()
      modifies this`storage, this`usb, this`medium, buf
      ensures Writing() && Later(old(storage), storage) && Later(old(usb), usb) && OthersKept(old(medium), storage)
      ensures forall k :: 0 <= k < 2 * SECTOR && !InFlight(usb, k) ==> buf[k] == old(buf[k])
    {
      var n: nat := *;
      while n > 0
        invariant Writing() && Later(old(storage), storage) && Later(old(usb), usb) && OthersKept(old(medium), storage)
        invariant forall k :: 0 <= k < 2 * SECTOR && !InFlight(usb, k) ==> buf[k] == old(buf[k])
      {
        if * {
          if storage.Busy? && storage.done < SECTOR { StorageStep(); }
        } else {
          if usb.Busy? && usb.done < SECTOR && usb.sector < |feed| { UsbStep(); }
        }
        n := n - 1;
      }
    }

    /** Receive_From_USB_DMA_USB with flag 0: start filling a half that no transfer is using. */
    method StartReceive(at: int)
      requires Writing() && usb.Idle? && HalfOfBuf(at)
      requires storage.Busy? ==> storage.at != at
      modifies this`storage, this`usb, this`medium, this`fed, buf
      ensures Writing() && usb.Busy? && usb.at == at && usb.sector == old(fed) && fed == old(fed) + 1
      ensures Later(old(storage), storage) && OthersKept(old(medium), storage)
      ensures forall k :: 0 <= k < 2 * SECTOR && !InFlight(usb, k) ==> buf[k] == old(buf[k])
    {
      usb := Busy(at, fed, 0);
      fed := fed + 1;
      Interleave();
    }

    /** Flag 1: wait for the receive; nothing happens when none was started. */
    method WaitReceive(ok: bool)
      requires Writing() && (ok && usb.Busy? ==> usb.sector < |feed|)
      modifies this`storage, this`usb, this`medium, buf
      ensures Writing() && usb.Idle? && Later(old(storage), storage) && OthersKept(old(medium), storage)
      ensures ok && old(usb).Busy? ==> buf[old(usb).at..old(usb).at + SECTOR] == feed[old(usb).sector]
      ensures forall k :: 0 <= k < 2 * SECTOR && !InFlight(old(usb), k) ==> buf[k] == old(buf[k])
    {
      Interleave();
      if ok && usb.Busy? {
        while usb.done < SECTOR
          invariant Writing() && usb.Busy? && Later(old(usb), usb) && Later(old(storage), storage)
          invariant OthersKept(old(medium), storage)
          invariant forall k :: 0 <= k < 2 * SECTOR && !InFlight(usb, k) ==> buf[k] == old(buf[k])
          decreases SECTOR - usb.done
        {
          UsbStep();
        }
      }
      usb := Idle;
    }

    /** usdc_write_dma_phase with flag 0. */
    method StartWrite(at: int, sector: int)
      requires Writing() && storage.Idle? && HalfOfBuf(at) && 0 <= sector < |medium|
      requires usb.Busy? ==> usb.at != at
      modifies this`storage, this`usb, this`medium, buf
      ensures Writing() && storage.Busy? && storage.at == at && storage.sector == sector && Later(old(usb), usb)
      ensures OthersKept(old(medium), storage)
      ensures forall k :: 0 <= k < 2 * SECTOR && !InFlight(usb, k) ==> buf[k] == old(buf[k])
    {
      storage := Busy(at, sector, 0);
      Interleave();
    }

    /** Flag 2: wait for the medium. */
    method WaitWrite(ok: bool)
      requires Writing() && storage.Busy?
      modifies this`storage, this`usb, this`medium, buf
      ensures Writing() && storage.Idle? && Later(old(usb), usb) && OthersKept(old(medium), old(storage))
      ensures ok ==> medium[old(storage).sector] == old(buf[storage.at..storage.at + SECTOR])
      ensures forall k :: 0 <= k < 2 * SECTOR && !InFlight(usb, k) ==> buf[k] == old(buf[k])
    {
      Interleave();
      if ok {
        while storage.done < SECTOR
          invariant Writing() && storage.Busy? && Later(old(storage), storage) && Later(old(usb), usb)
          invariant OthersKept(old(medium), storage)
          invariant forall k :: 0 <= k < 2 * SECTOR && !InFlight(usb, k) ==> buf[k] == old(buf[k])
          decreases SECTOR - storage.done
        {
          StorageStep();
        }
        ghost var at, was := storage.at, old(buf[..]);
        assert forall k :: at <= k < at + SECTOR ==> !InFlight(usb, k) && buf[k] == old(buf[k]);
        assert buf[..][at..at + SECTOR] == was[at..at + SECTOR] by { SameSlice(buf[..], was, at, at + SECTOR); }
        assert buf[at..at + SECTOR] == buf[..][at..at + SECTOR];
        assert old(buf[storage.at..storage.at + SECTOR]) == was[at..at + SECTOR];
        assert medium[storage.sector] == medium[storage.sector][..SECTOR];
      }
      storage := Idle;
    }

    ghost predicate OutsideKept(was: seq<Sector>, lba: int, len: int)
      reads this
    {
      |medium| == |was| && forall k :: 0 <= k < |was| && !(lba <= k < lba + len) ==> medium[k] == was[k]
    }

    /** At the top of the loop: sector i is on its way in to half `b`, sector i-1 on its way out of half `a`,
        and the sectors before it are stored. `clean` says that every receive was really started. */
    ghost predicate Midway(was: seq<Sector>, first: nat, lba: int, i: nat, len: nat, a: int, b: int, clean: bool)
      reads this, buf
    {
      && Writing() && HalfOfBuf(a) && HalfOfBuf(b) && a != b && OutsideKept(was, lba, len)
      && 0 <= lba && lba + len <= |medium| && first + len <= |feed| && i < len
      && (storage.Busy? <==> i > 0) && (storage.Busy? ==> storage.at == a && storage.sector == lba + i - 1)
      && (usb.Busy? ==> usb.at == b && usb.sector < |feed|)
      && fed <= first + i + 1
      && (clean ==> usb.Busy? && usb.sector == first + i && fed == first + i + 1)
      && (clean && i == 0 ==> medium == was)
      && (clean && i > 0 ==>
        medium[lba..lba + i - 1] == feed[first..first + i - 1] && buf[a..a + SECTOR] == feed[first + i - 1])
    }

    /** First half of the loop body: the sector before has reached the medium, sector i has arrived. */
    method TakeOver(a: int, b: int, lba: int, i: nat, len: nat, rc: Results,
                    ghost was: seq<Sector>, ghost first: nat, ghost clean: bool) returns (r: int)
      requires Midway(was, first, lba, i, len, a, b, clean) && (usb.Busy? <==> rc(RecvStart(i)) == 0)
      modifies this`storage, this`usb, this`medium, buf
      ensures r == 0 <==> (i > 0 ==> rc(WriteWait(i - 1)) == 0) && rc(RecvWait(i)) == 0
      ensures 0 <= lba && lba + len <= |medium| && first + len <= |feed|
      ensures HalfOfBuf(a) && HalfOfBuf(b) && a != b && fed <= first + i + 1 && (clean ==> fed == first + i + 1)
      ensures Writing() && OutsideKept(was, lba, len)
      ensures storage.Idle? && (usb.Busy? <==> i > 0 && rc(WriteWait(i - 1)) != 0 && rc(RecvStart(i)) == 0)
      ensures r == 0 && clean ==>
        medium[lba..lba + i] == feed[first..first + i] && buf[b..b + SECTOR] == feed[first + i]
    {
      r := 0;
      if i != 0 {
        r := FinishWrite(a, b, lba, i, len, rc, was, first, clean);
      } else {
        assert clean ==> medium[lba..lba + i] == feed[first..first + i];
      }
      if r != 0 {
        return;
      }
      r := rc(RecvWait(i));
      ghost var m := medium;
      WaitReceive(r == 0);
      assert medium == m;
    }

    /** The wait for the sector before; it is stored now. */
    method FinishWrite(a: int, b: int, lba: int, i: nat, len: nat, rc: Results,
                       ghost was: seq<Sector>, ghost first: nat, ghost clean: bool) returns (r: int)
      requires Midway(was, first, lba, i, len, a, b, clean) && i > 0
      modifies this`storage, this`usb, this`medium, buf
      ensures r == rc(WriteWait(i - 1))
      ensures Writing() && storage.Idle? && OutsideKept(was, lba, len) && Later(old(usb), usb)
      ensures r == 0 && clean ==> medium[lba..lba + i] == feed[first..first + i]
    {
      r := rc(WriteWait(i - 1));
      WaitWrite(r == 0);
      if r == 0 && clean {
        assert medium[lba + i - 1] == feed[first + i - 1];
        assert medium[lba..lba + i - 1] == old(medium)[lba..lba + i - 1];
        assert medium[lba..lba + i] == medium[lba..lba + i - 1] + [medium[lba + i - 1]];
        assert feed[first..first + i] == feed[first..first + i - 1] + [feed[first + i - 1]];
      }
    }

    /** Second half: sector i starts for the medium; the last one is waited for. */
    method PassOn(b: int, lba: int, i: nat, len: nat, rc: Results,
                  ghost was: seq<Sector>, ghost first: nat, ghost clean: bool) returns (r: int)
      requires Writing() && storage.Idle? && usb.Idle? && HalfOfBuf(b) && OutsideKept(was, lba, len)
      requires i < len && 0 <= lba && lba + len <= |medium| && first + len <= |feed|
      requires clean ==> medium[lba..lba + i] == feed[first..first + i] && buf[b..b + SECTOR] == feed[first + i]
      modifies this`storage, this`usb, this`medium, buf
      ensures r == 0 <==> rc(WriteStart(i)) == 0 && (i == len - 1 ==> rc(WriteWait(i)) == 0)
      ensures Writing() && OutsideKept(was, lba, len) && usb.Idle? && |medium| == |old(medium)|
      ensures r == 0 && i < len - 1 ==> storage.Busy? && storage.at == b && storage.sector == lba + i
      ensures r == 0 && i < len - 1 && clean ==>
        medium[lba..lba + i] == feed[first..first + i] && buf[b..b + SECTOR] == feed[first + i]
      ensures r != 0 || i == len - 1 ==> storage.Idle?
      ensures r == 0 && i == len - 1 && clean ==> medium[lba..lba + len] == feed[first..first + len]
    {
      r := rc(WriteStart(i));
      if r != 0 {
        return;
      }
      StartWrite(b, lba + i);
      if i == len - 1 {
        r := rc(WriteWait(i));
        assert buf[b..b + SECTOR] == old(buf[b..b + SECTOR]);
        WaitWrite(r == 0);
        if r == 0 && clean {
          assert medium[lba + i] == feed[first + i];
          assert medium[lba..lba + i] == old(medium)[lba..lba + i];
          assert medium[lba..lba + len] == medium[lba..lba + i] + [medium[lba + i]];
          assert feed[first..first + len] == feed[first..first + i] + [feed[first + i]];
        }
      }
    }

    /** Write_10 after the unit has been selected. On success every sector of the command holds what the
        host sent, provided each receive was really started; a command of length 0 leaves the first receive
        in flight, and so does a failed one if `WriteLeaves`. Sectors outside the command are never touched. */
    method Write10(lba: int, len: int, capacity: int, rc: Results) returns (ret: int)
      requires Writing() && storage.Idle? && usb.Idle?
      requires 0 <= lba < WORD && 0 <= len < 0x1_0000 && fed + len <= |feed|
      requires RangeAccepted(lba, len, capacity) && rc(Command) == 0 ==> lba + len <= |medium|
      modifies this`storage, this`usb, this`medium, this`fed, this`residue, this`sense, buf
      ensures !RangeAccepted(lba, len, capacity) ==>
        ret == 1 && sense == 0x1B && residue == old(residue) && medium == old(medium) && storage.Idle? && usb.Idle?
      ensures RangeAccepted(lba, len, capacity) && rc(Command) != 0 ==>
        ret == -1 && sense == 0x10 && residue == len * 512 && medium == old(medium) && storage.Idle? && usb.Idle?
      ensures RangeAccepted(lba, len, capacity) && rc(Command) == 0 ==>
        && ret == 0 && OutsideKept(old(medium), lba, len)
        && storage.Idle? && (usb.Busy? <==> WriteLeaves(rc, len))
      ensures RangeAccepted(lba, len, capacity) && rc(Command) == 0 ==>
        var done := if len == 0 then rc(RecvStart(0)) == 0 else forall k :: 0 <= k < len ==> WritePasses(rc, len, k);
        && (done && rc(CommandEnd) == 0 ==> residue == 0 && sense == old(sense))
        && (!done || rc(CommandEnd) != 0 ==> sense == 0x10)
        && (forall i :: WriteStops(rc, len, i) ==> residue == (len - i - 1) * 512)
        && (done && rc(CommandEnd) != 0 && len > 0 ==> residue == 0)
        && (len == 0 && (!done || rc(CommandEnd) != 0) ==> residue == 0xFFFF_FE00)
        && (done && (forall i :: 0 < i < len ==> rc(RecvStart(i)) == 0) ==>
              medium[lba..lba + len] == feed[old(fed)..old(fed) + len])
    {
      if (lba + len) % WORD > capacity {
        sense := 0x1B;
        return 1;
      }
      if rc(Command) != 0 {
        residue := len * 512;
        sense := 0x10;
        return -1;
      }
      var r, i := MoveSectors(lba, len, rc);
      forall k: nat ensures WriteWalk(rc, len, 0) == Broke(k) <==> WriteStops(rc, len, k) {
        WriteStopsFrom(rc, len, k, 0);
      }
      WriteStopsFrom(rc, len, 0, 0);
      hide WriteWalk;
      var r1 := rc(CommandEnd);
      if r != 0 || r1 != 0 {
        residue := (len - i - 1) * 512 % WORD;
        sense := 0x10;
        ResidueWraps(len, i);
      } else {
        residue := 0;
      }
      return 0;
    }

    /** The sector loop; `i` is the sector it was left at. */
    method MoveSectors(lba: int, len: nat, rc: Results) returns (r: int, i: nat)
      requires Writing() && storage.Idle? && usb.Idle?
      requires 0 <= lba && lba + len <= |medium| && fed + len <= |feed|
      modifies this`storage, this`usb, this`medium, this`fed, buf
      ensures OutsideKept(old(medium), lba, len)
      ensures storage.Idle? && (usb.Busy? <==> WriteLeaves(rc, len))
      ensures len == 0 ==> i == 0 && r == rc(RecvStart(0))
      ensures len > 0 ==> (r == 0 <==> WriteWalk(rc, len, 0) == Finished)
      ensures len > 0 && r == 0 ==> i == len - 1
      ensures len > 0 && r != 0 ==> i < len && WriteWalk(rc, len, 0) == Broke(i)
      ensures len > 0 && r == 0 && (forall k :: 0 < k < len ==> rc(RecvStart(k)) == 0) ==>
        medium[lba..lba + len] == feed[old(fed)..old(fed) + len]
    {
      if len > 0 {
        WalkStep(rc, len, 0);
      }
      i := 0;
      r := FirstReceive(0, SECTOR, lba, len, rc);
      if len == 0 || r != 0 {
        return;
      }
      r, i := MoveOn(lba, len, rc, old(medium), old(fed));
    }

    /** The loop once its first receive is started. */
    method MoveOn(lba: int, len: nat, rc: Results, ghost was: seq<Sector>, ghost first: nat) returns (r: int, i: nat)
      requires len > 0 && Midway(was, first, lba, 0, len, 0, SECTOR, true) && rc(RecvStart(0)) == 0 && usb.Busy?
      requires WriteWalk(rc, len, 0) == AfterWait(rc, len, 0)
      modifies this`storage, this`usb, this`medium, this`fed, buf
      ensures OutsideKept(was, lba, len)
      ensures storage.Idle? && (usb.Busy? <==> WriteLeaves(rc, len))
      ensures r == 0 <==> WriteWalk(rc, len, 0) == Finished
      ensures if r == 0 then i == len - 1 else i < len && WriteWalk(rc, len, 0) == Broke(i)
      ensures r == 0 && (forall k :: 0 < k < len ==> rc(RecvStart(k)) == 0) ==>
        medium[lba..lba + len] == feed[first..first + len]
    {
      hide Midway, Writing, OutsideKept, WriteWalk, AfterWait, WriteLeaves;
      var a, b := 0, SECTOR;
      i := 0;
      ghost var clean := true;
      while true
        invariant 0 <= i < len && Midway(was, first, lba, i, len, a, b, clean)
        invariant clean <==> forall k :: 0 < k <= i ==> rc(RecvStart(k)) == 0
        invariant usb.Busy? <==> rc(RecvStart(i)) == 0
        invariant WriteWalk(rc, len, 0) == AfterWait(rc, len, i)
        decreases len - i
      {
        WalkStep(rc, len, i);
        LeavesStep(rc, len, i);
        r := TakeOver(a, b, lba, i, len, rc, was, first, clean);
        if r != 0 {
          return;
        }
        r := PassOn(b, lba, i, len, rc, was, first, clean);
        if r != 0 || i == len - 1 {
          return;
        }
        a, b := b, a;
        StartNext(a, b, lba, i, len, rc, was, first, clean);
        clean := clean && rc(RecvStart(i + 1)) == 0;
        i := i + 1;
      }
    }

    method FirstReceive(a: int, b: int, lba: int, len: nat, rc: Results) returns (r: int)
      requires Writing() && storage.Idle? && usb.Idle? && HalfOfBuf(a) && HalfOfBuf(b) && a != b
      requires 0 <= lba && lba + len <= |medium| && fed + len <= |feed|
      modifies this`storage, this`usb, this`medium, this`fed, buf
      ensures r == rc(RecvStart(0)) && storage.Idle? && (usb.Busy? <==> r == 0) && OutsideKept(old(medium), lba, len)
      ensures r == 0 && len > 0 ==> Midway(old(medium), old(fed), lba, 0, len, a, b, true)
    {
      r := rc(RecvStart(0));
      if r == 0 {
        StartReceive(b);
      }
      assert medium == old(medium);
    }

    /** The next sector is asked for while the medium takes this one. */
    method StartNext(a: int, b: int, lba: int, i: nat, len: nat, rc: Results,
                     ghost was: seq<Sector>, ghost first: nat, ghost clean: bool)
      requires Writing() && usb.Idle? && HalfOfBuf(a) && HalfOfBuf(b) && a != b && OutsideKept(was, lba, len)
      requires i + 1 < len && 0 <= lba && lba + len <= |medium| && first + len <= |feed| && fed <= first + i + 1
      requires storage.Busy? && storage.at == a && storage.sector == lba + i
      requires clean ==> fed == first + i + 1
      requires clean ==> medium[lba..lba + i] == feed[first..first + i] && buf[a..a + SECTOR] == feed[first + i]
      modifies this`storage, this`usb, this`medium, this`fed, buf
      ensures Midway(was, first, lba, i + 1, len, a, b, clean && rc(RecvStart(i + 1)) == 0)
      ensures usb.Busy? <==> rc(RecvStart(i + 1)) == 0
    {
      if rc(RecvStart(i + 1)) == 0 {
        StartReceive(b);
      }
    }
  }
}
