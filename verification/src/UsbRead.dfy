/** Read_10: the medium fills one half of BUF while USB empties the other. Each transfer runs on its own
    between its start and its wait; `Interleave` lets both advance by any number of words at any moment. */
module UsbRead {
  import opened UsbTransfer

  class ReadPipeline {
    const buf: array<int>             // BUF[512]: two sectors
    var medium: seq<Sector>
    var host: seq<int>                // words the host has received
    var storage: Job
    var usb: Job
    var residue: int                  // CSW_Residue
    var sense: int                    // Sense_Code
    ghost var hostBefore: seq<int>    // host when the send in flight was started

    ghost predicate Valid()
      reads this, buf
    {
      && buf.Length == 2 * SECTOR
      && (storage.Busy? ==> HalfOfBuf(storage.at) && storage.done <= SECTOR && 0 <= storage.sector < |medium|)
      && (usb.Busy? ==> HalfOfBuf(usb.at) && usb.done <= SECTOR)
      && (storage.Busy? && usb.Busy? ==> storage.at != usb.at)
    }

    /** The invariant of a read command: storage fills its half, USB empties the other. */
    ghost predicate Reading()
      reads this, buf
    {
      && Valid()
      && (storage.Busy? ==> buf[storage.at..storage.at + storage.done] == medium[storage.sector][..storage.done])
      && (usb.Busy? ==> host == hostBefore + buf[usb.at..usb.at + usb.done])
    }

    method StorageStep()
      requires Reading() && storage.Busy? && storage.done < SECTOR
      modifies this`storage, buf
      ensures Reading() && storage == old(storage).(done := old(storage.done) + 1)
      ensures forall k :: 0 <= k < 2 * SECTOR && !(storage.at <= k < storage.at + SECTOR) ==> buf[k] == old(buf[k])
    {
      buf[storage.at + storage.done] := medium[storage.sector][storage.done];
      storage := storage.(done := storage.done + 1);
    }

    method UsbStep()
      requires Reading() && usb.Busy? && usb.done < SECTOR
      modifies this`usb, this`host
      ensures Reading() && usb == old(usb).(done := old(usb.done) + 1)
    {
      host := host + [buf[usb.at + usb.done]];
      usb := usb.(done := usb.done + 1);
    }

    /** Any number of words of either transfer, in any order. */
    method Interleave()
      requires Reading()
      modifies this`storage, this`usb, this`host, buf
      ensures Reading() && Later(old(storage), storage) && Later(old(usb), usb)
      ensures forall k :: 0 <= k < 2 * SECTOR && !InFlight(storage, k) ==> buf[k] == old(buf[k])
      ensures usb.Idle? ==> host == old(host)
    {
      var n: nat := *;
      while n > 0
        invariant Reading() && Later(old(storage), storage) && Later(old(usb), usb)
        invariant forall k :: 0 <= k < 2 * SECTOR && !InFlight(storage, k) ==> buf[k] == old(buf[k])
        invariant usb.Idle? ==> host == old(host)
      {
        if * {
          if storage.Busy? && storage.done < SECTOR { StorageStep(); }
        } else {
          if usb.Busy? && usb.done < SECTOR { UsbStep(); }
        }
        n := n - 1;
      }
    }

    /** usdc_read_dma_phase with flag 0: start filling a half that no transfer is using. */
    method StartRead(at: int, sector: int)
      requires Reading() && storage.Idle? && HalfOfBuf(at) && 0 <= sector < |medium|
      requires usb.Busy? ==> usb.at != at
      modifies this`storage, this`usb, this`host, buf
      ensures Reading() && storage.Busy? && storage.at == at && storage.sector == sector && Later(old(usb), usb)
      ensures forall k :: 0 <= k < 2 * SECTOR && !InFlight(storage, k) ==> buf[k] == old(buf[k])
      ensures usb.Idle? ==> host == old(host)
    {
      storage := Busy(at, sector, 0);
      Interleave();
    }

    /** Flag 2: wait for the fill. On an error it stops where it is. */
    method WaitRead(ok: bool)
      requires Reading() && storage.Busy?
      modifies this`storage, this`usb, this`host, buf
      ensures Reading() && storage.Idle? && Later(old(usb), usb)
      ensures ok ==> buf[old(storage).at..old(storage).at + SECTOR] == medium[old(storage).sector]
      ensures forall k :: 0 <= k < 2 * SECTOR && !InFlight(old(storage), k) ==> buf[k] == old(buf[k])
      ensures usb.Idle? ==> host == old(host)
    {
      Interleave();
      if ok {
        while storage.done < SECTOR
          invariant Reading() && storage.Busy? && Later(old(storage), storage) && Later(old(usb), usb)
          invariant forall k :: 0 <= k < 2 * SECTOR && !InFlight(storage, k) ==> buf[k] == old(buf[k])
          invariant usb.Idle? ==> host == old(host)
          decreases SECTOR - storage.done
        {
          StorageStep();
        }
      }
      storage := Idle;
    }

    /** Send_To_USB_DMA_USB with flag 0. */
    method StartSend(at: int)
      requires Reading() && usb.Idle? && HalfOfBuf(at)
      requires storage.Busy? ==> storage.at != at
      modifies this`storage, this`usb, this`host, this`hostBefore, buf
      ensures Reading() && usb.Busy? && usb.at == at && hostBefore == old(host) && Later(old(storage), storage)
      ensures forall k :: 0 <= k < 2 * SECTOR && !InFlight(storage, k) ==> buf[k] == old(buf[k])
    {
      usb := Busy(at, 0, 0);
      hostBefore := host;
      assert host == hostBefore + buf[at..at];
      Interleave();
    }

    /** Flag 1: wait for the send. */
    method WaitSend(ok: bool)
      requires Reading() && usb.Busy?
      modifies this`storage, this`usb, this`host, buf
      ensures Reading() && usb.Idle? && Later(old(storage), storage)
      ensures ok ==> host == hostBefore + buf[old(usb).at..old(usb).at + SECTOR]
      ensures forall k :: 0 <= k < 2 * SECTOR && !InFlight(storage, k) ==> buf[k] == old(buf[k])
    {
      Interleave();
      if ok {
        while usb.done < SECTOR
          invariant Reading() && usb.Busy? && Later(old(usb), usb) && Later(old(storage), storage)
          invariant forall k :: 0 <= k < 2 * SECTOR && !InFlight(storage, k) ==> buf[k] == old(buf[k])
          decreases SECTOR - usb.done
        {
          UsbStep();
        }
      }
      usb := Idle;
    }

    /** Between two sectors: i of them have been taken over, the last one still on its way unless all are.
        `clean` says that no wait for the medium has failed. */
    ghost predicate Midway(start: seq<int>, lba: int, i: nat, len: nat, b: int, clean: bool)
      reads this, buf
    {
      && Reading() && storage.Idle? && HalfOfBuf(b) && 0 <= lba <= lba + i <= lba + len <= |medium|
      && (usb.Busy? <==> 0 < i < len)
      && (usb.Busy? ==> usb.at == b)
      && (clean && usb.Idle? ==> host == start + Flat(medium[lba..lba + i]))
      && (clean && usb.Busy? ==>
            hostBefore == start + Flat(medium[lba..lba + i - 1]) && buf[b..b + SECTOR] == medium[lba + i - 1])
    }

    /** First half of the loop body: sector i comes into half `a` while half `b` is still being sent, then
        the send is waited for. */
    method FillHalf(a: int, b: int, lba: int, i: nat, len: nat, rc: Results, ghost start: seq<int>, ghost clean: bool)
      returns (r: int)
      requires Midway(start, lba, i, len, b, clean) && i < len && HalfOfBuf(a) && a != b
      modifies this`storage, this`usb, this`host, buf
      ensures r == 0 <==>
        rc(if i == 0 then ReadSync(0) else ReadStart(i)) == 0 && (i > 0 ==> rc(SendWait(i - 1)) == 0)
      ensures Reading()
      ensures storage.Idle? && (usb.Busy? <==> r != 0 && i > 0 && rc(ReadStart(i)) != 0)
      ensures r == 0 && clean && (i > 0 ==> rc(ReadWait(i)) == 0) ==>
        buf[a..a + SECTOR] == medium[lba + i] && host == start + Flat(medium[lba..lba + i])
    {
      if i == 0 {
        r := rc(ReadSync(0));
        if r == 0 {
          StartRead(a, lba);
          WaitRead(true);
        }
      } else {
        r := rc(ReadStart(i));
        if r == 0 {
          StartRead(a, lba + i);
        }
      }
      if r != 0 {
        return;
      }
      if i != 0 {
        r := rc(ReadWait(i));
        WaitRead(r == 0);
        assert clean ==> buf[b..b + SECTOR] == medium[lba + i - 1];
        r := FinishSend(b, lba, i, rc, start, clean);
      }
    }

    /** The wait for the sector before; its result takes the place of the medium's. */
    method FinishSend(b: int, lba: int, i: nat, rc: Results, ghost start: seq<int>, ghost clean: bool) returns (r: int)
      requires Reading() && storage.Idle? && usb.Busy? && usb.at == b && i > 0 && 0 <= lba && lba + i <= |medium|
      requires clean ==>
        hostBefore == start + Flat(medium[lba..lba + i - 1]) && buf[b..b + SECTOR] == medium[lba + i - 1]
      modifies this`storage, this`usb, this`host, buf
      ensures r == rc(SendWait(i - 1)) && Reading() && storage.Idle? && usb.Idle? && buf[..] == old(buf[..])
      ensures r == 0 && clean ==> host == start + Flat(medium[lba..lba + i])
    {
      r := rc(SendWait(i - 1));
      WaitSend(r == 0);
      FlatSnoc(medium, lba, lba + i - 1);
    }

    /** Second half: the sector starts on its way out; the last one is waited for. */
    method SendHalf(a: int, lba: int, i: nat, len: nat, rc: Results, ghost start: seq<int>, ghost clean: bool)
      returns (r: int)
      requires Reading() && storage.Idle? && usb.Idle? && HalfOfBuf(a) && i < len && 0 <= lba && lba + len <= |medium|
      requires clean ==> buf[a..a + SECTOR] == medium[lba + i] && host == start + Flat(medium[lba..lba + i])
      modifies this`storage, this`usb, this`host, this`hostBefore, buf
      ensures r == 0 <==> rc(SendStart(i)) == 0 && (i == len - 1 ==> rc(SendWait(i)) == 0)
      ensures Reading() && (r == 0 ==> Midway(start, lba, i + 1, len, a, clean))
      ensures r != 0 ==> storage.Idle? && usb.Idle?
    {
      r := rc(SendStart(i));
      if r != 0 {
        return;
      }
      StartSend(a);
      if i == len - 1 {
        r := rc(SendWait(i));
        WaitSend(r == 0);
        FlatSnoc(medium, lba, lba + i);
      }
    }

    /** Read_10 after the unit has been selected. `rc` gives the result of every device call. The next command
        finds nothing in flight unless `ReadLeaves`. */
    method Read10(lba: int, len: int, capacity: int, rc: Results) returns (ret: int)
      requires Reading() && storage.Idle? && usb.Idle?
      requires 0 <= lba < WORD && 0 <= len < 0x1_0000
      requires RangeAccepted(lba, len, capacity) && rc(Command) == 0 ==> lba + len <= |medium|
      modifies this`storage, this`usb, this`host, this`hostBefore, this`residue, this`sense, buf
      ensures !RangeAccepted(lba, len, capacity) ==>
        ret == -1 && sense == 0x1B && residue == old(residue) && host == old(host) && storage.Idle? && usb.Idle?
      ensures RangeAccepted(lba, len, capacity) && rc(Command) != 0 ==>
        ret == -1 && sense == 0x12 && residue == len * 512 && host == old(host) && storage.Idle? && usb.Idle?
      ensures RangeAccepted(lba, len, capacity) && rc(Command) == 0 ==>
        && ret == 0
        && storage.Idle? && (usb.Busy? <==> ReadLeaves(rc, len))
      ensures RangeAccepted(lba, len, capacity) && rc(Command) == 0 ==>
        var done := forall k :: 0 <= k < len ==> ReadPasses(rc, len, k);
        && (done ==> residue == 0 && sense == old(sense))
        && (!done ==> sense == 0x12)
        && (forall i :: ReadStops(rc, len, i) ==> residue == (len - i) * 512)
        && (done && (forall i :: 0 < i < len ==> rc(ReadWait(i)) == 0) ==>
              host == old(host) + Flat(medium[lba..lba + len]))
    {
      if (lba + len) % WORD > capacity {
        sense := 0x1B;
        return -1;
      }
      if rc(Command) != 0 {
        residue := len * 512;
        sense := 0x12;
        return -1;
      }
      var r, i := MoveSectors(lba, len, rc);
      forall k: nat ensures ReadWalk(rc, len, 0) == Broke(k) <==> ReadStops(rc, len, k) {
        ReadStopsFrom(rc, len, k, 0);
      }
      ReadStopsFrom(rc, len, 0, 0);
      hide ReadWalk;
      if r != 0 {
        residue := (len - i) * 512;
        sense := 0x12;
      } else {
        residue := 0;
      }
      return 0;
    }

    /** The sector loop; `i` is the sector it was left at. */
    method MoveSectors(lba: int, len: nat, rc: Results) returns (r: int, i: nat)
      requires Reading() && storage.Idle? && usb.Idle? && 0 <= lba && lba + len <= |medium|
      modifies this`storage, this`usb, this`host, this`hostBefore, buf
      ensures r == 0 <==> ReadWalk(rc, len, 0) == Finished
      ensures r != 0 ==> i < len && ReadWalk(rc, len, 0) == Broke(i)
      ensures storage.Idle? && (usb.Busy? <==> ReadLeaves(rc, len))
      ensures r == 0 && (forall k :: 0 < k < len ==> rc(ReadWait(k)) == 0) ==>
        host == old(host) + Flat(medium[lba..lba + len])
    {
      hide Midway, Reading, Flat, ReadWalk, ReadLeaves;
      var a, b := 0, SECTOR;
      r, i := 0, 0;
      ghost var clean := true;
      NoneSent(lba, len);
      while i < len
        invariant 0 <= i <= len && r == 0 && HalfOfBuf(a) && HalfOfBuf(b) && a != b
        invariant Midway(old(host), lba, i, len, b, clean)
        invariant clean <==> forall k :: 0 < k < i ==> rc(ReadWait(k)) == 0
        invariant ReadWalk(rc, len, 0) == ReadWalk(rc, len, i)
      {
        ReadStep(rc, len, i);
        ReadLeft(rc, len, i);
        r := FillHalf(a, b, lba, i, len, rc, old(host), clean);
        if r != 0 {
          return;
        }
        clean := clean && (i > 0 ==> rc(ReadWait(i)) == 0);
        r := SendHalf(a, lba, i, len, rc, old(host), clean);
        if r != 0 {
          return;
        }
        a, b := b, a;
        i := i + 1;
      }
      ReadLeft(rc, len, i);
      AllSent(old(host), lba, len, b, clean);
    }

    lemma NoneSent(lba: int, len: nat)
      requires Reading() && storage.Idle? && usb.Idle? && 0 <= lba && lba + len <= |medium|
      ensures Midway(host, lba, 0, len, SECTOR, true)
    {
      assert medium[lba..lba] == [];
    }

    lemma AllSent(start: seq<int>, lba: int, len: nat, b: int, clean: bool)
      requires Midway(start, lba, len, len, b, clean)
      ensures storage.Idle? && usb.Idle? && (clean ==> host == start + Flat(medium[lba..lba + len]))
    {
    }
  }
}
