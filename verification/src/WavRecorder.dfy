/** The recorder of audio_record.c: ring buffer, read index, half flag and counted length, changed in place. */
module WavRecorder {
  import opened Bytes
  import opened WavRing

  class Recorder {
    const ring: array<Byte>      // Bit_Stream_Buffer
    var index: nat               // read_index
    var flag: bool               // g_ring_buffer
    var counted: nat             // FileLenth, a 32-bit word
    var file: seq<Byte>
    var room: nat
    var rate: nat

    ghost predicate Valid()
      reads this, ring
    {
      ring.Length == RING && index <= RING
    }

    function Now(): Rec
      reads this, ring
    {
      Rec(ring[..], index, flag, file, room)
    }

    constructor (room: nat)
      ensures Valid() && fresh(ring) && this.room == room && file == []
    {
      ring := new Byte[RING](_ => 0);
      index, flag, counted, file, this.room, rate := 0, false, 0, [], room, 0;
    }

    /** gp_memcpy into the ring. */
    method CopyIn(at: nat, b: seq<Byte>)
      requires Valid() && at + |b| <= RING
      modifies ring
      ensures ring[..] == Patch(old(ring[..]), at, b)
    {
      for i := 0 to |b|
        invariant forall k :: 0 <= k < RING ==> ring[k] == if at <= k < at + i then b[k - at] else old(ring[k])
      {
        ring[at + i] := b[i];
      }
    }

    /** write(): the file takes what fits; the result is the number of bytes taken. */
    method WriteFile(b: seq<Byte>) returns (taken: nat)
      requires Valid()
      modifies this`file, this`room
      ensures Now() == Write(old(Now()), b)
      ensures taken == (if |b| <= old(room) then |b| else old(room)) && room == old(room) - taken
      ensures file == old(file) + b[..taken]
    {
      if |b| <= room {
        taken := |b|;
      } else {
        taken := room;
      }
      file := file + b[..taken];
      room := room - taken;
      assert b[..|b|] == b;
    }

    /** save_buffer_to_storage. */
    method CallSaveBuffer() returns (ok: bool)
      requires Valid()
      modifies this`flag, this`file, this`room
      ensures Valid() && Now() == SaveBuffer(old(Now())) && ok == SaveBufferOk(old(Now()))
      ensures ok <==> flag == old(flag) || |file| == |old(file)| + 0x8000
    {
      if !flag {
        if index > HALF {
          flag := true;
          var taken := WriteFile(ring[..HALF]);
          if taken != HALF {
            return false;
          }
        }
      } else {
        if index < HALF {
          flag := false;
          var taken := WriteFile(ring[HALF..]);
          if taken != HALF {
            return false;
          }
        }
      }
      return true;
    }

    /** save_final_data_to_storage. */
    method CallSaveFinal() returns (ok: bool)
      requires Valid()
      modifies this`file, this`room
      ensures Valid() && Now() == SaveFinal(old(Now())) && ok == (|Tail(old(Now()))| <= old(room))
    {
      if index > HALF {
        var size := index - HALF;
        assert ring[..][HALF..index] == ring[HALF..HALF + size];
        var taken := WriteFile(ring[HALF..HALF + size]);
        ok := taken == size;
      } else {
        assert ring[..][..index] == ring[..index];
        var taken := WriteFile(ring[..index]);
        ok := taken == index;
      }
    }

    /** The copy of one block or packet into the ring. */
    method PutBlock(b: seq<Byte>)
      requires Valid() && |b| <= RING
      modifies this`index, ring
      ensures Valid() && Now() == Put(old(Now()), b) && flag == old(flag) && file == old(file)
    {
      if index + |b| > RING {
        var size := RING - index;
        CopyIn(index, b[..size]);
        CopyIn(0, b[size..]);
        index := |b| - size;
      } else {
        CopyIn(index, b);
        index := index + |b|;
      }
    }

    /** wave_encode_start. */
    method EncodeStart(sampleRate: nat)
      requires Valid()
      modifies this`index, this`flag, this`counted, this`rate, this`file, ring
      ensures Valid() && Now() == Opened(old(ring[..]), sampleRate, old(room))
      ensures counted == HEADER && rate == sampleRate
      ensures sampleRate * 2 < WORD ==> ReadsAsWav(ring[..index], sampleRate, 0, 0)
    {
      hide Header, ReadsAsWav;
      if sampleRate * 2 < WORD {
        HeaderReads(sampleRate, 0, 0, []);
      }
      file := [];
      rate := sampleRate;
      CopyIn(0, Header(sampleRate, 0, 0));
      index, flag, counted := HEADER, false, HEADER;
      assert ring[..index] == Header(sampleRate, 0, 0) + [];
    }

    /** wave_encode_once. */
    method EncodeOnce(b: seq<Byte>) returns (ok: bool)
      requires Valid() && |b| <= RING
      modifies this`index, this`flag, this`counted, this`file, this`room, ring
      ensures Valid() && Now() == Once(old(Now()), b)
      ensures counted == (old(counted) + |b|) % WORD
      ensures ok == SaveBufferOk(Put(old(Now()), b))
      ensures ok <==> flag == old(flag) || |file| == |old(file)| + 0x8000
    {
      PutBlock(b);
      counted := (counted + |b|) % WORD;
      ok := CallSaveBuffer();
    }

    /** wave_encode_lib_once: the packets of one call, each copied as it is encoded. */
    method EncodeLibOnce(packs: seq<seq<Byte>>) returns (ok: bool)
      requires Valid() && Sized(packs)
      modifies this`index, this`flag, this`counted, this`file, this`room, ring
      ensures Valid() && Now() == LibOnce(old(Now()), packs)
      ensures ok <==> flag == old(flag) || |file| == |old(file)| + 0x8000
      ensures counted == (old(counted) + |Concat(packs)|) % WORD
    {
      var cblen := 0;
      var i := 0;
      while i < |packs|
        invariant 0 <= i <= |packs| && Valid()
        invariant cblen == |Concat(packs[..i])|
        invariant Now() == PutAll(old(Now()), packs[..i])
        invariant counted == old(counted) && flag == old(flag) && file == old(file)
      {
        assert packs[..i + 1][..i] == packs[..i];
        PutBlock(packs[i]);
        cblen := cblen + |packs[i]|;
        i := i + 1;
      }
      assert packs[..|packs|] == packs;
      counted := (counted + cblen) % WORD;
      ok := CallSaveBuffer();
    }

    /** wave_encode_stop: the tail, then the header over the front of the file. */
    method EncodeStop() returns (ok: bool)
      requires Valid()
      modifies this`counted, this`file, this`room
      ensures ok == (|Tail(old(Now()))| <= old(room))
      ensures ok ==> file == Closed(old(Now()), rate, old(counted))
      ensures !ok ==> file == old(file) + Tail(old(Now()))[..old(room)] && counted == old(counted)
      ensures ok && rate * 2 < WORD ==> ReadsAsWav(file, rate, (counted + 36) % WORD, counted)
    {
      hide Header, ReadsAsWav;
      ok := CallSaveFinal();
      if !ok {
        return;
      }
      counted := (counted - HEADER) % WORD;
      var h := Header(rate, (HEADER + counted - 8) % WORD, counted);
      if rate * 2 < WORD {
        HeaderReads(rate, (HEADER + counted - 8) % WORD, counted, Overwrite(file, h)[HEADER..]);
        assert Overwrite(file, h) == h + Overwrite(file, h)[HEADER..];
      }
      file := Overwrite(file, h);
    }
  }
}
