/** The audio file writer: encoded bytes gather in a 64 KB ring that goes to the file by halves; closing the
    file writes the rest and puts the final header over the first 44 bytes. */
module WavRing {
  import opened Bytes

  const RING := 0x1_0000
  const HALF := 0x8000
  const HEADER := 44
  const WORD := 0x1_0000_0000

  /** `flag` is g_ring_buffer: the first half of the ring has gone to the file, the second has not.
      `room` is what the disk still takes. */
  datatype Rec = Rec(ring: seq<Byte>, index: nat, flag: bool, file: seq<Byte>, room: nat)

  ghost predicate Inv(s: Rec) {
    && |s.ring| == RING
    && (!s.flag ==> s.index <= HALF)
    && (s.flag ==> HALF < s.index <= RING)
  }

  /** The bytes in the ring that are not in the file yet. */
  function Pending(s: Rec): seq<Byte>
    requires |s.ring| == RING && s.index <= RING
  {
    if !s.flag then s.ring[..s.index] else if s.index >= HALF then s.ring[HALF..s.index] else []
  }

  function Recorded(s: Rec): seq<Byte>
    requires |s.ring| == RING && s.index <= RING
  {
    s.file + Pending(s)
  }

  // ---- the calls ---------------------------------------------------------------------------------

  /** Memory copy into the ring. */
  function Patch(r: seq<Byte>, at: nat, b: seq<Byte>): seq<Byte>
    requires at + |b| <= |r|
  {
    r[..at] + b + r[at + |b|..]
  }

  /** The block goes behind the bytes already there, its tail to the front when the ring ends. */
  function Put(s: Rec, b: seq<Byte>): (t: Rec)
    requires |s.ring| == RING && s.index <= RING && |b| <= RING
    ensures |t.ring| == RING && t.index <= RING
  {
    if s.index + |b| > RING then
      var size := RING - s.index;
      s.(ring := Patch(Patch(s.ring, s.index, b[..size]), 0, b[size..]), index := |b| - size)
    else
      s.(ring := Patch(s.ring, s.index, b), index := s.index + |b|)
  }

  /** The file takes what the disk has room for. */
  function Write(s: Rec, b: seq<Byte>): Rec {
    if |b| <= s.room then s.(file := s.file + b, room := s.room - |b|)
    else s.(file := s.file + b[..s.room], room := 0)
  }

  /** save_buffer_to_storage: which half is due. */
  function Due(s: Rec): bool { if s.flag then s.index < HALF else s.index > HALF }

  function SaveBuffer(s: Rec): Rec
    requires |s.ring| == RING
  {
    if !Due(s) then s
    else Write(s.(flag := !s.flag), if s.flag then s.ring[HALF..] else s.ring[..HALF])
  }

  function SaveBufferOk(s: Rec): bool { Due(s) ==> HALF <= s.room }

  function Once(s: Rec, b: seq<Byte>): Rec
    requires |s.ring| == RING && s.index <= RING && |b| <= RING
  {
    SaveBuffer(Put(s, b))
  }

  /** save_final_data_to_storage. */
  function Tail(s: Rec): seq<Byte>
    requires |s.ring| == RING && s.index <= RING
  {
    if s.index > HALF then s.ring[HALF..s.index] else s.ring[..s.index]
  }

  function SaveFinal(s: Rec): Rec
    requires |s.ring| == RING && s.index <= RING
  {
    Write(s, Tail(s))
  }

  // ---- one block ---------------------------------------------------------------------------------

  /** The block does not run into bytes that have not been written yet. */
  predicate BlockFits(s: Rec, n: nat) {
    if s.flag then s.index + n < RING + HALF else s.index + n <= RING
  }

  lemma PutStraight(s: Rec, b: seq<Byte>)
    requires Inv(s) && s.index + |b| <= RING
    ensures Put(s, b).ring[..s.index + |b|] == s.ring[..s.index] + b
    ensures s.flag ==> Put(s, b).ring[HALF..s.index + |b|] == s.ring[HALF..s.index] + b
  {
  }

  lemma PatchBack(ring: seq<Byte>, at: nat, b: seq<Byte>)
    requires |ring| == RING && HALF <= at && at + |b| == RING
    ensures Patch(ring, at, b)[HALF..] == ring[HALF..at] + b
  {
  }

  lemma PutWrapped(s: Rec, b: seq<Byte>)
    requires Inv(s) && s.flag && RING < s.index + |b| < RING + HALF && |b| <= RING
    ensures var t := Put(s, b);
      t.index == s.index + |b| - RING && t.ring[HALF..] + t.ring[..t.index] == s.ring[HALF..s.index] + b
  {
    var size := RING - s.index;
    var r := Patch(s.ring, s.index, b[..size]);
    PatchBack(s.ring, s.index, b[..size]);
    PatchFront(r, b[size..]);
    hide Patch;
    assert b == b[..size] + b[size..];
  }

  lemma PatchFront(r: seq<Byte>, b: seq<Byte>)
    requires |r| == RING && |b| <= HALF
    ensures Patch(r, 0, b)[HALF..] == r[HALF..] && Patch(r, 0, b)[..|b|] == b
  {
  }

  ghost predicate Faithful(s: Rec, b: seq<Byte>)
    requires |s.ring| == RING && s.index <= RING && |b| <= RING
  {
    Inv(Once(s, b)) && Recorded(Once(s, b)) == Recorded(s) + b
  }

  lemma StraightIsFaithful(s: Rec, b: seq<Byte>)
    requires Inv(s) && HALF <= s.room && s.index + |b| <= RING
    ensures Faithful(s, b)
  {
    PutStraight(s, b);
    var p := Put(s, b);
    if s.flag {
      assert s.file + (s.ring[HALF..s.index] + b) == Recorded(s) + b;
    } else {
      assert s.file + (s.ring[..s.index] + b) == Recorded(s) + b;
      if p.index > HALF {
        assert s.file + p.ring[..HALF] + p.ring[HALF..p.index] == s.file + p.ring[..p.index];
      }
    }
  }

  lemma WrappedIsFaithful(s: Rec, b: seq<Byte>)
    requires Inv(s) && HALF <= s.room && s.flag && RING < s.index + |b| < RING + HALF && |b| <= RING
    ensures Faithful(s, b)
  {
    PutWrapped(s, b);
    var p := Put(s, b);
    assert s.file + p.ring[HALF..] + p.ring[..p.index] == s.file + (s.ring[HALF..s.index] + b);
    assert s.file + (s.ring[HALF..s.index] + b) == Recorded(s) + b;
  }

  /** A block keeps the record faithful, file and ring together, exactly when it fits; otherwise bytes that
      were never written are overwritten and the count is off for every content of the block. */
  lemma OnceExact(s: Rec, b: seq<Byte>)
    requires Inv(s) && |b| <= RING && HALF <= s.room
    ensures Faithful(s, b) <==> BlockFits(s, |b|)
  {
    if s.index + |b| <= RING {
      StraightIsFaithful(s, b);
    } else if BlockFits(s, |b|) {
      WrappedIsFaithful(s, b);
    } else {
      assert |Recorded(Once(s, b))| == |Recorded(s)| + |b| - RING;
    }
  }

  /** The blocks of the PCM path are half a ring long. Those from a file just opened, and all shorter ones
      anywhere, always fit. */
  lemma FittingSizes(s: Rec, n: nat)
    requires Inv(s) && (n < HALF || (n == HALF && s.index < RING))
    ensures BlockFits(s, n)
  {
  }

  // ---- several packets in one call ---------------------------------------------------------------

  /** No piece is longer than the ring; a longer one would run past the buffer itself. */
  predicate Sized(pieces: seq<seq<Byte>>) { forall k :: 0 <= k < |pieces| ==> |pieces[k]| <= RING }

  function Concat(blocks: seq<seq<Byte>>): seq<Byte> {
    if blocks == [] then [] else Concat(blocks[..|blocks| - 1]) + blocks[|blocks| - 1]
  }

  function PutAll(s: Rec, packs: seq<seq<Byte>>): (t: Rec)
    requires |s.ring| == RING && s.index <= RING && Sized(packs)
    ensures |t.ring| == RING && t.index <= RING
  {
    if packs == [] then s
    else Put(PutAll(s, packs[..|packs| - 1]), packs[|packs| - 1])
  }

  /** wave_encode_lib_once: every packet goes into the ring, then one half may go to the file. */
  function LibOnce(s: Rec, packs: seq<seq<Byte>>): Rec
    requires |s.ring| == RING && s.index <= RING && Sized(packs)
  {
    SaveBuffer(PutAll(s, packs))
  }

  /** One byte of the ring after a block. */
  lemma PutAt(s: Rec, b: seq<Byte>, k: nat)
    requires |s.ring| == RING && s.index <= RING && |b| <= RING && k < RING
    ensures Put(s, b).ring[k] ==
      if s.index <= k < s.index + |b| then b[k - s.index]
      else if k + RING < s.index + |b| then b[k + RING - s.index]
      else s.ring[k]
  {
  }

  lemma PutTwice(s: Rec, a: seq<Byte>, b: seq<Byte>)
    requires |s.ring| == RING && s.index <= RING && |a| + |b| <= RING
    ensures Put(Put(s, a), b) == Put(s, a + b)
  {
    var t := Put(Put(s, a), b);
    var u := Put(s, a + b);
    assert t.index == u.index;
    forall k | 0 <= k < RING ensures t.ring[k] == u.ring[k] {
      PutAt(s, a, k);
      PutAt(Put(s, a), b, k);
      PutAt(s, a + b, k);
    }
    assert t.ring == u.ring;
  }

  lemma {:induction false} PutAllIsPut(s: Rec, packs: seq<seq<Byte>>)
    requires |s.ring| == RING && s.index <= RING && |Concat(packs)| <= RING
    requires Sized(packs)
    ensures PutAll(s, packs) == Put(s, Concat(packs))
    decreases |packs|
  {
    if packs == [] {
      assert Patch(s.ring, s.index, []) == s.ring;
    } else {
      var init, last := packs[..|packs| - 1], packs[|packs| - 1];
      PutAllIsPut(s, init);
      PutTwice(s, Concat(init), last);
    }
  }

  /** Packet by packet or in one piece: the call does the same. */
  lemma LibOnceIsOnce(s: Rec, packs: seq<seq<Byte>>)
    requires |s.ring| == RING && s.index <= RING && |Concat(packs)| <= RING
    requires Sized(packs)
    ensures LibOnce(s, packs) == Once(s, Concat(packs))
  {
    PutAllIsPut(s, packs);
  }

  // ---- whole recordings --------------------------------------------------------------------------

  function Low(x: nat): Byte { x % 256 }

  function U16(x: nat): seq<Byte> { [Low(x), Low(x / 256)] }

  function U32(x: nat): seq<Byte> { [Low(x), Low(x / 256), Low(x / 65536), Low(x / 16777216)] }

  function ReadU32(s: seq<Byte>, at: nat): nat
    requires at + 4 <= |s|
  {
    (s[at] as int) + 256 * (s[at + 1] as int) + 65536 * (s[at + 2] as int) + 16777216 * (s[at + 3] as int)
  }

  /** The 44 bytes of AUD_ENC_WAVE_HEADER for 16-bit mono PCM. */
  function Header(rate: nat, riffLen: nat, dataLen: nat): (h: seq<Byte>)
    ensures |h| == HEADER
  {
    [0x52, 0x49, 0x46, 0x46] + U32(riffLen) + [0x57, 0x41, 0x56, 0x45] + [0x66, 0x6D, 0x74, 0x20]
    + U32(16) + U16(1) + U16(1) + U32(rate) + U32(rate * 2) + U16(2) + U16(16)
    + [0x64, 0x61, 0x74, 0x61] + U32(dataLen)
  }

  /** wave_encode_start: the empty header goes into the ring. */
  function Opened(ring: seq<Byte>, rate: nat, room: nat): Rec
    requires |ring| == RING
  {
    Rec(Patch(ring, 0, Header(rate, 0, 0)), HEADER, false, [], room)
  }

  /** The file length the recorder counts, a 32-bit word. */
  function Counted(blocks: seq<seq<Byte>>): nat { (HEADER + |Concat(blocks)|) % WORD }

  /** The recorder's running sum is this count. */
  lemma CountedStep(blocks: seq<seq<Byte>>, b: seq<Byte>)
    ensures Counted(blocks + [b]) == (Counted(blocks) + |b|) % WORD
  {
    assert (blocks + [b])[..|blocks|] == blocks;
  }

  function Overwrite(f: seq<Byte>, b: seq<Byte>): seq<Byte> { if |b| <= |f| then b + f[|b|..] else b }

  /** wave_encode_stop: the rest of the ring, then the header with the final lengths. */
  function Closed(s: Rec, rate: nat, counted: nat): seq<Byte>
    requires |s.ring| == RING && s.index <= RING
  {
    var dataLen := (counted - HEADER) % WORD;
    Overwrite(SaveFinal(s).file, Header(rate, (HEADER + dataLen - 8) % WORD, dataLen))
  }

  function OnceAll(s: Rec, blocks: seq<seq<Byte>>): (t: Rec)
    requires |s.ring| == RING && s.index <= RING && Sized(blocks)
    ensures |t.ring| == RING && t.index <= RING
  {
    if blocks == [] then s
    else Once(OnceAll(s, blocks[..|blocks| - 1]), blocks[|blocks| - 1])
  }

  /** Every block meets the exact condition at its turn. */
  predicate AllFit(s: Rec, blocks: seq<seq<Byte>>)
    requires |s.ring| == RING && s.index <= RING && Sized(blocks)
  {
    blocks == [] ||
    (AllFit(s, blocks[..|blocks| - 1]) && BlockFits(OnceAll(s, blocks[..|blocks| - 1]), |blocks[|blocks| - 1]|))
  }

  lemma {:induction false} RunIsFaithful(s: Rec, blocks: seq<seq<Byte>>)
    requires Inv(s) && Sized(blocks) && AllFit(s, blocks)
    requires |Recorded(s)| + |Concat(blocks)| <= |s.file| + s.room
    ensures var t := OnceAll(s, blocks);
      && Inv(t) && Recorded(t) == Recorded(s) + Concat(blocks)
      && |t.file| + t.room == |s.file| + s.room
    decreases |blocks|
  {
    if blocks == [] {
      assert Recorded(s) + [] == Recorded(s);
    } else {
      var init, last := blocks[..|blocks| - 1], blocks[|blocks| - 1];
      LastBlock(s, blocks);
      hide Inv, Once, OnceAll, Recorded, BlockFits, SaveBufferOk, AllFit, Concat;
      RunIsFaithful(s, init);
      OnceWithinRoom(OnceAll(s, init), last);
      Append3(Recorded(s), Concat(init), last);
    }
  }

  lemma LastBlock(s: Rec, blocks: seq<seq<Byte>>)
    requires |s.ring| == RING && s.index <= RING && Sized(blocks) && blocks != []
    ensures var init, last := blocks[..|blocks| - 1], blocks[|blocks| - 1];
      && Sized(init) && |last| <= RING
      && Concat(blocks) == Concat(init) + last && OnceAll(s, blocks) == Once(OnceAll(s, init), last)
      && (AllFit(s, blocks) <==> AllFit(s, init) && BlockFits(OnceAll(s, init), |last|))
  {
  }

  lemma Append3<T>(a: seq<T>, b: seq<T>, c: seq<T>)
    ensures (a + b) + c == a + (b + c)
  {
  }

  /** With room for all bytes recorded so far, a fitting block is faithful and no write comes up short. */
  lemma OnceWithinRoom(t: Rec, b: seq<Byte>)
    requires Inv(t) && |b| <= RING && BlockFits(t, |b|) && |Recorded(t)| + |b| <= |t.file| + t.room
    ensures Faithful(t, b) && SaveBufferOk(Put(t, b))
    ensures |Once(t, b).file| + Once(t, b).room == |t.file| + t.room
  {
    if Due(Put(t, b)) {
      assert HALF <= t.room;
      OnceExact(t, b);
    } else {
      OnceExact(t.(room := t.room + HALF), b);
    }
  }

  /** File and ring together are the stream after every block of the run. */
  ghost predicate FaithfulThroughout(s: Rec, blocks: seq<seq<Byte>>)
    requires |s.ring| == RING && s.index <= RING && Sized(blocks)
  {
    forall n :: 0 <= n <= |blocks| ==> Recorded(OnceAll(s, blocks[..n])) == Recorded(s) + Concat(blocks[..n])
  }

  /** A block that does not fit leaves a whole ring of bytes uncounted. */
  lemma MisfitLoses(t: Rec, b: seq<Byte>)
    requires Inv(t) && |b| <= RING && !BlockFits(t, |b|) && |Recorded(t)| + |b| <= |t.file| + t.room
    ensures |Recorded(Once(t, b))| == |Recorded(t)| + |b| - RING
  {
  }

  lemma {:induction false} FitPrefix(s: Rec, blocks: seq<seq<Byte>>, n: nat)
    requires |s.ring| == RING && s.index <= RING && Sized(blocks) && AllFit(s, blocks) && n <= |blocks|
    ensures AllFit(s, blocks[..n]) && |Concat(blocks[..n])| <= |Concat(blocks)|
    decreases |blocks|
  {
    hide BlockFits, OnceAll;
    if n < |blocks| {
      var init := blocks[..|blocks| - 1];
      FitPrefix(s, init, n);
      assert init[..n] == blocks[..n];
    } else {
      assert blocks[..n] == blocks;
    }
  }

  /** Over every run with room on the disk, file and ring together are the header and all bytes at every moment
      exactly when every block fits at its turn. */
  lemma {:induction false} RunExact(s: Rec, blocks: seq<seq<Byte>>)
    requires Inv(s) && Sized(blocks) && |Recorded(s)| + |Concat(blocks)| <= |s.file| + s.room
    ensures FaithfulThroughout(s, blocks) <==> AllFit(s, blocks)
    decreases |blocks|
  {
    assert |s.ring| == RING && s.index <= RING;
    hide Inv, Recorded, BlockFits, OnceAll, Concat;
    if AllFit(s, blocks) {
      forall n | 0 <= n <= |blocks| ensures Recorded(OnceAll(s, blocks[..n])) == Recorded(s) + Concat(blocks[..n]) {
        FitPrefix(s, blocks, n);
        RunIsFaithful(s, blocks[..n]);
      }
    } else {
      MisfitSeen(s, blocks);
    }
  }

  lemma {:induction false} MisfitSeen(s: Rec, blocks: seq<seq<Byte>>)
    requires Inv(s) && Sized(blocks) && |Recorded(s)| + |Concat(blocks)| <= |s.file| + s.room && !AllFit(s, blocks)
    ensures !FaithfulThroughout(s, blocks)
    decreases |blocks|
  {
    var init, last := blocks[..|blocks| - 1], blocks[|blocks| - 1];
    LastBlock(s, blocks);
    hide Inv, Recorded, BlockFits, Once, OnceAll, Concat, AllFit, FaithfulThroughout;
    if AllFit(s, init) {
      MisfitLast(s, blocks);
    } else {
      MisfitSeen(s, init);
      if FaithfulThroughout(s, blocks) { FaithfulPrefix(s, blocks); }
    }
  }

  lemma FaithfulPrefix(s: Rec, blocks: seq<seq<Byte>>)
    requires |s.ring| == RING && s.index <= RING && Sized(blocks) && blocks != [] && FaithfulThroughout(s, blocks)
    ensures FaithfulThroughout(s, blocks[..|blocks| - 1])
  {
    hide Recorded, OnceAll, Concat;
    var init := blocks[..|blocks| - 1];
    forall n | 0 <= n <= |init| ensures Recorded(OnceAll(s, init[..n])) == Recorded(s) + Concat(init[..n]) {
      assert init[..n] == blocks[..n];
    }
  }

  lemma MisfitLast(s: Rec, blocks: seq<seq<Byte>>)
    requires Inv(s) && Sized(blocks) && |Recorded(s)| + |Concat(blocks)| <= |s.file| + s.room && !AllFit(s, blocks)
    requires AllFit(s, blocks[..|blocks| - 1])
    ensures !FaithfulThroughout(s, blocks)
  {
    var init, last := blocks[..|blocks| - 1], blocks[|blocks| - 1];
    LastBlock(s, blocks);
    RunIsFaithful(s, init);
    MisfitLoses(OnceAll(s, init), last);
    var t := OnceAll(s, blocks);
    hide *;
    assert |Recorded(t)| == |Recorded(s)| + |Concat(blocks)| - RING;
    assert blocks[..|blocks|] == blocks;
  }

  lemma ReadBack(x: nat, a: seq<Byte>, b: seq<Byte>)
    requires x < WORD
    ensures ReadU32(a + U32(x) + b, |a|) == x
  {
    var s := a + U32(x) + b;
    assert s[|a|] == Low(x) && s[|a| + 1] == Low(x / 256);
    assert s[|a| + 2] == Low(x / 65536) && s[|a| + 3] == Low(x / 16777216);
    assert x / 65536 == x / 256 / 256 && x / 16777216 == x / 256 / 256 / 256;
  }

  /** A player's reading of the first 44 bytes: RIFF, WAVE, "fmt " and "data" tags, a format part of 16 bytes, PCM,
      one channel, the rate, a byte rate of rate times block alignment, alignment 2, 16 bits, and two lengths. */
  ghost predicate ReadsAsWav(f: seq<Byte>, rate: nat, riffLen: nat, dataLen: nat) {
    && |f| >= 44
    && f[0..4] == [0x52, 0x49, 0x46, 0x46] && ReadU32(f, 4) == riffLen
    && f[8..16] == [0x57, 0x41, 0x56, 0x45, 0x66, 0x6D, 0x74, 0x20]
    && f[16..24] == [16, 0, 0, 0, 1, 0, 1, 0]
    && ReadU32(f, 24) == rate && ReadU32(f, 28) == ReadU32(f, 24) * (f[32] as int)
    && f[32..40] == [2, 0, 16, 0, 0x64, 0x61, 0x74, 0x61] && ReadU32(f, 40) == dataLen
  }

  lemma HeaderReads(rate: nat, riffLen: nat, dataLen: nat, rest: seq<Byte>)
    requires rate * 2 < WORD && riffLen < WORD && dataLen < WORD
    ensures ReadsAsWav(Header(rate, riffLen, dataLen) + rest, rate, riffLen, dataLen)
  {
    hide ReadU32;
    var h := Header(rate, riffLen, dataLen);
    var f := h + rest;
    HeaderTags(rate, riffLen, dataLen, rest);
    ReadAt(f, 4, riffLen);
    ReadAt(f, 24, rate);
    ReadAt(f, 28, rate * 2);
    ReadAt(f, 40, dataLen);
  }

  /** The low byte comes first: 16 kHz, its byte rate, and a word of four different bytes. */
  lemma KnownWords()
    ensures U32(16000) == [0x80, 0x3E, 0, 0] && U32(32000) == [0, 0x7D, 0, 0] && U32(0x0403_0201) == [1, 2, 3, 4]
  {
  }

  lemma ReadAt(f: seq<Byte>, at: nat, x: nat)
    requires at + 4 <= |f| && f[at..at + 4] == U32(x) && x < WORD
    ensures ReadU32(f, at) == x
  {
    assert f == f[..at] + U32(x) + f[at + 4..];
    ReadBack(x, f[..at], f[at + 4..]);
  }

  lemma HeaderTags(rate: nat, riffLen: nat, dataLen: nat, rest: seq<Byte>)
    ensures var f := Header(rate, riffLen, dataLen) + rest;
      && f[0..4] == [0x52, 0x49, 0x46, 0x46] && f[4..8] == U32(riffLen)
      && f[8..16] == [0x57, 0x41, 0x56, 0x45, 0x66, 0x6D, 0x74, 0x20]
      && f[16..24] == [16, 0, 0, 0, 1, 0, 1, 0]
      && f[24..28] == U32(rate) && f[28..32] == U32(rate * 2)
      && f[32..40] == [2, 0, 16, 0, 0x64, 0x61, 0x74, 0x61] && f[40..44] == U32(dataLen)
  {
  }

  /** The closed file of every fitting run: the header, then all bytes in order; its length fields are the
      number of PCM bytes and the file size less 8. */
  lemma ClosedFile(ring: seq<Byte>, rate: nat, room: nat, blocks: seq<seq<Byte>>)
    requires |ring| == RING && Sized(blocks) && AllFit(Opened(ring, rate, room), blocks)
    requires HEADER + |Concat(blocks)| <= room && HEADER + |Concat(blocks)| < WORD
    ensures var t := OnceAll(Opened(ring, rate, room), blocks);
      var f := Closed(t, rate, Counted(blocks));
      && |Tail(t)| <= t.room
      && |f| == HEADER + |Concat(blocks)| && f[HEADER..] == Concat(blocks)
      && f[..HEADER] == Header(rate, |f| - 8, |Concat(blocks)|)
      && (rate * 2 < WORD ==> ReadsAsWav(f, rate, |f| - 8, |Concat(blocks)|))
  {
    hide Header, OnceAll, AllFit, Closed, Concat, ReadsAsWav;
    OpenedRecorded(ring, rate, room);
    RunIsFaithful(Opened(ring, rate, room), blocks);
    CloseRecorded(OnceAll(Opened(ring, rate, room), blocks), rate, Header(rate, 0, 0), Concat(blocks));
    if rate * 2 < WORD {
      HeaderReads(rate, HEADER + |Concat(blocks)| - 8, |Concat(blocks)|, Concat(blocks));
    }
  }

  lemma OpenedRecorded(ring: seq<Byte>, rate: nat, room: nat)
    requires |ring| == RING
    ensures Inv(Opened(ring, rate, room)) && Recorded(Opened(ring, rate, room)) == Header(rate, 0, 0)
    ensures |Opened(ring, rate, room).file| + Opened(ring, rate, room).room == room
  {
    hide Header;
  }

  /** Closing a faithful record: the tail completes the file and the first 44 bytes are replaced. */
  lemma CloseRecorded(t: Rec, rate: nat, h: seq<Byte>, data: seq<Byte>)
    requires Inv(t) && |h| == HEADER && Recorded(t) == h + data && |Recorded(t)| <= |t.file| + t.room
    requires HEADER + |data| < WORD
    ensures |Tail(t)| <= t.room
    ensures Closed(t, rate, HEADER + |data|) == Header(rate, HEADER + |data| - 8, |data|) + data
  {
    hide Header;
    assert Pending(t) == Tail(t);
    assert SaveFinal(t).file == h + data;
    assert (h + data)[HEADER..] == data;
  }

  /** Blocks of exactly half a ring, as the PCM path records them: they always fit. */
  lemma {:induction false} PcmBlocksFit(s: Rec, blocks: seq<seq<Byte>>)
    requires |s.ring| == RING && s.index == HEADER && !s.flag
    requires forall k :: 0 <= k < |blocks| ==> |blocks[k]| == HALF
    ensures Sized(blocks) && AllFit(s, blocks)
    ensures var t := OnceAll(s, blocks);
      t.flag == (|blocks| % 2 == 1) && t.index == HEADER + (if t.flag then HALF else 0)
    decreases |blocks|
  {
    if blocks != [] {
      PcmBlocksFit(s, blocks[..|blocks| - 1]);
    }
  }

  /** Blocks shorter than half a ring fit after any fitting run. */
  lemma {:induction false} ShortBlocksFit(s: Rec, blocks: seq<seq<Byte>>)
    requires Inv(s) && forall k :: 0 <= k < |blocks| ==> |blocks[k]| < HALF
    requires |Recorded(s)| + |Concat(blocks)| <= |s.file| + s.room
    ensures Sized(blocks) && AllFit(s, blocks)
    decreases |blocks|
  {
    if blocks != [] {
      var init := blocks[..|blocks| - 1];
      ShortBlocksFit(s, init);
      RunIsFaithful(s, init);
      FittingSizes(OnceAll(s, init), |blocks[|blocks| - 1]|);
    }
  }

  /** The one arrangement of half-ring blocks that loses data: the ring exactly full, then a half block. */
  lemma FullRingLosesHalf(s: Rec, b: seq<Byte>)
    requires Inv(s) && s.index == RING && |b| == HALF && HALF <= s.room
    ensures !Faithful(s, b) && |Recorded(Once(s, b))| == |Recorded(s)| - HALF
  {
    OnceExact(s, b);
  }
}
