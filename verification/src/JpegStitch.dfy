/** A large photo is encoded strip by strip; the strips are patched and written one behind the other so that
    they read as one JPEG scan with restart markers (ITU-T T.81, sections B.1.1.3 and B.2.1). */
module JpegStitch {
  import opened Bytes

  const STRIPS := 45                   // PIC_HEIGH / 32
  const PAD: Byte := 0x55
  const MARK: Byte := 0xFF
  const EOI: Byte := 0xD9

  /** What the encoder hardware leaves of one strip: entropy-coded bytes in front of an end marker, or
      nothing when scaler or encoder could not be started. */
  datatype Strip = Encoded(bytes: seq<Byte>) | Failed

  function Restart(k: nat): Byte { 0xD0 + k % 8 }

  function RoundUp16(n: nat): nat { (n + 15) / 16 * 16 }

  /** Bytes between the entropy-coded data and the marker. */
  function PadLength(n: nat): nat { RoundUp16(n + 2) - (n + 2) }

  function Pads(n: nat): (r: seq<Byte>)
    ensures |r| == n && forall i :: 0 <= i < n ==> r[i] == PAD
  {
    seq(n, _ => PAD)
  }

  /** The patched strip: its bytes, padding to a whole number of 16, and its marker. */
  function Data(e: seq<Byte>): seq<Byte> { e + Pads(PadLength(|e|)) }

  function Patched(e: seq<Byte>, marker: Byte): seq<Byte> { Data(e) + [MARK, marker] }

  lemma PatchedSize(e: seq<Byte>, marker: Byte)
    ensures |Patched(e, marker)| == RoundUp16(|e| + 2) && |Patched(e, marker)| % 16 == 0
  {
  }

  /** The last strip ends the picture. */
  function MarkerOf(k: nat, n: nat): Byte { if k + 1 == n then EOI else Restart(k) }

  /** What is written for strip k. */
  function Part(strips: seq<Strip>, k: nat): seq<Byte>
    requires k < |strips|
  {
    if strips[k].Encoded? then Patched(strips[k].bytes, MarkerOf(k, |strips|)) else []
  }

  /** The part of the file written for strip k on. */
  function FileFrom(strips: seq<Strip>, k: nat): seq<Byte>
    decreases |strips| - k
  {
    if k >= |strips| then []
    else Part(strips, k) + FileFrom(strips, k + 1)
  }

  // ---- reading it back ---------------------------------------------------------------------------

  /** A stretch of entropy-coded data and the marker behind it. */
  datatype Segment = Segment(data: seq<Byte>, marker: Byte)

  /** A marker is 0xFF and a byte that is not 0 (B.1.1.2; 0xFF 0x00 is a data byte, B.1.1.5). */
  predicate MarkerAt(s: seq<Byte>, p: nat) { p + 1 < |s| && s[p] == 0xFF && s[p + 1] != 0 }

  function FirstMarker(s: seq<Byte>, p: nat): (r: nat)
    requires p <= |s|
    ensures p <= r <= |s|
    ensures forall i :: p <= i < r ==> !MarkerAt(s, i)
    ensures r < |s| ==> MarkerAt(s, r)
    decreases |s| - p
  {
    if p == |s| || MarkerAt(s, p) then p else FirstMarker(s, p + 1)
  }

  /** A reader that knows nothing of strips or padding. */
  function Segments(s: seq<Byte>): seq<Segment>
    decreases |s|
  {
    var p := FirstMarker(s, 0);
    if p == |s| then [] else [Segment(s[..p], s[p + 1])] + Segments(s[p + 2..])
  }

  /** Entropy-coded data as encoders leave it: every 0xFF is followed by a 0 (B.1.1.5). */
  ghost predicate Stuffed(e: seq<Byte>) {
    forall i :: 0 <= i < |e| && e[i] == 0xFF ==> i + 1 < |e| && e[i + 1] == 0
  }

  ghost predicate AllStuffed(strips: seq<Strip>) {
    forall k :: 0 <= k < |strips| && strips[k].Encoded? ==> Stuffed(strips[k].bytes)
  }

  /** The segments a reader should find for the strips from k on. */
  function Wanted(strips: seq<Strip>, k: nat): seq<Segment>
    decreases |strips| - k
  {
    if k >= |strips| then []
    else (if strips[k].Encoded? then [Segment(Data(strips[k].bytes), MarkerOf(k, |strips|))] else [])
         + Wanted(strips, k + 1)
  }

  lemma MarkerFound(e: seq<Byte>, marker: Byte, rest: seq<Byte>)
    requires Stuffed(e) && marker != 0
    ensures FirstMarker(Patched(e, marker) + rest, 0) == |Data(e)|
  {
    var s := Patched(e, marker) + rest;
    var n := |Data(e)|;
    assert s[n] == MARK && s[n + 1] == marker;
    assert MarkerAt(s, n);
    forall i | 0 <= i < n ensures !MarkerAt(s, i) {
      assert s[i] == Data(e)[i];
      if i < |e| && e[i] == MARK { assert s[i + 1] == Data(e)[i + 1]; }
    }
  }

  lemma ReadOne(e: seq<Byte>, marker: Byte, rest: seq<Byte>)
    requires Stuffed(e) && marker != 0
    ensures Segments(Patched(e, marker) + rest) == [Segment(Data(e), marker)] + Segments(rest)
  {
    MarkerFound(e, marker, rest);
    hide FirstMarker, Pads, PadLength;
    var s, d := Patched(e, marker) + rest, Data(e);
    hide Data;
    var p := |d|;
    assert s == d + ([MARK, marker] + rest);
    assert s[..p] == d && s[p + 1] == marker && s[p + 2..] == rest;
  }

  /** A reader finds each strip's bytes, padded, and its marker; a failed strip is missing altogether. */
  lemma {:induction false} ReadBack(strips: seq<Strip>, k: nat)
    requires AllStuffed(strips) && k <= |strips|
    ensures Segments(FileFrom(strips, k)) == Wanted(strips, k)
    decreases |strips| - k
  {
    if k < |strips| {
      ReadBack(strips, k + 1);
      if strips[k].Encoded? {
        ReadStep(strips, k);
      } else {
        SkipStep(strips, k);
      }
      hide Segments, FileFrom, Data, MarkerOf, AllStuffed;
      assert strips[k].Failed? ==> Wanted(strips, k) == [] + Wanted(strips, k + 1) == Wanted(strips, k + 1);
    } else {
      assert FileFrom(strips, k) == [];
    }
  }

  lemma ReadStep(strips: seq<Strip>, k: nat)
    requires k < |strips| && strips[k].Encoded? && Stuffed(strips[k].bytes)
    ensures Segments(FileFrom(strips, k))
      == [Segment(Data(strips[k].bytes), MarkerOf(k, |strips|))] + Segments(FileFrom(strips, k + 1))
  {
    hide Segments, Patched, Data, MarkerOf;
    assert MarkerOf(k, |strips|) != 0 by { MarkersNonzero(k, |strips|); }
    ReadOne(strips[k].bytes, MarkerOf(k, |strips|), FileFrom(strips, k + 1));
  }

  lemma MarkersNonzero(k: nat, n: nat)
    ensures MarkerOf(k, n) != 0
  {
  }

  lemma SkipStep(strips: seq<Strip>, k: nat)
    requires k < |strips| && strips[k].Failed?
    ensures FileFrom(strips, k) == FileFrom(strips, k + 1)
  {
    assert [] + FileFrom(strips, k + 1) == FileFrom(strips, k + 1);
  }

  // ---- the whole photo ---------------------------------------------------------------------------

  ghost predicate Complete(strips: seq<Strip>) { forall k :: 0 <= k < |strips| ==> strips[k].Encoded? }

  /** How many strips were encoded, from k on. */
  function CountFrom(strips: seq<Strip>, k: nat): nat
    decreases |strips| - k
  {
    if k >= |strips| then 0 else (if strips[k].Encoded? then 1 else 0) + CountFrom(strips, k + 1)
  }

  lemma {:induction false} WantedSize(strips: seq<Strip>, k: nat)
    requires k <= |strips|
    ensures |Wanted(strips, k)| == CountFrom(strips, k) <= |strips| - k
    decreases |strips| - k
  {
    if k < |strips| {
      WantedSize(strips, k + 1);
    }
  }

  lemma {:induction false} CountAll(strips: seq<Strip>, k: nat)
    requires k <= |strips| && Complete(strips)
    ensures CountFrom(strips, k) == |strips| - k
    decreases |strips| - k
  {
    if k < |strips| {
      CountAll(strips, k + 1);
    }
  }

  lemma {:induction false} CountMissing(strips: seq<Strip>, k: nat, f: nat)
    requires k <= f < |strips| && strips[f].Failed?
    ensures CountFrom(strips, k) < |strips| - k
    decreases |strips| - k
  {
    if k < f {
      CountMissing(strips, k + 1, f);
    } else {
      WantedSize(strips, k + 1);
    }
  }

  lemma {:induction false} WantedAt(strips: seq<Strip>, k: nat, i: nat)
    requires Complete(strips) && k <= i < |strips|
    ensures i - k < |Wanted(strips, k)|
    ensures Wanted(strips, k)[i - k] == Segment(Data(strips[i].bytes), MarkerOf(i, |strips|))
    decreases |strips| - k
  {
    if k < i {
      WantedAt(strips, k + 1, i);
    }
  }

  /** The bytes and as many 0x55 behind them as make the strip, with its marker, a whole number of 16. */
  ghost predicate PaddedTo16(e: seq<Byte>, data: seq<Byte>) {
    && e <= data && |data| < |e| + 16 && (|data| + 2) % 16 == 0
    && forall i :: |e| <= i < |data| ==> data[i] == 0x55
  }

  lemma DataPadded(e: seq<Byte>)
    ensures PaddedTo16(e, Data(e))
  {
  }

  /** When every strip was encoded the file reads as all of them in order, separated by the restart markers
      0 to 7 in turn and closed by the end marker. */
  lemma PhotoReadsBack(strips: seq<Strip>)
    requires AllStuffed(strips) && Complete(strips)
    ensures var found := Segments(FileFrom(strips, 0));
      |found| == |strips| && forall k :: 0 <= k < |strips| ==>
        && PaddedTo16(strips[k].bytes, found[k].data)
        && found[k].marker == if k + 1 == |strips| then 0xD9 else 0xD0 + k % 8
  {
    hide PaddedTo16, Segments, Wanted, FileFrom, Data, CountFrom, AllStuffed;
    ReadBack(strips, 0);
    WantedSize(strips, 0);
    CountAll(strips, 0);
    forall k | 0 <= k < |strips|
      ensures Wanted(strips, 0)[k] == Segment(Data(strips[k].bytes), MarkerOf(k, |strips|))
      ensures PaddedTo16(strips[k].bytes, Wanted(strips, 0)[k].data)
    {
      WantedAt(strips, 0, k);
      DataPadded(strips[k].bytes);
    }
  }

  /** A strip that could not be encoded is reported as 0, which the caller takes for success: the photo has
      all its strips exactly when none failed. */
  lemma PhotoCompleteExact(strips: seq<Strip>)
    requires AllStuffed(strips)
    ensures |Segments(FileFrom(strips, 0))| == |strips| <==> Complete(strips)
  {
    ReadBack(strips, 0);
    WantedSize(strips, 0);
    if Complete(strips) {
      CountAll(strips, 0);
    } else {
      var f :| 0 <= f < |strips| && strips[f].Failed?;
      CountMissing(strips, 0, f);
    }
    hide *;
  }

  lemma {:induction false} FileAligned(strips: seq<Strip>, k: nat)
    ensures |FileFrom(strips, k)| % 16 == 0
    decreases |strips| - k
  {
    hide Part;
    if k < |strips| {
      FileAligned(strips, k + 1);
      PartAligned(strips, k);
    }
  }

  lemma PartAligned(strips: seq<Strip>, k: nat)
    requires k < |strips|
    ensures |Part(strips, k)| % 16 == 0
  {
    if strips[k].Encoded? { PatchedSize(strips[k].bytes, MarkerOf(k, |strips|)); }
    hide Patched, MarkerOf;
  }

  lemma SetMarker(e: seq<Byte>, m: Byte, marker: Byte)
    ensures Patched(e, m)[|Patched(e, m)| - 1 := marker] == Patched(e, marker)
  {
    hide Data;
  }

  lemma PadStart(size: nat)
    requires size >= 2 && size % 16 != 0
    ensures var n := size - 2; var temp := n % 16;
      temp != 14 && RoundUp16(size) == if temp == 15 then n + 17 else n + (14 - temp) + 2
    ensures size < RoundUp16(size) <= size + 15
  {
  }

  lemma FileGrows(strips: seq<Strip>, k: nat, file: seq<Byte>)
    requires k < |strips|
    ensures file + FileFrom(strips, k) == (file + Part(strips, k)) + FileFrom(strips, k + 1)
  {
    hide Patched;
  }

  lemma PatchedIs(s: seq<Byte>, e: seq<Byte>, marker: Byte)
    requires |s| == RoundUp16(|e| + 2) && s[|s| - 2] == MARK && s[|s| - 1] == marker
    requires forall i :: 0 <= i < |e| ==> s[i] == e[i]
    requires forall i :: |e| <= i < |s| - 2 ==> s[i] == PAD
    ensures s == Patched(e, marker)
  {
  }

  // ---- the calls ---------------------------------------------------------------------------------

  class Photo {
    const out: array<Byte>       // encode_buf
    var front: Byte              // the byte in front of it
    var file: seq<Byte>

    constructor (room: nat)
      ensures fresh(out) && out.Length == room && file == []
    {
      out := new Byte[room](_ => 0);
      front, file := 0, [];
    }

    /** The patching part of scale_up_and_encode_fifo, for a strip of `size` bytes in `out`. */
    method Patch(size: nat, restart: nat) returns (n: nat)
      requires 2 <= size && size + 15 <= out.Length && restart < 8
      requires out[size - 2] == MARK && out[size - 1] == EOI
      modifies out
      ensures n == RoundUp16(size) && n <= out.Length && n % 16 == 0 && size <= n < size + 16
      ensures out[..n] == Patched(old(out[..size - 2]), 0xD0 + restart)
      ensures forall i :: n <= i < out.Length ==> out[i] == old(out[i])
    {
      ghost var e := out[..size - 2];
      n := size;
      if n % 16 == 0 {
        out[n - 1] := 0xD0 + restart;
        PatchedIs(out[..n], e, 0xD0 + restart);
        return;
      }
      PadStart(size);
      hide RoundUp16;
      n := n - 2;
      var temp := n % 16;
      if temp == 15 {
        out[n] := PAD;
        temp, n := 0, n + 1;
      }
      while temp < 14
        invariant 0 <= temp <= 14 && size - 2 <= n && n + 2 + (14 - temp) == RoundUp16(size)
        invariant forall i :: 0 <= i < size - 2 ==> out[i] == e[i]
        invariant forall i :: size - 2 <= i < n ==> out[i] == PAD
        invariant forall i :: n <= i < out.Length && i >= size ==> out[i] == old(out[i])
      {
        out[n] := PAD;
        temp, n := temp + 1, n + 1;
      }
      out[n] := MARK;
      out[n + 1] := 0xD0 + restart;
      n := n + 2;
      PatchedIs(out[..n], e, 0xD0 + restart);
    }

    /** The hardware puts an encoded strip into `out`. */
    method Encode(s: Strip) returns (size: nat)
      requires s.Encoded? ==> |s.bytes| + 17 <= out.Length
      modifies out
      ensures s.Failed? ==> size == 0 && out[..] == old(out[..])
      ensures s.Encoded? ==> size == |s.bytes| + 2 && out[..size] == s.bytes + [MARK, EOI]
    {
      if s.Failed? {
        return 0;
      }
      size := |s.bytes| + 2;
      forall i | 0 <= i < size {
        out[i] := (s.bytes + [MARK, EOI])[i];
      }
    }

    /** scale_up_and_encode_fifo: 0 when the strip failed. */
    method EncodeStrip(s: Strip, restart: nat) returns (n: int)
      requires (s.Encoded? ==> |s.bytes| + 17 <= out.Length) && restart < 8
      modifies out
      ensures s.Failed? ==> n == 0
      ensures s.Encoded? ==> 0 < n <= out.Length && out[..n] == Patched(s.bytes, 0xD0 + restart)
    {
      var size := Encode(s);
      if s.Failed? {
        return 0;
      }
      assert out[..size][..size - 2] == s.bytes;
      assert out[size - 2] == out[..size][size - 2] && out[size - 1] == out[..size][size - 1];
      n := Patch(size, restart);
      PatchedSize(s.bytes, 0xD0 + restart);
    }

    /** One round of the capture: the last strip gets the end marker, at the place where its last byte is
        expected to be. */
    method EncodeMarked(strips: seq<Strip>, i: nat, restart: nat) returns (n: int)
      requires i < |strips| && restart == i % 8 && (strips[i].Encoded? ==> |strips[i].bytes| + 17 <= out.Length)
      modifies this`front, out
      ensures 0 <= n <= out.Length && out[..n] == Part(strips, i)
      ensures i + 1 == |strips| && strips[i].Failed? ==> front == 0xD9
    {
      n := EncodeStrip(strips[i], restart);
      if i == |strips| - 1 {
        if n == 0 {
          front := EOI;
        } else {
          assert out[..n] == Patched(strips[i].bytes, Restart(i));
          SetMarker(strips[i].bytes, Restart(i), EOI);
          ghost var was := out[..n];
          out[n - 1] := EOI;
          assert out[..n] == was[n - 1 := EOI];
        }
      }
      hide Patched;
    }

    /** The loop of scale_up_and_encode_for_capture. */
    method Capture(strips: seq<Strip>) returns (ok: bool)
      requires |strips| == STRIPS
      requires forall k :: 0 <= k < STRIPS && strips[k].Encoded? ==> |strips[k].bytes| + 17 <= out.Length
      modifies this, out
      ensures ok && file == old(file) + FileFrom(strips, 0)
      ensures strips[STRIPS - 1].Failed? ==> front == EOI
    {
      hide Part;
      var restart := 0;
      for i := 0 to STRIPS
        invariant i < STRIPS ==> restart == i % 8
        invariant file + FileFrom(strips, i) == old(file) + FileFrom(strips, 0)
        invariant i == STRIPS && strips[STRIPS - 1].Failed? ==> front == EOI
      {
        FileGrows(strips, i, file);
        hide FileFrom;
        var n := EncodeMarked(strips, i, restart);
        if n < 0 {
          return false;
        }
        file := file + out[..n];
        if i < STRIPS - 1 {
          restart := restart + 1;
          if restart >= 8 {
            restart := 0;
          }
        }
      }
      assert FileFrom(strips, STRIPS) == [];
      ok := true;
    }
  }
}
