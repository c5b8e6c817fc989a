/** The user options: a record in RAM with a dirty flag among its bytes, its copy in non-volatile memory
    guarded by a CRC, and the calls that load, change and store it. */
module OptionStore {
  import opened Crc32
  import opened CrcDetection

  /** The bytes of the options and their four check bytes, in RAM and in the non-volatile sector alike. */
  datatype Record = Record(item: seq<bv8>, crc: seq<bv8>)

  datatype World = World(ram: Record, nv: Record)

  /** Where the dirty flag sits among `size` option bytes. */
  datatype Layout = Layout(size: nat, dirty: nat)

  predicate Fits(l: Layout, w: World) {
    l.dirty < l.size && |w.ram.item| == |w.nv.item| == l.size && |w.ram.crc| == |w.nv.crc| == 4
  }

  predicate FitsRecord(l: Layout, r: Record) { |r.item| == l.size && |r.crc| == 4 }

  /** The options a user sees: every byte but the dirty flag. */
  predicate SameOptions(l: Layout, s: seq<bv8>, t: seq<bv8>)
    requires l.dirty < l.size == |s| == |t|
  {
    s[l.dirty := 0] == t[l.dirty := 0]
  }

  predicate Matching(r: Record) { r.crc == Crc(r.item) }

  // ---- the calls ---------------------------------------------------------------------------------

  function Load(w: World): World { w.(ram := w.nv) }

  predicate LoadAccepts(w: World) { Matching(w.nv) }

  /** `defaults` is what the resource file leaves in the cleared record. */
  function DefaultSet(l: Layout, w: World, defaults: Record): World
    requires Fits(l, w) && FitsRecord(l, defaults)
  {
    w.(ram := defaults.(item := defaults.item[l.dirty := 1]))
  }

  function Initial(l: Layout, w: World, ok: bool, defaults: Record): World
    requires Fits(l, w) && FitsRecord(l, defaults)
  {
    if ok then w.(ram := w.ram.(item := w.ram.item[l.dirty := 0])) else DefaultSet(l, w, defaults)
  }

  /** Power-up: load, then initialise with the result of the load. */
  function Boot(l: Layout, w: World, defaults: Record): World
    requires Fits(l, w) && FitsRecord(l, defaults)
  {
    Initial(l, Load(w), LoadAccepts(w), defaults)
  }

  /** A setter: `bytes` is written at `at` and the record marked dirty, but only on a change. */
  function Set(l: Layout, w: World, at: nat, bytes: seq<bv8>): World
    requires Fits(l, w) && at + |bytes| <= l.size
  {
    var s := w.ram.item;
    if s[at..at + |bytes|] == bytes then w
    else w.(ram := w.ram.(item := (s[..at] + bytes + s[at + |bytes|..])[l.dirty := 1]))
  }

  /** After a setter the options hold the new bytes and otherwise the old ones, and the flag has become set
      exactly on a change. */
  lemma SetExact(l: Layout, w: World, at: nat, bytes: seq<bv8>)
    requires Fits(l, w) && at + |bytes| <= l.size && !(at <= l.dirty < at + |bytes|)
    ensures var v := Set(l, w, at, bytes);
      && Fits(l, v) && v.nv == w.nv && v.ram.crc == w.ram.crc
      && v.ram.item[at..at + |bytes|] == bytes
      && (forall i :: 0 <= i < l.size && i != l.dirty && !(at <= i < at + |bytes|) ==> v.ram.item[i] == w.ram.item[i])
      && (IsDirty(l, v) <==> IsDirty(l, w) || w.ram.item[at..at + |bytes|] != bytes)
  {
    var s := w.ram.item;
    var t := s[..at] + bytes + s[at + |bytes|..];
    assert t[at..at + |bytes|] == bytes;
    assert t[l.dirty := 1][at..at + |bytes|] == bytes;
    assert forall i :: 0 <= i < l.size && !(at <= i < at + |bytes|) ==> t[i] == s[i];
  }

  predicate IsDirty(l: Layout, w: World)
    requires Fits(l, w)
  {
    w.ram.item[l.dirty] == 1
  }

  /** What the store call sends to the sector. */
  function Written(w: World): Record { Record(w.ram.item, Crc(w.ram.item)) }

  /** `first` and `second` are what the first write and the retry leave in the sector, whatever that is.
      The read-back compares the option bytes only. */
  function Store(l: Layout, w: World, first: Record, second: Record): World
    requires Fits(l, w) && FitsRecord(l, first)
  {
    if !IsDirty(l, w) then w
    else if first.item == w.ram.item then
      World(first.(item := first.item[l.dirty := 0]), first)
    else
      World(Record(w.ram.item[l.dirty := 0], Crc(w.ram.item)), second)
  }

  // ---- one store ---------------------------------------------------------------------------------

  /** No write error, seen or unseen, costs an option in RAM, and the flag is clear afterwards. */
  lemma StoreKeepsOptions(l: Layout, w: World, first: Record, second: Record)
    requires Fits(l, w) && FitsRecord(l, first) && FitsRecord(l, second)
    ensures var v := Store(l, w, first, second);
      && Fits(l, v)
      && SameOptions(l, v.ram.item, w.ram.item)
      && (IsDirty(l, w) ==> v.ram.item[l.dirty] == 0)
  {
  }

  /** The first write went wrong in the check bytes alone. */
  predicate SilentlyCorrupted(w: World, first: Record) { first.item == w.ram.item && first.crc != Crc(w.ram.item) }

  /** The first write went wrong unnoticed, or noticed, and the retry went wrong too. */
  predicate Spoiled(l: Layout, w: World, first: Record, second: Record)
    requires Fits(l, w) && FitsRecord(l, first) && FitsRecord(l, second)
  {
    SilentlyCorrupted(w, first)
    || (first.item != w.ram.item && !(Matching(second) && SameOptions(l, second.item, w.ram.item)))
  }

  /** Whatever the two writes leave, the sector is good after a store exactly unless the first write spoiled only
      the check bytes, which are not read back, or it spoiled an option byte and the retry, which is not read back
      at all, failed as well. With a faithful retry the first is the only case. */
  lemma StoreIsGood(l: Layout, w: World, first: Record, second: Record)
    requires Fits(l, w) && FitsRecord(l, first) && FitsRecord(l, second) && IsDirty(l, w)
    ensures var v := Store(l, w, first, second);
      (Matching(v.nv) && SameOptions(l, v.nv.item, w.ram.item)) <==> !Spoiled(l, w, first, second)
    ensures second == Written(w) ==> (Spoiled(l, w, first, second) <==> SilentlyCorrupted(w, first))
  {
  }

  /** What a good store saved is what the next power-up loads; after one that left check bytes that do not match,
      it takes the defaults. */
  lemma StoreThenBoot(l: Layout, w: World, first: Record, second: Record, defaults: Record)
    requires Fits(l, w) && FitsRecord(l, first) && FitsRecord(l, second) && FitsRecord(l, defaults) && IsDirty(l, w)
    ensures var v := Store(l, w, first, second);
      var b := Boot(l, v, defaults);
      && (!Spoiled(l, w, first, second) ==> b.ram.item == v.ram.item == w.ram.item[l.dirty := 0])
      && (!Matching(v.nv) ==> b.ram.item == defaults.item[l.dirty := 1])
  {
    assert w.ram.item[l.dirty := 0][l.dirty := 0] == w.ram.item[l.dirty := 0];
  }

  /** A stored record that was changed inside four consecutive bytes is refused at power-up, and the
      defaults are taken and marked dirty. */
  lemma BootRefusesChange(l: Layout, w: World, good: Record, i: nat, defaults: Record)
    requires Fits(l, w) && FitsRecord(l, good) && FitsRecord(l, defaults)
    requires Matching(good) && w.nv != good
    requires DifferWithin(good.item + good.crc, w.nv.item + w.nv.crc, i)
    ensures !LoadAccepts(w)
    ensures Boot(l, w, defaults).ram.item == defaults.item[l.dirty := 1] && IsDirty(l, Boot(l, w, defaults))
  {
    ChangeIsDetected(good.item, good.crc, w.nv.item, w.nv.crc, i);
  }

  // ---- every run ---------------------------------------------------------------------------------

  datatype Call =
    | CallSet(at: nat, bytes: seq<bv8>)
    | CallDefault(defaults: Record)
    | CallStore(first: Record, second: Record)
    | CallBoot(defaults: Record)

  predicate InScope(l: Layout, c: Call) {
    match c
    case CallSet(at, bytes) => at + |bytes| <= l.size && !(at <= l.dirty < at + |bytes|)
    case CallDefault(d) => FitsRecord(l, d)
    case CallStore(first, second) => FitsRecord(l, first) && FitsRecord(l, second)
    case CallBoot(d) => FitsRecord(l, d)
  }

  function Do(l: Layout, w: World, c: Call): (v: World)
    requires Fits(l, w) && InScope(l, c)
    ensures Fits(l, v)
  {
    match c
    case CallSet(at, bytes) => Set(l, w, at, bytes)
    case CallDefault(d) => DefaultSet(l, w, d)
    case CallStore(first, second) => Store(l, w, first, second)
    case CallBoot(d) => Boot(l, w, d)
  }

  /** A clear flag means the sector holds the options of RAM under matching check bytes. */
  ghost predicate Inv(l: Layout, w: World) {
    && Fits(l, w)
    && (w.ram.item[l.dirty] == 0 || w.ram.item[l.dirty] == 1)
    && (w.ram.item[l.dirty] == 0 ==> Matching(w.nv) && SameOptions(l, w.nv.item, w.ram.item))
  }

  predicate RunInScope(l: Layout, run: seq<Call>) { forall c :: c in run ==> InScope(l, c) }

  function DoAll(l: Layout, w: World, run: seq<Call>): (v: World)
    requires Fits(l, w) && RunInScope(l, run)
    ensures Fits(l, v)
  {
    if run == [] then w else
      assert run[|run| - 1] in run;
      Do(l, DoAll(l, w, run[..|run| - 1]), run[|run| - 1])
  }

  /** The call is a store whose writes go wrong unnoticed. */
  predicate Spoils(l: Layout, w: World, c: Call)
    requires Fits(l, w) && InScope(l, c)
  {
    c.CallStore? && IsDirty(l, w) && Spoiled(l, w, c.first, c.second)
  }

  ghost predicate SomeSpoils(l: Layout, w: World, run: seq<Call>)
    requires Fits(l, w) && RunInScope(l, run)
  {
    exists k :: 0 <= k < |run| && Spoils(l, DoAll(l, w, run[..k]), run[k])
  }

  lemma DoKeepsInv(l: Layout, w: World, c: Call)
    requires Inv(l, w) && InScope(l, c)
    requires !Spoils(l, w, c)
    ensures Inv(l, Do(l, w, c))
  {
    match c
    case CallSet(at, bytes) =>
    case CallDefault(d) =>
    case CallStore(first, second) =>
      if IsDirty(l, w) {
        StoreIsGood(l, w, first, second);
        StoreKeepsOptions(l, w, first, second);
      }
    case CallBoot(d) =>
  }

  /** The invariant holds after power-up from any sector contents and through every run after it, as long
      as no store was spoiled. */
  lemma {:induction false} FlagTellsTheTruth(l: Layout, w: World, defaults: Record, run: seq<Call>)
    requires Fits(l, w) && FitsRecord(l, defaults) && RunInScope(l, run)
    requires !SomeSpoils(l, Boot(l, w, defaults), run)
    ensures Inv(l, DoAll(l, Boot(l, w, defaults), run))
    decreases |run|
  {
    var b := Boot(l, w, defaults);
    if run != [] {
      var n := |run| - 1;
      var t := run[..n];
      forall k | 0 <= k < n ensures t[..k] == run[..k] { }
      assert run[n] in run;
      FlagTellsTheTruth(l, w, defaults, t);
      DoKeepsInv(l, DoAll(l, b, t), run[n]);
    }
  }

  /** The condition cannot be dropped: a spoiled store leaves a clear flag over a sector that does not have the
      options. */
  lemma SpoiledStoreBreaks(l: Layout, w: World, first: Record, second: Record)
    requires Fits(l, w) && FitsRecord(l, first) && FitsRecord(l, second) && IsDirty(l, w)
    requires Spoiled(l, w, first, second)
    ensures var v := Store(l, w, first, second);
      && v.ram.item[l.dirty] == 0 && !Inv(l, v)
      && (LoadAccepts(v) ==> !SameOptions(l, v.nv.item, v.ram.item))
  {
  }

  // ---- exactly which runs ------------------------------------------------------------------------

  /** At no moment of the run does a clear flag lie. */
  ghost predicate TrueThroughout(l: Layout, w: World, run: seq<Call>)
    requires Fits(l, w) && RunInScope(l, run)
  {
    forall k :: 0 <= k <= |run| ==> Inv(l, DoAll(l, w, run[..k]))
  }

  /** Cutting the power while the flag is clear loses no option, whatever the defaults are. */
  ghost predicate SurvivesCut(l: Layout, w: World)
    requires Fits(l, w)
  {
    w.ram.item[l.dirty] == 0 ==>
      forall d :: FitsRecord(l, d) ==> SameOptions(l, Boot(l, w, d).ram.item, w.ram.item)
  }

  ghost predicate SafeThroughout(l: Layout, w: World, run: seq<Call>)
    requires Fits(l, w) && RunInScope(l, run)
  {
    forall k :: 0 <= k <= |run| ==> SurvivesCut(l, DoAll(l, w, run[..k]))
  }

  lemma InvSurvivesCut(l: Layout, w: World)
    requires Inv(l, w)
    ensures SurvivesCut(l, w)
  {
  }

  /** A sector that is refused gives the defaults, and one that is not gives what it has: not these options. */
  lemma WrongSectorLosesOptions(l: Layout, w: World)
    requires Fits(l, w) && l.size >= 2 && w.ram.item[l.dirty] == 0
    requires LoadAccepts(w) ==> !SameOptions(l, w.nv.item, w.ram.item)
    ensures !SurvivesCut(l, w)
  {
    var i := if l.dirty == 0 then 1 else 0;
    var s := w.ram.item;
    var d := Record(s[i := if s[i] == 0 then 1 else 0], w.ram.crc);
    assert FitsRecord(l, d);
    if LoadAccepts(w) {
      assert w.nv.item[l.dirty := 0][l.dirty := 0] == w.nv.item[l.dirty := 0];
      assert !SameOptions(l, Boot(l, w, d).ram.item, s);
    } else {
      assert Boot(l, w, d).ram.item == d.item[l.dirty := 1];
      assert d.item[l.dirty := 1][l.dirty := 0][i] != s[l.dirty := 0][i];
    }
  }

  /** The moment after a spoiled store. */
  lemma {:induction false} SpoiledMoment(l: Layout, w: World, run: seq<Call>, k: nat)
    requires Fits(l, w) && RunInScope(l, run) && k < |run| && Spoils(l, DoAll(l, w, run[..k]), run[k])
    ensures var v := DoAll(l, w, run[..k + 1]);
      v.ram.item[l.dirty] == 0 && (LoadAccepts(v) ==> !SameOptions(l, v.nv.item, v.ram.item)) && !Inv(l, v)
  {
    var t := run[..k + 1];
    assert t[..|t| - 1] == run[..k] && t[|t| - 1] == run[k] && run[k] in run;
    SpoiledStoreBreaks(l, DoAll(l, w, run[..k]), run[k].first, run[k].second);
  }

  lemma PrefixNotSpoiled(l: Layout, w: World, run: seq<Call>, k: nat)
    requires Fits(l, w) && RunInScope(l, run) && k <= |run| && !SomeSpoils(l, w, run)
    ensures !SomeSpoils(l, w, run[..k])
  {
    var t := run[..k];
    forall j | 0 <= j < k ensures t[..j] == run[..j] && t[j] == run[j] {
    }
  }

  /** Over every run after power-up, from any sector contents and whatever every write leaves: the flag tells the
      truth at every moment, and a power cut while it is clear never loses an option, exactly when no store was
      spoiled. */
  lemma FlagExact(l: Layout, w: World, defaults: Record, run: seq<Call>)
    requires Fits(l, w) && FitsRecord(l, defaults) && RunInScope(l, run)
    ensures TrueThroughout(l, Boot(l, w, defaults), run) <==> !SomeSpoils(l, Boot(l, w, defaults), run)
    ensures l.size >= 2 ==>
      (SafeThroughout(l, Boot(l, w, defaults), run) <==> !SomeSpoils(l, Boot(l, w, defaults), run))
  {
    var b := Boot(l, w, defaults);
    hide Boot, Inv, SurvivesCut, Spoils;
    if SomeSpoils(l, b, run) {
      var k :| 0 <= k < |run| && Spoils(l, DoAll(l, b, run[..k]), run[k]);
      SpoiledMoment(l, b, run, k);
      if l.size >= 2 { WrongSectorLosesOptions(l, DoAll(l, b, run[..k + 1])); }
    } else {
      forall k | 0 <= k <= |run| ensures Inv(l, DoAll(l, b, run[..k])) && SurvivesCut(l, DoAll(l, b, run[..k])) {
        PrefixNotSpoiled(l, b, run, k);
        FlagTellsTheTruth(l, w, defaults, run[..k]);
        InvSurvivesCut(l, DoAll(l, b, run[..k]));
      }
    }
  }
}
