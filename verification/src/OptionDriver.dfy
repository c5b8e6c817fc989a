/** The calls of ap_state_config.c as they change the global record, the sector and the CRC table. */
module OptionDriver {
  import opened Crc32
  import opened CrcDetection
  import CrcReference
  import opened OptionStore

  function Turns(c: bv32, n: nat): bv32
    decreases n
  {
    if n == 0 then c else Shift(Turns(c, n - 1))
  }

  lemma EightTurns(c: bv32)
    ensures Turns(c, 8) == Shift8(c)
  {
    hide Shift;
  }

  predicate IsByte(x: bv32) { x <= 0xFF }

  function Index(x: bv32): int { x as int }

  /** The table has been built; entry 1 of a built table is never 0. */
  ghost predicate Built(t: seq<bv32>) {
    |t| == 256 && forall x: bv32 :: IsByte(x) ==> 0 <= Index(x) < 256 && t[Index(x)] == Shift8(x)
  }

  lemma EntryOne()
    ensures Shift8(1) != 0
  {
    assert Shift(1) == 0xEDB8_8320;
    assert Shift(0xEDB8_8320) == 0x76DC_4190;
    assert Shift(0x76DC_4190) == 0x3B6E_20C8;
    assert Shift(0x3B6E_20C8) == 0x1DB7_1064;
    assert Shift(0x1DB7_1064) == 0x0EDB_8832;
    assert Shift(0x0EDB_8832) == 0x076D_C419;
    assert Shift(0x076D_C419) == 0xEE0E_612C;
    assert Shift(0xEE0E_612C) == 0x7707_3096;
  }

  /** A built table is recognised: CRC_cal builds it once. */
  lemma BuiltShows(t: seq<bv32>)
    requires Built(t)
    ensures t[1] != 0
  {
    EntryOne();
    hide Shift8;
    assert IsByte(1) && Index(1) == 1;
  }

  lemma IndexRoundTrip(x: bv32)
    requires IsByte(x)
    ensures 0 <= Index(x) < 256 && Index(x) as bv32 == x
  {
  }

  lemma LowIsByte(x: bv32)
    ensures IsByte(Low(x))
  {
  }

  lemma StateNil(c: bv32)
    ensures State(c, []) == c
  {
  }

  class Config {
    const layout: Layout
    var ram: Record             // Global_User_Optins
    var nv: Record              // the non-volatile sector
    const table: array<bv32>    // CRC32_tbl

    function Now(): World
      reads this
    {
      World(ram, nv)
    }

    ghost predicate Valid()
      reads this, table
    {
      Fits(layout, Now()) && table.Length == 256 && (table[1] == 0 || Built(table[..]))
    }

    constructor (layout: Layout, w: World)
      requires Fits(layout, w)
      ensures Valid() && this.layout == layout && Now() == w && fresh(table)
    {
      this.layout, ram, nv := layout, w.ram, w.nv;
      table := new bv32[256](_ => 0);
    }

    /** The inner loop of CRC32tbl_init. */
    static method TableEntry(i: bv32) returns (c: bv32)
      ensures c == Shift8(i)
    {
      c := i;
      for j := 0 to 8
        invariant c == Turns(i, j)
      {
        c := ShiftOnce(c);
      }
      EightTurns(i);
    }

    static method ShiftOnce(c: bv32) returns (d: bv32)
      ensures d == Shift(c)
    {
      d := if c & 1 == 1 then (c >> 1) ^ POLY else c >> 1;
    }

    /** CRC32tbl_init. */
    method TableInit()
      requires table.Length == 256
      modifies table
      ensures Built(table[..])
    {
      hide Shift8;
      for i := 0 to 256
        invariant forall k :: 0 <= k < i ==> table[k] == Shift8(k as bv32)
      {
        table[i] := TableEntry(i as bv32);
      }
      forall x: bv32 | IsByte(x) ensures 0 <= Index(x) < 256 && table[..][Index(x)] == Shift8(x) {
        IndexRoundTrip(x);
      }
    }

    /** One look-up. */
    method LookUp(c: bv32, b: bv8) returns (d: bv32)
      requires Built(table[..])
      ensures d == Update(c, b)
    {
      hide Shift8, Xor, Low, Down, Wide, Index, IsByte;
      var k := Low(Xor(c, Wide(b)));
      LowIsByte(Xor(c, Wide(b)));
      assert table[..][Index(k)] == Shift8(k);
      d := Xor(Down(c), table[Index(k)]);
    }

    static method Emit(value: bv32) returns (crc: seq<bv8>)
      ensures crc == Bytes(value) && |crc| == 4
    {
      crc := [(value & 0xFF) as bv8, ((value >> 8) & 0xFF) as bv8,
              (((value >> 8) >> 8) & 0xFF) as bv8, ((((value >> 8) >> 8) >> 8) & 0xFF) as bv8];
    }

    /** CRC_cal: builds the table on first use. */
    method CrcCal(buf: seq<bv8>) returns (crc: seq<bv8>)
      requires Valid()
      modifies table
      ensures Valid() && Built(table[..]) && crc == Crc(buf) && |crc| == 4
      ensures crc == CrcReference.Reference(buf)
      ensures table[1] != 0
    {
      hide Shift8, Update, Bytes, State, Not, Index, IsByte, CrcReference.Reference;
      CrcReference.CrcIsReference(buf);
      StateNil(START);
      if table[1] == 0 {
        TableInit();
      }
      var c := START;
      for i := 0 to |buf|
        invariant Built(table[..])
        invariant c == State(START, buf[..i])
      {
        StateSnoc(START, buf[..i], buf[i]);
        assert buf[..i + 1] == buf[..i] + [buf[i]];
        c := LookUp(c, buf[i]);
      }
      assert buf[..|buf|] == buf;
      BuiltShows(table[..]);
      crc := Emit(Not(c));
    }

    /** ap_state_config_default_set; `defaults` is what the resource file provides. */
    method CallDefaultSet(defaults: Record)
      requires Valid() && FitsRecord(layout, defaults)
      modifies this`ram
      ensures Valid() && Now() == DefaultSet(layout, old(Now()), defaults)
    {
      ram := defaults;
      ram := ram.(item := ram.item[layout.dirty := 1]);
    }

    /** ap_state_config_initial. */
    method CallInitial(ok: bool, defaults: Record)
      requires Valid() && FitsRecord(layout, defaults)
      modifies this`ram
      ensures Valid() && Now() == Initial(layout, old(Now()), ok, defaults)
    {
      ram := ram.(item := ram.item[layout.dirty := 0]);
      if !ok {
        CallDefaultSet(defaults);
      }
    }

    /** ap_state_config_load. */
    method CallLoad() returns (ok: bool)
      requires Valid()
      modifies this`ram, table
      ensures Valid()
      ensures Now() == Load(old(Now()))
      ensures ok == LoadAccepts(old(Now()))
    {
      hide Shift8, Crc;
      ram := nv;
      var expected := CrcCal(ram.item);
      ok := expected == ram.crc;
    }

    /** The setters: one byte of the record, or the four bytes of the base day. */
    method CallSet(at: nat, bytes: seq<bv8>)
      requires Valid() && at + |bytes| <= layout.size
      modifies this`ram
      ensures Valid() && Now() == Set(layout, old(Now()), at, bytes)
    {
      if ram.item[at..at + |bytes|] != bytes {
        ram := ram.(item := ram.item[..at] + bytes + ram.item[at + |bytes|..]);
        ram := ram.(item := ram.item[layout.dirty := 1]);
      }
    }

    /** ap_state_config_store; `first` and `second` are what the two writes leave in the sector. */
    method CallStore(first: Record, second: Record)
      requires Valid() && FitsRecord(layout, first) && FitsRecord(layout, second)
      modifies this, table
      ensures Valid() && Now() == Store(layout, old(Now()), first, second)
    {
      hide Shift8, Crc;
      if ram.item[layout.dirty] == 1 {
        var check := CrcCal(ram.item);
        ram := ram.(crc := check);
        nv := first;
        var userItem := ram.item;
        ram := nv;
        if userItem != ram.item {
          ram := ram.(item := userItem);
          check := CrcCal(ram.item);
          ram := ram.(crc := check);
          nv := second;
        }
        ram := ram.(item := ram.item[layout.dirty := 0]);
      }
    }
  }
}
