/** Checksums of Bluetooth reports (src/vds_protocol.cc): a table-driven CRC-32 with precomputed seeds,
    against the bit-serial CRC of section 8 of RFC 1952. */
module Crc {
  import opened VdsTypes

  type byte = bv8

  const OUTPUT_SEED: bv32 := 0xeada2d49
  const FEATURE_SEED: bv32 := 0x2060efc3
  const HIDP_OUTPUT_PREFIX: byte := 0xa2
  const HIDP_SET_FEATURE_PREFIX: byte := 0x53

  // ---------------------------------------------------------------------------------------------
  // The standard's CRC, one bit at a time
  // ---------------------------------------------------------------------------------------------

  function LowBit(x: bv32): bool {
    x & 1 == 1
  }

  function Half(x: bv32): bv32 {
    x >> 1
  }

  /** Addition of polynomials. */
  function Sum(x: bv32, y: bv32): bv32 {
    x ^ y
  }

  function FeedBit(register: bv32, bit: bool): bv32 {
    if LowBit(register) != bit then Sum(Half(register), 0xedb88320) else Half(register)
  }

  /** The `n` low bits of `bits`, the least significant first. */
  function FeedBits(register: bv32, bits: bv32, n: nat): bv32
    decreases n
  {
    if n == 0 then register else FeedBits(FeedBit(register, LowBit(bits)), Half(bits), n - 1)
  }

  function FeedByte(register: bv32, b: byte): bv32 {
    FeedBits(register, b as bv32, 8)
  }

  function Feed(register: bv32, data: seq<byte>): bv32 {
    if data == [] then register else FeedByte(Feed(register, data[..|data| - 1]), data[|data| - 1])
  }

  function Crc32(data: seq<byte>): bv32 {
    Sum(Feed(0xffff_ffff, data), 0xffff_ffff)
  }

  // ---------------------------------------------------------------------------------------------
  // Feeding bits is shifting the sum
  // ---------------------------------------------------------------------------------------------

  function Shift(x: bv32): bv32 {
    FeedBit(x, false)
  }

  function Shifts(x: bv32, n: nat): bv32
    decreases n
  {
    if n == 0 then x else Shifts(Shift(x), n - 1)
  }

  function Halves(x: bv32, n: nat): bv32
    decreases n
  {
    if n == 0 then x else Halves(Half(x), n - 1)
  }

  lemma SumLow(x: bv32, y: bv32)
    ensures LowBit(Sum(x, y)) == (LowBit(x) != LowBit(y))
  {
  }

  lemma SumHalf(x: bv32, y: bv32)
    ensures Half(Sum(x, y)) == Sum(Half(x), Half(y))
  {
  }

  lemma SumAssociates(x: bv32, y: bv32, z: bv32)
    ensures Sum(Sum(x, y), z) == Sum(x, Sum(y, z))
  {
  }

  lemma SumCommutes(x: bv32, y: bv32)
    ensures Sum(x, y) == Sum(y, x)
  {
  }

  lemma SumCancels(x: bv32, y: bv32)
    ensures Sum(Sum(x, y), y) == x && Sum(x, 0) == x && Sum(x, x) == 0
  {
  }

  lemma FeedBitIsShift(register: bv32, bits: bv32)
    ensures Sum(FeedBit(register, LowBit(bits)), Half(bits)) == Shift(Sum(register, bits))
  {
    hide Sum, LowBit, Half;
    SumLow(register, bits);
    SumHalf(register, bits);
    SumAssociates(Half(register), 0xedb88320, Half(bits));
    SumCommutes(0xedb88320, Half(bits));
    SumAssociates(Half(register), Half(bits), 0xedb88320);
  }

  /** Feeding `n` bits leaves register and remaining bits as `n` shifts of their sum. */
  lemma {:induction false} FeedBitsIsShifts(register: bv32, bits: bv32, n: nat)
    ensures Sum(FeedBits(register, bits, n), Halves(bits, n)) == Shifts(Sum(register, bits), n)
    decreases n
  {
    hide FeedBit, Sum, LowBit, Half, Shift;
    if n > 0 {
      FeedBitIsShift(register, bits);
      FeedBitsIsShifts(FeedBit(register, LowBit(bits)), Half(bits), n - 1);
    }
  }

  lemma ShiftInjective(x: bv32, y: bv32)
    requires Shift(x) == Shift(y)
    ensures x == y
  {
  }

  lemma {:induction false} ShiftsInjective(x: bv32, y: bv32, n: nat)
    requires Shifts(x, n) == Shifts(y, n)
    ensures x == y
    decreases n
  {
    hide Shift;
    if n > 0 {
      ShiftsInjective(Shift(x), Shift(y), n - 1);
      ShiftInjective(x, y);
    }
  }

  lemma ShiftLinear(x: bv32, y: bv32)
    ensures Shift(Sum(x, y)) == Sum(Shift(x), Shift(y))
  {
    hide LowBit, Half, Sum;
    var a, b := Half(x), Half(y);
    SumLow(x, y);
    SumHalf(x, y);
    SumAssociates(a, b, 0xedb88320);
    SumAssociates(a, 0xedb88320, b);
    SumCommutes(0xedb88320, b);
    SumAssociates(Sum(a, 0xedb88320), b, 0xedb88320);
    SumCancels(Sum(a, b), 0xedb88320);
  }

  lemma {:induction false} ShiftsLinear(x: bv32, y: bv32, n: nat)
    ensures Shifts(Sum(x, y), n) == Sum(Shifts(x, n), Shifts(y, n))
    decreases n
  {
    hide Shift, Sum;
    if n > 0 {
      ShiftLinear(x, y);
      ShiftsLinear(Shift(x), Shift(y), n - 1);
    }
  }

  lemma {:induction false} HalvesSplit(x: bv32, m: nat, n: nat)
    ensures Halves(x, m + n) == Halves(Halves(x, m), n)
    decreases m
  {
    hide Half;
    if m > 0 {
      HalvesSplit(Half(x), m - 1, n);
    }
  }

  function Drop4(x: bv32): bv32 {
    x >> 4
  }

  function Drop8(x: bv32): bv32 {
    x >> 8
  }

  lemma Halves4(x: bv32)
    ensures Halves(x, 4) == Drop4(x)
  {
    hide Half, Drop4;
    Half4(x);
    assert Halves(x, 4) == Halves(Half(x), 3);
    assert Halves(Half(x), 3) == Halves(Half(Half(x)), 2);
    assert Halves(Half(Half(x)), 2) == Halves(Half(Half(Half(x))), 1);
  }

  lemma Half4(x: bv32)
    ensures Half(Half(Half(Half(x)))) == Drop4(x)
  {
  }

  lemma Halves8(x: bv32)
    ensures Halves(x, 8) == Drop8(x)
  {
    hide Halves, Drop4, Drop8;
    HalvesSplit(x, 4, 4);
    Halves4(x);
    Halves4(Drop4(x));
    Drop4Twice(x);
  }

  lemma Drop4Twice(x: bv32)
    ensures Drop4(Drop4(x)) == Drop8(x)
  {
  }

  /** With the low bits clear, a shift only halves. */
  ghost predicate LowClear(x: bv32, n: nat)
    decreases n
  {
    n == 0 || (!LowBit(x) && LowClear(Half(x), n - 1))
  }

  lemma {:induction false} ShiftsClear(x: bv32, n: nat)
    requires LowClear(x, n)
    ensures Shifts(x, n) == Halves(x, n)
    decreases n
  {
    hide Half, LowBit;
    if n > 0 {
      ShiftsClear(Half(x), n - 1);
    }
  }

  function HighBytes(x: bv32): bv32 {
    x & 0xffff_ff00
  }

  function LowByte(x: bv32): bv32 {
    x & 0xff
  }

  /** The bit at place `n`, counted by halving. */
  lemma {:induction false} ClearIfBits(x: bv32, n: nat)
    requires forall i: nat :: i < n ==> !LowBit(Halves(x, i))
    ensures LowClear(x, n)
    decreases n
  {
    hide Half, LowBit;
    if n > 0 {
      assert !LowBit(Halves(x, 0));
      forall i: nat | i < n - 1
        ensures !LowBit(Halves(Half(x), i))
      {
        assert !LowBit(Halves(x, i + 1));
      }
      ClearIfBits(Half(x), n - 1);
    }
  }

  lemma HalfOfShifted(x: bv32)
    ensures Half(x) == x >> 1 && Half(x >> 1) == x >> 2 && Half(x >> 2) == x >> 3 && Half(x >> 3) == x >> 4
    ensures Half(x >> 4) == x >> 5 && Half(x >> 5) == x >> 6 && Half(x >> 6) == x >> 7
  {
  }

  lemma HalvesNext(x: bv32, n: nat)
    ensures Halves(x, n + 1) == Half(Halves(x, n))
  {
    hide Half;
    HalvesSplit(x, n, 1);
    assert Halves(Half(Halves(x, n)), 0) == Half(Halves(x, n));
  }

  lemma HalvesUpTo7(x: bv32)
    ensures Halves(x, 0) == x && Halves(x, 1) == x >> 1 && Halves(x, 2) == x >> 2 && Halves(x, 3) == x >> 3
    ensures Halves(x, 4) == x >> 4 && Halves(x, 5) == x >> 5 && Halves(x, 6) == x >> 6 && Halves(x, 7) == x >> 7
  {
    assert Halves(x, 0) == x;
    hide Half, Halves;
    HalfOfShifted(x);
    HalvesNext(x, 0);
    HalvesNext(x, 1);
    HalvesNext(x, 2);
    HalvesNext(x, 3);
    HalvesNext(x, 4);
    HalvesNext(x, 5);
    HalvesNext(x, 6);
  }

  lemma BitsOfHigh(x: bv32)
    ensures var y := HighBytes(x);
            && !LowBit(y) && !LowBit(y >> 1) && !LowBit(y >> 2) && !LowBit(y >> 3)
            && !LowBit(y >> 4) && !LowBit(y >> 5) && !LowBit(y >> 6) && !LowBit(y >> 7)
  {
  }

  lemma HighBitsClear(x: bv32)
    ensures LowClear(HighBytes(x), 8)
  {
    hide HighBytes, LowBit, Halves, LowClear;
    HalvesUpTo7(HighBytes(x));
    BitsOfHigh(x);
    ClearIfBits(HighBytes(x), 8);
  }

  lemma SplitLowByte(x: bv32)
    ensures Sum(HighBytes(x), LowByte(x)) == x && Drop8(HighBytes(x)) == Drop8(x)
  {
  }

  /** Looking the low byte up and shifting the rest is eight single shifts. */
  lemma TableStep(x: bv32)
    ensures Shifts(x, 8) == Sum(Drop8(x), Shifts(LowByte(x), 8))
  {
    hide Shifts, Halves, Sum, HighBytes, LowByte, Drop8, LowClear;
    SplitLowByte(x);
    ShiftsLinear(HighBytes(x), LowByte(x), 8);
    HighBitsClear(x);
    ShiftsClear(HighBytes(x), 8);
    Halves8(HighBytes(x));
  }

  lemma FeedByteIsShifts(register: bv32, b: byte)
    ensures FeedByte(register, b) == Shifts(Sum(register, b as bv32), 8)
  {
    hide FeedBits, Shifts, Sum, Halves, Drop8;
    FeedBitsIsShifts(register, b as bv32, 8);
    Halves8(b as bv32);
    NothingLeft(b);
    SumCancels(FeedByte(register, b), 0);
  }

  lemma NothingLeft(b: byte)
    ensures Drop8(b as bv32) == 0
  {
  }

  // ---------------------------------------------------------------------------------------------
  // The program's CRC, one table look-up per byte
  // ---------------------------------------------------------------------------------------------

  lemma MaskedShift(x: bv32)
    ensures (x >> 1) ^ (0xedb88320 & (0 - (x & 1))) == Shift(x)
  {
    OneBit(x);
    if x & 1 == 1 {
      FullMask();
    } else {
      EmptyMask();
      assert (x >> 1) ^ 0 == x >> 1;
    }
  }

  lemma OneBit(x: bv32)
    ensures x & 1 == 0 || x & 1 == 1
  {
  }

  lemma FullMask()
    ensures 0xedb88320 & (0 - 1) == (0xedb88320 as bv32)
  {
  }

  lemma EmptyMask()
    ensures 0xedb88320 & (0 - 0) == (0 as bv32)
  {
  }

  lemma {:induction false} ShiftsLast(x: bv32, n: nat)
    ensures Shifts(x, n + 1) == Shift(Shifts(x, n))
    decreases n
  {
    hide Shift;
    if n > 0 {
      ShiftsLast(Shift(x), n - 1);
    }
  }

  method Crc32TableEntry(index: bv32) returns (entry: bv32)
    ensures entry == Shifts(index, 8)
  {
    entry := index;
    for bit := 0 to 8
      invariant entry == Shifts(index, bit)
    {
      hide Shift, Shifts;
      ShiftsLast(index, bit);
      MaskedShift(entry);
      entry := (entry >> 1) ^ (0xedb88320 & (0 - (entry & 1)));
    }
  }

  ghost predicate IsTable(table: seq<bv32>) {
    |table| == 256 && forall i :: 0 <= i < 256 ==> table[i] == Shifts(i as bv32, 8)
  }

  method MakeCrc32Table() returns (table: array<bv32>)
    ensures fresh(table) && IsTable(table[..])
  {
    hide Shifts;
    table := new bv32[256];
    for i := 0 to 256
      invariant forall j :: 0 <= j < i ==> table[j] == Shifts(j as bv32, 8)
    {
      table[i] := Crc32TableEntry(i as bv32);
    }
  }

  lemma LowByteIndex(x: bv32)
    ensures LowByte(x) as int < 256
  {
  }

  lemma RoundTrip(x: bv32)
    ensures (x as int) as bv32 == x
  {
  }

  lemma NotIsSum(x: bv32)
    ensures !x == Sum(x, 0xffff_ffff)
  {
  }

  lemma HighOfSum(crc: bv32, b: byte)
    ensures Drop8(Sum(crc, b as bv32)) == Drop8(crc)
  {
  }

  /** The table gives the standard's register update, for every register and byte. */
  lemma LookUpStep(table: seq<bv32>, crc: bv32, b: byte)
    requires IsTable(table)
    ensures LowByte(Sum(crc, b as bv32)) as int < 256
    ensures Sum(Drop8(crc), table[LowByte(Sum(crc, b as bv32)) as int]) == FeedByte(crc, b)
  {
    hide Sum, Drop8, LowByte, FeedByte, Shifts;
    var x := Sum(crc, b as bv32);
    LowByteIndex(x);
    RoundTrip(LowByte(x));
    FeedByteIsShifts(crc, b);
    TableStep(x);
    HighOfSum(crc, b);
  }

  lemma Unfolded(crc: bv32, b: byte, entry: bv32)
    ensures (crc ^ (b as bv32)) & 0xff == LowByte(Sum(crc, b as bv32))
    ensures (crc >> 8) ^ entry == Sum(Drop8(crc), entry)
  {
  }

  /** One byte of the loop below. */
  method FeedTable(table: array<bv32>, crc: bv32, b: byte) returns (next: bv32)
    requires IsTable(table[..])
    ensures next == FeedByte(crc, b)
  {
    hide IsTable, FeedByte, Sum, Drop8, LowByte;
    LookUpStep(table[..], crc, b);
    TableLength(table[..]);
    Unfolded(crc, b, 0);
    var index := (crc ^ (b as bv32)) & 0xff;
    var entry := table[index as int];
    Unfolded(crc, b, entry);
    next := (crc >> 8) ^ entry;
  }

  method Crc32Seeded(table: array<bv32>, data: seq<byte>, seed: bv32) returns (crc: bv32)
    requires IsTable(table[..])
    ensures crc == Sum(Feed(Sum(seed, 0xffff_ffff), data), 0xffff_ffff)
  {
    hide IsTable, FeedByte, Sum;
    NotIsSum(seed);
    crc := !seed;
    for i := 0 to |data|
      invariant crc == Feed(Sum(seed, 0xffff_ffff), data[..i])
    {
      assert data[..i + 1][..i] == data[..i];
      crc := FeedTable(table, crc, data[i]);
    }
    assert data[..|data|] == data;
    NotIsSum(crc);
    crc := !crc;
  }

  lemma TableLength(table: seq<bv32>)
    requires IsTable(table)
    ensures |table| == 256
  {
  }

  // ---------------------------------------------------------------------------------------------
  // Reports
  // ---------------------------------------------------------------------------------------------

  lemma {:induction false} FeedConcat(register: bv32, a: seq<byte>, b: seq<byte>)
    ensures Feed(register, a + b) == Feed(Feed(register, a), b)
    decreases |b|
  {
    hide FeedByte;
    if b == [] {
      assert a + b == a;
    } else {
      FeedConcat(register, a, b[..|b| - 1]);
      assert (a + b)[..|a + b| - 1] == a + b[..|b| - 1];
    }
  }

  /** Eight bits of a constant byte, register by register. */
  lemma OutputPrefixFed()
    ensures FeedByte(0xffff_ffff, HIDP_OUTPUT_PREFIX) == Sum(OUTPUT_SEED, 0xffff_ffff)
  {
    FeedByteIsShifts(0xffff_ffff, HIDP_OUTPUT_PREFIX);
    assert Sum(0xffff_ffff, HIDP_OUTPUT_PREFIX as bv32) == 0xffff_ff5d;
    assert Shift(0xffff_ff5d) == 0x92477c8e;
    assert Shift(0x92477c8e) == 0x4923be47;
    assert Shift(0x4923be47) == 0xc9295c03;
    assert Shift(0xc9295c03) == 0x892c2d21;
    assert Shift(0x892c2d21) == 0xa92e95b0;
    assert Shift(0xa92e95b0) == 0x54974ad8;
    assert Shift(0x54974ad8) == 0x2a4ba56c;
    assert Shift(0x2a4ba56c) == 0x1525d2b6;
    hide Shift;
    assert Shifts(0xffff_ff5d, 8) == Shifts(0x892c2d21, 4) == 0x1525d2b6;
  }

  lemma FeaturePrefixFed()
    ensures FeedByte(0xffff_ffff, HIDP_SET_FEATURE_PREFIX) == Sum(FEATURE_SEED, 0xffff_ffff)
  {
    FeedByteIsShifts(0xffff_ffff, HIDP_SET_FEATURE_PREFIX);
    assert Sum(0xffff_ffff, HIDP_SET_FEATURE_PREFIX as bv32) == 0xffff_ffac;
    assert Shift(0xffff_ffac) == 0x7fffffd6;
    assert Shift(0x7fffffd6) == 0x3fffffeb;
    assert Shift(0x3fffffeb) == 0xf2477cd5;
    assert Shift(0xf2477cd5) == 0x949b3d4a;
    assert Shift(0x949b3d4a) == 0x4a4d9ea5;
    assert Shift(0x4a4d9ea5) == 0xc89e4c72;
    assert Shift(0xc89e4c72) == 0x644f2639;
    assert Shift(0x644f2639) == 0xdf9f103c;
    hide Shift;
    assert Shifts(0xffff_ffac, 8) == Shifts(0x949b3d4a, 4) == 0xdf9f103c;
  }

  lemma OneFed(register: bv32, b: byte)
    ensures Feed(register, [b]) == FeedByte(register, b)
  {
    hide FeedByte;
    assert [b][..0] == [];
  }

  /** The seeds stand for the prefix byte: seeded, the program's CRC is that of the prefix and the data. */
  lemma SeedsCoverPrefix(data: seq<byte>)
    ensures Sum(Feed(Sum(OUTPUT_SEED, 0xffff_ffff), data), 0xffff_ffff) == Crc32([HIDP_OUTPUT_PREFIX] + data)
    ensures Sum(Feed(Sum(FEATURE_SEED, 0xffff_ffff), data), 0xffff_ffff) == Crc32([HIDP_SET_FEATURE_PREFIX] + data)
  {
    hide FeedByte, Feed, Sum;
    OutputPrefixFed();
    FeaturePrefixFed();
    OneFed(0xffff_ffff, HIDP_OUTPUT_PREFIX);
    OneFed(0xffff_ffff, HIDP_SET_FEATURE_PREFIX);
    FeedConcat(0xffff_ffff, [HIDP_OUTPUT_PREFIX], data);
    FeedConcat(0xffff_ffff, [HIDP_SET_FEATURE_PREFIX], data);
  }

  function ByteOf(c: bv32): byte {
    LowAsByte(c);
    LowByte(c) as byte
  }

  lemma LowAsByte(c: bv32)
    ensures LowByte(c) as int < 256 && (LowByte(c) as byte) as bv32 == LowByte(c)
  {
  }

  /** A checksum in memory, little-endian. */
  function ChecksumBytes(crc: bv32): (bytes: seq<byte>)
    ensures |bytes| == 4
  {
    [ByteOf(crc), ByteOf(Drop8(crc)), ByteOf(Drop8(Drop8(crc))), ByteOf(Drop8(Drop8(Drop8(crc))))]
  }

  method StoreChecksum(report: array<byte>, crc: bv32)
    requires report.Length >= 4
    modifies report
    ensures report[..report.Length - 4] == old(report[..report.Length - 4])
    ensures report[report.Length - 4..] == ChecksumBytes(crc)
  {
    hide ByteOf, Drop8, Drop16, Drop24;
    var offset := report.Length - 4;
    report[offset] := ByteOf(crc);
    report[offset + 1] := ByteOf(Drop8(crc));
    report[offset + 2] := ByteOf(Drop16(crc));
    report[offset + 3] := ByteOf(Drop24(crc));
    DropTwice(crc);
    DropThrice(crc);
    assert report[offset..] == [report[offset], report[offset + 1], report[offset + 2], report[offset + 3]];
  }

  function Drop16(x: bv32): bv32 {
    x >> 16
  }

  function Drop24(x: bv32): bv32 {
    x >> 24
  }

  lemma DropTwice(x: bv32)
    ensures Drop8(Drop8(x)) == Drop16(x)
  {
  }

  lemma DropThrice(x: bv32)
    ensures Drop8(Drop16(x)) == Drop24(x)
  {
  }

  /** Fill in the checksum of an output report; refused when there is no room for one. */
  method FillOutputReportChecksum(table: array<bv32>, report: array<byte>) returns (filled: bool)
    requires IsTable(table[..])
    modifies report
    ensures filled == (report.Length >= 4)
    ensures !filled ==> report[..] == old(report[..])
    ensures filled ==>
              var body := old(report[..report.Length - 4]);
              report[..] == body + ChecksumBytes(Crc32([HIDP_OUTPUT_PREFIX] + body))
  {
    hide IsTable, ChecksumBytes, Crc32, Feed, Sum;
    filled := report.Length >= 4;
    if filled {
      ghost var body := report[..report.Length - 4];
      SeedsCoverPrefix(body);
      var crc := Crc32Seeded(table, report[..report.Length - 4], OUTPUT_SEED);
      StoreChecksum(report, crc);
      assert report[..] == report[..report.Length - 4] + report[report.Length - 4..];
    }
  }

  method FillFeatureReportChecksum(table: array<bv32>, report: array<byte>) returns (filled: bool)
    requires IsTable(table[..])
    modifies report
    ensures filled == (report.Length >= 4)
    ensures !filled ==> report[..] == old(report[..])
    ensures filled ==>
              var body := old(report[..report.Length - 4]);
              report[..] == body + ChecksumBytes(Crc32([HIDP_SET_FEATURE_PREFIX] + body))
  {
    hide IsTable, ChecksumBytes, Crc32, Feed, Sum;
    filled := report.Length >= 4;
    if filled {
      ghost var body := report[..report.Length - 4];
      SeedsCoverPrefix(body);
      var crc := Crc32Seeded(table, report[..report.Length - 4], FEATURE_SEED);
      StoreChecksum(report, crc);
      assert report[..] == report[..report.Length - 4] + report[report.Length - 4..];
    }
  }

  // ---------------------------------------------------------------------------------------------
  // What the checksum detects
  // ---------------------------------------------------------------------------------------------

  lemma {:induction false} ShiftsSplit(x: bv32, m: nat, n: nat)
    ensures Shifts(x, m + n) == Shifts(Shifts(x, m), n)
    decreases m
  {
    hide Shift;
    if m > 0 {
      ShiftsSplit(Shift(x), m - 1, n);
    }
  }

  /** Feeding the low byte of a word leaves register and rest of the word as eight shifts of their sum. */
  lemma FeedLowByte(register: bv32, c: bv32)
    ensures Sum(FeedByte(register, ByteOf(c)), Drop8(c)) == Shifts(Sum(register, c), 8)
  {
    hide Shifts, Sum, LowByte, HighBytes, Drop8, FeedByte, LowClear, Halves;
    LowAsByte(c);
    FeedByteIsShifts(register, ByteOf(c));
    SplitLowByte(c);
    SumCommutes(HighBytes(c), LowByte(c));
    SumAssociates(register, LowByte(c), HighBytes(c));
    ShiftsLinear(Sum(register, LowByte(c)), HighBytes(c), 8);
    HighBitsClear(c);
    ShiftsClear(HighBytes(c), 8);
    Halves8(HighBytes(c));
  }

  lemma FeedTwoBytes(register: bv32, c: bv32)
    ensures Sum(FeedByte(FeedByte(register, ByteOf(c)), ByteOf(Drop8(c))), Drop8(Drop8(c))) == Shifts(Sum(register, c), 16)
  {
    hide Shifts, Sum, Drop8, ByteOf, FeedByte;
    FeedLowByte(register, c);
    FeedLowByte(FeedByte(register, ByteOf(c)), Drop8(c));
    ShiftsSplit(Sum(register, c), 8, 8);
  }

  lemma AllDropped(c: bv32)
    ensures Drop8(Drop8(Drop8(Drop8(c)))) == 0
  {
  }

  lemma FeedTwo(register: bv32, a: byte, b: byte)
    ensures Feed(register, [a, b]) == FeedByte(FeedByte(register, a), b)
  {
    hide FeedByte;
    OneFed(register, a);
    assert [a, b][..1] == [a];
  }

  /** Feeding a word is 32 shifts of its sum with the register. */
  lemma FeedWord(register: bv32, c: bv32)
    ensures Feed(register, ChecksumBytes(c)) == Shifts(Sum(register, c), 32)
  {
    hide Shifts, Sum, ByteOf, Drop8, FeedByte, Feed;
    var d := Drop8(Drop8(c));
    assert ChecksumBytes(c) == [ByteOf(c), ByteOf(Drop8(c))] + [ByteOf(d), ByteOf(Drop8(d))];
    FeedConcat(register, [ByteOf(c), ByteOf(Drop8(c))], [ByteOf(d), ByteOf(Drop8(d))]);
    FeedTwo(register, ByteOf(c), ByteOf(Drop8(c)));
    var half := Feed(register, [ByteOf(c), ByteOf(Drop8(c))]);
    FeedTwo(half, ByteOf(d), ByteOf(Drop8(d)));
    FeedTwoBytes(register, c);
    FeedTwoBytes(half, d);
    ShiftsSplit(Sum(register, c), 16, 16);
    AllDropped(c);
    SumCancels(Feed(register, ChecksumBytes(c)), 0);
  }

  lemma SumInjective(x: bv32, y: bv32, z: bv32)
    requires Sum(x, y) == Sum(x, z)
    ensures y == z
  {
  }

  /** The residue test: a packet ends in the checksum of what comes before exactly when its own CRC is
      one constant, the same for all packets. */
  lemma ResidueTest(data: seq<byte>, c: bv32)
    ensures Feed(0xffff_ffff, data + ChecksumBytes(c)) == Shifts(0xffff_ffff, 32) <==> c == Crc32(data)
  {
    hide Feed, Sum, Shifts, ChecksumBytes;
    var register := Feed(0xffff_ffff, data);
    FeedConcat(0xffff_ffff, data, ChecksumBytes(c));
    FeedWord(register, c);
    SumAssociates(register, register, 0xffff_ffff);
    SumCancels(register, register);
    SumCancels(0xffff_ffff, 0);
    SumCommutes(0, 0xffff_ffff);
    if Shifts(Sum(register, c), 32) == Shifts(0xffff_ffff, 32) {
      ShiftsInjective(Sum(register, c), 0xffff_ffff, 32);
      SumInjective(register, c, Crc32(data));
    }
  }

  lemma FeedByteInjective(r: bv32, s: bv32, b: byte)
    requires FeedByte(r, b) == FeedByte(s, b)
    ensures r == s
  {
    hide FeedByte, Shifts, Sum;
    FeedByteIsShifts(r, b);
    FeedByteIsShifts(s, b);
    ShiftsInjective(Sum(r, b as bv32), Sum(s, b as bv32), 8);
    SumCommutes(r, b as bv32);
    SumCommutes(s, b as bv32);
    SumInjective(b as bv32, r, s);
  }

  lemma {:induction false} FeedInjective(r: bv32, s: bv32, data: seq<byte>)
    requires Feed(r, data) == Feed(s, data)
    ensures r == s
    decreases |data|
  {
    hide FeedByte;
    if data != [] {
      FeedByteInjective(Feed(r, data[..|data| - 1]), Feed(s, data[..|data| - 1]), data[|data| - 1]);
      FeedInjective(r, s, data[..|data| - 1]);
    }
  }

  lemma WordsAreTold(before: seq<byte>, c: bv32, d: bv32, after: seq<byte>)
    requires c != d
    ensures Crc32(before + ChecksumBytes(c) + after) != Crc32(before + ChecksumBytes(d) + after)
  {
    hide Feed, Sum, Shifts, ChecksumBytes;
    var register := Feed(0xffff_ffff, before);
    var p, q := before + ChecksumBytes(c), before + ChecksumBytes(d);
    FeedConcat(0xffff_ffff, p, after);
    FeedConcat(0xffff_ffff, q, after);
    FeedConcat(0xffff_ffff, before, ChecksumBytes(c));
    FeedConcat(0xffff_ffff, before, ChecksumBytes(d));
    FeedWord(register, c);
    FeedWord(register, d);
    if Crc32(p + after) == Crc32(q + after) {
      SumCommutes(Feed(0xffff_ffff, p + after), 0xffff_ffff);
      SumCommutes(Feed(0xffff_ffff, q + after), 0xffff_ffff);
      SumInjective(0xffff_ffff, Feed(0xffff_ffff, p + after), Feed(0xffff_ffff, q + after));
      FeedInjective(Feed(0xffff_ffff, p), Feed(0xffff_ffff, q), after);
      ShiftsInjective(Sum(register, c), Sum(register, d), 32);
      SumInjective(register, c, d);
    }
  }

  /** Every four bytes are the bytes of some word. */
  function Word(b: seq<byte>): (c: bv32)
    requires |b| == 4
  {
    (b[0] as bv32) | ((b[1] as bv32) << 8) | ((b[2] as bv32) << 16) | ((b[3] as bv32) << 24)
  }

  lemma WordBytes(b: seq<byte>)
    requires |b| == 4
    ensures ChecksumBytes(Word(b)) == b
  {
  }

  /** Any change within four bytes in a row, the checksum's own included, changes the CRC, so no such
      corruption passes the residue test. */
  lemma BurstsAreDetected(before: seq<byte>, x: seq<byte>, y: seq<byte>, after: seq<byte>)
    requires |x| == |y| == 4 && x != y
    ensures Crc32(before + x + after) != Crc32(before + y + after)
  {
    hide Word, ChecksumBytes, Crc32;
    WordBytes(x);
    WordBytes(y);
    WordsAreTold(before, Word(x), Word(y), after);
  }

  /** A feature report as it is sent: the prefix, and a checksum if the report has room for one. */
  method FeatureSetPacket(table: array<bv32>, report: seq<byte>) returns (packet: seq<byte>)
    requires IsTable(table[..])
    ensures report == [] ==> packet == []
    ensures 0 < |report| < 4 ==> packet == [HIDP_SET_FEATURE_PREFIX] + report
    ensures |report| >= 4 ==>
              var body := report[..|report| - 4];
              packet == [HIDP_SET_FEATURE_PREFIX] + (body + ChecksumBytes(Crc32([HIDP_SET_FEATURE_PREFIX] + body)))
  {
    hide IsTable, ChecksumBytes, Crc32;
    if report == [] {
      return [];
    }
    var checked := new byte[|report|](i requires 0 <= i < |report| => report[i]);
    assert checked[..] == report;
    if checked.Length >= 4 {
      assert checked[..checked.Length - 4] == report[..|report| - 4];
      var filled := FillFeatureReportChecksum(table, checked);
    }
    packet := [HIDP_SET_FEATURE_PREFIX] + checked[..];
  }

  /** So every packet with a checksum passes the residue test, whatever its report. */
  lemma PacketPasses(prefix: byte, body: seq<byte>)
    ensures Feed(0xffff_ffff, [prefix] + (body + ChecksumBytes(Crc32([prefix] + body)))) == Shifts(0xffff_ffff, 32)
  {
    hide Feed, Shifts, ChecksumBytes, Crc32;
    var c := Crc32([prefix] + body);
    ResidueTest([prefix] + body, c);
    assert [prefix] + (body + ChecksumBytes(c)) == ([prefix] + body) + ChecksumBytes(c);
  }
}
