// The table-driven software CRC-32C: crc32c_init_sw and crc32c_sw of
// deps/librdkafka-master/src/crc32c.c, proved equal to the bit-at-a-time meaning.
module Crc32cSw {
  import opened Words
  import opened Crc32c
  import opened Slicing
  import opened ByteTables

  /** What table 0 holds, as a byte table over the 64-bit register of crc32c_sw. */
  function Lookup(x: bv64): bv64 {
    Widen32(ZeroBits(8, Low32(x)))
  }

  /** Row k holds every byte followed by k zero bytes. */
  ghost predicate TableOk(table: array2<bv32>)
    reads table
  {
    && table.Length0 == 8
    && table.Length1 == 256
    && RowsOk(table, SliceRows, 0, 8, 256)
  }

  // ----- the table -----

  /** crc32c_init_sw. */
  method InitSw(table: array2<bv32>)
    requires table.Length0 == 8 && table.Length1 == 256
    modifies table
    ensures TableOk(table)
  {
    InitFirstRow(table);
    var n: bv32 := 0;
    while n < 256
      invariant n <= 256
      invariant RowOk(table, SliceRows, 0, 256)
      invariant RowsOk(table, SliceRows, 1, 8, n)
      decreases 256 - n
    {
      hide RowOk;
      InitColumn(table, n);
      n := n + 1;
    }
  }

  /** The first loop: row 0, bit by bit. */
  method InitFirstRow(table: array2<bv32>)
    requires table.Length0 == 8 && table.Length1 == 256
    modifies table
    ensures RowOk(table, SliceRows, 0, 256)
  {
    var n: bv32 := 0;
    while n < 256
      invariant n <= 256
      invariant RowOk(table, SliceRows, 0, n)
      decreases 256 - n
    {
      hide *;
      var crc := n;
      crc := BitStep(crc);
      crc := BitStep(crc);
      crc := BitStep(crc);
      crc := BitStep(crc);
      crc := BitStep(crc);
      crc := BitStep(crc);
      crc := BitStep(crc);
      crc := BitStep(crc);
      EightSteps(n);
      FirstRow(n);
      WriteEntry(table, SliceRows, 0, n, crc);
      n := n + 1;
    }
  }

  /** The inner loop of the second pass: one byte in every further row, through row 0. */
  method InitColumn(table: array2<bv32>, n: bv32)
    requires table.Length0 == 8 && table.Length1 == 256 && n < 256
    requires RowOk(table, SliceRows, 0, 256)
    requires RowsOk(table, SliceRows, 1, 8, n)
    modifies table
    ensures RowOk(table, SliceRows, 0, 256)
    ensures RowsOk(table, SliceRows, 1, 8, n + 1)
  {
    hide RowOk, Cell, Xor, Low8, Shr8;
    var crc := ReadEntry(table, SliceRows, 0, n);
    for k := 1 to 8
      invariant RowOk(table, SliceRows, 0, 256)
      invariant crc == Cell(SliceRows, k - 1, n)
      invariant RowsOk(table, SliceRows, 1, k, n + 1)
      invariant RowsOk(table, SliceRows, k, 8, n)
    {
      RowStep(k - 1, n);
      var entry := ReadEntry(table, SliceRows, 0, Low8(crc));
      crc := Xor(entry, Shr8(crc));
      WriteEntry(table, SliceRows, k, n, crc);
    }
  }

  lemma FirstRow(n: bv32)
    ensures Cell(SliceRows, 0, n) == ZeroBits(8, n)
  {
    hide ZeroBits;
  }

  /** One table row from the previous one: look up the low byte, shift down the rest. */
  lemma RowStep(k: nat, n: bv32)
    ensures Cell(SliceRows, k + 1, n)
         == Xor(Cell(SliceRows, 0, Low8(Cell(SliceRows, k, n))), Shr8(Cell(SliceRows, k, n)))
  {
    hide ZeroBits, Xor, Low8, Shr8;
    ByteLookup(Cell(SliceRows, k, n));
    ZeroBitsAdd(8, 8 * (k + 1), n);
  }

  /** Row k is the register after the byte and k zero bytes. */
  lemma {:induction false} RowMeaning(k: nat, b: bv8)
    ensures Cell(SliceRows, k, Widen8(b)) == State(0, [b] + Zeros(k))
  {
    hide ZeroBits, Xor;
    if k == 0 {
      assert [b] + Zeros(0) == [b];
      assert [b][..0] == [];
      XorZero(Widen8(b));
    } else {
      var data := [b] + Zeros(k);
      assert data[..|data| - 1] == [b] + Zeros(k - 1);
      RowMeaning(k - 1, b);
      ZeroBitsAdd(8, 8 * k, Widen8(b));
      XorZero(Cell(SliceRows, k - 1, Widen8(b)));
      assert Widen8(0) == 0;
    }
  }

  // ----- the 64-bit register of crc32c_sw -----

  lemma WidenXor(a: bv32, b: bv32)
    ensures Widen32(Xor(a, b)) == Xor64(Widen32(a), Widen32(b))
  {
    assert (a ^ b) as bv64 == (a as bv64) ^ (b as bv64);
    hide Xor, Xor64;
    XorDef(a, b);
    Xor64Def(a as bv64, b as bv64);
  }

  lemma NarrowXor(a: bv64, b: bv64)
    ensures Low32(LowByte(Xor64(a, b))) == Xor(Low32(LowByte(a)), Low32(LowByte(b)))
  {
    assert (((a ^ b) & 0xff) & 0xffffffff) as bv32
        == (((a & 0xff) & 0xffffffff) as bv32) ^ (((b & 0xff) & 0xffffffff) as bv32);
  }

  lemma WidenedParts(c: bv32)
    ensures Low32(LowByte(Widen32(c))) == Low8(c)
    ensures DropByte(Widen32(c)) == Widen32(Shr8(c))
  {
    assert (((c as bv64) & 0xff) & 0xffffffff) as bv32 == c & 0xff;
    assert (c as bv64) >> 8 == (c >> 8) as bv64;
  }

  lemma WidenedData(c: bv32, b: bv8)
    ensures Xor64(Widen32(c), WidenByte(b)) == Widen32(Xor(c, Widen8(b)))
  {
    hide Xor, Xor64, Widen32;
    WidenXor(c, Widen8(b));
    assert Widen32(Widen8(b)) == WidenByte(b) by { WidenTwice(b); }
  }

  lemma WidenTwice(b: bv8)
    ensures Widen32(Widen8(b)) == WidenByte(b)
  {
  }

  lemma LookupLinear()
    ensures Linear(Lookup)
  {
    forall a: bv64, b: bv64
      ensures Entry(Lookup, Xor64(a, b)) == Xor64(Entry(Lookup, a), Entry(Lookup, b))
    {
      hide Xor, Xor64, Widen32, Low32, LowByte, ZeroBits;
      NarrowXor(a, b);
      var x, y := Low32(LowByte(a)), Low32(LowByte(b));
      ZeroBitsXor(8, x, y);
      WidenXor(ZeroBits(8, x), ZeroBits(8, y));
    }
  }

  lemma WidenedZeroStep(c: bv32)
    ensures ZeroStep(Lookup, Widen32(c)) == Widen32(ZeroBits(8, c))
  {
    hide Xor, Xor64, Widen32, Low32, LowByte, DropByte, Low8, Shr8, ZeroBits;
    WidenedParts(c);
    ByteLookup(c);
    WidenXor(ZeroBits(8, Low8(c)), Shr8(c));
  }

  /** One bytewise step of the 64-bit register is one byte of CRC-32C. */
  lemma WidenedDataStep(c: bv32, b: bv8)
    ensures DataStep(Lookup, Widen32(c), b) == Widen32(ByteStep(c, b))
  {
    hide Xor, Xor64, Widen32, ZeroBits, ZeroStep, DataStep, WidenByte, Widen8;
    DataStepIsZeroStep(Lookup, Widen32(c), b);
    WidenedData(c, b);
    WidenedZeroStep(Xor(c, Widen8(b)));
  }

  lemma {:induction false} WidenedRun(c: bv32, data: seq<bv8>)
    ensures Run(Lookup, Widen32(c), data) == Widen32(State(c, data))
  {
    hide DataStep, ByteStep, Widen32;
    if data != [] {
      WidenedRun(c, data[..|data| - 1]);
      WidenedDataStep(State(c, data[..|data| - 1]), data[|data| - 1]);
    }
  }

  lemma {:induction false} ExtendedIsRow(k: nat, x: bv64)
    ensures Extended(Lookup, k, x) == Widen32(Cell(SliceRows, k, Low32(LowByte(x))))
  {
    hide Widen32, Low32, LowByte, ZeroBits, ZeroStep;
    var m := Low32(LowByte(x));
    if k > 0 {
      ExtendedIsRow(k - 1, x);
      WidenedZeroStep(Cell(SliceRows, k - 1, m));
      ZeroBitsAdd(8, 8 * k, m);
    }
  }

  /** The lookup crc32c_table[k][x & 0xff]. */
  method Fetch(table: array2<bv32>, k: nat, x: bv64) returns (v: bv64)
    requires TableOk(table) && k < 8
    ensures v == Extended(Lookup, k, x)
  {
    ExtendedIsRow(k, x);
    var m := Low32(LowByte(x));
    IndexBound(x);
    hide Cell, Low32, LowByte, Extended, Widen32;
    assert RowOk(table, SliceRows, k, 256);
    assert Row(table, k)[m as int] == Cell(SliceRows, k, m);
    v := Widen32(table[k, m as int]);
  }

  lemma IndexBound(x: bv64)
    ensures Low32(LowByte(x)) < 256
    ensures Low32(LowByte(x)) as int == (x & 0xff) as int
  {
    assert ((x & 0xff) & 0xffffffff) as bv32 < 256;
    assert (((x & 0xff) & 0xffffffff) as bv32) as int == (x & 0xff) as int;
  }

  // ----- crc32c_sw -----

  /** One byte: table[0][(crc ^ b) & 0xff] ^ (crc >> 8). */
  method ByteUpdate(table: array2<bv32>, crc: bv64, b: bv8) returns (r: bv64)
    requires TableOk(table)
    ensures r == DataStep(Lookup, crc, b)
  {
    hide Xor64, DropByte, WidenByte, TableOk, Lookup;
    var entry := Fetch(table, 0, Xor64(crc, WidenByte(b)));
    r := Xor64(entry, DropByte(crc));
  }

  /** One quadword: eight lookups. */
  method WordUpdate(table: array2<bv32>, crc0: bv64, d: seq<bv8>) returns (crc: bv64)
    requires TableOk(table) && |d| == 8
    ensures crc == Run(Lookup, crc0, d)
  {
    hide Xor64, Load, TableOk, Lookup, SliceWord, Run, Extended;
    crc := Xor64(crc0, Load(d));
    LookupLinear();
    SliceWordIsRun(Lookup, crc0, d);
    SliceWordUnrolled(Lookup, crc);
    var t7 := Fetch(table, 7, crc);
    var t6 := Fetch(table, 6, crc >> 8);
    var t5 := Fetch(table, 5, crc >> 16);
    var t4 := Fetch(table, 4, crc >> 24);
    var t3 := Fetch(table, 3, crc >> 32);
    var t2 := Fetch(table, 2, crc >> 40);
    var t1 := Fetch(table, 1, crc >> 48);
    var t0 := Fetch(table, 0, crc >> 56);
    crc := Xor64(Xor64(Xor64(Xor64(Xor64(Xor64(Xor64(t7, t6), t5), t4), t3), t2), t1), t0);
  }

  /**
   * crc32c_sw on a buffer whose first byte lies at address addr: bytes up to an
   * eight-byte boundary, then quadwords, then the remaining bytes.
   */
  method CrcSw(table: array2<bv32>, crci: bv32, buf: Bytes, addr: nat) returns (r: bv32)
    requires TableOk(table)
    ensures r == Crc(crci, buf)
  {
    hide TableOk, Xor, Xor64, Widen32, Low32, State, Run;
    var start := Xor(crci, 0xffffffff);
    var crc := Widen32(start);
    var next, len := 0, |buf|;
    RunNothing(crc);
    assert buf[..0] == [];
    while len > 0 && (addr + next) % 8 != 0
      invariant 0 <= next && 0 <= len && next + len == |buf|
      invariant crc == Run(Lookup, Widen32(start), buf[..next])
      decreases len
    {
      crc := Advance(table, Widen32(start), crc, buf, next, 1);
      next, len := next + 1, len - 1;
    }
    while len >= 8
      invariant 0 <= next && 0 <= len && next + len == |buf|
      invariant crc == Run(Lookup, Widen32(start), buf[..next])
      decreases len
    {
      crc := Advance(table, Widen32(start), crc, buf, next, 8);
      next, len := next + 8, len - 8;
    }
    while len > 0
      invariant 0 <= next && 0 <= len && next + len == |buf|
      invariant crc == Run(Lookup, Widen32(start), buf[..next])
      decreases len
    {
      crc := Advance(table, Widen32(start), crc, buf, next, 1);
      next, len := next + 1, len - 1;
    }
    assert buf[..next] == buf;
    WidenedRun(start, buf);
    Low32Widen(State(start, buf));
    r := Xor(Low32(crc), 0xffffffff);
  }

  lemma RunNothing(c: bv64)
    ensures Run(Lookup, c, []) == c
  {
  }

  /** One loop iteration of crc32c_sw: a byte or a quadword at buf[next]. */
  method Advance(table: array2<bv32>, ghost start: bv64, crc0: bv64, buf: Bytes, next: nat, size: nat)
    returns (crc: bv64)
    requires TableOk(table) && (size == 1 || size == 8) && next + size <= |buf|
    requires crc0 == Run(Lookup, start, buf[..next])
    ensures crc == Run(Lookup, start, buf[..next + size])
  {
    hide TableOk, DataStep, Run;
    assert buf[..next + size] == buf[..next] + buf[next..next + size];
    RunConcat(Lookup, start, buf[..next], buf[next..next + size]);
    if size == 1 {
      crc := ByteUpdate(table, crc0, buf[next]);
      assert buf[next..next + 1] == [buf[next]];
      RunOne(crc0, buf[next]);
    } else {
      crc := WordUpdate(table, crc0, buf[next..next + 8]);
    }
  }

  lemma RunOne(c: bv64, b: bv8)
    ensures Run(Lookup, c, [b]) == DataStep(Lookup, c, b)
  {
    hide DataStep;
    assert [b][..0] == [];
  }
}
