// crc64 of src/io/parser.cpp: the same slicing-by-8 scheme on a 64-bit register that starts
// at zero and is not complemented. The 2048 table words are external data, so the result
// holds for any tables that are linear and related by the slicing recurrence.
module Crc64 {
  import opened Words
  import opened Slicing

  /** The rows of __crc64_table__. */
  type Tables = seq<seq<bv64>>

  predicate Shaped(tables: Tables) {
    |tables| == 8 && forall k: nat :: k < 8 ==> |tables[k]| == 256
  }

  /** Row k as a byte table. */
  function RowTable(tables: Tables, k: nat): ByteTable
    requires Shaped(tables) && k < 8
  {
    (x: bv64) => tables[k][(x & 0xff) as int]
  }

  /** Each row is the previous one pushed through one more zero byte. */
  ghost predicate Recurrence(tables: Tables)
    requires Shaped(tables)
  {
    forall k: nat, x: bv64 {:trigger Entry(RowTable(tables, k), x)} :: 1 <= k < 8 ==>
      Entry(RowTable(tables, k), x) == ZeroStep(RowTable(tables, 0), Entry(RowTable(tables, k - 1), x))
  }

  ghost predicate TablesOk(tables: Tables) {
    Shaped(tables) && Linear(RowTable(tables, 0)) && Recurrence(tables)
  }

  lemma {:induction false} RowIsExtended(tables: Tables, k: nat, x: bv64)
    requires Shaped(tables) && Recurrence(tables) && k < 8
    ensures Entry(RowTable(tables, k), x) == Extended(RowTable(tables, 0), k, x)
  {
    hide Entry, ZeroStep, RowTable;
    if k > 0 {
      RowIsExtended(tables, k - 1, x);
    }
  }

  /** __crc64_table__[k][x & 0xff] */
  method Fetch(tables: Tables, k: nat, x: bv64) returns (v: bv64)
    requires TablesOk(tables) && k < 8
    ensures v == Extended(RowTable(tables, 0), k, x)
  {
    RowIsExtended(tables, k, x);
    EntryValue(tables, k, x);
    hide *;
    v := Entry(RowTable(tables, k), x);
  }

  lemma EntryValue(tables: Tables, k: nat, x: bv64)
    requires Shaped(tables) && k < 8
    ensures Entry(RowTable(tables, k), x) == tables[k][(x & 0xff) as int]
  {
    assert (x & 0xff) & 0xff == x & 0xff;
  }

  /** crc64: quadwords, then the remaining bytes; equal to one byte at a time throughout. */
  method Compute(tables: Tables, buffer: seq<bv8>) returns (crc: bv64)
    requires TablesOk(tables)
    ensures crc == Run(RowTable(tables, 0), 0, buffer)
  {
    hide Xor64, DropByte, WidenByte, Load, Linear, Recurrence, Run, SliceWord, Extended, RowTable, DataStep;
    ghost var t := RowTable(tables, 0);
    crc := 0;
    var next, len := 0, |buffer|;
    RunEmpty(t, 0);
    assert buffer[..0] == [];
    while len >= 8
      invariant 0 <= next && 0 <= len && next + len == |buffer|
      invariant crc == Run(t, 0, buffer[..next])
      decreases len
    {
      RunConcat(t, 0, buffer[..next], buffer[next..next + 8]);
      assert buffer[..next + 8] == buffer[..next] + buffer[next..next + 8];
      crc := WordUpdate(tables, crc, buffer[next..next + 8]);
      next, len := next + 8, len - 8;
    }
    while len > 0
      invariant 0 <= next && 0 <= len && next + len == |buffer|
      invariant crc == Run(t, 0, buffer[..next])
      decreases len
    {
      RunDef(t, 0, buffer, next);
      crc := ByteUpdate(tables, crc, buffer[next]);
      next, len := next + 1, len - 1;
    }
    assert buffer[..next] == buffer;
  }

  method ByteUpdate(tables: Tables, crc: bv64, b: bv8) returns (r: bv64)
    requires TablesOk(tables)
    ensures r == DataStep(RowTable(tables, 0), crc, b)
  {
    hide Xor64, DropByte, WidenByte, TablesOk, RowTable, Entry;
    var entry := Fetch(tables, 0, Xor64(crc, WidenByte(b)));
    r := Xor64(entry, DropByte(crc));
  }

  method WordUpdate(tables: Tables, crc0: bv64, d: seq<bv8>) returns (crc: bv64)
    requires TablesOk(tables) && |d| == 8
    ensures crc == Run(RowTable(tables, 0), crc0, d)
  {
    hide Xor64, Load, RowTable, SliceWord, Run, Extended, Recurrence;
    crc := Xor64(crc0, Load(d));
    SliceWordIsRun(RowTable(tables, 0), crc0, d);
    SliceWordUnrolled(RowTable(tables, 0), crc);
    hide TablesOk;
    var t7 := Fetch(tables, 7, crc);
    var t6 := Fetch(tables, 6, crc >> 8);
    var t5 := Fetch(tables, 5, crc >> 16);
    var t4 := Fetch(tables, 4, crc >> 24);
    var t3 := Fetch(tables, 3, crc >> 32);
    var t2 := Fetch(tables, 2, crc >> 40);
    var t1 := Fetch(tables, 1, crc >> 48);
    var t0 := Fetch(tables, 0, crc >> 56);
    crc := Xor64(Xor64(Xor64(Xor64(Xor64(Xor64(Xor64(t7, t6), t5), t4), t3), t2), t1), t0);
  }

  // ----- linearity is needed -----

  function Ones(): ByteTable {
    (x: bv64) => 1
  }

  lemma {:induction false} ExtendedOnes(k: nat, x: bv64)
    ensures Extended(Ones(), k, x) == 1
  {
    if k > 0 {
      ExtendedOnes(k - 1, x);
      assert (1 as bv64) >> 8 == 0;
    }
  }

  lemma OnesStep(c: bv64)
    requires c == 0 || c == 1
    ensures DataStep(Ones(), c, 0) == 1
  {
    assert (0 as bv64) >> 8 == 0 && (1 as bv64) >> 8 == 0;
  }

  lemma {:induction false} RunOnes(d: seq<bv8>)
    requires d != [] && forall i :: 0 <= i < |d| ==> d[i] == 0
    ensures Run(Ones(), 0, d) == 1
  {
    hide DataStep;
    if |d| == 1 {
      assert d[..0] == [];
      OnesStep(0);
    } else {
      RunOnes(d[..|d| - 1]);
      OnesStep(1);
    }
  }

  /**
   * The recurrence alone is not enough: a table that holds 1 everywhere meets it, yet on
   * eight zero bytes the eight lookups cancel where eight byte steps leave 1.
   */
  lemma RecurrenceAloneFails()
    ensures forall k: nat, x: bv64 :: Extended(Ones(), k, x) == 1
    ensures SliceWord(Ones(), Xor64(0, Load([0, 0, 0, 0, 0, 0, 0, 0]))) == 0
    ensures Run(Ones(), 0, [0, 0, 0, 0, 0, 0, 0, 0]) == 1
  {
    forall k: nat, x: bv64
      ensures Extended(Ones(), k, x) == 1
    {
      ExtendedOnes(k, x);
    }
    RunOnes([0, 0, 0, 0, 0, 0, 0, 0]);
    SlicesCancel(Xor64(0, Load([0, 0, 0, 0, 0, 0, 0, 0])));
  }

  lemma SlicesCancel(w: bv64)
    ensures SliceWord(Ones(), w) == 0
  {
    hide *;
    SliceWordUnrolled(Ones(), w);
    ExtendedOnes(7, w);
    ExtendedOnes(6, w >> 8);
    ExtendedOnes(5, w >> 16);
    ExtendedOnes(4, w >> 24);
    ExtendedOnes(3, w >> 32);
    ExtendedOnes(2, w >> 40);
    ExtendedOnes(1, w >> 48);
    ExtendedOnes(0, w >> 56);
    Xor64Zero(1);
  }
}
