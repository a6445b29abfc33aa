// The static lookup tables of deps/librdkafka-master/src/crc32c.c: rows of 256 words
// indexed by a byte. A table's content is a function of row and byte, so that filling it
// in place can be specified column by column.
module ByteTables {
  import opened Crc32c

  datatype Content =
    | SliceRows              // crc32c_table: the byte and k zero bytes
    | ShiftRows(bits: nat)   // crc32c_long, crc32c_short: byte k of a word, and so many zero bits

  /** Byte k of a word, in its place. */
  function Place(k: nat, m: bv32): bv32 {
    match k
    case 0 => m
    case 1 => m << 8
    case 2 => m << 16
    case _ => m << 24
  }

  /** What row k holds for byte m. */
  function Cell(content: Content, k: nat, m: bv32): bv32 {
    match content
    case SliceRows => ZeroBits(8 * (k + 1), m)
    case ShiftRows(bits) => ZeroBits(bits, Place(k, m))
  }

  /** Row k as a value. */
  ghost function Row(table: array2<bv32>, k: nat): (row: seq<bv32>)
    requires k < table.Length0 && table.Length1 == 256
    reads table
    ensures |row| == 256 && forall j: nat :: j < 256 ==> row[j] == table[k, j]
  {
    seq(256, j requires 0 <= j < 256 reads table => table[k, j])
  }

  /** The first n columns of a row k are filled in. */
  ghost predicate Filled(row: seq<bv32>, content: Content, k: nat, n: bv32)
    requires |row| == 256 && n <= 256
  {
    forall m: bv32 {:trigger Cell(content, k, m)} :: m < n ==> row[m as int] == Cell(content, k, m)
  }

  ghost predicate RowOk(table: array2<bv32>, content: Content, k: nat, n: bv32)
    requires k < table.Length0 && table.Length1 == 256 && n <= 256
    reads table
  {
    Filled(Row(table, k), content, k, n)
  }

  /** Columns below n are filled in for rows lo to hi. */
  ghost predicate RowsOk(table: array2<bv32>, content: Content, lo: nat, hi: nat, n: bv32)
    requires hi <= table.Length0 && table.Length1 == 256 && n <= 256
    reads table
  {
    forall k: nat :: lo <= k < hi ==> RowOk(table, content, k, n)
  }

  lemma FilledNext(row: seq<bv32>, content: Content, k: nat, n: bv32)
    requires |row| == 256 && n < 256 && Filled(row, content, k, n)
    ensures Filled(row[n as int := Cell(content, k, n)], content, k, n + 1)
  {
    hide Cell;
    forall m: bv32 | m < n + 1
      ensures row[n as int := Cell(content, k, n)][m as int] == Cell(content, k, m)
    {
      BelowNext(m, n);
      if m != n {
        IndexLess(m, n);
      }
    }
  }

  lemma BelowNext(m: bv32, n: bv32)
    requires m < n + 1 && n < 256
    ensures m == n || m < n
  {
  }

  lemma IndexLess(m: bv32, n: bv32)
    requires m < n && n < 256
    ensures (m as int) < (n as int) < 256
  {
  }

  /** Reading table[k][n]. */
  method ReadEntry(table: array2<bv32>, ghost content: Content, k: nat, n: bv32) returns (v: bv32)
    requires k < table.Length0 && table.Length1 == 256 && n < 256
    requires RowOk(table, content, k, 256)
    ensures v == Cell(content, k, n)
  {
    hide Cell;
    v := table[k, n as int];
  }

  /** The assignment table[k][n] = v. */
  method WriteEntry(table: array2<bv32>, ghost content: Content, k: nat, n: bv32, v: bv32)
    requires k < table.Length0 && table.Length1 == 256 && n < 256
    requires RowOk(table, content, k, n) && v == Cell(content, k, n)
    modifies table
    ensures RowOk(table, content, k, n + 1)
    ensures forall i: nat {:trigger Row(table, i)} ::
      i < table.Length0 && i != k ==> Row(table, i) == old(Row(table, i))
    ensures forall i: nat, m: bv32 {:trigger RowOk(table, content, i, m)} ::
      i < table.Length0 && i != k && m <= 256 && old(RowOk(table, content, i, m)) ==> RowOk(table, content, i, m)
  {
    hide Cell, Filled;
    FilledNext(Row(table, k), content, k, n);
    WriteAt(table, k, n as int, v);
  }

  method WriteAt(table: array2<bv32>, k: nat, j: nat, v: bv32)
    requires k < table.Length0 && j < table.Length1 == 256
    modifies table
    ensures Row(table, k) == old(Row(table, k))[j := v]
    ensures forall i: nat {:trigger Row(table, i)} ::
      i < table.Length0 && i != k ==> Row(table, i) == old(Row(table, i))
  {
    table[k, j] := v;
  }
}
