// What crc64 (src/io/parser.cpp) computes when its tables are generated from a polynomial: the
// remainder of a division done one bit at a time, lowest bit first.
module Crc64Poly {
  import opened Words
  import opened Slicing
  import opened Crc64

  /** One bit of polynomial division, in reversed bit order. */
  function BitStep(poly: bv64, c: bv64): bv64 {
    if Odd64(c) then Xor64(Half(c), poly) else Half(c)
  }

  predicate Odd64(c: bv64) { c & 1 == 1 }

  function Half(c: bv64): bv64 { c >> 1 }

  /** n zero bits shifted through the register. */
  function ZeroBits(poly: bv64, n: nat, c: bv64): bv64 {
    if n == 0 then c else BitStep(poly, ZeroBits(poly, n - 1, c))
  }

  /** The register after a buffer, one bit at a time. */
  function Division(poly: bv64, c: bv64, data: seq<bv8>): bv64 {
    if data == [] then c
    else ZeroBits(poly, 8, Xor64(Division(poly, c, data[..|data| - 1]), WidenByte(data[|data| - 1])))
  }

  /** Row 0 holds every byte pushed through the register, the other rows follow by the recurrence. */
  ghost predicate Generated(poly: bv64, tables: Tables) {
    && Shaped(tables) && Recurrence(tables)
    && forall x: bv64 {:trigger Entry(RowTable(tables, 0), x)} ::
      Entry(RowTable(tables, 0), x) == ZeroBits(poly, 8, LowByte(x))
  }

  // ----- the register is linear -----

  lemma OddXor(a: bv64, b: bv64)
    ensures Odd64(Xor64(a, b)) == (Odd64(a) != Odd64(b))
  {
  }

  lemma HalfXor(a: bv64, b: bv64)
    ensures Half(Xor64(a, b)) == Xor64(Half(a), Half(b))
  {
  }

  lemma LowXor(a: bv64, b: bv64)
    ensures LowByte(Xor64(a, b)) == Xor64(LowByte(a), LowByte(b))
  {
  }

  lemma BitStepXor(poly: bv64, a: bv64, b: bv64)
    ensures BitStep(poly, Xor64(a, b)) == Xor64(BitStep(poly, a), BitStep(poly, b))
  {
    hide Xor64, Odd64, Half;
    OddXor(a, b);
    HalfXor(a, b);
    var x, y := Half(a), Half(b);
    Xor64Assoc(x, y, poly);
    Xor64Swap(x, poly, y, poly);
    Xor64Zero(poly);
    Xor64Zero(Xor64(x, y));
    Xor64Zero(x);
    Xor64Zero(y);
    Xor64Swap(x, poly, y, 0);
  }

  lemma {:induction false} ZeroBitsXor(poly: bv64, n: nat, a: bv64, b: bv64)
    ensures ZeroBits(poly, n, Xor64(a, b)) == Xor64(ZeroBits(poly, n, a), ZeroBits(poly, n, b))
  {
    hide Xor64, BitStep;
    if n > 0 {
      ZeroBitsXor(poly, n - 1, a, b);
      BitStepXor(poly, ZeroBits(poly, n - 1, a), ZeroBits(poly, n - 1, b));
    }
  }

  // ----- eight bits at once -----

  /** c without its low byte. */
  function Above(c: bv64): bv64 { (c >> 8) << 8 }

  lemma SplitLow(c: bv64)
    ensures c == Xor64(LowByte(c), Above(c))
  {
    assert c == (c & 0xff) ^ ((c >> 8) << 8);
  }

  /** While the low bits are zero, the register only shifts. */
  lemma ZerosOut(poly: bv64, c: bv64)
    ensures ZeroBits(poly, 8, Above(c)) == DropByte(c)
  {
    var d := Above(c);
    ShiftsOut(c, d);
    hide Odd64, Half, Above, DropByte;
    var d1 := Half(d);
    var d2 := Half(d1);
    var d3 := Half(d2);
    var d4 := Half(d3);
    var d5 := Half(d4);
    var d6 := Half(d5);
    var d7 := Half(d6);
    assert ZeroBits(poly, 1, d) == d1;
    assert ZeroBits(poly, 2, d) == d2;
    assert ZeroBits(poly, 3, d) == d3;
    assert ZeroBits(poly, 4, d) == d4;
    assert ZeroBits(poly, 5, d) == d5;
    assert ZeroBits(poly, 6, d) == d6;
    assert ZeroBits(poly, 7, d) == d7;
  }

  lemma ShiftsOut(c: bv64, d: bv64)
    requires d == Above(c)
    ensures !Odd64(d) && !Odd64(Half(d)) && !Odd64(Half(Half(d))) && !Odd64(Half(Half(Half(d))))
    ensures !Odd64(Half(Half(Half(Half(d))))) && !Odd64(Half(Half(Half(Half(Half(d))))))
    ensures !Odd64(Half(Half(Half(Half(Half(Half(d)))))))
    ensures !Odd64(Half(Half(Half(Half(Half(Half(Half(d))))))))
    ensures Half(Half(Half(Half(Half(Half(Half(Half(d)))))))) == DropByte(c)
  {
    hide *;
    Halves(d);
    EvenBits(c, d);
  }

  lemma Halves(d: bv64)
    ensures Half(d) == d >> 1
    ensures Half(d >> 1) == d >> 2
    ensures Half(d >> 2) == d >> 3
    ensures Half(d >> 3) == d >> 4
    ensures Half(d >> 4) == d >> 5
    ensures Half(d >> 5) == d >> 6
    ensures Half(d >> 6) == d >> 7
    ensures Half(d >> 7) == d >> 8
  {
  }

  lemma EvenBits(c: bv64, d: bv64)
    requires d == Above(c)
    ensures !Odd64(d) && !Odd64(d >> 1) && !Odd64(d >> 2) && !Odd64(d >> 3)
    ensures !Odd64(d >> 4) && !Odd64(d >> 5) && !Odd64(d >> 6) && !Odd64(d >> 7)
    ensures d >> 8 == DropByte(c)
  {
  }

  /** A byte of zero bits is one lookup. */
  lemma ByteLookup(poly: bv64, tables: Tables, c: bv64)
    requires Generated(poly, tables)
    ensures ZeroBits(poly, 8, c) == ZeroStep(RowTable(tables, 0), c)
  {
    hide Xor64, LowByte, Above, DropByte, ZeroBits, RowTable, Recurrence;
    SplitLow(c);
    ZeroBitsXor(poly, 8, LowByte(c), Above(c));
    ZerosOut(poly, c);
    var e := Entry(RowTable(tables, 0), c);
  }

  // ----- generated tables are what crc64 needs -----

  lemma GeneratedIsLinear(poly: bv64, tables: Tables)
    requires Generated(poly, tables)
    ensures TablesOk(tables)
  {
    var t := RowTable(tables, 0);
    forall a: bv64, b: bv64
      ensures Entry(t, Xor64(a, b)) == Xor64(Entry(t, a), Entry(t, b))
    {
      hide Xor64, LowByte, ZeroBits, RowTable, Recurrence, Entry;
      LowXor(a, b);
      ZeroBitsXor(poly, 8, LowByte(a), LowByte(b));
    }
  }

  /** The byte loop over generated tables is the division. */
  lemma {:induction false} RunIsDivision(poly: bv64, tables: Tables, c: bv64, data: seq<bv8>)
    requires Generated(poly, tables)
    ensures Run(RowTable(tables, 0), c, data) == Division(poly, c, data)
    decreases |data|
  {
    hide Xor64, WidenByte, ZeroBits, RowTable, Recurrence, ZeroStep, DataStep, Entry;
    if data != [] {
      var last := |data| - 1;
      var before := Division(poly, c, data[..last]);
      RunIsDivision(poly, tables, c, data[..last]);
      DataStepIsZeroStep(RowTable(tables, 0), before, data[last]);
      ByteLookup(poly, tables, Xor64(before, WidenByte(data[last])));
    }
  }

  /** crc64 with tables generated from any polynomial divides by that polynomial. */
  method ComputeFrom(poly: bv64, tables: Tables, buffer: seq<bv8>) returns (crc: bv64)
    requires Generated(poly, tables)
    ensures crc == Division(poly, 0, buffer)
  {
    hide Generated, Run, Division;
    GeneratedIsLinear(poly, tables);
    RunIsDivision(poly, tables, 0, buffer);
    crc := Compute(tables, buffer);
  }

  /** Entry 128 of a generated table is the polynomial: one odd step after seven even ones. */
  lemma PolynomialAt128(poly: bv64, tables: Tables)
    requires Generated(poly, tables)
    ensures tables[0][128] == poly
  {
    var c: bv64 := 0x80;
    OneBit(c);
    EntryValue(tables, 0, c);
    hide Odd64, Half, Xor64;
    assert ZeroBits(poly, 1, c) == 0x40;
    assert ZeroBits(poly, 2, c) == 0x20;
    assert ZeroBits(poly, 3, c) == 0x10;
    assert ZeroBits(poly, 4, c) == 8;
    assert ZeroBits(poly, 5, c) == 4;
    assert ZeroBits(poly, 6, c) == 2;
    assert ZeroBits(poly, 7, c) == 1;
    Xor64Zero(poly);
  }

  lemma OneBit(c: bv64)
    requires c == 0x80
    ensures LowByte(c) == c && (c & 0xff) as int == 128
    ensures Half(c) == 0x40 && Half(0x40) == 0x20 && Half(0x20) == 0x10 && Half(0x10) == 8
    ensures Half(8) == 4 && Half(4) == 2 && Half(2) == 1 && Half(1) == 0
    ensures !Odd64(c) && !Odd64(0x40) && !Odd64(0x20) && !Odd64(0x10) && !Odd64(8) && !Odd64(4) && !Odd64(2)
    ensures Odd64(1)
  {
  }
}
