// Check values of crc64 (src/io/parser.cpp) over tables generated from the polynomial that the
// program's table holds at entry 128 of row 0 (src/utils/util.cpp).
module Crc64Check {
  import opened Words
  import opened Slicing
  import opened Crc64
  import opened Crc64Poly

  const POLY64: bv64 := 0x95ac9329ac4bc9b5

  lemma Byte0()
    ensures ZeroBits(POLY64, 8, Xor64(0x0, WidenByte(0x31))) == 0xfdc17184a9f739fa
  {
  }

  lemma Byte1()
    ensures ZeroBits(POLY64, 8, Xor64(0xfdc17184a9f739fa, WidenByte(0x32))) == 0xe10364513a98ed96
  {
  }

  lemma Byte2()
    ensures ZeroBits(POLY64, 8, Xor64(0xe10364513a98ed96, WidenByte(0x33))) == 0xd5bcfb814479b1ac
  {
  }

  lemma Byte3()
    ensures ZeroBits(POLY64, 8, Xor64(0xd5bcfb814479b1ac, WidenByte(0x34))) == 0x43593c5dcda521f0
  {
  }

  lemma Byte4()
    ensures ZeroBits(POLY64, 8, Xor64(0x43593c5dcda521f0, WidenByte(0x35))) == 0xf0758513239c7e0d
  {
  }

  lemma Byte5()
    ensures ZeroBits(POLY64, 8, Xor64(0xf0758513239c7e0d, WidenByte(0x36))) == 0xa3a90925b2ab4903
  {
  }

  lemma Byte6()
    ensures ZeroBits(POLY64, 8, Xor64(0xa3a90925b2ab4903, WidenByte(0x37))) == 0x47824d362431ad45
  {
  }

  lemma Byte7()
    ensures ZeroBits(POLY64, 8, Xor64(0x47824d362431ad45, WidenByte(0x38))) == 0x49ec20b315e86dc2
  {
  }

  lemma Byte8()
    ensures ZeroBits(POLY64, 8, Xor64(0x49ec20b315e86dc2, WidenByte(0x39))) == 0xe9c6d914c4b8d9ca
  {
  }

  lemma OneByte(data: seq<bv8>, b: bv8)
    ensures Division(POLY64, 0, data + [b]) == ZeroBits(POLY64, 8, Xor64(Division(POLY64, 0, data), WidenByte(b)))
  {
    hide ZeroBits, Xor64, WidenByte;
    assert (data + [b])[..|data|] == data;
  }

  lemma NoBytes()
    ensures Division(POLY64, 0, []) == 0
  {
  }

  /** The check value of the bytes of "123456789". */
  lemma NineBytes()
    ensures Division(POLY64, 0, [0x31, 0x32, 0x33, 0x34, 0x35, 0x36, 0x37, 0x38, 0x39]) == 0xe9c6d914c4b8d9ca
  {
    hide Division, ZeroBits, Xor64, WidenByte;
    var d: seq<bv8> := [];
    NoBytes();
    Byte0();
    OneByte(d, 0x31);
    d := d + [0x31];
    Byte1();
    OneByte(d, 0x32);
    d := d + [0x32];
    Byte2();
    OneByte(d, 0x33);
    d := d + [0x33];
    Byte3();
    OneByte(d, 0x34);
    d := d + [0x34];
    Byte4();
    OneByte(d, 0x35);
    d := d + [0x35];
    Byte5();
    OneByte(d, 0x36);
    d := d + [0x36];
    Byte6();
    OneByte(d, 0x37);
    d := d + [0x37];
    Byte7();
    OneByte(d, 0x38);
    d := d + [0x38];
    Byte8();
    OneByte(d, 0x39);
    d := d + [0x39];
    assert d == [0x31, 0x32, 0x33, 0x34, 0x35, 0x36, 0x37, 0x38, 0x39];
  }

  lemma FirstLookup()
    ensures ZeroBits(POLY64, 8, 1) == 0x7ad870c830358979
  {
  }

  lemma SecondLookup()
    ensures ZeroBits(POLY64, 8, 0x7ad870c830358979) == 0x89e99ffd73bddf69
  {
  }

  lemma LowOne(x: bv64)
    requires x == 1
    ensures (x & 0xff) as int == 1 && LowByte(x) == x
  {
  }

  /** Generated tables have the program's words at entry 1 of rows 0 and 1. */
  lemma TableEntries(tables: Tables)
    requires Generated(POLY64, tables)
    ensures tables[0][1] == 0x7ad870c830358979 && tables[1][1] == 0x89e99ffd73bddf69
  {
    hide LowByte, ZeroBits, RowTable, ZeroStep, Entry;
    var x: bv64 := 1;
    LowOne(x);
    FirstLookup();
    SecondLookup();
    EntryValue(tables, 0, x);
    EntryValue(tables, 1, x);
    var e := Entry(RowTable(tables, 0), x);
    assert Entry(RowTable(tables, 1), x) == ZeroStep(RowTable(tables, 0), e);
    ByteLookup(POLY64, tables, e);
  }
}
