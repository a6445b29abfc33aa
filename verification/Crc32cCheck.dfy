// Check values of CRC-32C: what the register of Crc32c computes on given buffers.
module Crc32cCheck {
  import opened Words
  import opened Crc32c

  lemma NoBytes(c: bv32)
    ensures State(c, []) == c
  {
  }

  lemma OneByte(c: bv32, data: Bytes, b: bv8)
    ensures State(c, data + [b]) == ByteStep(State(c, data), b)
  {
    assert (data + [b])[..|data|] == data;
  }

  lemma TwoBytes(c: bv32, a: bv8, b: bv8)
    ensures State(c, [a, b]) == ByteStep(ByteStep(c, a), b)
  {
    hide State, ByteStep;
    NoBytes(c);
    OneByte(c, [], a);
    OneByte(c, [a], b);
    assert [] + [a] == [a] && [a] + [b] == [a, b];
  }

  lemma EightBytes(c: bv32, d: Bytes)
    requires |d| == 8
    ensures State(c, d) == State(State(State(State(c, d[..2]), d[2..4]), d[4..6]), d[6..8])
  {
    hide State;
    StateConcat(c, d[..2], d[2..4]);
    StateConcat(c, d[..4], d[4..6]);
    StateConcat(c, d[..6], d[6..8]);
    assert d[..2] + d[2..4] == d[..4] && d[..4] + d[4..6] == d[..6] && d[..6] + d[6..8] == d;
  }

  /** The register starts and ends inverted. */
  lemma Inversions()
    ensures Xor(0, 0xffffffff) == 0xffffffff
    ensures Xor(0xad82acae, 0xffffffff) == 0x527d5351
    ensures Xor(0xb92286b1, 0xffffffff) == 0x46dd794e
  {
  }

  /** The CRC-32C of one zero byte. */
  lemma ZeroByte()
    ensures Crc(0, [0]) == 0x527d5351
  {
    Byte0();
    hide ByteStep, Xor;
    NoBytes(0xffffffff);
    var d: Bytes := [0];
    assert d[..0] == [];
    Inversions();
  }

  // ----- the bytes 0 to 31, one after the other -----

  lemma Byte0()
    ensures ByteStep(0xffffffff, 0) == 0xad82acae
  {
  }

  lemma Byte1()
    ensures ByteStep(0xad82acae, 1) == 0xfcf50b2e
  {
  }

  lemma Byte2()
    ensures ByteStep(0xfcf50b2e, 2) == 0x6d02b405
  {
  }

  lemma Byte3()
    ensures ByteStep(0x6d02b405, 3) == 0x26cce55c
  {
  }

  lemma Byte4()
    ensures ByteStep(0x26cce55c, 4) == 0xdbda4ef9
  {
  }

  lemma Byte5()
    ensures ByteStep(0xdbda4ef9, 5) == 0xbef67aeb
  {
  }

  lemma Byte6()
    ensures ByteStep(0xbef67aeb, 6) == 0x5ca612b3
  {
  }

  lemma Byte7()
    ensures ByteStep(0x5ca612b3, 7) == 0x75d343c4
  {
  }

  lemma Byte8()
    ensures ByteStep(0x75d343c4, 8) == 0x8ebb3a57
  {
  }

  lemma Byte9()
    ensures ByteStep(0x8ebb3a57, 9) == 0xfdd3dece
  {
  }

  lemma Byte10()
    ensures ByteStep(0xfdd3dece, 10) == 0x04ea6205
  {
  }

  lemma Byte11()
    ensures ByteStep(0x04ea6205, 11) == 0xac7c5545
  {
  }

  lemma Byte12()
    ensures ByteStep(0xac7c5545, 12) == 0x3965ba25
  {
  }

  lemma Byte13()
    ensures ByteStep(0x3965ba25, 13) == 0xaa5db3ab
  {
  }

  lemma Byte14()
    ensures ByteStep(0xaa5db3ab, 14) == 0x9710fc09
  {
  }

  lemma Byte15()
    ensures ByteStep(0x9710fc09, 15) == 0x2636f714
  {
  }

  lemma Byte16()
    ensures ByteStep(0x2636f714, 16) == 0xc7bca1e8
  {
  }

  lemma Byte17()
    ensures ByteStep(0xc7bca1e8, 17) == 0x8b1b0818
  {
  }

  lemma Byte18()
    ensures ByteStep(0x8b1b0818, 18) == 0x6b693330
  {
  }

  lemma Byte19()
    ensures ByteStep(0x6b693330, 19) == 0x33861419
  {
  }

  lemma Byte20()
    ensures ByteStep(0x33861419, 20) == 0xbf1bcac7
  {
  }

  lemma Byte21()
    ensures ByteStep(0xbf1bcac7, 21) == 0x32578a96
  {
  }

  lemma Byte22()
    ensures ByteStep(0x32578a96, 22) == 0x82c46cf2
  {
  }

  lemma Byte23()
    ensures ByteStep(0x82c46cf2, 23) == 0xd643786a
  {
  }

  lemma Byte24()
    ensures ByteStep(0xd643786a, 24) == 0x90756782
  {
  }

  lemma Byte25()
    ensures ByteStep(0x90756782, 25) == 0x0bb1224b
  {
  }

  lemma Byte26()
    ensures ByteStep(0x0bb1224b, 26) == 0xa345e8f2
  {
  }

  lemma Byte27()
    ensures ByteStep(0xa345e8f2, 27) == 0x9b21363e
  {
  }

  lemma Byte28()
    ensures ByteStep(0x9b21363e, 28) == 0xc11ddf1f
  {
  }

  lemma Byte29()
    ensures ByteStep(0xc11ddf1f, 29) == 0xe1fa6d28
  {
  }

  lemma Byte30()
    ensures ByteStep(0xe1fa6d28, 30) == 0x16a35434
  {
  }

  lemma Byte31()
    ensures ByteStep(0x16a35434, 31) == 0xb92286b1
  {
  }

  lemma Bytes0To7()
    ensures State(0xffffffff, [0, 1, 2, 3, 4, 5, 6, 7]) == 0x75d343c4
  {
    hide State, ByteStep;
    var d: Bytes := [0, 1, 2, 3, 4, 5, 6, 7];
    assert d[0..2] == [0, 1] && d[2..4] == [2, 3] && d[4..6] == [4, 5] && d[6..8] == [6, 7];
    EightBytes(0xffffffff, d);
    Byte0();
    Byte1();
    TwoBytes(0xffffffff, 0, 1);
    Byte2();
    Byte3();
    TwoBytes(0xfcf50b2e, 2, 3);
    Byte4();
    Byte5();
    TwoBytes(0x26cce55c, 4, 5);
    Byte6();
    Byte7();
    TwoBytes(0xbef67aeb, 6, 7);
  }

  lemma Bytes8To15()
    ensures State(0x75d343c4, [8, 9, 10, 11, 12, 13, 14, 15]) == 0x2636f714
  {
    hide State, ByteStep;
    var d: Bytes := [8, 9, 10, 11, 12, 13, 14, 15];
    assert d[0..2] == [8, 9] && d[2..4] == [10, 11] && d[4..6] == [12, 13] && d[6..8] == [14, 15];
    EightBytes(0x75d343c4, d);
    Byte8();
    Byte9();
    TwoBytes(0x75d343c4, 8, 9);
    Byte10();
    Byte11();
    TwoBytes(0xfdd3dece, 10, 11);
    Byte12();
    Byte13();
    TwoBytes(0xac7c5545, 12, 13);
    Byte14();
    Byte15();
    TwoBytes(0xaa5db3ab, 14, 15);
  }

  lemma Bytes16To23()
    ensures State(0x2636f714, [16, 17, 18, 19, 20, 21, 22, 23]) == 0xd643786a
  {
    hide State, ByteStep;
    var d: Bytes := [16, 17, 18, 19, 20, 21, 22, 23];
    assert d[0..2] == [16, 17] && d[2..4] == [18, 19] && d[4..6] == [20, 21] && d[6..8] == [22, 23];
    EightBytes(0x2636f714, d);
    Byte16();
    Byte17();
    TwoBytes(0x2636f714, 16, 17);
    Byte18();
    Byte19();
    TwoBytes(0x8b1b0818, 18, 19);
    Byte20();
    Byte21();
    TwoBytes(0x33861419, 20, 21);
    Byte22();
    Byte23();
    TwoBytes(0x32578a96, 22, 23);
  }

  lemma Bytes24To31()
    ensures State(0xd643786a, [24, 25, 26, 27, 28, 29, 30, 31]) == 0xb92286b1
  {
    hide State, ByteStep;
    var d: Bytes := [24, 25, 26, 27, 28, 29, 30, 31];
    assert d[0..2] == [24, 25] && d[2..4] == [26, 27] && d[4..6] == [28, 29] && d[6..8] == [30, 31];
    EightBytes(0xd643786a, d);
    Byte24();
    Byte25();
    TwoBytes(0xd643786a, 24, 25);
    Byte26();
    Byte27();
    TwoBytes(0x0bb1224b, 26, 27);
    Byte28();
    Byte29();
    TwoBytes(0x9b21363e, 28, 29);
    Byte30();
    Byte31();
    TwoBytes(0xe1fa6d28, 30, 31);
  }

  /** The CRC-32C of the bytes 0 to 31 (section B.4 of RFC 3720). */
  lemma IncreasingBytes()
    ensures Crc(0, [
      0, 1, 2, 3, 4, 5, 6, 7, 8, 9, 10, 11, 12, 13, 14, 15,
      16, 17, 18, 19, 20, 21, 22, 23, 24, 25, 26, 27, 28, 29, 30, 31]) == 0x46dd794e
  {
    hide State, Xor;
    var a: Bytes := [0, 1, 2, 3, 4, 5, 6, 7];
    var b: Bytes := [8, 9, 10, 11, 12, 13, 14, 15];
    var c: Bytes := [16, 17, 18, 19, 20, 21, 22, 23];
    var d: Bytes := [24, 25, 26, 27, 28, 29, 30, 31];
    Bytes0To7();
    Bytes8To15();
    Bytes16To23();
    Bytes24To31();
    StateConcat(0xffffffff, a, b);
    StateConcat(0xffffffff, a + b, c);
    StateConcat(0xffffffff, a + b + c, d);
    Inversions();
    assert a + b + c + d == [
      0, 1, 2, 3, 4, 5, 6, 7, 8, 9, 10, 11, 12, 13, 14, 15,
      16, 17, 18, 19, 20, 21, 22, 23, 24, 25, 26, 27, 28, 29, 30, 31];
  }
}
