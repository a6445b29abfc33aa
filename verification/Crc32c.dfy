// The bit-at-a-time meaning of CRC-32C (RFC 3720, section 12.1) and the linear algebra
// behind every faster form in deps/librdkafka-master/src/crc32c.c.
module Crc32c {
  import opened Words

  type Bytes = seq<bv8>

  /** The Castagnoli polynomial in reversed bit order. */
  const POLY: bv32 := 0x82f63b78

  /** One bit of polynomial division. */
  function BitStep(c: bv32): bv32 {
    if Odd(c) then Xor(Shr1(c), POLY) else Shr1(c)
  }

  /** n zero bits shifted through the register. */
  function ZeroBits(n: nat, c: bv32): bv32 {
    if n == 0 then c else BitStep(ZeroBits(n - 1, c))
  }

  /** n zero bytes shifted through the register. */
  function ZeroBytes(n: nat, c: bv32): bv32 {
    ZeroBits(8 * n, c)
  }

  /** One data byte, lowest bit first. */
  function ByteStep(c: bv32, b: bv8): bv32 {
    ZeroBits(8, Xor(c, Widen8(b)))
  }

  /** The register after a whole buffer. */
  function State(c: bv32, data: Bytes): bv32 {
    if data == [] then c else ByteStep(State(c, data[..|data| - 1]), data[|data| - 1])
  }

  /** CRC-32C of a buffer, continuing from an earlier CRC (0 to start). */
  function Crc(crc: bv32, data: Bytes): bv32 {
    Xor(State(Xor(crc, 0xffffffff), data), 0xffffffff)
  }

  function Zeros(n: nat): Bytes {
    seq(n, _ => 0)
  }

  // ----- the register is a linear map of its start value -----

  lemma BitStepXor(a: bv32, b: bv32)
    ensures BitStep(Xor(a, b)) == Xor(BitStep(a), BitStep(b))
  {
    OddXor(a, b);
    ShiftXor(a, b);
    hide Xor, Shr1, Odd;
    var x, y := Shr1(a), Shr1(b);
    XorAssoc(x, y, POLY);
    XorSwap(x, POLY, y, POLY);
    XorZero(POLY);
    XorZero(Xor(x, y));
    XorZero(y);
    XorSwap(x, POLY, y, 0);
    XorZero(x);
  }

  lemma {:induction false} ZeroBitsXor(n: nat, a: bv32, b: bv32)
    ensures ZeroBits(n, Xor(a, b)) == Xor(ZeroBits(n, a), ZeroBits(n, b))
  {
    hide Xor, BitStep;
    if n > 0 {
      ZeroBitsXor(n - 1, a, b);
      BitStepXor(ZeroBits(n - 1, a), ZeroBits(n - 1, b));
    }
  }

  lemma {:induction false} ZeroBitsAdd(m: nat, n: nat, c: bv32)
    ensures ZeroBits(m + n, c) == ZeroBits(m, ZeroBits(n, c))
  {
    hide BitStep;
    if m > 0 {
      ZeroBitsAdd(m - 1, n, c);
    }
  }

  /** Running over A then B is one run over A + B. */
  lemma {:induction false} StateConcat(c: bv32, a: Bytes, b: Bytes)
    ensures State(c, a + b) == State(State(c, a), b)
  {
    hide ByteStep;
    if b == [] {
      assert a + b == a;
    } else {
      var last := |b| - 1;
      assert (a + b)[..|a + b| - 1] == a + b[..last];
      StateConcat(c, a, b[..last]);
    }
  }

  /**
   * The core law: the start value and the data contribute independently. Starting at
   * c ^ d equals starting at c, corrected by d pushed through |data| zero bytes.
   */
  lemma {:induction false} StateXor(c: bv32, d: bv32, data: Bytes)
    ensures State(Xor(c, d), data) == Xor(State(c, data), ZeroBytes(|data|, d))
  {
    hide Xor, BitStep;
    if data == [] {
      assert ZeroBytes(0, d) == d;
    } else {
      var n := |data| - 1;
      var s, z, w := State(c, data[..n]), ZeroBytes(n, d), Widen8(data[n]);
      StateXor(c, d, data[..n]);
      XorAssoc(s, z, w);
      XorComm(z, w);
      XorAssoc(s, w, z);
      ZeroBitsXor(8, Xor(s, w), z);
      ZeroBitsAdd(8, 8 * n, d);
    }
  }

  /** state(A + B) = shift by |B| of state(A), xor the state of B alone. */
  lemma Combine(c: bv32, a: Bytes, b: Bytes)
    ensures State(c, a + b) == Xor(ZeroBytes(|b|, State(c, a)), State(0, b))
  {
    hide Xor, ByteStep, ZeroBytes;
    StateConcat(c, a, b);
    XorZero(State(c, a));
    StateXor(0, State(c, a), b);
    XorComm(State(0, b), ZeroBytes(|b|, State(c, a)));
  }

  /** Checksumming a buffer in two calls gives the checksum of the whole buffer. */
  lemma Chaining(crc: bv32, a: Bytes, b: Bytes)
    ensures Crc(Crc(crc, a), b) == Crc(crc, a + b)
  {
    hide Xor, State;
    var ones: bv32 := 0xffffffff;
    var s := State(Xor(crc, ones), a);
    XorAssoc(s, ones, ones);
    XorZero(ones);
    XorZero(s);
    StateConcat(Xor(crc, ones), a, b);
  }

  // ----- a byte through the register -----

  /** Eight even steps undo a shift by eight. */
  lemma ShiftDown(x: bv32)
    ensures ZeroBits(8, Shl8(Shr8(x))) == Shr8(x)
  {
    hide *;
    var b8 := Shl8(Shr8(x));
    var b7, b6, b5, b4 := EvenStepsHigh(x);
    var b3, b2, b1 := EvenStepsLow(x, b4);
    EvenStep(b8);
    EvenStep(b7);
    EvenStep(b6);
    EvenStep(b5);
    EvenStep(b4);
    EvenStep(b3);
    EvenStep(b2);
    EvenStep(b1);
    EightSteps(b8);
  }

  lemma EvenStep(a: bv32)
    requires !Odd(a)
    ensures BitStep(a) == Shr1(a)
  {
    hide Odd, Shr1;
  }

  lemma EvenStepsHigh(x: bv32) returns (b7: bv32, b6: bv32, b5: bv32, b4: bv32)
    ensures b4 == (x >> 8) << 4
    ensures !Odd(Shl8(Shr8(x))) && Shr1(Shl8(Shr8(x))) == b7
    ensures !Odd(b7) && Shr1(b7) == b6
    ensures !Odd(b6) && Shr1(b6) == b5
    ensures !Odd(b5) && Shr1(b5) == b4
  {
    b7, b6, b5, b4 := (x >> 8) << 7, (x >> 8) << 6, (x >> 8) << 5, (x >> 8) << 4;
    assert ((x >> 8) << 8) & 1 == 0 && ((x >> 8) << 8) >> 1 == (x >> 8) << 7;
    assert ((x >> 8) << 7) & 1 == 0 && ((x >> 8) << 7) >> 1 == (x >> 8) << 6;
    assert ((x >> 8) << 6) & 1 == 0 && ((x >> 8) << 6) >> 1 == (x >> 8) << 5;
    assert ((x >> 8) << 5) & 1 == 0 && ((x >> 8) << 5) >> 1 == (x >> 8) << 4;
  }

  lemma EvenStepsLow(x: bv32, b4: bv32) returns (b3: bv32, b2: bv32, b1: bv32)
    requires b4 == (x >> 8) << 4
    ensures !Odd(b4) && Shr1(b4) == b3
    ensures !Odd(b3) && Shr1(b3) == b2
    ensures !Odd(b2) && Shr1(b2) == b1
    ensures !Odd(b1) && Shr1(b1) == Shr8(x)
  {
    b3, b2, b1 := (x >> 8) << 3, (x >> 8) << 2, (x >> 8) << 1;
    assert ((x >> 8) << 4) & 1 == 0 && ((x >> 8) << 4) >> 1 == (x >> 8) << 3;
    assert ((x >> 8) << 3) & 1 == 0 && ((x >> 8) << 3) >> 1 == (x >> 8) << 2;
    assert ((x >> 8) << 2) & 1 == 0 && ((x >> 8) << 2) >> 1 == (x >> 8) << 1;
    assert ((x >> 8) << 1) & 1 == 0 && ((x >> 8) << 1) >> 1 == x >> 8;
  }

  lemma EightSteps(c: bv32)
    ensures BitStep(BitStep(BitStep(BitStep(BitStep(BitStep(BitStep(BitStep(c)))))))) == ZeroBits(8, c)
  {
    hide BitStep;
    assert ZeroBits(1, c) == BitStep(c);
    assert ZeroBits(2, c) == BitStep(ZeroBits(1, c));
    assert ZeroBits(3, c) == BitStep(ZeroBits(2, c));
    assert ZeroBits(4, c) == BitStep(ZeroBits(3, c));
    assert ZeroBits(5, c) == BitStep(ZeroBits(4, c));
    assert ZeroBits(6, c) == BitStep(ZeroBits(5, c));
    assert ZeroBits(7, c) == BitStep(ZeroBits(6, c));
  }

  /** One zero byte: look up the low byte, shift down the rest. */
  lemma ByteLookup(c: bv32)
    ensures ZeroBits(8, c) == Xor(ZeroBits(8, Low8(c)), Shr8(c))
  {
    hide *;
    SplitByte(c);
    ZeroBitsXor(8, Low8(c), Shl8(Shr8(c)));
    ShiftDown(c);
  }
}
