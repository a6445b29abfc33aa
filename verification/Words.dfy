// Machine words of the C sources: exclusive or, shifts and byte extraction on
// uint32_t (bv32) and uint64_t (bv64), with the algebra the CRC proofs need.
//
// The operators are wrapped in functions so that a proof can hide their bodies and
// reason with the algebraic laws alone instead of bit by bit.
module Words {

  function Xor(a: bv32, b: bv32): bv32 { a ^ b }

  function Xor64(a: bv64, b: bv64): bv64 { a ^ b }

  function Shr1(a: bv32): bv32 { a >> 1 }

  function Shl1(a: bv32): bv32 { a << 1 }

  function Shr8(a: bv32): bv32 { a >> 8 }

  function Shl8(a: bv32): bv32 { a << 8 }

  predicate Odd(a: bv32) { a & 1 == 1 }

  /** The low byte of a 32-bit word. */
  function Low8(a: bv32): (b: bv32)
    ensures b < 256
  {
    a & 0xff
  }

  function Widen8(b: bv8): bv32 { b as bv32 }

  /** Conversion of a uint64_t to uint32_t: the high half is dropped. */
  function Low32(a: bv64): bv32 { (a & 0xffffffff) as bv32 }

  function Widen32(a: bv32): bv64 { a as bv64 }

  lemma XorDef(a: bv32, b: bv32)
    ensures Xor(a, b) == a ^ b
  {
  }

  lemma XorAssoc(a: bv32, b: bv32, c: bv32)
    ensures Xor(Xor(a, b), c) == Xor(a, Xor(b, c))
  {
    assert Xor(a ^ b, c) == Xor(a, b ^ c);
    hide Xor;
    XorDef(a, b);
    XorDef(b, c);
  }

  lemma XorComm(a: bv32, b: bv32)
    ensures Xor(a, b) == Xor(b, a)
  {
  }

  lemma XorZero(a: bv32)
    ensures Xor(a, 0) == a && Xor(0, a) == a && Xor(a, a) == 0
  {
  }

  /** (a ^ b) ^ (c ^ d) == (a ^ c) ^ (b ^ d) */
  lemma XorSwap(a: bv32, b: bv32, c: bv32, d: bv32)
    ensures Xor(Xor(a, b), Xor(c, d)) == Xor(Xor(a, c), Xor(b, d))
  {
    hide Xor;
    XorAssoc(a, b, Xor(c, d));
    XorAssoc(b, c, d);
    XorComm(b, c);
    XorAssoc(c, b, d);
    XorAssoc(a, c, Xor(b, d));
  }

  lemma ShiftXor(a: bv32, b: bv32)
    ensures Shr1(Xor(a, b)) == Xor(Shr1(a), Shr1(b))
    ensures Shl1(Xor(a, b)) == Xor(Shl1(a), Shl1(b))
  {
  }

  lemma OddXor(a: bv32, b: bv32)
    ensures Odd(Xor(a, b)) == (Odd(a) != Odd(b))
  {
  }

  /** Splitting off the lowest bit. */
  lemma SplitBit(v: bv32)
    ensures v == Xor(if Odd(v) then 1 else 0, Shl1(Shr1(v)))
  {
    assert v == (v & 1) ^ ((v >> 1) << 1);
    assert v & 1 == 0 || v & 1 == 1;
  }

  /** Splitting off the lowest byte. */
  lemma SplitByte(v: bv32)
    ensures v == Xor(Low8(v), Shl8(Shr8(v)))
  {
    assert v == (v & 0xff) ^ ((v >> 8) << 8);
  }

  lemma Low32Widen(a: bv32)
    ensures Low32(Widen32(a)) == a
  {
  }
}
