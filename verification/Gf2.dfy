// The GF(2) operators of deps/librdkafka-master/src/crc32c.c: matrix times vector, matrix
// squaring, the "append zeros" operator built by repeated squaring, and its byte tables.
module Gf2 {
  import opened Words
  import opened Crc32c

  // ----- vectors and matrices -----

  /** The vector with only bit i set. */
  function Bit(i: nat): bv32 {
    if i == 0 then 1 else Shl1(Bit(i - 1))
  }

  /** v has no bit at or above position n. */
  predicate Fits(v: bv32, n: nat) {
    if n == 0 then v == 0 else Fits(Shr1(v), n - 1)
  }

  /** Exclusive or of the rows picked by the bits of v. */
  function Times(mat: seq<bv32>, v: bv32): bv32 {
    if v == 0 || mat == [] then 0
    else Xor(if Odd(v) then mat[0] else 0, Times(mat[1..], Shr1(v)))
  }

  type Operator = bv32 -> bv32

  ghost predicate Linear(f: Operator) {
    forall a: bv32, b: bv32 {:trigger f(Xor(a, b))} :: f(Xor(a, b)) == Xor(f(a), f(b))
  }

  /** The matrix whose row i is f of bit i. */
  ghost predicate Represents(mat: seq<bv32>, f: Operator) {
    forall i: nat :: i < |mat| ==> mat[i] == f(Bit(i))
  }

  lemma LinearZero(f: Operator)
    requires Linear(f)
    ensures f(0) == 0
  {
    XorZero(0);
    XorZero(f(0));
    assert f(Xor(0, 0)) == Xor(f(0), f(0));
  }

  /** Every 32-bit word has at most 32 bits. */
  lemma FitsWord(v: bv32)
    ensures Fits(v, 32)
  {
    hide Shr8, Shr1;
    FourBytes(v);
    FitsByte(Shr8(Shr8(Shr8(v))), 0);
    FitsByte(Shr8(Shr8(v)), 8);
    FitsByte(Shr8(v), 16);
    FitsByte(v, 24);
  }

  lemma FourBytes(v: bv32)
    ensures Shr8(Shr8(Shr8(Shr8(v)))) == 0
  {
    assert (((v >> 8) >> 8) >> 8) >> 8 == 0;
  }

  lemma FitsByte(v: bv32, n: nat)
    requires Fits(Shr8(v), n)
    ensures Fits(v, n + 8)
  {
    hide Shr8, Shr1;
    EightShifts(v);
    var v1 := Shr1(v);
    var v2 := Shr1(v1);
    var v3 := Shr1(v2);
    var v4 := Shr1(v3);
    var v5 := Shr1(v4);
    var v6 := Shr1(v5);
    var v7 := Shr1(v6);
    assert Fits(v7, n + 1);
    assert Fits(v6, n + 2);
    assert Fits(v5, n + 3);
    assert Fits(v4, n + 4);
    assert Fits(v3, n + 5);
    assert Fits(v2, n + 6);
    assert Fits(v1, n + 7);
  }

  lemma EightShifts(v: bv32)
    ensures Shr1(Shr1(Shr1(Shr1(Shr1(Shr1(Shr1(Shr1(v)))))))) == Shr8(v)
  {
    hide *;
    ShiftSteps(v);
  }

  lemma ShiftSteps(v: bv32)
    ensures Shr1(v) == v >> 1
    ensures Shr1(v >> 1) == v >> 2
    ensures Shr1(v >> 2) == v >> 3
    ensures Shr1(v >> 3) == v >> 4
    ensures Shr1(v >> 4) == v >> 5
    ensures Shr1(v >> 5) == v >> 6
    ensures Shr1(v >> 6) == v >> 7
    ensures Shr1(v >> 7) == Shr8(v)
  {
  }

  lemma TimesDef(mat: seq<bv32>, v: bv32)
    ensures v == 0 || mat == [] ==> Times(mat, v) == 0
    ensures v != 0 && mat != [] && Odd(v) ==> Times(mat, v) == Xor(mat[0], Times(mat[1..], Shr1(v)))
    ensures v != 0 && mat != [] && !Odd(v) ==> Times(mat, v) == Xor(0, Times(mat[1..], Shr1(v)))
  {
    hide Xor, Shr1, Odd;
  }

  /** A matrix applied to a vector is the operator it represents. */
  lemma {:induction false} TimesIsOperator(mat: seq<bv32>, f: Operator, v: bv32)
    requires Fits(v, |mat|)
    requires Linear(f) && Represents(mat, f)
    ensures Times(mat, v) == f(v)
    decreases |mat|
  {
    hide Xor, Shr1, Shl1, Odd, Times;
    if mat == [] || v == 0 {
      LinearZero(f);
      TimesDef(mat, v);
    } else {
      TimesIsOperator(mat[1..], Doubled(mat, f), Shr1(v));
      FirstRow(mat, f);
      TimesStep(mat, f, v);
    }
  }

  lemma FirstRow(mat: seq<bv32>, f: Operator)
    requires mat != [] && Represents(mat, f)
    ensures mat[0] == f(1)
  {
    assert mat[0] == f(Bit(0));
  }

  lemma TimesStep(mat: seq<bv32>, f: Operator, v: bv32)
    requires mat != [] && v != 0 && mat[0] == f(1) && Linear(f)
    requires Times(mat[1..], Shr1(v)) == f(Shl1(Shr1(v)))
    ensures Times(mat, v) == f(v)
  {
    hide *;
    TimesDef(mat, v);
    SplitBit(v);
    OperatorSplit(f, Odd(v), Shl1(Shr1(v)));
  }

  lemma OperatorSplit(f: Operator, odd: bool, rest: bv32)
    requires Linear(f)
    ensures odd ==> f(Xor(1, rest)) == Xor(f(1), f(rest))
    ensures !odd ==> f(Xor(0, rest)) == Xor(0, f(rest))
  {
    hide Xor;
    LinearZero(f);
  }

  /** The rows after the first represent the operator on doubled arguments. */
  ghost function Doubled(mat: seq<bv32>, f: Operator): (g: Operator)
    requires mat != [] && Linear(f) && Represents(mat, f)
    ensures Linear(g) && Represents(mat[1..], g)
    ensures forall x: bv32 :: g(x) == f(Shl1(x))
  {
    hide Xor, Shl1;
    var g: Operator := x => f(Shl1(x));
    assert Linear(g) by {
      forall a: bv32, b: bv32
        ensures g(Xor(a, b)) == Xor(g(a), g(b))
      {
        ShiftXor(a, b);
      }
    }
    assert Represents(mat[1..], g) by {
      forall i: nat | i < |mat| - 1
        ensures mat[1..][i] == g(Bit(i))
      {
        assert Bit(i + 1) == Shl1(Bit(i));
      }
    }
    g
  }

  // ----- the operator for n zero bits -----

  /** mat is the matrix of "shift in n zero bits". */
  ghost predicate Appends(mat: seq<bv32>, n: nat) {
    && |mat| == 32
    && forall i: nat :: i < 32 ==> mat[i] == ZeroBits(n, Bit(i))
  }

  lemma AppendsTimes(mat: seq<bv32>, n: nat, v: bv32)
    requires Appends(mat, n)
    ensures Times(mat, v) == ZeroBits(n, v)
  {
    hide Xor, ZeroBits, Times, Bit;
    var f: Operator := x => ZeroBits(n, x);
    assert Linear(f) by {
      forall a: bv32, b: bv32
        ensures f(Xor(a, b)) == Xor(f(a), f(b))
      {
        ZeroBitsXor(n, a, b);
      }
    }
    FitsWord(v);
    TimesIsOperator(mat, f, v);
  }

  /** Squaring the matrix doubles the number of zero bits. */
  lemma SquareDoubles(mat: seq<bv32>, square: seq<bv32>, n: nat)
    requires Appends(mat, n)
    requires IsSquare(square, mat)
    ensures Appends(square, 2 * n)
  {
    hide ZeroBits, Times, Bit;
    forall i: nat | i < 32
      ensures square[i] == ZeroBits(2 * n, Bit(i))
    {
      AppendsTimes(mat, n, mat[i]);
      ZeroBitsAdd(n, n, Bit(i));
    }
  }

  lemma OneBit(i: nat)
    requires i < 32
    ensures BitStep(Bit(i)) == if i == 0 then POLY else Bit(i - 1)
  {
    if i == 0 {
      assert Odd(1) && Shr1(1) == 0;
      XorZero(POLY);
    } else {
      BitRange(i - 1);
      ShlShr(Bit(i - 1));
    }
  }

  lemma ShlShr(v: bv32)
    requires v <= 0x7fffffff
    ensures !Odd(Shl1(v)) && Shr1(Shl1(v)) == v
  {
    assert (v << 1) & 1 == 0;
  }

  /** Only bit 31 would be lost by a left shift. */
  lemma BitRange(i: nat)
    requires i < 31
    ensures Bit(i) <= 0x7fffffff
  {
    Bits();
    hide Bit;
  }

  lemma Bits()
    ensures forall i: nat :: i < 31 ==> Bit(i) <= 0x7fffffff
  {
    assert Bit(1) == 0x2;
    assert Bit(2) == 0x4;
    assert Bit(3) == 0x8;
    assert Bit(4) == 0x10;
    assert Bit(5) == 0x20;
    assert Bit(6) == 0x40;
    assert Bit(7) == 0x80;
    assert Bit(8) == 0x100;
    assert Bit(9) == 0x200;
    assert Bit(10) == 0x400;
    assert Bit(11) == 0x800;
    assert Bit(12) == 0x1000;
    assert Bit(13) == 0x2000;
    assert Bit(14) == 0x4000;
    assert Bit(15) == 0x8000;
    assert Bit(16) == 0x10000;
    assert Bit(17) == 0x20000;
    assert Bit(18) == 0x40000;
    assert Bit(19) == 0x80000;
    assert Bit(20) == 0x100000;
    assert Bit(21) == 0x200000;
    assert Bit(22) == 0x400000;
    assert Bit(23) == 0x800000;
    assert Bit(24) == 0x1000000;
    assert Bit(25) == 0x2000000;
    assert Bit(26) == 0x4000000;
    assert Bit(27) == 0x8000000;
    assert Bit(28) == 0x10000000;
    assert Bit(29) == 0x20000000;
    assert Bit(30) == 0x40000000;
  }

  // ----- gf2_matrix_times, gf2_matrix_square -----

  method MatrixTimes(mat: array<bv32>, vec: bv32) returns (sum: bv32)
    requires mat.Length == 32
    ensures sum == Times(mat[..], vec)
  {
    hide Xor, Shr1, Odd, Times;
    FitsWord(vec);
    var v, i := vec, 0;
    sum := 0;
    XorZero(Times(mat[..], vec));
    assert mat[0..] == mat[..];
    while v != 0
      invariant 0 <= i <= 32 && Fits(v, 32 - i)
      invariant Times(mat[..], vec) == Xor(sum, Times(mat[i..], v))
      decreases 32 - i
    {
      TimesDef(mat[i..], v);
      assert mat[i..][1..] == mat[i + 1..];
      if Odd(v) {
        XorAssoc(sum, mat[i], Times(mat[i + 1..], Shr1(v)));
        sum := Xor(sum, mat[i]);
      } else {
        XorZero(Times(mat[i + 1..], Shr1(v)));
      }
      v := Shr1(v);
      i := i + 1;
    }
    TimesDef(mat[i..], v);
    XorZero(sum);
  }

  /** Each row of the square is the matrix applied to its own row. */
  method MatrixSquare(square: array<bv32>, mat: array<bv32>)
    requires square.Length == 32 && mat.Length == 32 && square != mat
    modifies square
    ensures IsSquare(square[..], mat[..])
  {
    hide Times;
    for i := 0 to 32
      invariant forall j: nat :: j < i ==> square[j] == Times(mat[..], mat[j])
    {
      square[i] := MatrixTimes(mat, mat[i]);
    }
  }

  predicate IsSquare(square: seq<bv32>, mat: seq<bv32>) {
    |square| == 32 && |mat| == 32 && forall i: nat :: i < 32 ==> square[i] == Times(mat, mat[i])
  }

  // ----- crc32c_zeros_op -----

  /** The largest power of two not above len; 1 for len == 0. */
  function FloorPow2(len: nat): nat {
    if len < 2 then 1 else 2 * FloorPow2(len / 2)
  }

  function Pow2(k: nat): nat {
    if k == 0 then 1 else 2 * Pow2(k - 1)
  }

  lemma {:induction false} FloorPow2Bounds(len: nat) returns (k: nat)
    requires len > 0
    ensures FloorPow2(len) == Pow2(k) <= len < Pow2(k + 1)
  {
    if len >= 2 {
      var k' := FloorPow2Bounds(len / 2);
      k := k' + 1;
    } else {
      k := 0;
    }
  }

  lemma FloorPow2Step(len: nat, p: nat)
    ensures len < 2 ==> p * FloorPow2(len) == p
    ensures len >= 2 ==> p * FloorPow2(len) == (2 * p) * FloorPow2(len / 2)
  {
    if len >= 2 {
      DoubleInside(p, FloorPow2(len / 2));
    } else {
      assert FloorPow2(len) == 1;
    }
  }

  lemma DoubleInside(a: nat, b: nat)
    ensures a * (2 * b) == (2 * a) * b
  {
  }

  /** crc32c_zeros_op: even becomes the operator for FloorPow2(len0) zero bytes. */
  method ZerosOp(even: array<bv32>, len0: nat)
    requires even.Length == 32
    modifies even
    ensures Appends(even[..], 8 * FloorPow2(len0))
  {
    hide Appends, FloorPow2, IsSquare;
    var len := len0;
    var odd := new bv32[32];
    OneZeroBit(odd);
    MatrixSquare(even, odd);
    SquareDoubles(odd[..], even[..], 1);
    MatrixSquare(odd, even);
    SquareDoubles(even[..], odd[..], 2);
    // odd holds the operator for half of p bytes, where p is the power reached so far
    ghost var p: nat := 1;
    while true
      invariant Appends(odd[..], 4 * p)
      invariant FloorPow2(len0) == p * FloorPow2(len)
      invariant fresh(odd)
      decreases len
    {
      MatrixSquare(even, odd);
      SquareDoubles(odd[..], even[..], 4 * p);
      FloorPow2Step(len, p);
      len := len / 2;
      if len == 0 {
        assert FloorPow2(len0) == p;
        return;
      }
      MatrixSquare(odd, even);
      SquareDoubles(even[..], odd[..], 8 * p);
      FloorPow2Step(len, 2 * p);
      len := len / 2;
      p := 4 * p;
      if len == 0 {
        assert 2 * FloorPow2(len0) == p;
        break;
      }
    }
    ghost var answer := odd[..];
    for i := 0 to 32
      invariant odd[..] == answer
      invariant forall j: nat :: j < i ==> even[j] == odd[j]
    {
      even[i] := odd[i];
    }
    assert even[..] == odd[..];
  }

  /** The operator for one zero bit: the polynomial, then shifted unit rows. */
  method OneZeroBit(odd: array<bv32>)
    requires odd.Length == 32
    modifies odd
    ensures Appends(odd[..], 1)
  {
    hide BitStep, Xor, Shr1, Shl1, Odd;
    odd[0] := POLY;
    var row: bv32 := 1;
    for n := 1 to 32
      invariant row == Bit(n - 1)
      invariant odd[0] == POLY
      invariant forall j: nat :: 0 < j < n ==> odd[j] == Bit(j - 1)
    {
      odd[n] := row;
      row := Shl1(row);
    }
    forall i: nat | i < 32
      ensures odd[..][i] == ZeroBits(1, Bit(i))
    {
      OneBit(i);
      assert ZeroBits(1, Bit(i)) == BitStep(ZeroBits(0, Bit(i)));
    }
  }
}
