// crc32c_hw of deps/librdkafka-master/src/crc32c.c: three interleaved CRC streams over LONG
// and then SHORT blocks, recombined with the "append zeros" tables, proved equal to the
// bit-at-a-time meaning for every start value, buffer and alignment.
module Crc32cHw {
  import opened Words
  import opened Crc32c
  import opened Gf2
  import opened ByteTables

  const LONG: nat := 8192
  const SHORT: nat := 256

  // ----- the shift tables -----

  ghost predicate ShiftTableOk(zeros: array2<bv32>, size: nat)
    reads zeros
  {
    && zeros.Length0 == 4
    && zeros.Length1 == 256
    && RowsOk(zeros, ShiftRows(8 * size), 0, 4, 256)
  }

  /** crc32c_zeros: four byte tables of the operator for FloorPow2(len) zero bytes. */
  method Zeros4(zeros: array2<bv32>, len: nat)
    requires zeros.Length0 == 4 && zeros.Length1 == 256
    modifies zeros
    ensures ShiftTableOk(zeros, FloorPow2(len))
  {
    var op := new bv32[32];
    ZerosOp(op, len);
    ghost var bits := 8 * FloorPow2(len);
    ghost var mat := op[..];
    var n: bv32 := 0;
    while n < 256
      invariant n <= 256
      invariant op[..] == mat
      invariant RowsOk(zeros, ShiftRows(bits), 0, 4, n)
      decreases 256 - n
    {
      hide RowOk, Appends;
      ZerosColumn(zeros, op, bits, n);
      n := n + 1;
    }
  }

  /** The loop body of crc32c_zeros: one byte in each of the four tables. */
  method ZerosColumn(zeros: array2<bv32>, op: array<bv32>, ghost bits: nat, n: bv32)
    requires zeros.Length0 == 4 && zeros.Length1 == 256 && n < 256
    requires op.Length == 32 && Appends(op[..], bits)
    requires RowsOk(zeros, ShiftRows(bits), 0, 4, n)
    modifies zeros
    ensures RowsOk(zeros, ShiftRows(bits), 0, 4, n + 1)
  {
    hide RowOk, Appends, Cell, Place, ZeroBits;
    for k := 0 to 4
      invariant RowsOk(zeros, ShiftRows(bits), 0, k, n + 1)
      invariant RowsOk(zeros, ShiftRows(bits), k, 4, n)
    {
      var v := MatrixTimes(op, Place(k, n));
      AppendsTimes(op[..], bits, Place(k, n));
      ShiftCell(bits, k, n);
      WriteEntry(zeros, ShiftRows(bits), k, n, v);
    }
  }

  lemma ShiftCell(bits: nat, k: nat, m: bv32)
    ensures Cell(ShiftRows(bits), k, m) == ZeroBits(bits, Place(k, m))
  {
    hide ZeroBits, Place;
  }

  /** Byte k of a word. */
  function Part(k: nat, c: bv32): (m: bv32)
    ensures m < 256
  {
    match k
    case 0 => c & 0xff
    case 1 => (c >> 8) & 0xff
    case 2 => (c >> 16) & 0xff
    case _ => (c >> 24) & 0xff
  }

  lemma Parts(c: bv32)
    ensures c == Xor(Xor(Xor(Place(0, Part(0, c)), Place(1, Part(1, c))), Place(2, Part(2, c))), Place(3, Part(3, c)))
  {
    var p0, p1, p2, p3 := Place(0, Part(0, c)), Place(1, Part(1, c)), Place(2, Part(2, c)), Place(3, Part(3, c));
    PlacedParts(c);
    PartsRaw(c);
    hide *;
    XorDef(p0, p1);
    XorDef(Xor(p0, p1), p2);
    XorDef(Xor(Xor(p0, p1), p2), p3);
  }

  lemma PlacedParts(c: bv32)
    ensures Place(0, Part(0, c)) == c & 0xff
    ensures Place(1, Part(1, c)) == ((c >> 8) & 0xff) << 8
    ensures Place(2, Part(2, c)) == ((c >> 16) & 0xff) << 16
    ensures Place(3, Part(3, c)) == ((c >> 24) & 0xff) << 24
  {
  }

  lemma PartsRaw(c: bv32)
    ensures c == (((c & 0xff) ^ (((c >> 8) & 0xff) << 8)) ^ (((c >> 16) & 0xff) << 16)) ^ (((c >> 24) & 0xff) << 24)
  {
  }

  /** crc32c_shift: four lookups apply the operator to any word. */
  method Shift(zeros: array2<bv32>, ghost size: nat, crc: bv32) returns (r: bv32)
    requires ShiftTableOk(zeros, size)
    ensures r == ZeroBytes(size, crc)
  {
    hide ZeroBits, Xor, Part, Place, RowOk, Cell;
    ghost var bits := 8 * size;
    var z0 := ReadEntry(zeros, ShiftRows(8 * size), 0, Part(0, crc));
    var z1 := ReadEntry(zeros, ShiftRows(8 * size), 1, Part(1, crc));
    var z2 := ReadEntry(zeros, ShiftRows(8 * size), 2, Part(2, crc));
    var z3 := ReadEntry(zeros, ShiftRows(8 * size), 3, Part(3, crc));
    r := Xor(Xor(Xor(z0, z1), z2), z3);
    var p0, p1 := Place(0, Part(0, crc)), Place(1, Part(1, crc));
    var p2, p3 := Place(2, Part(2, crc)), Place(3, Part(3, crc));
    ShiftCell(bits, 0, Part(0, crc));
    ShiftCell(bits, 1, Part(1, crc));
    ShiftCell(bits, 2, Part(2, crc));
    ShiftCell(bits, 3, Part(3, crc));
    Parts(crc);
    ZeroBitsXor(bits, Xor(Xor(p0, p1), p2), p3);
    ZeroBitsXor(bits, Xor(p0, p1), p2);
    ZeroBitsXor(bits, p0, p1);
  }

  // ----- the instructions -----

  /** The crc32b instruction: one byte into the low half of a 64-bit register. */
  function Crc32B(reg: bv64, b: bv8): bv64 {
    Widen32(ByteStep(Low32(reg), b))
  }

  /** The crc32q instruction: eight bytes. */
  function Crc32Q(reg: bv64, d: Bytes): bv64 {
    Widen32(State(Low32(reg), d))
  }

  lemma Crc32BStep(c: bv32, a: Bytes, b: bv8)
    ensures Crc32B(Widen32(State(c, a)), b) == Widen32(State(c, a + [b]))
  {
    hide ByteStep, Widen32, Low32;
    Low32Widen(State(c, a));
    assert (a + [b])[..|a|] == a;
  }

  lemma Crc32QStep(c: bv32, a: Bytes, d: Bytes)
    ensures Crc32Q(Widen32(State(c, a)), d) == Widen32(State(c, a + d))
  {
    hide State, Widen32, Low32;
    Low32Widen(State(c, a));
    StateConcat(c, a, d);
  }

  // ----- three-way blocks -----

  /**
   * The body shared by the LONG and the SHORT loop: three streams over consecutive blocks
   * of size bytes, the first continuing crc, recombined by shifting.
   */
  method ThreeBlocks(zeros: array2<bv32>, size: nat, ghost c: bv32, crc: bv64, buf: Bytes, start: nat)
    returns (crc0: bv64)
    requires ShiftTableOk(zeros, size) && size > 0 && size % 8 == 0
    requires start + 3 * size <= |buf|
    requires crc == Widen32(c)
    ensures crc0 == Widen32(State(c, buf[start..start + 3 * size]))
  {
    hide State, Widen32, Low32, Xor, ShiftTableOk, ZeroBytes;
    var crc1, crc2;
    crc0, crc1, crc2 := Streams(size, c, crc, buf, start);
    ghost var a, b := buf[start..start + size], buf[start + size..start + 2 * size];
    ghost var d := buf[start + 2 * size..start + 3 * size];
    Recombine(c, a, b, d);
    assert buf[start..start + 3 * size] == a + b + d;
    Low32Widen(State(c, a));
    Low32Widen(State(0, b));
    Low32Widen(State(0, d));
    var shifted := Shift(zeros, size, Low32(crc0));
    shifted := Xor(shifted, Low32(crc1));
    shifted := Shift(zeros, size, shifted);
    crc0 := Widen32(Xor(shifted, Low32(crc2)));
  }

  /** Three blocks, each after the first checksummed on its own, put together by shifting. */
  lemma Recombine(c: bv32, a: Bytes, b: Bytes, d: Bytes)
    requires |b| == |d|
    ensures State(c, a + b + d)
         == Xor(ZeroBytes(|d|, Xor(ZeroBytes(|b|, State(c, a)), State(0, b))), State(0, d))
  {
    hide State, Xor, ZeroBytes;
    Combine(c, a, b);
    Combine(c, a + b, d);
  }

  /** The do-while loop: three crc32q per iteration, size bytes apart. */
  method Streams(size: nat, ghost c: bv32, crc: bv64, buf: Bytes, start: nat)
    returns (crc0: bv64, crc1: bv64, crc2: bv64)
    requires size > 0 && size % 8 == 0 && start + 3 * size <= |buf|
    requires crc == Widen32(c)
    ensures crc0 == Widen32(State(c, buf[start..start + size]))
    ensures crc1 == Widen32(State(0, buf[start + size..start + 2 * size]))
    ensures crc2 == Widen32(State(0, buf[start + 2 * size..start + 3 * size]))
  {
    hide State, Widen32;
    crc0, crc1, crc2 := crc, Widen32(0), Widen32(0);
    var next, end := start, start + size;
    Nothing(c);
    Nothing(0);
    assert buf[start..start] == [] && buf[start + size..start + size] == [];
    assert buf[start + 2 * size..start + 2 * size] == [];
    ghost var left := size / 8;
    while next < end
      invariant start <= next <= end && end - next == 8 * left
      invariant crc0 == Widen32(State(c, buf[start..next]))
      invariant crc1 == Widen32(State(0, buf[start + size..next + size]))
      invariant crc2 == Widen32(State(0, buf[start + 2 * size..next + 2 * size]))
      decreases end - next
    {
      crc0 := Word(c, crc0, buf, start, next);
      crc1 := Word(0, crc1, buf, start + size, next + size);
      crc2 := Word(0, crc2, buf, start + 2 * size, next + 2 * size);
      next := next + 8;
      left := left - 1;
    }
  }

  lemma Nothing(c: bv32)
    ensures State(c, []) == c
  {
  }

  /** One crc32q at buf[next], extending a stream that began at buf[start]. */
  method Word(ghost c: bv32, reg: bv64, buf: Bytes, ghost start: nat, next: nat) returns (r: bv64)
    requires start <= next && next + 8 <= |buf|
    requires reg == Widen32(State(c, buf[start..next]))
    ensures r == Widen32(State(c, buf[start..next + 8]))
  {
    hide State, Widen32, Crc32Q;
    Crc32QStep(c, buf[start..next], buf[next..next + 8]);
    assert buf[start..next + 8] == buf[start..next] + buf[next..next + 8];
    r := Crc32Q(reg, buf[next..next + 8]);
  }

  /** One crc32b at buf[next]. */
  method Byte(ghost c: bv32, reg: bv64, buf: Bytes, next: nat) returns (r: bv64)
    requires next < |buf|
    requires reg == Widen32(State(c, buf[..next]))
    ensures r == Widen32(State(c, buf[..next + 1]))
  {
    hide State, Widen32, Crc32B;
    Crc32BStep(c, buf[..next], buf[next]);
    assert buf[..next + 1] == buf[..next] + [buf[next]];
    r := Crc32B(reg, buf[next]);
  }

  /** One three-block step of the stream over buf[..next]. */
  method Blocks(zeros: array2<bv32>, size: nat, ghost c: bv32, crc: bv64, buf: Bytes, next: nat)
    returns (r: bv64)
    requires ShiftTableOk(zeros, size) && size > 0 && size % 8 == 0
    requires next + 3 * size <= |buf|
    requires crc == Widen32(State(c, buf[..next]))
    ensures r == Widen32(State(c, buf[..next + 3 * size]))
  {
    hide State, Widen32, ShiftTableOk;
    r := ThreeBlocks(zeros, size, State(c, buf[..next]), crc, buf, next);
    StateConcat(c, buf[..next], buf[next..next + 3 * size]);
    assert buf[..next + 3 * size] == buf[..next] + buf[next..next + 3 * size];
  }

  // ----- crc32c_hw -----

  /** crc32c_hw on a buffer whose first byte lies at address addr. */
  method CrcHw(long: array2<bv32>, short: array2<bv32>, crc: bv32, buf: Bytes, addr: nat) returns (r: bv32)
    requires ShiftTableOk(long, LONG) && ShiftTableOk(short, SHORT)
    ensures r == Crc(crc, buf)
  {
    hide State, Widen32, Low32, Xor, ShiftTableOk;
    ghost var c := Xor(crc, 0xffffffff);
    var crc0: bv64 := Widen32(Xor(crc, 0xffffffff));
    var next, len := 0, |buf|;
    Nothing(c);
    assert buf[..0] == [];
    while len > 0 && (addr + next) % 8 != 0
      invariant 0 <= next && 0 <= len && next + len == |buf|
      invariant crc0 == Widen32(State(c, buf[..next]))
      decreases len
    {
      crc0 := Byte(c, crc0, buf, next);
      next, len := next + 1, len - 1;
    }
    while len >= LONG * 3
      invariant 0 <= next && 0 <= len && next + len == |buf|
      invariant crc0 == Widen32(State(c, buf[..next]))
      decreases len
    {
      crc0 := Blocks(long, LONG, c, crc0, buf, next);
      next, len := next + LONG * 3, len - LONG * 3;
    }
    while len >= SHORT * 3
      invariant 0 <= next && 0 <= len && next + len == |buf|
      invariant crc0 == Widen32(State(c, buf[..next]))
      decreases len
    {
      crc0 := Blocks(short, SHORT, c, crc0, buf, next);
      next, len := next + SHORT * 3, len - SHORT * 3;
    }
    var end := next + (len - len % 8);
    ghost var left := len / 8;
    while next < end
      invariant next <= end && end - next == 8 * left && end + len % 8 == |buf|
      invariant crc0 == Widen32(State(c, buf[..next]))
      decreases end - next
    {
      assert buf[0..next] == buf[..next] && buf[0..next + 8] == buf[..next + 8];
      crc0 := Word(c, crc0, buf, 0, next);
      next := next + 8;
      left := left - 1;
    }
    len := len % 8;
    while len > 0
      invariant 0 <= next && 0 <= len && next + len == |buf|
      invariant crc0 == Widen32(State(c, buf[..next]))
      decreases len
    {
      crc0 := Byte(c, crc0, buf, next);
      next, len := next + 1, len - 1;
    }
    assert buf[..next] == buf;
    Low32Widen(State(c, buf));
    r := Xor(Low32(crc0), 0xffffffff);
  }

  /** crc32c_init_hw: the two block sizes are powers of two, so the tables shift by exactly them. */
  method InitHw(long: array2<bv32>, short: array2<bv32>)
    requires long.Length0 == 4 && long.Length1 == 256 && short.Length0 == 4 && short.Length1 == 256
    requires long != short
    modifies long, short
    ensures ShiftTableOk(long, 8192) && ShiftTableOk(short, 256)
  {
    hide RowsOk;
    assert FloorPow2(256) == 256;
    assert FloorPow2(8192) == 8192;
    Zeros4(long, LONG);
    Zeros4(short, SHORT);
  }
}
