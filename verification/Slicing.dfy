// Slicing-by-8, shared by crc32c_sw (deps/librdkafka-master/src/crc32c.c) and crc64
// (src/io/parser.cpp): eight table lookups on a loaded quadword do the work of eight
// table-driven byte steps.
//
// The theorem is about any byte table that is linear over exclusive or; the seven
// further tables are fixed by the recurrence both programs use.
module Slicing {
  import opened Words

  /** A byte table: only arguments below 256 are ever looked up. */
  type ByteTable = bv64 -> bv64

  function LowByte(x: bv64): bv64 { x & 0xff }

  function DropByte(x: bv64): bv64 { x >> 8 }

  function WidenByte(b: bv8): bv64 { b as bv64 }

  function Entry(t: ByteTable, x: bv64): bv64 { t(LowByte(x)) }

  /** The lookup respects exclusive or, as the table of a polynomial division does. */
  ghost predicate Linear(t: ByteTable) {
    forall a: bv64, b: bv64 {:trigger Entry(t, Xor64(a, b))} :: Entry(t, Xor64(a, b)) == Xor64(Entry(t, a), Entry(t, b))
  }

  /** One zero byte through a table-driven register. */
  function ZeroStep(t: ByteTable, c: bv64): bv64 {
    Xor64(Entry(t, c), DropByte(c))
  }

  /** One data byte through a table-driven register. */
  function DataStep(t: ByteTable, c: bv64, b: bv8): bv64 {
    Xor64(Entry(t, Xor64(c, WidenByte(b))), DropByte(c))
  }

  /** The bytewise register after a whole buffer. */
  function Run(t: ByteTable, c: bv64, data: seq<bv8>): bv64 {
    if data == [] then c else DataStep(t, Run(t, c, data[..|data| - 1]), data[|data| - 1])
  }

  /** Entry of the k-th table: the byte followed by k zero bytes. */
  function Extended(t: ByteTable, k: nat, x: bv64): bv64 {
    if k == 0 then Entry(t, x) else ZeroStep(t, Extended(t, k - 1, x))
  }

  /** A little-endian 64-bit load. */
  function Load(d: seq<bv8>): bv64
    requires |d| == 8
  {
    WidenByte(d[0]) | (WidenByte(d[1]) << 8) | (WidenByte(d[2]) << 16) | (WidenByte(d[3]) << 24) |
    (WidenByte(d[4]) << 32) | (WidenByte(d[5]) << 40) | (WidenByte(d[6]) << 48) | (WidenByte(d[7]) << 56)
  }

  /** The eight lookups on one quadword. */
  function SliceWord(t: ByteTable, w: bv64): bv64 {
    Slices(t, w, 8, 0)
  }

  /** Bytes 0..i of w, each looked up in the table that extends it to byte position i + e. */
  function Slices(t: ByteTable, w: bv64, i: nat, e: nat): bv64 {
    if i == 0 then 0
    else Xor64(Slices(t, w, i - 1, e + 1), Extended(t, e, DropBytes(w, i - 1)))
  }

  function DropBytes(w: bv64, n: nat): bv64 {
    if n == 0 then w else DropByte(DropBytes(w, n - 1))
  }

  // ----- word algebra -----

  lemma Xor64Def(a: bv64, b: bv64)
    ensures Xor64(a, b) == a ^ b
  {
  }

  lemma Xor64Assoc(a: bv64, b: bv64, c: bv64)
    ensures Xor64(Xor64(a, b), c) == Xor64(a, Xor64(b, c))
  {
    assert Xor64(a ^ b, c) == Xor64(a, b ^ c);
    hide Xor64;
    Xor64Def(a, b);
    Xor64Def(b, c);
  }

  lemma Xor64Comm(a: bv64, b: bv64)
    ensures Xor64(a, b) == Xor64(b, a)
  {
  }

  lemma Xor64Zero(a: bv64)
    ensures Xor64(a, 0) == a && Xor64(0, a) == a && Xor64(a, a) == 0
  {
  }

  lemma Xor64Swap(a: bv64, b: bv64, c: bv64, d: bv64)
    ensures Xor64(Xor64(a, b), Xor64(c, d)) == Xor64(Xor64(a, c), Xor64(b, d))
  {
    hide Xor64;
    Xor64Assoc(a, b, Xor64(c, d));
    Xor64Assoc(b, c, d);
    Xor64Comm(b, c);
    Xor64Assoc(c, b, d);
    Xor64Assoc(a, c, Xor64(b, d));
  }

  lemma DropDef(a: bv64)
    ensures DropByte(a) == a >> 8
  {
  }

  lemma DropXor(a: bv64, b: bv64)
    ensures DropByte(Xor64(a, b)) == Xor64(DropByte(a), DropByte(b))
  {
    assert (a ^ b) >> 8 == (a >> 8) ^ (b >> 8);
    hide *;
    Xor64Def(a, b);
    DropDef(a);
    DropDef(b);
    DropDef(a ^ b);
    Xor64Def(a >> 8, b >> 8);
  }

  lemma DropWidened(c: bv64, b: bv8)
    ensures DropByte(Xor64(c, WidenByte(b))) == DropByte(c)
  {
    assert (c ^ (b as bv64)) >> 8 == c >> 8;
  }

  lemma {:induction false} DropBytesXor(a: bv64, b: bv64, n: nat)
    ensures DropBytes(Xor64(a, b), n) == Xor64(DropBytes(a, n), DropBytes(b, n))
  {
    hide Xor64, DropByte;
    if n > 0 {
      DropBytesXor(a, b, n - 1);
      DropXor(DropBytes(a, n - 1), DropBytes(b, n - 1));
    }
  }

  lemma DropBytesDef(w: bv64)
    ensures DropBytes(w, 0) == w
    ensures DropBytes(w, 1) == w >> 8
    ensures DropBytes(w, 2) == w >> 16
    ensures DropBytes(w, 3) == w >> 24
    ensures DropBytes(w, 4) == w >> 32
    ensures DropBytes(w, 5) == w >> 40
    ensures DropBytes(w, 6) == w >> 48
    ensures DropBytes(w, 7) == w >> 56
    ensures DropBytes(w, 8) == 0
  {
    hide *;
    ShiftSteps(w);
    DropBytesStep(w, 0);
    DropBytesStep(w, 1);
    DropBytesStep(w, 2);
    DropBytesStep(w, 3);
    DropBytesStep(w, 4);
    DropBytesStep(w, 5);
    DropBytesStep(w, 6);
    DropBytesStep(w, 7);
  }

  lemma ShiftSteps(w: bv64)
    ensures DropByte(w) == w >> 8
    ensures DropByte(w >> 8) == w >> 16
    ensures DropByte(w >> 16) == w >> 24
    ensures DropByte(w >> 24) == w >> 32
    ensures DropByte(w >> 32) == w >> 40
    ensures DropByte(w >> 40) == w >> 48
    ensures DropByte(w >> 48) == w >> 56
    ensures DropByte(w >> 56) == 0
  {
  }

  lemma DropBytesStep(w: bv64, j: nat)
    ensures DropBytes(w, 0) == w
    ensures DropBytes(w, j + 1) == DropByte(DropBytes(w, j))
  {
    hide DropByte;
  }

  /** The loaded word holds the buffer's bytes in order. */
  lemma LoadByte(d: seq<bv8>, i: nat)
    requires |d| == 8 && i < 8
    ensures LowByte(DropBytes(Load(d), i)) == WidenByte(d[i])
  {
    hide *;
    LoadBytes(d);
    if i == 0 {
    } else if i == 1 {
    } else if i == 2 {
    } else if i == 3 {
    } else if i == 4 {
    } else if i == 5 {
    } else if i == 6 {
    } else {
      assert i == 7;
    }
  }

  lemma LoadBytes(d: seq<bv8>)
    requires |d| == 8
    ensures LowByte(DropBytes(Load(d), 0)) == WidenByte(d[0])
    ensures LowByte(DropBytes(Load(d), 1)) == WidenByte(d[1])
    ensures LowByte(DropBytes(Load(d), 2)) == WidenByte(d[2])
    ensures LowByte(DropBytes(Load(d), 3)) == WidenByte(d[3])
    ensures LowByte(DropBytes(Load(d), 4)) == WidenByte(d[4])
    ensures LowByte(DropBytes(Load(d), 5)) == WidenByte(d[5])
    ensures LowByte(DropBytes(Load(d), 6)) == WidenByte(d[6])
    ensures LowByte(DropBytes(Load(d), 7)) == WidenByte(d[7])
  {
    hide *;
    var w := Load(d);
    LoadDef(d, w);
    DropBytesDef(w);
  }

  lemma LoadDef(d: seq<bv8>, w: bv64)
    requires |d| == 8 && w == Load(d)
    ensures LowByte(w) == WidenByte(d[0])
    ensures LowByte(w >> 8) == WidenByte(d[1])
    ensures LowByte(w >> 16) == WidenByte(d[2])
    ensures LowByte(w >> 24) == WidenByte(d[3])
    ensures LowByte(w >> 32) == WidenByte(d[4])
    ensures LowByte(w >> 40) == WidenByte(d[5])
    ensures LowByte(w >> 48) == WidenByte(d[6])
    ensures LowByte(w >> 56) == WidenByte(d[7])
  {
    LoadByteRaw(d[0], d[1], d[2], d[3], d[4], d[5], d[6], d[7]);
  }

  lemma LoadByteRaw(b0: bv8, b1: bv8, b2: bv8, b3: bv8, b4: bv8, b5: bv8, b6: bv8, b7: bv8)
    ensures var w := (b0 as bv64) | ((b1 as bv64) << 8) | ((b2 as bv64) << 16) | ((b3 as bv64) << 24)
                   | ((b4 as bv64) << 32) | ((b5 as bv64) << 40) | ((b6 as bv64) << 48) | ((b7 as bv64) << 56);
      && w & 0xff == b0 as bv64
      && (w >> 8) & 0xff == b1 as bv64
      && (w >> 16) & 0xff == b2 as bv64
      && (w >> 24) & 0xff == b3 as bv64
      && (w >> 32) & 0xff == b4 as bv64
      && (w >> 40) & 0xff == b5 as bv64
      && (w >> 48) & 0xff == b6 as bv64
      && (w >> 56) & 0xff == b7 as bv64
  {
  }

  // ----- the theorem -----

  lemma ZeroStepXor(t: ByteTable, a: bv64, b: bv64)
    requires Linear(t)
    ensures ZeroStep(t, Xor64(a, b)) == Xor64(ZeroStep(t, a), ZeroStep(t, b))
  {
    hide Xor64, DropByte, Entry;
    DropXor(a, b);
    Xor64Swap(Entry(t, a), DropByte(a), Entry(t, b), DropByte(b));
  }

  lemma DataStepIsZeroStep(t: ByteTable, c: bv64, b: bv8)
    ensures DataStep(t, c, b) == ZeroStep(t, Xor64(c, WidenByte(b)))
  {
    hide Xor64, DropByte, Entry, WidenByte;
    DropWidened(c, b);
  }

  lemma SlicesDef(t: ByteTable, w: bv64, i: nat, e: nat)
    ensures i == 0 ==> Slices(t, w, i, e) == 0
    ensures i > 0 ==>
      && Slices(t, w, i, e) == Xor64(Slices(t, w, i - 1, e + 1), Extended(t, e, DropBytes(w, i - 1)))
      && Extended(t, e + 1, DropBytes(w, i - 1)) == ZeroStep(t, Extended(t, e, DropBytes(w, i - 1)))
    ensures i > 0 && e == 0 ==> Extended(t, e, DropBytes(w, i - 1)) == Entry(t, DropBytes(w, i - 1))
  {
    hide Xor64, DropBytes, ZeroStep, Entry;
  }

  lemma RunDef(t: ByteTable, c: bv64, d: seq<bv8>, i: nat)
    requires i < |d|
    ensures Run(t, c, d[..i + 1]) == DataStep(t, Run(t, c, d[..i]), d[i])
  {
    hide DataStep;
    assert d[..i + 1][..i] == d[..i];
  }

  /** Pushing a sum of lookups through one more zero byte moves each to the next table. */
  lemma {:induction false} SlicesZeroStep(t: ByteTable, w: bv64, i: nat, e: nat)
    requires Linear(t)
    ensures ZeroStep(t, Slices(t, w, i, e)) == Slices(t, w, i, e + 1)
  {
    hide *;
    SlicesDef(t, w, i, e);
    SlicesDef(t, w, i, e + 1);
    if i == 0 {
      ZeroStepXor(t, 0, 0);
      Xor64Zero(0);
      Xor64Zero(ZeroStep(t, 0));
    } else {
      SlicesZeroStep(t, w, i - 1, e + 1);
      ZeroStepXor(t, Slices(t, w, i - 1, e + 1), Extended(t, e, DropBytes(w, i - 1)));
    }
  }

  /** After i bytes the register is the sum of i lookups, plus what is left of the start value. */
  lemma {:induction false} RunIsSlices(t: ByteTable, c: bv64, d: seq<bv8>, i: nat)
    requires Linear(t) && |d| == 8 && i <= 8
    ensures Run(t, c, d[..i]) == Xor64(Slices(t, Xor64(c, Load(d)), i, 0), DropBytes(c, i))
  {
    hide *;
    var w := Xor64(c, Load(d));
    SlicesDef(t, w, i, 0);
    if i == 0 {
      assert d[..0] == [];
      RunEmpty(t, c);
      Xor64Zero(c);
    } else {
      var j := i - 1;
      RunIsSlices(t, c, d, j);
      RunDef(t, c, d, j);
      var s, r, b := Slices(t, w, j, 0), DropBytes(c, j), WidenByte(d[j]);
      DataStepIsZeroStep(t, Xor64(s, r), d[j]);
      Xor64Assoc(s, r, b);
      ZeroStepXor(t, s, Xor64(r, b));
      SlicesZeroStep(t, w, j, 0);
      SliceByte(t, c, d, j);
      Xor64Assoc(Slices(t, w, j, 1), Entry(t, DropBytes(w, j)), DropByte(r));
      DropBytesStep(c, j);
    }
  }

  lemma RunEmpty(t: ByteTable, c: bv64)
    ensures Run(t, c, []) == c && DropBytes(c, 0) == c
  {
  }

  /** The byte that enters the table at step j. */
  lemma SliceByte(t: ByteTable, c: bv64, d: seq<bv8>, j: nat)
    requires Linear(t) && |d| == 8 && j < 8
    ensures var r := DropBytes(c, j);
      ZeroStep(t, Xor64(r, WidenByte(d[j])))
      == Xor64(Entry(t, DropBytes(Xor64(c, Load(d)), j)), DropByte(r))
  {
    hide Xor64, DropByte, DropBytes, WidenByte, Load, LowByte;
    var r, l := DropBytes(c, j), DropBytes(Load(d), j);
    DropBytesXor(c, Load(d), j);
    LoadByte(d, j);
    LowOfWidened(d[j]);
    assert Entry(t, l) == Entry(t, WidenByte(d[j]));
    assert Entry(t, Xor64(r, l)) == Xor64(Entry(t, r), Entry(t, l));
    DropWidened(r, d[j]);
  }

  lemma LowOfWidened(b: bv8)
    ensures LowByte(WidenByte(b)) == WidenByte(b)
  {
    assert (b as bv64) & 0xff == b as bv64;
  }

  /** Slicing-by-8 is eight byte steps. */
  lemma SliceWordIsRun(t: ByteTable, c: bv64, d: seq<bv8>)
    requires Linear(t) && |d| == 8
    ensures SliceWord(t, Xor64(c, Load(d))) == Run(t, c, d)
  {
    hide Xor64, DropBytes, Load, Slices, Run;
    RunIsSlices(t, c, d, 8);
    assert d[..8] == d;
    DropBytesDef(c);
    Xor64Zero(SliceWord(t, Xor64(c, Load(d))));
  }

  lemma {:induction false} RunConcat(t: ByteTable, c: bv64, a: seq<bv8>, b: seq<bv8>)
    ensures Run(t, c, a + b) == Run(t, Run(t, c, a), b)
  {
    hide DataStep;
    if b == [] {
      assert a + b == a;
    } else {
      var last := |b| - 1;
      assert (a + b)[..|a + b| - 1] == a + b[..last];
      RunConcat(t, c, a, b[..last]);
    }
  }

  /** The sum written out, in the order of the source expression. */
  lemma SliceWordUnrolled(t: ByteTable, w: bv64)
    ensures SliceWord(t, w) ==
      Xor64(Xor64(Xor64(Xor64(Xor64(Xor64(Xor64(
        Extended(t, 7, w), Extended(t, 6, w >> 8)), Extended(t, 5, w >> 16)), Extended(t, 4, w >> 24)),
        Extended(t, 3, w >> 32)), Extended(t, 2, w >> 40)), Extended(t, 1, w >> 48)), Extended(t, 0, w >> 56))
  {
    hide *;
    DropBytesDef(w);
    SlicesDef(t, w, 8, 0);
    SlicesDef(t, w, 7, 1);
    SlicesDef(t, w, 6, 2);
    SlicesDef(t, w, 5, 3);
    SlicesDef(t, w, 4, 4);
    SlicesDef(t, w, 3, 5);
    SlicesDef(t, w, 2, 6);
    SlicesDef(t, w, 1, 7);
    SlicesDef(t, w, 0, 8);
    Xor64Zero(Extended(t, 7, w));
    SliceWordDef(t, w);
  }

  lemma SliceWordDef(t: ByteTable, w: bv64)
    ensures SliceWord(t, w) == Slices(t, w, 8, 0)
  {
    hide Slices;
  }
}
