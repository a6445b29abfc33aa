// What DefaultSlicer promises: every key, with its values, goes to exactly the server of its
// range, and nothing is lost -- exactly when no key lies below the first range.
module SlicerMeaning {
  import opened KvData
  import opened Slicer

  /** The pairs whose keys lie in a range, in order. */
  function Filter<V>(ps: seq<(Key, seq<V>)>, r: Range): seq<(Key, seq<V>)> {
    if ps == [] then []
    else if r.Has(ps[0].0) then [ps[0]] + Filter(ps[1..], r)
    else Filter(ps[1..], r)
  }

  /** When the keys of a range are those between two positions, the filter is the cut. */
  lemma {:induction false} FilterCut<V>(ps: seq<(Key, seq<V>)>, r: Range, lo: nat, hi: nat)
    requires lo <= hi <= |ps|
    requires forall j :: 0 <= j < |ps| ==> (r.Has(ps[j].0) <==> lo <= j < hi)
    ensures Filter(ps, r) == ps[lo..hi]
  {
    if ps == [] {
    } else {
      var a, b := if lo > 0 then lo - 1 else 0, if hi > 0 then hi - 1 else 0;
      forall j | 0 <= j < |ps| - 1
        ensures r.Has(ps[1..][j].0) <==> a <= j < b
      {
        assert r.Has(ps[j + 1].0) <==> lo <= j + 1 < hi;
      }
      FilterCut(ps[1..], r, a, b);
      if lo == 0 && hi > 0 {
        assert ps[0..hi] == [ps[0]] + ps[1..][0..b];
      } else if lo > 0 {
        assert ps[lo..hi] == ps[1..][a..b];
      }
    }
  }

  /** A key belongs to range i exactly when it lies between positions i and i + 1. */
  lemma InRange(keys: seq<Key>, ranges: seq<Range>, i: nat, j: nat)
    requires Increasing(keys) && Contiguous(ranges) && Ordered(ranges)
    requires i < |ranges| && j < |keys|
    ensures ranges[i].Has(keys[j]) <==> Pos(keys, ranges, i) <= j < Pos(keys, ranges, i + 1)
  {
    BelowCut(keys, ranges[i].begin);
    BelowCut(keys, ranges[i].end);
  }

  /**
   * The values are cut from the right place: they all have one width, or the keys below the
   * first range have no values.
   */
  predicate Aligned<V>(send: KVPairs<V>, ranges: seq<Range>)
    requires Shaped(send)
  {
    send.lens == [] || Sum(send.lens[..Pos(send.keys, ranges, 0)]) == 0
  }

  /** With per-key lengths the slicer's cursor is right if and only if it does not skip values. */
  lemma CutRightIff<V>(send: KVPairs<V>, start: nat, lo: nat, hi: nat)
    requires Shaped(send) && send.lens != [] && start <= lo <= hi <= |send.keys|
    ensures ValueCut(send, start, lo, hi) == (Sum(send.lens[..lo]), Sum(send.lens[..hi]))
       <==> Sum(send.lens[..start]) == 0
    ensures Sum(send.lens[lo..hi]) == Sum(send.lens[..hi]) - Sum(send.lens[..lo])
         == ValueCut(send, start, lo, hi).1 - ValueCut(send, start, lo, hi).0
  {
    hide Sum;
    SumCut(send.lens, start, lo);
    SumCut(send.lens, start, hi);
    SumCut(send.lens, lo, hi);
  }

  /** The pairs of a range are those between its two positions. */
  lemma FilterIsCut<V>(send: KVPairs<V>, ranges: seq<Range>, i: nat)
    requires Increasing(send.keys) && Ordered(ranges) && Contiguous(ranges) && i < |ranges| && Shaped(send)
    ensures Pos(send.keys, ranges, 0) <= Pos(send.keys, ranges, i) <= Pos(send.keys, ranges, i + 1)
    ensures Filter(Pairs(send), ranges[i]) == Pairs(send)[Pos(send.keys, ranges, i)..Pos(send.keys, ranges, i + 1)]
  {
    hide Pairs, Filter;
    var lo, hi := Pos(send.keys, ranges, i), Pos(send.keys, ranges, i + 1);
    PosMonotone(send.keys, ranges, 0, i);
    PosMonotone(send.keys, ranges, i, i + 1);
    forall j | 0 <= j < |send.keys|
      ensures ranges[i].Has(send.keys[j]) <==> lo <= j < hi
    {
      InRange(send.keys, ranges, i, j);
    }
    FilterCut(Pairs(send), ranges[i], lo, hi);
  }

  /** Each server is sent exactly the pairs of its range, in order, or nothing at all. */
  lemma SliceIsFilter<V>(send: KVPairs<V>, ranges: seq<Range>, i: nat)
    requires Increasing(send.keys) && Ordered(ranges) && Accepts(send, ranges) && i < |ranges|
    requires Shaped(send) && Aligned(send, ranges)
    ensures Shaped(SliceOf(send, ranges, i).second)
    ensures Pairs(SliceOf(send, ranges, i).second) == Filter(Pairs(send), ranges[i])
    ensures SliceOf(send, ranges, i).first <==> exists j :: 0 <= j < |send.keys| && ranges[i].Has(send.keys[j])
  {
    hide Filter, Pairs;
    FilterIsCut(send, ranges, i);
    SentIffKeys(send, ranges, i);
    var lo, hi := Pos(send.keys, ranges, i), Pos(send.keys, ranges, i + 1);
    if lo < hi {
      SlicePairs(send, ranges, i, lo, hi);
    } else {
      NothingSent(send, ranges, i);
    }
  }

  /** A server is sent something exactly if a key lies in its range. */
  lemma SentIffKeys<V>(send: KVPairs<V>, ranges: seq<Range>, i: nat)
    requires Increasing(send.keys) && Ordered(ranges) && Accepts(send, ranges) && i < |ranges|
    ensures SliceOf(send, ranges, i).first <==> exists j :: 0 <= j < |send.keys| && ranges[i].Has(send.keys[j])
  {
    hide Pos, Increasing, Ordered;
    var lo, hi := Pos(send.keys, ranges, i), Pos(send.keys, ranges, i + 1);
    PosMonotone(send.keys, ranges, i, i + 1);
    forall j | 0 <= j < |send.keys|
      ensures ranges[i].Has(send.keys[j]) <==> lo <= j < hi
    {
      InRange(send.keys, ranges, i, j);
    }
    if lo < hi {
      assert ranges[i].Has(send.keys[lo]);
    }
  }

  /** The pairs of a slice are the cut of the pairs. */
  lemma SlicePairs<V>(send: KVPairs<V>, ranges: seq<Range>, i: nat, lo: nat, hi: nat)
    requires Increasing(send.keys) && Ordered(ranges) && Accepts(send, ranges) && i < |ranges|
    requires Shaped(send) && Aligned(send, ranges)
    requires Pos(send.keys, ranges, 0) <= lo == Pos(send.keys, ranges, i) < hi == Pos(send.keys, ranges, i + 1)
    ensures Shaped(SliceOf(send, ranges, i).second)
    ensures Pairs(SliceOf(send, ranges, i).second) == Pairs(send)[lo..hi]
  {
    var kv := SliceOf(send, ranges, i).second;
    var widths := Widths(send);
    ShapedWidths(send);
    ZipCut(send.keys, widths, send.vals, lo, hi);
    if send.lens == [] {
      var k := Width(send);
      UniformCut(k, |send.keys|, lo, hi);
      assert |kv.vals| == (hi - lo) * k;
      Divides(hi - lo, k);
      assert Widths(kv) == widths[lo..hi];
    } else {
      CutRightIff(send, Pos(send.keys, ranges, 0), lo, hi);
    }
  }

  lemma UniformCut(k: nat, n: nat, lo: nat, hi: nat)
    requires lo <= hi <= n
    ensures Sum(Repeat(k, n)[..lo]) == lo * k && Sum(Repeat(k, n)[..hi]) == hi * k
    ensures Repeat(k, n)[lo..hi] == Repeat(k, hi - lo)
    ensures hi * k - lo * k == (hi - lo) * k
  {
    assert Repeat(k, n)[..lo] == Repeat(k, lo) && Repeat(k, n)[..hi] == Repeat(k, hi);
    SumRepeat(k, lo);
    SumRepeat(k, hi);
  }

  lemma Divides(m: nat, k: nat)
    requires m > 0
    ensures (m * k) / m == k && k * m == m * k
  {
    var r: int := (m * k) % m;
    var d: int := k - (m * k) / m;
    assert m * d == r;
    assert d >= 1 ==> m * d >= m;
    assert d <= -1 ==> m * d < 0;
  }

  // ----- nothing is lost -----

  /** A slice always has the keys of its range, whatever values it was cut. */
  lemma SliceIsShaped<V>(send: KVPairs<V>, ranges: seq<Range>, i: nat)
    requires Increasing(send.keys) && Ordered(ranges) && Accepts(send, ranges) && i < |ranges|
    requires Shaped(send)
    ensures Pos(send.keys, ranges, 0) <= Pos(send.keys, ranges, i) <= Pos(send.keys, ranges, i + 1)
    ensures var kv := SliceOf(send, ranges, i).second;
      Shaped(kv) && kv.keys == send.keys[Pos(send.keys, ranges, i)..Pos(send.keys, ranges, i + 1)]
  {
    hide Pairs, Pos, Increasing, Ordered, Sum;
    PosMonotone(send.keys, ranges, 0, i);
    PosMonotone(send.keys, ranges, i, i + 1);
    if Pos(send.keys, ranges, i) == Pos(send.keys, ranges, i + 1) {
      NothingSent(send, ranges, i);
    } else if send.lens == [] {
      SliceIsFilter(send, ranges, i);
    } else {
      PairsOfSlice(send, ranges, i);
    }
  }

  lemma {:induction false} JoinedLength<V>(send: KVPairs<V>, ranges: seq<Range>, n: nat)
    requires Increasing(send.keys) && Ordered(ranges) && Accepts(send, ranges) && n <= |ranges|
    requires Shaped(send)
    ensures |Joined(send, ranges, n)| == Pos(send.keys, ranges, n) - Pos(send.keys, ranges, 0)
  {
    hide SliceOf, Pairs, Pos, Increasing, Ordered, Accepts, Shaped;
    if n > 0 {
      JoinedLength(send, ranges, n - 1);
      SliceIsShaped(send, ranges, n - 1);
      var lo, hi := Pos(send.keys, ranges, n - 1), Pos(send.keys, ranges, n);
      assert |send.keys[lo..hi]| == hi - lo;
    }
  }

  /** The pairs of the first n slices, in server order. */
  function Joined<V>(send: KVPairs<V>, ranges: seq<Range>, n: nat): seq<(Key, seq<V>)>
    requires Increasing(send.keys) && Ordered(ranges) && Accepts(send, ranges) && n <= |ranges|
    requires Shaped(send)
  {
    if n == 0 then []
    else
      SliceIsShaped(send, ranges, n - 1);
      Joined(send, ranges, n - 1) + Pairs(SliceOf(send, ranges, n - 1).second)
  }

  lemma {:induction false} JoinedIsCut<V>(send: KVPairs<V>, ranges: seq<Range>, n: nat)
    requires Increasing(send.keys) && Ordered(ranges) && Accepts(send, ranges) && n <= |ranges|
    requires Shaped(send) && Aligned(send, ranges)
    ensures Pos(send.keys, ranges, 0) <= Pos(send.keys, ranges, n)
    ensures Joined(send, ranges, n) == Pairs(send)[Pos(send.keys, ranges, 0)..Pos(send.keys, ranges, n)]
  {
    hide SliceOf, Pairs, Pos, Increasing, Ordered, Contiguous, Shaped, Aligned;
    PosMonotone(send.keys, ranges, 0, n);
    if n > 0 {
      JoinedIsCut(send, ranges, n - 1);
      SliceIsCut(send, ranges, n - 1);
      CutGrows(Pairs(send), Pos(send.keys, ranges, 0), Pos(send.keys, ranges, n - 1), Pos(send.keys, ranges, n));
    }
  }

  lemma CutGrows<T>(s: seq<T>, a: nat, b: nat, c: nat)
    requires a <= b <= c <= |s|
    ensures s[a..c] == s[a..b] + s[b..c]
  {
  }

  /** A slice holds the pairs between two positions, also when there are none. */
  lemma SliceIsCut<V>(send: KVPairs<V>, ranges: seq<Range>, i: nat)
    requires Increasing(send.keys) && Ordered(ranges) && Accepts(send, ranges) && i < |ranges|
    requires Shaped(send) && Aligned(send, ranges)
    ensures Pos(send.keys, ranges, 0) <= Pos(send.keys, ranges, i) <= Pos(send.keys, ranges, i + 1)
    ensures Shaped(SliceOf(send, ranges, i).second)
    ensures Pairs(SliceOf(send, ranges, i).second)
         == Pairs(send)[Pos(send.keys, ranges, i)..Pos(send.keys, ranges, i + 1)]
  {
    hide SliceOf, Pairs, Pos, Increasing, Ordered;
    PosMonotone(send.keys, ranges, 0, i);
    PosMonotone(send.keys, ranges, i, i + 1);
    SliceIsFilter(send, ranges, i);
    var lo, hi := Pos(send.keys, ranges, i), Pos(send.keys, ranges, i + 1);
    if lo < hi {
      SlicePairs(send, ranges, i, lo, hi);
    } else {
      NothingSent(send, ranges, i);
    }
  }

  lemma NothingSent<V>(send: KVPairs<V>, ranges: seq<Range>, i: nat)
    requires Increasing(send.keys) && Ordered(ranges) && Accepts(send, ranges) && i < |ranges|
    requires Pos(send.keys, ranges, i) == Pos(send.keys, ranges, i + 1)
    ensures Pairs(SliceOf(send, ranges, i).second) == []
  {
  }

  predicate NoKeyBelow(keys: seq<Key>, ranges: seq<Range>) {
    forall j :: 0 <= j < |keys| ==> ranges != [] && ranges[0].begin <= keys[j]
  }

  /**
   * The slices put together are the whole list, for one width or per-key lengths, if and only
   * if no key lies below the first range.
   */
  lemma Conservation<V>(send: KVPairs<V>, ranges: seq<Range>)
    requires Increasing(send.keys) && Ordered(ranges) && Accepts(send, ranges)
    requires Shaped(send)
    ensures Joined(send, ranges, |ranges|) == Pairs(send)
       <==> NoKeyBelow(send.keys, ranges)
  {
    hide Joined, Pairs, Shaped, Contiguous, Ordered, Increasing, SliceOf, NoKeyBelow;
    FirstKeys(send, ranges);
    if Pos(send.keys, ranges, 0) == 0 {
      assert send.lens != [] ==> Sum(send.lens[..0]) == 0;
      JoinedIsCut(send, ranges, |ranges|);
      var all := Pairs(send);
      assert all[0..|send.keys|] == all;
    } else {
      JoinedLength(send, ranges, |ranges|);
    }
  }

  /** The cut starts at the first key exactly when no key lies below the first range. */
  lemma FirstKeys<V>(send: KVPairs<V>, ranges: seq<Range>)
    requires Increasing(send.keys) && Accepts(send, ranges)
    ensures Pos(send.keys, ranges, |ranges|) == |send.keys|
    ensures Pos(send.keys, ranges, 0) == 0
       <==> NoKeyBelow(send.keys, ranges)
  {
    hide Increasing, SizesOk;
    if ranges != [] {
      BelowCut(send.keys, ranges[0].begin);
    }
  }

  /** Every key between the first begin and the last end has exactly one server. */
  lemma {:induction false} OneServer(ranges: seq<Range>, k: Key)
    requires Contiguous(ranges) && Ordered(ranges) && ranges != []
    requires ranges[0].begin <= k < ranges[|ranges| - 1].end
    ensures exists i :: 0 <= i < |ranges| && ranges[i].Has(k)
    ensures forall i, j :: 0 <= i < |ranges| && 0 <= j < |ranges| && ranges[i].Has(k) && ranges[j].Has(k) ==> i == j
    decreases |ranges|
  {
    forall i, j | 0 <= i < j < |ranges|
      ensures ranges[i].end <= ranges[j].begin
    {
      EndBeforeBegin(ranges, i, j);
    }
    var last := |ranges| - 1;
    if ranges[last].Has(k) {
    } else {
      assert ranges[last].begin > k;
      assert last > 0;
      var front := ranges[..last];
      OneServer(front, k);
      var i :| 0 <= i < |front| && front[i].Has(k);
      assert ranges[i].Has(k);
    }
  }

  lemma {:induction false} EndBeforeBegin(ranges: seq<Range>, i: nat, j: nat)
    requires Contiguous(ranges) && Ordered(ranges) && i < j < |ranges|
    ensures ranges[i].end <= ranges[j].begin
    decreases j - i
  {
    if i + 1 < j {
      EndBeforeBegin(ranges, i, j - 1);
    }
  }

  // ----- exactly when the values are right -----

  /** A zip determines its values. */
  lemma {:induction false} ZipInjective<V>(keys: seq<Key>, widths: seq<nat>, a: seq<V>, b: seq<V>)
    requires |widths| == |keys| && Sum(widths) == |a| == |b|
    requires Zip(keys, widths, a) == Zip(keys, widths, b)
    ensures a == b
    decreases |keys|
  {
    if keys != [] {
      var w := widths[0];
      var x, y := Zip(keys, widths, a), Zip(keys, widths, b);
      assert x[0].1 == y[0].1;
      assert x[1..] == y[1..];
      ZipInjective(keys[1..], widths[1..], a[w..], b[w..]);
      assert a == a[..w] + a[w..] && b == b[..w] + b[w..];
    }
  }

  /**
   * With per-key lengths a slice that carries values is right, whatever distinct values are
   * sent, if and only if the keys below the first range have none.
   */
  lemma SliceRightIff<V>(send: KVPairs<V>, ranges: seq<Range>, i: nat)
    requires Increasing(send.keys) && Ordered(ranges) && Accepts(send, ranges) && i < |ranges|
    requires Shaped(send) && send.lens != []
    requires forall a, b :: 0 <= a < b < |send.vals| ==> send.vals[a] != send.vals[b]
    requires var kv := SliceOf(send, ranges, i).second; Sum(kv.lens) > 0
    ensures Shaped(SliceOf(send, ranges, i).second)
    ensures Pairs(SliceOf(send, ranges, i).second) == Filter(Pairs(send), ranges[i]) <==> Aligned(send, ranges)
  {
    hide Filter, Pairs, Sum, Increasing, Ordered, Zip, Pos;
    FilterIsCut(send, ranges, i);
    var start := Pos(send.keys, ranges, 0);
    var lo, hi := Pos(send.keys, ranges, i), Pos(send.keys, ranges, i + 1);
    SomeKeys(send, ranges, i);
    CutRightIff(send, start, lo, hi);
    var (a, b) := ValueCut(send, start, lo, hi);
    PairsOfCut(send, lo, hi);
    PairsOfSlice(send, ranges, i);
    if Pairs(SliceOf(send, ranges, i).second) == Filter(Pairs(send), ranges[i]) {
      var A, B := Sum(send.lens[..lo]), Sum(send.lens[..hi]);
      ZipInjective(send.keys[lo..hi], send.lens[lo..hi], send.vals[a..b], send.vals[A..B]);
      assert send.vals[a..b][0] == send.vals[A..B][0];
      assert send.vals[a] == send.vals[A];
    } else if Aligned(send, ranges) {
      SlicePairs(send, ranges, i, lo, hi);
    }
  }

  lemma SomeKeys<V>(send: KVPairs<V>, ranges: seq<Range>, i: nat)
    requires Increasing(send.keys) && Ordered(ranges) && Accepts(send, ranges) && i < |ranges|
    requires Sum(SliceOf(send, ranges, i).second.lens) > 0
    ensures send.keys != [] && Pos(send.keys, ranges, i) < Pos(send.keys, ranges, i + 1)
  {
    PosMonotone(send.keys, ranges, i, i + 1);
  }

  lemma PairsOfCut<V>(send: KVPairs<V>, lo: nat, hi: nat)
    requires Shaped(send) && send.lens != [] && lo <= hi <= |send.keys|
    ensures Sum(send.lens[..lo]) <= Sum(send.lens[..hi]) <= |send.vals|
    ensures Sum(send.lens[lo..hi]) == Sum(send.lens[..hi]) - Sum(send.lens[..lo])
    ensures Pairs(send)[lo..hi]
         == Zip(send.keys[lo..hi], send.lens[lo..hi], send.vals[Sum(send.lens[..lo])..Sum(send.lens[..hi])])
  {
    ZipCut(send.keys, send.lens, send.vals, lo, hi);
  }

  lemma PairsOfSlice<V>(send: KVPairs<V>, ranges: seq<Range>, i: nat)
    requires Increasing(send.keys) && Ordered(ranges) && Accepts(send, ranges) && i < |ranges|
    requires Shaped(send) && send.lens != []
    requires Pos(send.keys, ranges, 0) <= Pos(send.keys, ranges, i) < Pos(send.keys, ranges, i + 1)
    ensures var lo, hi := Pos(send.keys, ranges, i), Pos(send.keys, ranges, i + 1);
      var cut := ValueCut(send, Pos(send.keys, ranges, 0), lo, hi);
      && cut.0 <= cut.1 <= |send.vals| && cut.1 - cut.0 == Sum(send.lens[lo..hi])
      && Shaped(SliceOf(send, ranges, i).second)
      && Pairs(SliceOf(send, ranges, i).second) == Zip(send.keys[lo..hi], send.lens[lo..hi], send.vals[cut.0..cut.1])
  {
    hide Sum, Increasing, Ordered, Pos, Zip;
    var start, lo, hi := Pos(send.keys, ranges, 0), Pos(send.keys, ranges, i), Pos(send.keys, ranges, i + 1);
    CutRightIff(send, start, lo, hi);
    ValueBounds(send, start, lo, hi);
  }

  /**
   * With per-key lengths and a key below the first range no CHECK fails, but the values are
   * cut from the wrong place: key 2 is sent the value of key 1.
   */
  lemma MisalignedBelowFirstRange()
    ensures var send := KVPairs([1, 2], [10, 20], [1, 1]);
      var ranges := [Range(2, 4)];
      && Accepts(send, ranges)
      && Increasing(send.keys) && Ordered(ranges) && Shaped(send)
      && Pairs(send)[1] == (2, [20])
      && SliceOf(send, ranges, 0) == Slice(true, KVPairs([2], [10], [1]))
  {
    var send := KVPairs([1, 2], [10, 20], [1, 1]);
    var ranges := [Range(2, 4)];
    assert send.keys[1..] == [2] && send.keys[1..][1..] == [];
    BelowUnique(send.keys, 2, 1);
    BelowUnique(send.keys, 4, 2);
    assert send.lens[1..] == [1] && send.lens[1..2] == [1] && send.lens[1..1] == [];
    assert Sum([1]) == 1;
    var keys: seq<Key>, lens: seq<nat>, vals: seq<int> := [2], [1], [20];
    assert send.vals[1..] == vals;
    assert vals[..1] == vals && keys[1..] == [];
    assert Zip(keys, lens, vals) == [(2, [20])];
  }
}
