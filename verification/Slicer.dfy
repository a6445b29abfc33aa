// KVWorker::DefaultSlicer (deps/include/ps/kv_app.h): cutting one sorted key-value list
// into one list per server range.
module Slicer {
  import opened Wrappers
  import opened KvData

  /** One server's part; first says whether anything is sent. */
  datatype Slice<V> = Slice(first: bool, second: KVPairs<V>)

  predicate Contiguous(ranges: seq<Range>) {
    forall i :: 0 < i < |ranges| ==> ranges[i - 1].end == ranges[i].begin
  }

  predicate Ordered(ranges: seq<Range>) {
    forall i :: 0 <= i < |ranges| ==> ranges[i].begin <= ranges[i].end
  }

  // ----- what the slicer computes -----

  /** Where server i's keys begin; one past the last server, where they end. */
  function Pos(keys: seq<Key>, ranges: seq<Range>, i: nat): (p: nat)
    requires i <= |ranges|
    ensures p <= |keys|
  {
    if ranges == [] then 0
    else if i == 0 then Below(keys, ranges[0].begin)
    else Below(keys, ranges[i - 1].end)
  }

  /** The values of keys lo to hi, counting from the first key that has a server. */
  function ValueCut<V>(send: KVPairs<V>, start: nat, lo: nat, hi: nat): (nat, nat)
    requires start <= lo <= hi <= |send.keys|
    requires send.lens == [] || |send.lens| == |send.keys|
  {
    if send.lens == [] then (lo * Width(send), hi * Width(send))
    else (Sum(send.lens[start..lo]), Sum(send.lens[start..hi]))
  }

  /** The CHECKs on value sizes. */
  predicate SizesOk<V>(send: KVPairs<V>, start: nat)
    requires start <= |send.keys|
  {
    if send.lens == [] then Shaped(send)
    else |send.lens| == |send.keys| && Sum(send.lens[start..]) <= |send.vals|
  }

  /** Exactly the inputs on which no CHECK fails. */
  predicate Accepts<V>(send: KVPairs<V>, ranges: seq<Range>) {
    && Contiguous(ranges)
    && Pos(send.keys, ranges, |ranges|) == |send.keys|
    && (send.keys == [] || SizesOk(send, Pos(send.keys, ranges, 0)))
  }

  lemma PosMonotone(keys: seq<Key>, ranges: seq<Range>, i: nat, j: nat)
    requires Increasing(keys) && Contiguous(ranges) && Ordered(ranges) && i <= j <= |ranges|
    ensures Pos(keys, ranges, i) <= Pos(keys, ranges, j)
    decreases j - i
  {
    if i < j {
      PosMonotone(keys, ranges, i, j - 1);
      BelowMonotone(keys, ranges[j - 1].begin, ranges[j - 1].end);
    }
  }

  /** The part of keys lo to hi. */
  function CutSlice<V>(send: KVPairs<V>, start: nat, lo: nat, hi: nat): Slice<V>
    requires start <= lo <= hi <= |send.keys|
    requires send.lens == [] || |send.lens| == |send.keys|
    requires ValueCut(send, start, lo, hi).0 <= ValueCut(send, start, lo, hi).1 <= |send.vals|
  {
    if lo == hi then Slice(false, Empty())
    else
      var (a, b) := ValueCut(send, start, lo, hi);
      Slice(true, KVPairs(send.keys[lo..hi], send.vals[a..b], if send.lens == [] then [] else send.lens[lo..hi]))
  }

  /** Server i's part. */
  function SliceOf<V>(send: KVPairs<V>, ranges: seq<Range>, i: nat): Slice<V>
    requires Increasing(send.keys) && Ordered(ranges) && Accepts(send, ranges) && i < |ranges|
  {
    var start := Pos(send.keys, ranges, 0);
    var lo, hi := Pos(send.keys, ranges, i), Pos(send.keys, ranges, i + 1);
    PosMonotone(send.keys, ranges, 0, i);
    PosMonotone(send.keys, ranges, i, i + 1);
    if send.keys == [] then Slice(false, Empty())
    else
      ValueBounds(send, start, lo, hi);
      CutSlice(send, start, lo, hi)
  }

  lemma ValueBounds<V>(send: KVPairs<V>, start: nat, lo: nat, hi: nat)
    requires start <= lo <= hi <= |send.keys| && SizesOk(send, start)
    ensures ValueCut(send, start, lo, hi).0 <= ValueCut(send, start, lo, hi).1 <= |send.vals|
  {
    if send.lens == [] {
      Products(lo, hi, |send.keys|, Width(send));
    } else {
      SumSplit(send.lens, start, lo, hi);
      SumSplit(send.lens, start, hi, |send.keys|);
      assert send.lens[start..|send.keys|] == send.lens[start..];
    }
  }

  lemma Products(lo: nat, hi: nat, n: nat, k: nat)
    requires lo <= hi <= n
    ensures lo * k <= hi * k <= k * n
  {
  }

  lemma SumNothing(lens: seq<nat>, p: nat)
    ensures p <= |lens| ==> Sum(lens[p..p]) == 0
  {
  }

  lemma SumSplit(lens: seq<nat>, start: nat, lo: nat, hi: nat)
    requires start <= lo <= hi <= |lens|
    ensures Sum(lens[start..hi]) == Sum(lens[start..lo]) + Sum(lens[lo..hi])
  {
    assert lens[start..hi] == lens[start..lo] + lens[lo..hi];
    SumConcat(lens[start..lo], lens[lo..hi]);
  }

  // ----- the method -----

  method DefaultSlicer<V>(send: KVPairs<V>, ranges: seq<Range>) returns (r: Result<seq<Slice<V>>>)
    requires Increasing(send.keys) && Ordered(ranges)
    ensures r.Ok? <==> Accepts(send, ranges)
    ensures r.Ok? ==> |r.value| == |ranges|
    ensures r.Ok? ==> forall i :: 0 <= i < |ranges| ==> r.value[i] == SliceOf(send, ranges, i)
  {
    var pos := FindPositions(send.keys, ranges);
    if pos.CheckFailed? || pos.value[|ranges|] != |send.keys| {
      return CheckFailed;
    }
    r := CutSlices(send, ranges, pos.value);
  }

  /** The first loop: a running lower_bound over the range ends. */
  method FindPositions(keys: seq<Key>, ranges: seq<Range>) returns (r: Result<seq<nat>>)
    requires Increasing(keys) && Ordered(ranges)
    ensures r.Ok? <==> Contiguous(ranges)
    ensures r.Ok? ==> Positions(keys, ranges, r.value)
  {
    var pos := [0];
    var begin := 0;
    for i := 0 to |ranges|
      invariant |pos| == i + 1 && begin == pos[i] <= |keys|
      invariant forall j :: 0 < j < i ==> ranges[j - 1].end == ranges[j].begin
      invariant i > 0 ==> forall j :: 0 <= j <= i ==> pos[j] == Pos(keys, ranges, j)
      invariant i == 0 ==> pos == [0]
    {
      if i == 0 {
        pos := [Below(keys, ranges[0].begin)];
        begin := pos[0];
      } else if ranges[i - 1].end != ranges[i].begin {
        return CheckFailed;
      }
      BelowMonotone(keys, ranges[i].begin, ranges[i].end);
      BelowFrom(keys, begin, ranges[i].end);
      var len := Below(keys[begin..], ranges[i].end);
      begin := begin + len;
      pos := pos + [pos[i] + len];
    }
    forall i, j | 0 <= i <= j <= |ranges|
      ensures Pos(keys, ranges, i) <= Pos(keys, ranges, j)
    {
      PosMonotone(keys, ranges, i, j);
    }
    r := Ok(pos);
  }

  /** pos holds the positions the first loop finds. */
  ghost predicate Positions(keys: seq<Key>, ranges: seq<Range>, pos: seq<nat>) {
    && |pos| == |ranges| + 1
    && (forall i :: 0 <= i <= |ranges| ==> pos[i] == Pos(keys, ranges, i))
    && (forall i :: 0 <= i < |ranges| ==> pos[i] <= pos[i + 1])
    && (forall i :: 0 <= i <= |ranges| ==> pos[0] <= pos[i] <= |keys|)
  }

  /** slice is the part of keys lo to hi, and its values exist. */
  ghost predicate IsPart<V>(send: KVPairs<V>, start: nat, lo: nat, hi: nat, slice: Slice<V>)
    requires start <= lo <= hi <= |send.keys|
    requires send.lens == [] || |send.lens| == |send.keys|
  {
    var (a, b) := ValueCut(send, start, lo, hi);
    a <= b <= |send.vals| && slice == CutSlice(send, start, lo, hi)
  }

  lemma CutIsSlice<V>(send: KVPairs<V>, ranges: seq<Range>, pos: seq<nat>, i: nat, slice: Slice<V>)
    requires Increasing(send.keys) && Ordered(ranges) && Accepts(send, ranges) && send.keys != []
    requires Positions(send.keys, ranges, pos) && i < |ranges|
    requires IsPart(send, pos[0], pos[i], pos[i + 1], slice)
    ensures slice == SliceOf(send, ranges, i)
  {
    hide CutSlice, ValueCut, Pos, Increasing, Ordered, Contiguous;
  }

  /** The value sizes and the second loop. */
  method CutSlices<V>(send: KVPairs<V>, ranges: seq<Range>, pos: seq<nat>) returns (r: Result<seq<Slice<V>>>)
    requires Increasing(send.keys) && Ordered(ranges) && Contiguous(ranges)
    requires Positions(send.keys, ranges, pos) && pos[|ranges|] == |send.keys|
    ensures r.Ok? <==> Accepts(send, ranges)
    ensures r.Ok? ==> |r.value| == |ranges|
    ensures r.Ok? ==> forall i :: 0 <= i < |ranges| ==> r.value[i] == SliceOf(send, ranges, i)
  {
    if send.keys == [] {
      r := Ok(seq(|ranges|, _ => Slice(false, Empty())));
      return;
    }
    var k := 0;
    if send.lens == [] {
      k := |send.vals| / |send.keys|;
      if k * |send.keys| != |send.vals| {
        return CheckFailed;
      }
    } else if |send.keys| != |send.lens| {
      return CheckFailed;
    }
    r := CutLoop(send, pos, |ranges|, k);
    assert send.lens != [] ==> send.lens[pos[0]..pos[|ranges|]] == send.lens[pos[0]..];
    if r.Ok? {
      forall i | 0 <= i < |ranges|
        ensures r.value[i] == SliceOf(send, ranges, i)
      {
        CutIsSlice(send, ranges, pos, i, r.value[i]);
      }
    }
  }

  method CutLoop<V>(send: KVPairs<V>, pos: seq<nat>, n: nat, k: nat) returns (r: Result<seq<Slice<V>>>)
    requires |pos| == n + 1 && pos[n] == |send.keys|
    requires forall i :: 0 <= i < n ==> pos[i] <= pos[i + 1]
    requires forall i :: 0 <= i <= n ==> pos[0] <= pos[i] <= |send.keys|
    requires send.lens == [] ==> Shaped(send) && k == Width(send)
    requires send.lens != [] ==> |send.lens| == |send.keys|
    ensures r.Ok? <==> send.lens == [] || Sum(send.lens[pos[0]..pos[n]]) <= |send.vals|
    ensures r.Ok? ==> |r.value| == n
    ensures r.Ok? ==> forall i :: 0 <= i < n ==> IsPart(send, pos[0], pos[i], pos[i + 1], r.value[i])
  {
    hide IsPart, Sum, Shaped, Width;
    var valBegin, valEnd := 0, 0;
    var sliced: seq<Slice<V>> := [];
    SumNothing(send.lens, pos[0]);
    for i := 0 to n
      invariant |sliced| == i
      invariant send.lens != [] ==> valBegin == Sum(send.lens[pos[0]..pos[i]]) <= |send.vals|
      invariant forall j :: 0 <= j < i ==> IsPart(send, pos[0], pos[j], pos[j + 1], sliced[j])
    {
      var ok, slice;
      ok, slice, valEnd := CutOne(send, pos[0], pos[i], pos[i + 1], k, valBegin);
      if !ok {
        SumSplit(send.lens, pos[0], pos[i + 1], pos[n]);
        return CheckFailed;
      }
      sliced := sliced + [slice];
      valBegin := valEnd;
    }
    r := Ok(sliced);
  }

  /** The body of the second loop: keys lo to hi. */
  method CutOne<V>(send: KVPairs<V>, ghost start: nat, lo: nat, hi: nat, k: nat, valBegin: nat)
    returns (ok: bool, slice: Slice<V>, valEnd: nat)
    requires start <= lo <= hi <= |send.keys|
    requires send.lens == [] ==> Shaped(send) && k == Width(send)
    requires send.lens != [] ==> |send.lens| == |send.keys| && valBegin == Sum(send.lens[start..lo]) <= |send.vals|
    ensures ok <==> send.lens == [] || Sum(send.lens[start..hi]) <= |send.vals|
    ensures ok ==> IsPart(send, start, lo, hi, slice)
    ensures ok && send.lens != [] ==> valEnd == Sum(send.lens[start..hi])
  {
    ok, slice, valEnd := true, Slice(false, Empty()), valBegin;
    Products(lo, hi, |send.keys|, Width(send));
    if lo == hi {
    } else if send.lens != [] {
      var lens := send.lens[lo..hi];
      SumSplit(send.lens, start, lo, hi);
      valEnd := valEnd + Sum(lens);
      ok := valEnd <= |send.vals|;
      if ok {
        slice := Slice(true, KVPairs(send.keys[lo..hi], send.vals[valBegin..valEnd], lens));
      }
    } else {
      slice := Slice(true, KVPairs(send.keys[lo..hi], send.vals[lo * k..hi * k], []));
    }
  }
}
