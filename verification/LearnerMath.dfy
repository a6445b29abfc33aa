// What one Learner::update computes (src/core/learner.cpp): the sorted distinct keys of a
// batch, predictions from freshly pulled weights, and the dense gradient that is pushed.
// float is modelled as real; sigmoid and the servers' weights are parameters.
module LearnerMath {
  import opened KvData
  import opened Batching

  /** A stored sample. */
  datatype LSample = LSample(y: int, ctr: real, mem: seq<Key>, pctr: real) {
    function Err(): real { pctr - y as real }
  }

  // ----- keys -----

  /** All features of a batch, one sample after the other. */
  function FlatMem(ss: seq<LSample>): seq<Key> {
    if ss == [] then [] else FlatMem(ss[..|ss| - 1]) + ss[|ss| - 1].mem
  }

  /** Insertion into a sorted set. */
  function InsertKey(keys: seq<Key>, k: Key): seq<Key> {
    if keys == [] || k < keys[0] then [k] + keys
    else if k == keys[0] then keys
    else [keys[0]] + InsertKey(keys[1..], k)
  }

  /** std::set of a list, in iteration order. */
  function SortUnique(s: seq<Key>): seq<Key> {
    if s == [] then [] else InsertKey(SortUnique(s[..|s| - 1]), s[|s| - 1])
  }

  lemma {:induction false} InsertIs(keys: seq<Key>, k: Key)
    requires Increasing(keys)
    ensures Increasing(InsertKey(keys, k))
    ensures forall x :: x in InsertKey(keys, k) <==> x in keys || x == k
    ensures |InsertKey(keys, k)| <= |keys| + 1
  {
    if keys != [] && k > keys[0] {
      InsertIs(keys[1..], k);
      var rest := InsertKey(keys[1..], k);
      assert keys == [keys[0]] + keys[1..];
      forall j | 0 <= j < |rest|
        ensures keys[0] < rest[j]
      {
        assert rest[j] in rest;
      }
    } else if keys != [] && k == keys[0] {
      assert k in keys;
    }
  }

  /** The keys are strictly increasing and are exactly the members of the list. */
  lemma {:induction false} SortUniqueIs(s: seq<Key>)
    ensures Increasing(SortUnique(s))
    ensures forall x :: x in SortUnique(s) <==> x in s
    ensures |SortUnique(s)| <= |s|
    decreases |s|
  {
    if s != [] {
      var last := |s| - 1;
      SortUniqueIs(s[..last]);
      InsertIs(SortUnique(s[..last]), s[last]);
      assert s == s[..last] + [s[last]];
    }
  }

  /** The keys of a batch: 0 and every feature. */
  function BatchKeys(ss: seq<LSample>): seq<Key> {
    SortUnique([0] + FlatMem(ss))
  }

  /** Strictly increasing, with key 0 in front: a valid key list for the parameter server. */
  lemma BatchKeysAre(ss: seq<LSample>)
    ensures Increasing(BatchKeys(ss)) && BatchKeys(ss) != [] && BatchKeys(ss)[0] == 0
    ensures forall i, j :: 0 <= i < |ss| && 0 <= j < |ss[i].mem| ==> ss[i].mem[j] in BatchKeys(ss)
    ensures forall k :: k in BatchKeys(ss) ==> k == 0 || exists i :: 0 <= i < |ss| && k in ss[i].mem
    ensures |BatchKeys(ss)| <= |FlatMem(ss)| + 1
  {
    hide SortUnique, FlatMem;
    var keys := BatchKeys(ss);
    SortUniqueIs([0] + FlatMem(ss));
    assert 0 in [0] + FlatMem(ss);
    var z :| 0 <= z < |keys| && keys[z] == 0;
    forall i, j | 0 <= i < |ss| && 0 <= j < |ss[i].mem|
      ensures ss[i].mem[j] in keys
    {
      FlatHas(ss, ss[i].mem[j]);
      assert ss[i].mem[j] in ss[i].mem;
    }
    forall k | k in keys
      ensures k == 0 || exists i :: 0 <= i < |ss| && k in ss[i].mem
    {
      FlatHas(ss, k);
    }
  }

  lemma {:induction false} FlatHas(ss: seq<LSample>, k: Key)
    ensures k in FlatMem(ss) <==> exists i :: 0 <= i < |ss| && k in ss[i].mem
    decreases |ss|
  {
    if ss != [] {
      var last := |ss| - 1;
      FlatHas(ss[..last], k);
      assert forall i :: 0 <= i < last ==> ss[..last][i] == ss[i];
      if k in FlatMem(ss) && k !in ss[last].mem {
        var i :| 0 <= i < last && k in ss[..last][i].mem;
        assert k in ss[i].mem;
      }
    }
  }

  // ----- predictions -----

  function SumOf(weights: Key -> real, mem: seq<Key>): real {
    if mem == [] then 0.0 else SumOf(weights, mem[..|mem| - 1]) + weights(mem[|mem| - 1])
  }

  /** The prediction for a sample, from its features' weights and the bias at key 0. */
  function Predict(weights: Key -> real, sigmoid: real -> real, s: LSample): LSample {
    s.(pctr := sigmoid(SumOf(weights, s.mem) + weights(0)))
  }

  function Occurrences(mem: seq<Key>, k: Key): nat {
    if mem == [] then 0 else Occurrences(mem[..|mem| - 1], k) + if mem[|mem| - 1] == k then 1 else 0
  }

  /** How often the weight of key k enters a sample: as a feature, and once more as the bias. */
  function Share(mem: seq<Key>, k: Key): nat {
    Occurrences(mem, k) + if k == 0 then 1 else 0
  }

  function Scaled(n: nat, e: real): real {
    n as real * e
  }

  lemma OneMore(n: nat, e: real)
    ensures Scaled(n + 1, e) == Scaled(n, e) + e && Scaled(0, e) == 0.0
  {
  }

  lemma {:induction false} SumMoves(weights: Key -> real, weights': Key -> real, mem: seq<Key>, k: Key, d: real)
    requires forall x: Key {:trigger weights'(x)} :: weights'(x) == weights(x) + if x == k then d else 0.0
    ensures SumOf(weights', mem) == SumOf(weights, mem) + Scaled(Occurrences(mem, k), d)
    decreases |mem|
  {
    hide Scaled;
    OneMore(0, d);
    if mem != [] {
      var front := mem[..|mem| - 1];
      SumMoves(weights, weights', front, k, d);
      OneMore(Occurrences(front, k), d);
    }
  }

  /**
   * The argument of sigmoid is 0 when all weights are, and moving the weight of one key by d
   * moves it by d times the share that the key has in the gradient. Nothing else changes.
   */
  lemma PredictionMoves(weights: Key -> real, weights': Key -> real, sigmoid: real -> real, s: LSample,
                        k: Key, d: real)
    requires forall x: Key {:trigger weights'(x)} :: weights'(x) == weights(x) + if x == k then d else 0.0
    ensures var was := Predict(weights, x => x, s).pctr;
      && Predict(weights, sigmoid, s) == LSample(s.y, s.ctr, s.mem, sigmoid(was))
      && Predict(weights', sigmoid, s).pctr == sigmoid(was + Scaled(Share(s.mem, k), d))
    ensures (forall x: Key {:trigger weights(x)} :: weights(x) == 0.0) ==>
      Predict(weights, sigmoid, s).pctr == sigmoid(0.0)
  {
    hide Scaled;
    SumMoves(weights, weights', s.mem, k, d);
    OneMore(Occurrences(s.mem, k), d);
    if forall x: Key {:trigger weights(x)} :: weights(x) == 0.0 {
      SumOfNothing(weights, s.mem);
    }
  }

  lemma {:induction false} SumOfNothing(weights: Key -> real, mem: seq<Key>)
    requires forall x: Key {:trigger weights(x)} :: weights(x) == 0.0
    ensures SumOf(weights, mem) == 0.0
    decreases |mem|
  {
    if mem != [] {
      SumOfNothing(weights, mem[..|mem| - 1]);
    }
  }

  // ----- the gradient -----

  /** grad[pos] += e for every feature of a sample. */
  function AddMem(keys: seq<Key>, grad: seq<real>, mem: seq<Key>, e: real): (r: seq<real>)
    requires |grad| == |keys| && forall j :: 0 <= j < |mem| ==> mem[j] in keys
    ensures |r| == |grad|
  {
    if mem == [] then grad
    else
      var before := AddMem(keys, grad, mem[..|mem| - 1], e);
      var pos := IndexOf(keys, mem[|mem| - 1]);
      before[pos := before[pos] + e]
  }

  /** All features of a sample, and the bias in front. */
  function AddSample(keys: seq<Key>, grad: seq<real>, s: LSample): (r: seq<real>)
    requires |grad| == |keys| > 0 && forall j :: 0 <= j < |s.mem| ==> s.mem[j] in keys
    ensures |r| == |grad|
  {
    var g := AddMem(keys, grad, s.mem, s.Err());
    g[0 := g[0] + s.Err()]
  }

  predicate Known(keys: seq<Key>, ss: seq<LSample>) {
    forall i, j :: 0 <= i < |ss| && 0 <= j < |ss[i].mem| ==> ss[i].mem[j] in keys
  }

  function Gradient(keys: seq<Key>, ss: seq<LSample>): (r: seq<real>)
    requires keys != [] && Known(keys, ss)
    ensures |r| == |keys|
  {
    if ss == [] then seq(|keys|, _ => 0.0)
    else AddSample(keys, Gradient(keys, ss[..|ss| - 1]), ss[|ss| - 1])
  }

  /** What key k should get: pctr - label of each sample, times the share the key has in it. */
  function GradientOf(ss: seq<LSample>, k: Key): real {
    if ss == [] then 0.0
    else
      var s := ss[|ss| - 1];
      GradientOf(ss[..|ss| - 1], k) + Scaled(Share(s.mem, k), s.pctr - s.y as real)
  }

  lemma {:induction false} AddMemAt(keys: seq<Key>, grad: seq<real>, mem: seq<Key>, e: real, i: nat)
    requires |grad| == |keys| && (forall j :: 0 <= j < |mem| ==> mem[j] in keys) && Increasing(keys) && i < |keys|
    ensures AddMem(keys, grad, mem, e)[i] == grad[i] + Scaled(Occurrences(mem, keys[i]), e)
    decreases |mem|
  {
    hide Scaled;
    OneMore(0, e);
    if mem != [] {
      var last := |mem| - 1;
      AddMemAt(keys, grad, mem[..last], e, i);
      var pos := IndexOf(keys, mem[last]);
      assert pos == i <==> mem[last] == keys[i];
      OneMore(Occurrences(mem[..last], keys[i]), e);
    }
  }

  /** Each entry of the pushed gradient is what its key should get. */
  lemma {:induction false} GradientEntries(keys: seq<Key>, ss: seq<LSample>, i: nat)
    requires keys != [] && Increasing(keys) && keys[0] == 0 && Known(keys, ss) && i < |keys|
    ensures Gradient(keys, ss)[i] == GradientOf(ss, keys[i])
    decreases |ss|
  {
    if ss != [] {
      hide AddMem, Occurrences, Scaled;
      var last := |ss| - 1;
      var s := ss[last];
      GradientEntries(keys, ss[..last], i);
      AddMemAt(keys, Gradient(keys, ss[..last]), s.mem, s.Err(), i);
      OneMore(Occurrences(s.mem, keys[i]), s.Err());
    }
  }

  /** A key whose samples were all predicted too low is never pushed up, and the other way round. */
  lemma {:induction false} GradientSign(keys: seq<Key>, ss: seq<LSample>, i: nat)
    requires keys != [] && Increasing(keys) && keys[0] == 0 && Known(keys, ss) && i < |keys|
    ensures (forall j :: 0 <= j < |ss| && Share(ss[j].mem, keys[i]) > 0 ==> ss[j].pctr <= ss[j].y as real) ==>
      Gradient(keys, ss)[i] <= 0.0
    ensures (forall j :: 0 <= j < |ss| && Share(ss[j].mem, keys[i]) > 0 ==> ss[j].pctr >= ss[j].y as real) ==>
      Gradient(keys, ss)[i] >= 0.0
    decreases |ss|
  {
    hide Gradient, Occurrences, Scaled;
    GradientEntries(keys, ss, i);
    if ss != [] {
      var last := |ss| - 1;
      GradientSign(keys, ss[..last], i);
      GradientEntries(keys, ss[..last], i);
      ScaledSign(Share(ss[last].mem, keys[i]), ss[last].pctr - ss[last].y as real);
      assert forall j :: 0 <= j < last ==> ss[..last][j] == ss[j];
    }
  }

  lemma ScaledSign(n: nat, e: real)
    ensures n == 0 ==> Scaled(n, e) == 0.0
    ensures e <= 0.0 ==> Scaled(n, e) <= 0.0
    ensures e >= 0.0 ==> Scaled(n, e) >= 0.0
  {
  }

  function Total(grad: seq<real>): real {
    if grad == [] then 0.0 else grad[0] + Total(grad[1..])
  }

  lemma {:induction false} TotalAdds(grad: seq<real>, pos: nat, e: real)
    requires pos < |grad|
    ensures Total(grad[pos := grad[pos] + e]) == Total(grad) + e
  {
    var after := grad[pos := grad[pos] + e];
    if pos == 0 {
      assert after[1..] == grad[1..];
    } else {
      assert after[1..] == grad[1..][pos - 1 := grad[1..][pos - 1] + e];
      TotalAdds(grad[1..], pos - 1, e);
    }
  }

  lemma {:induction false} TotalZero(n: nat)
    ensures Total(seq(n, _ => 0.0)) == 0.0
  {
    if n > 0 {
      TotalZero(n - 1);
      assert seq<real>(n, _ => 0.0)[1..] == seq(n - 1, _ => 0.0);
    }
  }

  lemma {:induction false} AddMemTotal(keys: seq<Key>, grad: seq<real>, mem: seq<Key>, e: real)
    requires |grad| == |keys| && forall j :: 0 <= j < |mem| ==> mem[j] in keys
    ensures Total(AddMem(keys, grad, mem, e)) == Total(grad) + Scaled(|mem|, e)
    decreases |mem|
  {
    hide Scaled;
    OneMore(0, e);
    if mem != [] {
      hide Total;
      var last := |mem| - 1;
      AddMemTotal(keys, grad, mem[..last], e);
      var before := AddMem(keys, grad, mem[..last], e);
      TotalAdds(before, IndexOf(keys, mem[last]), e);
      OneMore(last, e);
    }
  }

  /** Sum of (length + 1) * (pctr - label). */
  function TotalError(ss: seq<LSample>): real {
    if ss == [] then 0.0
    else
      var s := ss[|ss| - 1];
      TotalError(ss[..|ss| - 1]) + Scaled(|s.mem| + 1, s.pctr - s.y as real)
  }

  /** Nothing is lost on the way into the gradient. */
  lemma {:induction false} GradientTotal(keys: seq<Key>, ss: seq<LSample>)
    requires keys != [] && Known(keys, ss)
    ensures Total(Gradient(keys, ss)) == TotalError(ss)
    decreases |ss|
  {
    if ss == [] {
      TotalZero(|keys|);
    } else {
      hide Total, AddMem, Scaled;
      var s := ss[|ss| - 1];
      var before := Gradient(keys, ss[..|ss| - 1]);
      GradientTotal(keys, ss[..|ss| - 1]);
      AddMemTotal(keys, before, s.mem, s.Err());
      TotalAdds(AddMem(keys, before, s.mem, s.Err()), 0, s.Err());
      OneMore(|s.mem|, s.Err());
    }
  }

  // ----- keys as int -----

  const INT_LIMIT: int := 0x8000_0000

  /** int skey = key, used as a key again: the low 32 bits, sign-extended to uint64_t. */
  function AsInt(k: Key): Key {
    var low := k % 0x1_0000_0000;
    if low < INT_LIMIT then low else KEY_LIMIT - 0x1_0000_0000 + low
  }

  /** P[skey] on a position map: absent keys are created at 0. */
  function Lookup(P: map<Key, nat>, k: Key): nat {
    if k in P then P[k] else 0
  }

  /** The positions written for the keys of a batch, over whatever was there before. */
  function Positions(P: map<Key, nat>, keys: seq<Key>, n: nat): map<Key, nat>
    requires n <= |keys|
  {
    if n == 0 then P else Positions(P, keys, n - 1)[keys[n - 1] := n - 1]
  }

  lemma {:induction false} PositionsAt(P: map<Key, nat>, keys: seq<Key>, n: nat, k: Key)
    requires n <= |keys| && Increasing(keys)
    ensures k in keys[..n] ==> k in Positions(P, keys, n)
    ensures k in keys[..n] ==> Lookup(Positions(P, keys, n), k) < n && keys[Lookup(Positions(P, keys, n), k)] == k
    ensures k !in keys[..n] ==> Lookup(Positions(P, keys, n), k) == Lookup(P, k)
  {
    if n > 0 {
      PositionsAt(P, keys, n - 1, k);
      assert keys[..n] == keys[..n - 1] + [keys[n - 1]];
    }
  }

  lemma AsIntExact(k: Key)
    ensures AsInt(k) == k <==> k < 0x8000_0000 || k >= 0xffff_ffff_8000_0000
  {
  }

  /** A key that survives the int gets its own position, whatever stale positions there were. */
  lemma PositionRight(P: map<Key, nat>, keys: seq<Key>, k: Key)
    requires Increasing(keys) && k in keys && AsInt(k) == k
    ensures Lookup(Positions(P, keys, |keys|), AsInt(k)) == IndexOf(keys, k)
  {
    assert keys[..|keys|] == keys;
    PositionsAt(P, keys, |keys|, k);
  }

  /**
   * Starting from an empty position map, the gradient of a key goes to the key's own
   * position if and only if the key survives the int: below 2^31, or the top 2^31 keys.
   */
  lemma PositionRightIff(keys: seq<Key>, k: Key)
    requires Increasing(keys) && k in keys && keys[0] == 0
    ensures Lookup(Positions(map[], keys, |keys|), AsInt(k)) == IndexOf(keys, k)
       <==> k < 0x8000_0000 || k >= 0xffff_ffff_8000_0000
  {
    hide AsInt, Lookup;
    AsIntExact(k);
    assert keys[..|keys|] == keys;
    PositionsAt(map[], keys, |keys|, AsInt(k));
    if AsInt(k) == k {
      PositionRight(map[], keys, k);
    } else if AsInt(k) !in keys {
      NothingThere(AsInt(k));
    }
  }

  lemma NothingThere(k: Key)
    ensures Lookup(map[], k) == 0
  {
  }

  /** Key 2^31: its gradient is added to the bias at position 0 instead. */
  lemma LargeKeyMisplaced()
    ensures var keys := [0, 0x8000_0000];
      && Increasing(keys) && IndexOf(keys, 0x8000_0000) == 1
      && Lookup(Positions(map[], keys, 2), AsInt(0x8000_0000)) == 0
  {
    var keys: seq<Key> := [0, 0x8000_0000];
    PositionsAt(map[], keys, 2, AsInt(0x8000_0000));
    assert keys[..2] == keys;
  }

  // ----- the flat buffer -----

  const ALLFEATURE_SIZE := 10000000
  const FLOAT_EXACT := 0x100_0000

  /** Every feature survives the int. */
  predicate SmallFeatures(ss: seq<LSample>) {
    forall i, j :: 0 <= i < |ss| && 0 <= j < |ss[i].mem| ==> ss[i].mem[j] < INT_LIMIT
  }

  lemma {:induction false} FlatBound(ss: seq<LSample>)
    requires forall i :: 0 <= i < |ss| ==> |ss[i].mem| <= FEATURE_LIMIT
    ensures |FlatMem(ss)| <= FEATURE_LIMIT * |ss|
  {
    if ss != [] {
      FlatBound(ss[..|ss| - 1]);
    }
  }

  /**
   * A flush of at most 2100 samples needs at most 2100001 of the 10000000 slots, and every
   * position is far below 2^24, so the float that stores it is exact.
   */
  lemma FlushFits(ss: seq<LSample>)
    requires |ss| <= 2100 && forall i :: 0 <= i < |ss| ==> |ss[i].mem| <= 1000
    ensures 1 + |FlatMem(ss)| <= 2100001 < ALLFEATURE_SIZE == 10000000
    ensures |BatchKeys(ss)| < FLOAT_EXACT == 0x100_0000
  {
    FlatBound(ss);
    BatchKeysAre(ss);
  }

  /** 10000 full samples, which the learner's sample buffer has room for, would not fit. */
  lemma {:induction false} FullBufferSize(ss: seq<LSample>)
    requires forall i :: 0 <= i < |ss| ==> |ss[i].mem| == FEATURE_LIMIT
    ensures |FlatMem(ss)| == 1000 * |ss|
    ensures |ss| == 10000 ==> 1 + |FlatMem(ss)| == ALLFEATURE_SIZE + 1 == 10000001
  {
    if ss != [] {
      FullBufferSize(ss[..|ss| - 1]);
    }
  }
}
