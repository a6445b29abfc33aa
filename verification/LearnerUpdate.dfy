// The learner object (src/core/learner.cpp): GetData stores a batch, update turns it into one
// pull and one push. The maps W and P are caches that outlive a batch; what they hold before
// does not matter.
module LearnerUpdate {
  import opened Wrappers
  import opened KvData
  import opened Batching
  import opened LearnerMath

  /** The two vectors that GetData is given. */
  function Paired(xs: seq<Sample>, ys: seq<int>): (r: seq<Batching.Stored>)
    requires |xs| == |ys|
    ensures |r| == |xs| && forall j :: 0 <= j < |r| ==> r[j] == (xs[j], ys[j])
  {
    seq(|xs|, j requires 0 <= j < |xs| => (xs[j], ys[j]))
  }

  function Prediction(weights: Key -> real, sigmoid: real -> real, ss: seq<LSample>): (r: seq<LSample>)
    ensures |r| == |ss| && forall i :: 0 <= i < |r| ==> r[i] == Predict(weights, sigmoid, ss[i])
  {
    seq(|ss|, i requires 0 <= i < |ss| => Predict(weights, sigmoid, ss[i]))
  }

  class Learner {
    const samples: array<LSample>
    const uniqueFeatures: array<Key>
    var numSample: nat
    var W: map<Key, real>
    var P: map<Key, nat>

    ghost predicate Valid()
      reads this
    {
      && samples.Length == 10000 && uniqueFeatures.Length == ALLFEATURE_SIZE
      && numSample <= 10000
    }

    constructor ()
      ensures Valid() && numSample == 0 && fresh(samples) && fresh(uniqueFeatures)
    {
      samples := new LSample[10000];
      uniqueFeatures := new Key[ALLFEATURE_SIZE];
      numSample := 0;
      W, P := map[], map[];
    }

    /** What the batch holds: samples with their labels. */
    ghost function Stored(n: nat): (r: seq<(Sample, int)>)
      requires n <= samples.Length
      reads samples
      ensures |r| == n
    {
      seq(n, j requires 0 <= j < n reads samples => (Sample(samples[j].ctr, samples[j].mem), samples[j].y))
    }

    /** GetData, between its two semaphore operations. */
    method GetData(xs: seq<Sample>, ys: seq<int>)
      requires Valid() && |xs| == |ys| <= 10000
      modifies samples, this`numSample
      ensures Valid()
      ensures Stored(numSample) == Kept(Paired(xs, ys))
    {
      var idx := 0;
      for i := 0 to |xs|
        invariant idx <= i
        invariant Stored(idx) == Kept(Paired(xs, ys)[..i])
      {
        KeptSnoc(Paired(xs, ys), i);
        if ys[i] != -1 {
          ghost var before := Stored(idx);
          samples[idx] := LSample(ys[i], xs[i].ctr, xs[i].mem, samples[idx].pctr);
          idx := idx + 1;
          assert Stored(idx) == before + [(xs[i], ys[i])];
        }
      }
      assert Paired(xs, ys)[..|xs|] == Paired(xs, ys);
      numSample := idx;
    }

    /** All features behind the bias key, copied one sample after the other. */
    method CollectFeatures() returns (u: nat)
      requires Valid() && 1 + |FlatMem(samples[..numSample])| <= ALLFEATURE_SIZE
      modifies uniqueFeatures
      ensures u <= ALLFEATURE_SIZE && uniqueFeatures[..u] == [0] + FlatMem(samples[..numSample])
    {
      hide FlatMem;
      ghost var ss := samples[..numSample];
      uniqueFeatures[0] := 0;
      u := 1;
      assert uniqueFeatures[..1] == [0] + FlatMem(ss[..0]) by { FlatStart(ss); }
      for i := 0 to numSample
        invariant u == 1 + |FlatMem(ss[..i])|
        invariant u <= ALLFEATURE_SIZE && uniqueFeatures[..u] == [0] + FlatMem(ss[..i])
      {
        FlatGrows(ss, i);
        CopyMem(samples[i].mem, u);
        u := u + |samples[i].mem|;
      }
      assert ss[..numSample] == ss;
    }

    /** memcpy behind the first u features. */
    method CopyMem(mem: seq<Key>, u: nat)
      requires u + |mem| <= uniqueFeatures.Length
      modifies uniqueFeatures
      ensures uniqueFeatures[..u + |mem|] == old(uniqueFeatures[..u]) + mem
    {
      forall j | 0 <= j < |mem| {
        uniqueFeatures[u + j] := mem[j];
      }
    }

    /** Pull results into W, positions into P. */
    method CacheWeights(keys: seq<Key>, w: seq<real>)
      requires |w| == |keys| && Increasing(keys)
      modifies this`W, this`P
      ensures P == Positions(old(P), keys, |keys|)
      ensures forall k: nat :: k < |keys| ==> keys[k] in W && W[keys[k]] == w[k]
    {
      for k := 0 to |keys|
        invariant P == Positions(old(P), keys, k)
        invariant forall j: nat :: j < k ==> keys[j] in W && W[keys[j]] == w[j]
      {
        W := W[keys[k] := w[k]];
        P := P[keys[k] := k];
      }
    }

    /** predict: every key of the batch was just pulled. */
    method PredictAll(keys: seq<Key>, weights: Key -> real, sigmoid: real -> real)
      requires Valid() && 0 in keys && Known(keys, samples[..numSample])
      requires forall k :: k in keys ==> k in W && W[k] == weights(k)
      modifies samples
      ensures samples[..numSample] == Prediction(weights, sigmoid, old(samples[..numSample]))
    {
      ghost var before := samples[..numSample];
      for i := 0 to numSample
        invariant forall j :: 0 <= j < i ==> samples[j] == Predict(weights, sigmoid, before[j])
        invariant forall j :: i <= j < numSample ==> samples[j] == before[j]
      {
        var sum := 0.0;
        var mem := samples[i].mem;
        assert mem == before[i].mem;
        for j := 0 to |mem|
          invariant sum == SumOf(weights, mem[..j])
        {
          assert mem[..j + 1][..j] == mem[..j];
          assert before[i].mem[j] in keys;
          sum := sum + W[mem[j]];
        }
        assert mem[..|mem|] == mem;
        sum := sum + W[0];
        samples[i] := samples[i].(pctr := sigmoid(sum));
      }
    }

    /** caculate_gradient: the errors, added up by position; keys pass through an int. */
    method AddGradients(keys: seq<Key>) returns (grad: seq<real>)
      requires Valid() && Increasing(keys) && keys != [] && Known(keys, samples[..numSample])
      requires forall k :: k in keys ==> AsInt(k) == k && Lookup(P, k) == IndexOf(keys, k)
      ensures grad == Gradient(keys, samples[..numSample])
    {
      hide AddSample;
      grad := seq(|keys|, _ => 0.0);
      ghost var ss := samples[..numSample];
      for i := 0 to numSample
        invariant grad == Gradient(keys, ss[..i])
      {
        assert ss[..i + 1][..i] == ss[..i] && ss[i] == samples[i];
        grad := AddOne(keys, grad, samples[i]);
      }
      assert ss[..numSample] == ss;
    }

    /** One pass of the outer loop. */
    method AddOne(keys: seq<Key>, before: seq<real>, s: LSample) returns (grad: seq<real>)
      requires |before| == |keys| > 0 && forall j :: 0 <= j < |s.mem| ==> s.mem[j] in keys
      requires forall k :: k in keys ==> AsInt(k) == k && Lookup(P, k) == IndexOf(keys, k)
      ensures grad == AddSample(keys, before, s)
    {
      hide AsInt, Lookup, IndexOf;
      grad := before;
      for j := 0 to |s.mem|
        invariant grad == AddMem(keys, before, s.mem[..j], s.Err())
      {
        assert s.mem[..j + 1][..j] == s.mem[..j];
        var pos := Lookup(P, AsInt(s.mem[j]));
        grad := grad[pos := grad[pos] + (s.pctr - s.y as real)];
      }
      assert s.mem[..|s.mem|] == s.mem;
      grad := grad[0 := grad[0] + (s.pctr - s.y as real)];
    }

    /**
     * update: pull the batch's keys, predict, push the gradient. weights is what the servers
     * answer; the result is the push, None for an empty batch.
     */
    method Update(weights: Key -> real, sigmoid: real -> real) returns (push: Option<(seq<Key>, seq<real>)>)
      requires Valid() && 1 + |FlatMem(samples[..numSample])| <= ALLFEATURE_SIZE
      requires SmallFeatures(samples[..numSample])
      modifies this`W, this`P, samples, uniqueFeatures
      ensures push.None? <==> numSample == 0
      ensures push.None? ==> samples[..] == old(samples[..]) && W == old(W) && P == old(P)
      ensures push.Some? ==>
        && samples[..numSample] == Prediction(weights, sigmoid, old(samples[..numSample]))
        && push.value.0 == BatchKeys(old(samples[..numSample]))
        && push.value.0 != [] && Known(push.value.0, samples[..numSample])
        && push.value.1 == Gradient(push.value.0, samples[..numSample])
    {
      if numSample == 0 {
        return None;
      }
      hide FlatMem, SortUnique, Positions, Lookup, IndexOf, AsInt, Gradient, SmallFeatures, Known, Predict;
      ghost var ss := samples[..numSample];
      var u := CollectFeatures();
      var keys := SortUnique(uniqueFeatures[..u]);
      BatchKeysAre(ss);
      KeysKnown(ss, weights, sigmoid);
      var w := seq(|keys|, k requires 0 <= k < |keys| => weights(keys[k]));
      CacheWeights(keys, w);
      PredictAll(keys, weights, sigmoid);
      PositionsRight(old(P), ss);
      var grad := AddGradients(keys);
      push := Some((keys, grad));
      if |W| > 10000000 {
        W := map[];
      }
      if |P| > 10000000 {
        P := map[];
      }
    }
  }

  /** A batch's keys hold all its features, also once it is predicted. */
  lemma KeysKnown(ss: seq<LSample>, weights: Key -> real, sigmoid: real -> real)
    ensures Known(BatchKeys(ss), ss) && Known(BatchKeys(ss), Prediction(weights, sigmoid, ss))
  {
    hide BatchKeys;
    BatchKeysAre(ss);
  }

  /** Whatever positions there were, every key of a batch with small features is found. */
  lemma PositionsRight(before: map<Key, nat>, ss: seq<LSample>)
    requires SmallFeatures(ss)
    ensures var keys := BatchKeys(ss);
      forall k :: k in keys ==>
        AsInt(k) == k && Lookup(Positions(before, keys, |keys|), k) == IndexOf(keys, k)
  {
    hide BatchKeys, AsInt, Lookup, Positions, IndexOf;
    var keys := BatchKeys(ss);
    BatchKeysAre(ss);
    forall k | k in keys
      ensures AsInt(k) == k && Lookup(Positions(before, keys, |keys|), k) == IndexOf(keys, k)
    {
      SmallKeys(ss, k);
      PositionRight(before, keys, k);
    }
  }

  lemma SmallKeys(ss: seq<LSample>, k: Key)
    requires SmallFeatures(ss)
    requires k in BatchKeys(ss)
    ensures AsInt(k) == k
  {
    BatchKeysAre(ss);
    if k != 0 {
      var i :| 0 <= i < |ss| && k in ss[i].mem;
      var j :| 0 <= j < |ss[i].mem| && ss[i].mem[j] == k;
    }
  }

  lemma FlatStart(ss: seq<LSample>)
    ensures FlatMem(ss[..0]) == []
  {
  }

  /** One more sample's features; never more than all of them. */
  lemma {:induction false} FlatGrows(ss: seq<LSample>, n: nat)
    requires n < |ss|
    ensures FlatMem(ss[..n + 1]) == FlatMem(ss[..n]) + ss[n].mem
    ensures |FlatMem(ss[..n + 1])| <= |FlatMem(ss)|
    decreases |ss| - n
  {
    assert ss[..n + 1][..n] == ss[..n];
    if n + 1 < |ss| {
      FlatGrows(ss, n + 1);
    } else {
      assert ss[..n + 1] == ss;
    }
  }
}
