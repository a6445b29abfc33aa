// What the CHECKs of the pull's callback are for (deps/include/ps/kv_app.h): they tell complete
// answers from incomplete ones.
module MergeChecks {
  import opened KvData
  import opened PullMerge

  /** A reply lists some of the requested keys, in order. */
  predicate Answers<V>(keys: seq<Key>, s: KVPairs<V>) {
    s.keys != [] && Increasing(s.keys) && forall i :: 0 <= i < |s.keys| ==> s.keys[i] in keys
  }

  /** No key is answered twice. */
  ghost predicate NoneTwice<V>(kvs: seq<KVPairs<V>>) {
    forall k: Key :: multiset(JoinKeys(kvs))[k] <= 1
  }

  // ----- one reply -----

  /** As many increasing keys as there are leave no choice. */
  lemma {:induction false} AllOfThem(s: seq<Key>, t: seq<Key>)
    requires Increasing(s) && Increasing(t) && (forall i :: 0 <= i < |s| ==> s[i] in t)
    ensures |s| <= |t|
    ensures |s| == |t| ==> s == t
    decreases |t|
  {
    if s != [] {
      var m := |s| - 1;
      var n := PlaceOf(s[m], t);
      forall i | 0 <= i < m
        ensures s[..m][i] in t[..n]
      {
        var j := PlaceOf(s[i], t);
        assert t[..n][j] == s[i];
      }
      AllOfThem(s[..m], t[..n]);
      if |s| == |t| {
        assert s == s[..m] + [s[m]] && t == t[..n] + [t[n]];
      }
    }
  }

  lemma PlaceOf(k: Key, t: seq<Key>) returns (n: nat)
    requires k in t
    ensures n < |t| && t[n] == k
  {
    n :| n < |t| && t[n] == k;
  }

  lemma SpanIs(keys: seq<Key>, a: nat, b: nat)
    requires Increasing(keys) && a < b <= |keys| && keys[b - 1] < KEY_LIMIT - 1
    ensures FindRangeSize(keys, keys[a], Succ(keys[b - 1])) == b - a
  {
    BelowUnique(keys, keys[a], a);
    BelowUnique(keys, keys[b - 1] + 1, b);
  }

  lemma InSegment(keys: seq<Key>, a: nat, b: nat, k: Key)
    requires Increasing(keys) && a < b <= |keys| && k in keys && keys[a] <= k <= keys[b - 1]
    ensures k in keys[a..b]
  {
    var j := PlaceOf(k, keys);
    assert keys[a..b][j - a] == k;
  }

  /** The size check passes exactly for replies that leave no requested key out in between. */
  lemma SizeCheck<V>(keys: seq<Key>, s: KVPairs<V>) returns (a: nat, b: nat)
    requires Increasing(keys) && Answers(keys, s) && s.keys[|s.keys| - 1] < KEY_LIMIT - 1
    ensures a < b <= |keys| && s.keys[0] == keys[a] && s.keys[|s.keys| - 1] == keys[b - 1]
    ensures ReplyOk(keys, s, false) <==> s.keys == keys[a..b]
  {
    hide FindRangeSize, Succ;
    var last := |s.keys| - 1;
    a := PlaceOf(s.keys[0], keys);
    var e := PlaceOf(s.keys[last], keys);
    b := e + 1;
    forall i | 0 <= i < |s.keys|
      ensures s.keys[i] in keys[a..b]
    {
      InSegment(keys, a, b, s.keys[i]);
    }
    AllOfThem(s.keys, keys[a..b]);
    SpanIs(keys, a, b);
  }

  // ----- all replies -----

  lemma {:induction false} JoinRemove<V>(kvs: seq<KVPairs<V>>, i: nat)
    requires i < |kvs|
    ensures multiset(JoinKeys(kvs)) == multiset(kvs[i].keys) + multiset(JoinKeys(kvs[..i] + kvs[i + 1..]))
    decreases i
  {
    if i == 0 {
      assert kvs[..0] + kvs[1..] == kvs[1..];
    } else {
      JoinRemove(kvs[1..], i - 1);
      assert (kvs[..i] + kvs[i + 1..])[1..] == kvs[1..][..i - 1] + kvs[1..][i..];
    }
  }

  lemma {:induction false} JoinOfPermutation<V>(a: seq<KVPairs<V>>, b: seq<KVPairs<V>>)
    requires multiset(a) == multiset(b)
    ensures multiset(JoinKeys(a)) == multiset(JoinKeys(b))
    decreases |a|
  {
    SameLength(a, b);
    if a != [] {
      var i := Locate(a[0], a, b);
      JoinRemove(b, i);
      SplitHead(a);
      SplitAt(b, i);
      var rest := b[..i] + b[i + 1..];
      Cancel(a[0], multiset(a[1..]), multiset(rest));
      JoinOfPermutation(a[1..], rest);
    }
  }

  predicate StandsAt<V>(keys: seq<Key>, part: KVPairs<V>, a: nat) {
    a + |part.keys| <= |keys| && part.keys == keys[a..a + |part.keys|]
  }

  /** The part is a run of the keys from lo on. */
  ghost predicate Stands<V>(keys: seq<Key>, part: KVPairs<V>, lo: nat) {
    exists a: nat :: lo <= a && StandsAt(keys, part, a)
  }

  lemma CountInTwo<V>(kvs: seq<KVPairs<V>>, i: nat, k: Key)
    requires 0 < i < |kvs|
    ensures multiset(JoinKeys(kvs))[k] >= multiset(kvs[0].keys)[k] + multiset(kvs[i].keys)[k]
  {
    JoinRemove(kvs, 0);
    JoinRemove(kvs[1..], i - 1);
    assert kvs[..0] + kvs[1..] == kvs[1..];
  }

  /** Behind the first part, which has the smallest key, stand all others. */
  lemma TailStands<V>(keys: seq<Key>, parts: seq<KVPairs<V>>, a: nat, i: nat)
    requires Increasing(keys) && SortedByFront(parts) && NoneTwice(parts) && 0 < i < |parts|
    requires StandsAt(keys, parts[0], a) && Stands(keys, parts[i], 0)
    ensures Stands(keys, parts[i], a + |parts[0].keys|)
  {
    hide NoneTwice, SortedByFront;
    var b: nat :| StandsAt(keys, parts[i], b);
    FirstIsLess(parts, i);
    var k, n := parts[i].keys[0], |parts[0].keys|;
    assert parts[0].keys[0] == keys[a] && k == keys[b];
    NotInBoth(parts, i, k);
    Inside(keys, parts[0], a, b);
    assert b >= a + n;
  }

  lemma Inside<V>(keys: seq<Key>, part: KVPairs<V>, a: nat, b: nat)
    requires StandsAt(keys, part, a) && b < |keys|
    ensures a <= b < a + |part.keys| ==> keys[b] in part.keys
  {
    if a <= b < a + |part.keys| {
      assert part.keys[b - a] == keys[b];
    }
  }

  lemma FirstIsLess<V>(parts: seq<KVPairs<V>>, i: nat)
    requires SortedByFront(parts) && 0 < i < |parts|
    ensures parts[0].keys != [] && parts[i].keys != [] && parts[0].keys[0] <= parts[i].keys[0]
  {
  }

  lemma NotInBoth<V>(parts: seq<KVPairs<V>>, i: nat, k: Key)
    requires NoneTwice(parts) && 0 < i < |parts|
    ensures k !in parts[0].keys || k !in parts[i].keys
  {
    hide JoinKeys;
    CountInTwo(parts, i, k);
    assert multiset(JoinKeys(parts))[k] <= 1;
  }

  lemma RestNoneTwice<V>(parts: seq<KVPairs<V>>)
    requires parts != [] && NoneTwice(parts)
    ensures NoneTwice(parts[1..])
  {
    forall k: Key
      ensures multiset(JoinKeys(parts[1..]))[k] <= 1
    {
      assert multiset(JoinKeys(parts))[k] <= 1;
    }
  }

  /** Sorted runs of the keys that do not overlap have at most as many keys, and if as many, all. */
  lemma {:induction false} Tiles<V>(keys: seq<Key>, parts: seq<KVPairs<V>>, lo: nat)
    requires Increasing(keys) && SortedByFront(parts) && NoneTwice(parts) && lo <= |keys|
    requires forall i :: 0 <= i < |parts| ==> Stands(keys, parts[i], lo)
    ensures TotalKeys(parts) <= |keys| - lo
    ensures TotalKeys(parts) == |keys| - lo ==> JoinKeys(parts) == keys[lo..]
    decreases |parts|
  {
    hide NoneTwice, Increasing, SortedByFront, Stands, StandsAt;
    if parts != [] {
      var a, next := FirstStands(keys, parts[0], lo);
      var rest := parts[1..];
      forall i | 0 <= i < |rest|
        ensures Stands(keys, rest[i], next)
      {
        StandsAnyway(keys, parts[i + 1], lo);
        TailStands(keys, parts, a, i + 1);
      }
      RestNoneTwice(parts);
      RestSorted(parts);
      Tiles(keys, rest, next);
    }
  }

  lemma FirstStands<V>(keys: seq<Key>, part: KVPairs<V>, lo: nat) returns (a: nat, next: nat)
    requires Stands(keys, part, lo)
    ensures StandsAt(keys, part, a) && lo <= a <= next == a + |part.keys| <= |keys|
    ensures a == lo ==> keys[lo..] == part.keys + keys[next..]
  {
    a :| lo <= a && StandsAt(keys, part, a);
    next := a + |part.keys|;
    assert keys[a..] == keys[a..next] + keys[next..];
  }

  lemma StandsAnyway<V>(keys: seq<Key>, part: KVPairs<V>, lo: nat)
    requires Stands(keys, part, lo)
    ensures Stands(keys, part, 0)
  {
    var a: nat :| lo <= a && StandsAt(keys, part, a);
  }

  lemma RestSorted<V>(parts: seq<KVPairs<V>>)
    requires parts != [] && SortedByFront(parts)
    ensures SortedByFront(parts[1..])
  {
  }

  /**
   * Replies that list requested keys in order, none twice, pass the CHECKs if and only if together
   * they answer every requested key, each has a length per key if lengths are wanted, and the
   * caller's buffers, if there are any, have the right sizes. Then sorting puts the replies in the
   * order of the request.
   */
  lemma ChecksMean<V>(keys: seq<Key>, kvs: seq<KVPairs<V>>, vals0: seq<V>, wantLens: bool, lens0: seq<nat>)
    requires Increasing(keys) && (forall k :: k in keys ==> k < KEY_LIMIT - 1)
    requires forall i :: 0 <= i < |kvs| ==> kvs[i].keys != [] && Answers(keys, kvs[i])
    requires NoneTwice(kvs)
    ensures MergeOk(keys, kvs, vals0, wantLens, lens0)
       <==> && JoinKeys(SortByFront(kvs)) == keys
            && (wantLens ==> forall i :: 0 <= i < |kvs| ==> |kvs[i].lens| == |kvs[i].keys|)
            && (vals0 == [] || |vals0| == |JoinVals(SortByFront(kvs))|)
            && (wantLens && lens0 != [] ==> |lens0| == |keys|)
  {
    hide NoneTwice, Answers, JoinKeys, JoinVals, SortByFront, Increasing, TotalKeys;
    KeysMean(keys, kvs);
    SortSorts(kvs);
    JoinValsLength(SortByFront(kvs), kvs);
  }

  lemma KeysMean<V>(keys: seq<Key>, kvs: seq<KVPairs<V>>)
    requires Increasing(keys) && (forall k :: k in keys ==> k < KEY_LIMIT - 1)
    requires forall i :: 0 <= i < |kvs| ==> kvs[i].keys != [] && Answers(keys, kvs[i])
    requires NoneTwice(kvs)
    ensures MergeOk(keys, kvs, [], false, []) <==> JoinKeys(SortByFront(kvs)) == keys
  {
    hide ReplyOk, NoneTwice, Answers, Stands, JoinKeys, SortByFront, Increasing, TotalKeys;
    var sorted := SortByFront(kvs);
    SortSorts(kvs);
    if JoinKeys(sorted) == keys {
      MergeRebuilds(keys, sorted, kvs, false);
    }
    if MergeOk(keys, kvs, [], false, []) {
      forall i | 0 <= i < |sorted|
        ensures Stands(keys, sorted[i], 0)
      {
        var j := Locate(sorted[i], sorted, kvs);
        CheckedStands(keys, kvs[j]);
      }
      SortedNoneTwice(kvs, sorted);
      TotalOfPermutation(kvs, sorted);
      Tiles(keys, sorted, 0);
      assert keys[0..] == keys;
    }
  }

  lemma CheckedStands<V>(keys: seq<Key>, s: KVPairs<V>)
    requires Increasing(keys) && (forall k :: k in keys ==> k < KEY_LIMIT - 1)
    requires Answers(keys, s) && ReplyOk(keys, s, false)
    ensures Stands(keys, s, 0)
  {
    hide ReplyOk;
    assert s.keys[|s.keys| - 1] in keys;
    var a, b := SizeCheck(keys, s);
    assert StandsAt(keys, s, a);
  }

  lemma SortedNoneTwice<V>(kvs: seq<KVPairs<V>>, sorted: seq<KVPairs<V>>)
    requires multiset(kvs) == multiset(sorted) && NoneTwice(kvs)
    ensures NoneTwice(sorted)
  {
    JoinOfPermutation(kvs, sorted);
  }
}
