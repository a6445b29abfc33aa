// The callback of KVWorker::Pull_ (deps/include/ps/kv_app.h) and FindRange
// (deps/include/ps/sarray.h): checking, sorting and concatenating the partial replies.
module PullMerge {
  import opened Wrappers
  import opened KvData

  // ----- FindRange -----

  /** key + 1 in uint64_t arithmetic. */
  function Succ(k: Key): Key {
    (k + 1) % KEY_LIMIT
  }

  /** How many keys FindRange(keys, lower, upper) spans. */
  function FindRangeSize(keys: seq<Key>, lower: Key, upper: Key): int {
    if upper <= lower then 0 else Below(keys, upper) - Below(keys, lower)
  }

  /**
   * The size check for a reply that covers keys i to j succeeds exactly when the successor of
   * its last key does not wrap around.
   */
  lemma FindRangeOfSegment(keys: seq<Key>, i: nat, j: nat)
    requires Increasing(keys) && i < j <= |keys|
    ensures FindRangeSize(keys, keys[i], Succ(keys[j - 1])) == j - i <==> keys[j - 1] < KEY_LIMIT - 1
  {
    var upper := Succ(keys[j - 1]);
    if keys[j - 1] < KEY_LIMIT - 1 {
      assert upper == keys[j - 1] + 1;
      BelowUnique(keys, keys[i], i);
      BelowUnique(keys, upper, j);
    }
  }

  // ----- the checks and the result -----

  /** The CHECKs on one reply. */
  predicate ReplyOk<V>(keys: seq<Key>, s: KVPairs<V>, wantLens: bool) {
    && s.keys != []
    && FindRangeSize(keys, s.keys[0], Succ(s.keys[|s.keys| - 1])) == |s.keys|
    && (wantLens ==> |s.lens| == |s.keys|)
  }

  function TotalKeys<V>(kvs: seq<KVPairs<V>>): nat {
    if kvs == [] then 0 else |kvs[0].keys| + TotalKeys(kvs[1..])
  }

  function JoinKeys<V>(kvs: seq<KVPairs<V>>): seq<Key> {
    if kvs == [] then [] else kvs[0].keys + JoinKeys(kvs[1..])
  }

  function JoinVals<V>(kvs: seq<KVPairs<V>>): seq<V> {
    if kvs == [] then [] else kvs[0].vals + JoinVals(kvs[1..])
  }

  function JoinLens<V>(kvs: seq<KVPairs<V>>): seq<nat> {
    if kvs == [] then [] else kvs[0].lens + JoinLens(kvs[1..])
  }

  /** std::sort by first key. */
  function SortByFront<V(==)>(kvs: seq<KVPairs<V>>): (r: seq<KVPairs<V>>)
    requires forall i :: 0 <= i < |kvs| ==> kvs[i].keys != []
    ensures |r| == |kvs| && forall i :: 0 <= i < |r| ==> r[i].keys != []
  {
    if kvs == [] then [] else Insert(kvs[0], SortByFront(kvs[1..]))
  }

  function Insert<V(==)>(s: KVPairs<V>, rest: seq<KVPairs<V>>): (r: seq<KVPairs<V>>)
    requires s.keys != [] && forall i :: 0 <= i < |rest| ==> rest[i].keys != []
    ensures |r| == |rest| + 1 && forall i :: 0 <= i < |r| ==> r[i].keys != []
  {
    if rest == [] || s.keys[0] <= rest[0].keys[0] then [s] + rest
    else [rest[0]] + Insert(s, rest[1..])
  }

  predicate SortedByFront<V>(kvs: seq<KVPairs<V>>) {
    && (forall i :: 0 <= i < |kvs| ==> kvs[i].keys != [])
    && forall i, j :: 0 <= i < j < |kvs| ==> kvs[i].keys[0] <= kvs[j].keys[0]
  }

  lemma {:induction false} InsertAdds<V>(s: KVPairs<V>, rest: seq<KVPairs<V>>)
    requires s.keys != [] && forall i :: 0 <= i < |rest| ==> rest[i].keys != []
    ensures multiset(Insert(s, rest)) == multiset{s} + multiset(rest)
  {
    if rest == [] || s.keys[0] <= rest[0].keys[0] {
      assert ([s] + rest)[1..] == rest;
      SplitHead([s] + rest);
    } else {
      var tail := Insert(s, rest[1..]);
      InsertAdds(s, rest[1..]);
      SplitHead(rest);
      assert ([rest[0]] + tail)[1..] == tail;
      SplitHead([rest[0]] + tail);
    }
  }

  /** Everything in the result was inserted or there before, so a common lower bound stays one. */
  lemma {:induction false} InsertBound<V>(s: KVPairs<V>, rest: seq<KVPairs<V>>, low: Key)
    requires s.keys != [] && forall i :: 0 <= i < |rest| ==> rest[i].keys != []
    requires low <= s.keys[0] && forall i :: 0 <= i < |rest| ==> low <= rest[i].keys[0]
    ensures forall i :: 0 <= i < |rest| + 1 ==> low <= Insert(s, rest)[i].keys[0]
  {
    if !(rest == [] || s.keys[0] <= rest[0].keys[0]) {
      InsertBound(s, rest[1..], low);
    }
  }

  lemma {:induction false} InsertSorted<V>(s: KVPairs<V>, rest: seq<KVPairs<V>>)
    requires s.keys != [] && SortedByFront(rest)
    ensures SortedByFront(Insert(s, rest))
  {
    if !(rest == [] || s.keys[0] <= rest[0].keys[0]) {
      InsertSorted(s, rest[1..]);
      InsertBound(s, rest[1..], rest[0].keys[0]);
    }
  }

  lemma {:induction false} SortSorts<V>(kvs: seq<KVPairs<V>>)
    requires forall i :: 0 <= i < |kvs| ==> kvs[i].keys != []
    ensures SortedByFront(SortByFront(kvs))
    ensures multiset(SortByFront(kvs)) == multiset(kvs)
  {
    if kvs != [] {
      SortSorts(kvs[1..]);
      InsertSorted(kvs[0], SortByFront(kvs[1..]));
      InsertAdds(kvs[0], SortByFront(kvs[1..]));
      SplitHead(kvs);
    }
  }

  /** All CHECKs of the callback; vals0 and lens0 are the caller's buffers. */
  predicate MergeOk<V>(keys: seq<Key>, kvs: seq<KVPairs<V>>, vals0: seq<V>, wantLens: bool, lens0: seq<nat>) {
    && (forall i :: 0 <= i < |kvs| ==> ReplyOk(keys, kvs[i], wantLens))
    && TotalKeys(kvs) == |keys|
    && (vals0 == [] || |vals0| == |JoinVals(kvs)|)
    && (!wantLens || lens0 == [] || |lens0| == |keys|)
  }

  /** The callback body: what ends up in the caller's vals and lens. */
  method Merge<V(==)>(keys: seq<Key>, kvs: seq<KVPairs<V>>, vals0: seq<V>, wantLens: bool, lens0: seq<nat>)
    returns (r: Result<(seq<V>, seq<nat>)>)
    ensures r.Ok? <==> MergeOk(keys, kvs, vals0, wantLens, lens0)
    ensures r.Ok? ==> r.value.0 == JoinVals(SortByFront(kvs))
    ensures r.Ok? ==> r.value.1 == if wantLens then JoinLens(SortByFront(kvs)) else lens0
  {
    var ok, totalKey, totalVal := CheckReplies(keys, kvs, wantLens);
    if !ok || totalKey != |keys| {
      return CheckFailed;
    }
    var sorted := SortByFront(kvs);
    SortSorts(kvs);
    JoinValsLength(sorted, kvs);
    if vals0 != [] && |vals0| != totalVal {
      return CheckFailed;
    }
    if wantLens && lens0 != [] && |lens0| != |keys| {
      return CheckFailed;
    }
    var vals, lens := CopyOut(sorted);
    r := Ok((vals, if wantLens then lens else lens0));
  }

  /** The first loop: the checks on each reply, and the totals. */
  method CheckReplies<V>(keys: seq<Key>, kvs: seq<KVPairs<V>>, wantLens: bool)
    returns (ok: bool, totalKey: nat, totalVal: nat)
    ensures ok <==> forall i :: 0 <= i < |kvs| ==> ReplyOk(keys, kvs[i], wantLens)
    ensures ok ==> totalKey == TotalKeys(kvs) && totalVal == |JoinVals(kvs)|
  {
    hide ReplyOk;
    ok, totalKey, totalVal := true, 0, 0;
    for i := 0 to |kvs|
      invariant forall j :: 0 <= j < i ==> ReplyOk(keys, kvs[j], wantLens)
      invariant totalKey == TotalKeys(kvs[..i]) && totalVal == |JoinVals(kvs[..i])|
    {
      var s := kvs[i];
      if !ReplyOk(keys, s, wantLens) {
        ok := false;
        return;
      }
      TotalSnoc(kvs[..i], s);
      JoinValsSnoc(kvs[..i], s);
      assert kvs[..i + 1] == kvs[..i] + [s];
      totalKey := totalKey + |s.keys|;
      totalVal := totalVal + |s.vals|;
    }
    assert kvs[..|kvs|] == kvs;
  }

  /** The second loop: one memcpy after the other. */
  method CopyOut<V>(sorted: seq<KVPairs<V>>) returns (vals: seq<V>, lens: seq<nat>)
    ensures vals == JoinVals(sorted) && lens == JoinLens(sorted)
  {
    vals, lens := [], [];
    for i := 0 to |sorted|
      invariant vals == JoinVals(sorted[..i])
      invariant lens == JoinLens(sorted[..i])
    {
      JoinValsSnoc(sorted[..i], sorted[i]);
      JoinLensSnoc(sorted[..i], sorted[i]);
      assert sorted[..i + 1] == sorted[..i] + [sorted[i]];
      vals := vals + sorted[i].vals;
      lens := lens + sorted[i].lens;
    }
    assert sorted[..|sorted|] == sorted;
  }

  /** Sorting does not change the number of values. */
  lemma {:induction false} JoinValsLength<V>(a: seq<KVPairs<V>>, b: seq<KVPairs<V>>)
    requires multiset(a) == multiset(b)
    ensures |JoinVals(a)| == |JoinVals(b)|
    decreases |a|
  {
    SameLength(a, b);
    if a != [] {
      var i := Locate(a[0], a, b);
      JoinValsRemove(b, i);
      SplitHead(a);
      SplitAt(b, i);
      var rest := b[..i] + b[i + 1..];
      Cancel(a[0], multiset(a[1..]), multiset(rest));
      JoinValsLength(a[1..], rest);
    }
  }

  lemma {:induction false} JoinValsRemove<V>(kvs: seq<KVPairs<V>>, i: nat)
    requires i < |kvs|
    ensures |JoinVals(kvs)| == |kvs[i].vals| + |JoinVals(kvs[..i] + kvs[i + 1..])|
    decreases i
  {
    if i == 0 {
      assert kvs[..0] + kvs[1..] == kvs[1..];
    } else {
      JoinValsRemove(kvs[1..], i - 1);
      assert (kvs[..i] + kvs[i + 1..])[1..] == kvs[1..][..i - 1] + kvs[1..][i..];
    }
  }

  lemma {:induction false} TotalSnoc<V>(kvs: seq<KVPairs<V>>, s: KVPairs<V>)
    ensures TotalKeys(kvs + [s]) == TotalKeys(kvs) + |s.keys|
  {
    if kvs == [] {
      assert [s][1..] == [];
    } else {
      TotalSnoc(kvs[1..], s);
      assert (kvs + [s])[1..] == kvs[1..] + [s];
    }
  }

  lemma {:induction false} JoinKeysSnoc<V>(kvs: seq<KVPairs<V>>, s: KVPairs<V>)
    ensures JoinKeys(kvs + [s]) == JoinKeys(kvs) + s.keys
  {
    if kvs == [] {
      assert [s][1..] == [];
    } else {
      JoinKeysSnoc(kvs[1..], s);
      assert (kvs + [s])[1..] == kvs[1..] + [s];
    }
  }

  lemma {:induction false} JoinValsSnoc<V>(kvs: seq<KVPairs<V>>, s: KVPairs<V>)
    ensures JoinVals(kvs + [s]) == JoinVals(kvs) + s.vals
  {
    if kvs == [] {
      assert [s][1..] == [];
    } else {
      JoinValsSnoc(kvs[1..], s);
      assert (kvs + [s])[1..] == kvs[1..] + [s];
    }
  }

  lemma {:induction false} JoinLensSnoc<V>(kvs: seq<KVPairs<V>>, s: KVPairs<V>)
    ensures JoinLens(kvs + [s]) == JoinLens(kvs) + s.lens
  {
    if kvs == [] {
      assert [s][1..] == [];
    } else {
      JoinLensSnoc(kvs[1..], s);
      assert (kvs + [s])[1..] == kvs[1..] + [s];
    }
  }

  // ----- any order of the replies gives the original order -----

  /** parts are consecutive, non-empty runs of the requested keys. */
  ghost predicate Covers<V>(keys: seq<Key>, parts: seq<KVPairs<V>>) {
    && Increasing(keys)
    && JoinKeys(parts) == keys
    && forall i :: 0 <= i < |parts| ==> parts[i].keys != []
  }

  /** Part i covers a segment of the keys. */
  lemma {:induction false} PartIsSegment<V>(keys: seq<Key>, parts: seq<KVPairs<V>>, i: nat) returns (a: nat)
    requires JoinKeys(parts) == keys && i < |parts|
    ensures a + |parts[i].keys| <= |keys| && parts[i].keys == keys[a..a + |parts[i].keys|]
    ensures a == |JoinKeys(parts[..i])|
    decreases i
  {
    if i == 0 {
      a := 0;
      assert parts[..0] == [];
    } else {
      var b := PartIsSegment(JoinKeys(parts[1..]), parts[1..], i - 1);
      a := b + |parts[0].keys|;
      assert parts[..i][1..] == parts[1..][..i - 1];
    }
  }

  lemma {:induction false} JoinGrows<V>(parts: seq<KVPairs<V>>, i: nat, j: nat)
    requires i <= j <= |parts|
    ensures |JoinKeys(parts[..i])| <= |JoinKeys(parts[..j])|
    ensures i < j && (forall k :: 0 <= k < |parts| ==> parts[k].keys != [])
      ==> |JoinKeys(parts[..i])| < |JoinKeys(parts[..j])|
    decreases j
  {
    if i < j {
      JoinGrows(parts, i, j - 1);
      JoinKeysSnoc(parts[..j - 1], parts[j - 1]);
      assert parts[..j] == parts[..j - 1] + [parts[j - 1]];
    }
  }

  /** The parts are already in strictly increasing order of their first keys. */
  lemma CoversStrict<V>(keys: seq<Key>, parts: seq<KVPairs<V>>, i: nat, j: nat)
    requires Covers(keys, parts) && i < j < |parts|
    ensures parts[i].keys[0] < parts[j].keys[0]
  {
    var a := PartIsSegment(keys, parts, i);
    var b := PartIsSegment(keys, parts, j);
    JoinGrows(parts, i, j);
  }

  /** Two sorted arrangements of the same replies, the first strictly sorted, are the same. */
  lemma {:induction false} SortedUnique<V>(a: seq<KVPairs<V>>, b: seq<KVPairs<V>>)
    requires SortedByFront(a) && SortedByFront(b) && multiset(a) == multiset(b)
    requires forall i, j :: 0 <= i < j < |a| ==> a[i].keys[0] < a[j].keys[0]
    ensures a == b
    decreases |a|
  {
    SameLength(a, b);
    if a != [] {
      var i := Locate(b[0], b, a);
      var j := Locate(a[0], a, b);
      assert i == 0;
      SplitHead(a);
      SplitHead(b);
      Cancel(a[0], multiset(a[1..]), multiset(b[1..]));
      SortedUnique(a[1..], b[1..]);
    }
  }

  lemma PartReplyOk<V>(keys: seq<Key>, parts: seq<KVPairs<V>>, i: nat, wantLens: bool)
    requires Covers(keys, parts) && i < |parts|
    requires forall k :: k in keys ==> k < KEY_LIMIT - 1
    requires wantLens ==> |parts[i].lens| == |parts[i].keys|
    ensures ReplyOk(keys, parts[i], wantLens)
  {
    var s := parts[i];
    var a := PartIsSegment(keys, parts, i);
    var n := |s.keys|;
    assert s.keys[0] == keys[a] && s.keys[n - 1] == keys[a + n - 1];
    assert keys[a + n - 1] in keys;
    FindRangeOfSegment(keys, a, a + n);
  }

  /**
   * Whatever order the replies arrive in, no CHECK fails and the values come out in the order
   * of the requested keys.
   */
  lemma MergeRebuilds<V>(keys: seq<Key>, parts: seq<KVPairs<V>>, kvs: seq<KVPairs<V>>, wantLens: bool)
    requires Covers(keys, parts) && multiset(kvs) == multiset(parts)
    requires forall k :: k in keys ==> k < KEY_LIMIT - 1
    requires wantLens ==> forall i :: 0 <= i < |parts| ==> |parts[i].lens| == |parts[i].keys|
    ensures MergeOk(keys, kvs, [], wantLens, [])
    ensures SortByFront(kvs) == parts
  {
    forall n | 0 <= n < |kvs|
      ensures ReplyOk(keys, kvs[n], wantLens)
    {
      var i := Locate(kvs[n], kvs, parts);
      PartReplyOk(keys, parts, i, wantLens);
    }
    SortSorts(kvs);
    forall i, j | 0 <= i < j < |parts|
      ensures parts[i].keys[0] < parts[j].keys[0]
    {
      CoversStrict(keys, parts, i, j);
    }
    SortedUnique(parts, SortByFront(kvs));
    TotalOfPermutation(kvs, parts);
    TotalIsJoin(parts);
  }

  lemma {:induction false} TotalIsJoin<V>(parts: seq<KVPairs<V>>)
    ensures TotalKeys(parts) == |JoinKeys(parts)|
  {
    if parts != [] {
      TotalIsJoin(parts[1..]);
    }
  }

  lemma {:induction false} TotalRemove<V>(kvs: seq<KVPairs<V>>, i: nat)
    requires i < |kvs|
    ensures TotalKeys(kvs) == |kvs[i].keys| + TotalKeys(kvs[..i] + kvs[i + 1..])
  {
    if i == 0 {
      assert kvs[..0] + kvs[1..] == kvs[1..];
    } else {
      TotalRemove(kvs[1..], i - 1);
      assert (kvs[..i] + kvs[i + 1..])[1..] == kvs[1..][..i - 1] + kvs[1..][i..];
    }
  }

  lemma {:induction false} TotalOfPermutation<V>(a: seq<KVPairs<V>>, b: seq<KVPairs<V>>)
    requires multiset(a) == multiset(b)
    ensures TotalKeys(a) == TotalKeys(b)
    decreases |a|
  {
    SameLength(a, b);
    if a != [] {
      var i := Locate(a[0], a, b);
      TotalRemove(b, i);
      SplitHead(a);
      SplitAt(b, i);
      var rest := b[..i] + b[i + 1..];
      Cancel(a[0], multiset(a[1..]), multiset(rest));
      TotalOfPermutation(a[1..], rest);
    }
  }

  // ----- sequences as multisets -----

  lemma SplitHead<T>(s: seq<T>)
    requires s != []
    ensures multiset(s) == multiset{s[0]} + multiset(s[1..])
  {
    assert s == [s[0]] + s[1..];
  }

  lemma SplitAt<T>(s: seq<T>, i: nat)
    requires i < |s|
    ensures multiset(s) == multiset{s[i]} + multiset(s[..i] + s[i + 1..])
  {
    assert s == s[..i] + [s[i]] + s[i + 1..];
  }

  lemma Cancel<T>(x: T, a: multiset<T>, b: multiset<T>)
    requires multiset{x} + a == multiset{x} + b
    ensures a == b
  {
    assert a == (multiset{x} + a) - multiset{x};
    assert b == (multiset{x} + b) - multiset{x};
  }

  lemma SameLength<T>(a: seq<T>, b: seq<T>)
    requires multiset(a) == multiset(b)
    ensures |a| == |b|
  {
    assert |multiset(a)| == |multiset(b)|;
  }

  lemma Locate<T>(x: T, a: seq<T>, b: seq<T>) returns (i: nat)
    requires multiset(a) == multiset(b) && x in a
    ensures i < |b| && b[i] == x
  {
    assert x in multiset(b);
    i :| i < |b| && b[i] == x;
  }
}
