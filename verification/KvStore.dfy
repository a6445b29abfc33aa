// One server's store: a map from keys to cells, updated by a request handle. A handle says
// what a push does to a cell and what a pull reads from it, so KVServerDefaultHandle
// (deps/include/ps/kv_app.h) and Ftrl::handle_request (src/optimizer/ftrl.cpp) are two
// instances.
module KvStore {
  import opened KvData

  datatype Handle<!C> = Handle(init: C, push: (C, real) -> C, read: C -> real)

  type Store<C> = map<Key, C>

  /** store[key] without the insertion. */
  function At<C>(h: Handle<C>, store: Store<C>, k: Key): C {
    if k in store then store[k] else h.init
  }

  /** The push loop: store[key] is created on first use. */
  function PushAll<C>(h: Handle<C>, store: Store<C>, keys: seq<Key>, vals: seq<real>): Store<C>
    requires |vals| == |keys|
    decreases |keys|
  {
    if keys == [] then store
    else
      var last := |keys| - 1;
      var before := PushAll(h, store, keys[..last], vals[..last]);
      before[keys[last] := h.push(At(h, before, keys[last]), vals[last])]
  }

  /** The pull loop: reading store[key] creates it too. */
  function PullAll<C>(h: Handle<C>, store: Store<C>, keys: seq<Key>): Store<C>
    decreases |keys|
  {
    if keys == [] then store
    else
      var last := |keys| - 1;
      var before := PullAll(h, store, keys[..last]);
      before[keys[last] := At(h, before, keys[last])]
  }

  function Read<C>(h: Handle<C>, store: Store<C>, keys: seq<Key>): (vals: seq<real>)
    ensures |vals| == |keys| && forall i :: 0 <= i < |keys| ==> vals[i] == h.read(At(h, store, keys[i]))
  {
    seq(|keys|, i requires 0 <= i < |keys| => h.read(At(h, store, keys[i])))
  }

  /** The part of a store in a key range. */
  function Sub<C>(store: Store<C>, r: Range): Store<C> {
    map k | k in store && r.Has(k) :: store[k]
  }

  // ----- what a request with distinct keys does to each key -----

  lemma {:induction false} PushAllAt<C>(h: Handle<C>, store: Store<C>, keys: seq<Key>, vals: seq<real>)
    requires |vals| == |keys| && Increasing(keys)
    ensures forall k :: k in PushAll(h, store, keys, vals) <==> k in store || k in keys
    ensures forall i :: 0 <= i < |keys| ==>
      At(h, PushAll(h, store, keys, vals), keys[i]) == h.push(At(h, store, keys[i]), vals[i])
    ensures forall k :: k !in keys ==> At(h, PushAll(h, store, keys, vals), k) == At(h, store, k)
    decreases |keys|
  {
    if keys != [] {
      var last := |keys| - 1;
      PushAllAt(h, store, keys[..last], vals[..last]);
      LastIsNew(keys);
      var before := PushAll(h, store, keys[..last], vals[..last]);
      assert At(h, before, keys[last]) == At(h, store, keys[last]);
      forall i | 0 <= i < last
        ensures At(h, PushAll(h, store, keys, vals), keys[i]) == h.push(At(h, store, keys[i]), vals[i])
      {
        assert keys[i] == keys[..last][i] && vals[i] == vals[..last][i];
      }
    }
  }

  lemma LastIsNew(keys: seq<Key>)
    requires keys != [] && Increasing(keys)
    ensures Increasing(keys[..|keys| - 1]) && keys[|keys| - 1] !in keys[..|keys| - 1]
    ensures forall k :: k in keys <==> k in keys[..|keys| - 1] || k == keys[|keys| - 1]
  {
    assert keys == keys[..|keys| - 1] + [keys[|keys| - 1]];
  }

  lemma {:induction false} PullAllAt<C>(h: Handle<C>, store: Store<C>, keys: seq<Key>)
    ensures forall k :: k in PullAll(h, store, keys) <==> k in store || k in keys
    ensures forall k :: At(h, PullAll(h, store, keys), k) == At(h, store, k)
    decreases |keys|
  {
    if keys != [] {
      var last := |keys| - 1;
      PullAllAt(h, store, keys[..last]);
      assert keys == keys[..last] + [keys[last]];
    }
  }

  /** One more key in a push. */
  lemma PushSnoc<C>(h: Handle<C>, store: Store<C>, keys: seq<Key>, vals: seq<real>, k: Key, v: real)
    requires |vals| == |keys|
    ensures var before := PushAll(h, store, keys, vals);
      PushAll(h, store, keys + [k], vals + [v]) == before[k := h.push(At(h, before, k), v)]
  {
    assert (keys + [k])[..|keys|] == keys && (vals + [v])[..|keys|] == vals;
  }

  /** One more key in a pull. */
  lemma PullSnoc<C>(h: Handle<C>, store: Store<C>, keys: seq<Key>, k: Key)
    ensures var before := PullAll(h, store, keys);
      && PullAll(h, store, keys + [k]) == before[k := At(h, before, k)]
      && Read(h, store, keys + [k]) == Read(h, store, keys) + [h.read(At(h, before, k))]
  {
    assert (keys + [k])[..|keys|] == keys;
    PullAllAt(h, store, keys);
  }

  lemma SameStore<C>(h: Handle<C>, a: Store<C>, b: Store<C>)
    requires forall k :: k in a <==> k in b
    requires forall k :: k in a ==> At(h, a, k) == At(h, b, k)
    ensures a == b
  {
    assert a.Keys == b.Keys;
    forall k | k in a
      ensures a[k] == b[k]
    {
      assert At(h, a, k) == At(h, b, k);
    }
  }

  // ----- sharding one store -----

  /** A push to the keys of a range, on the part of the store in that range. */
  lemma PushShard<C>(h: Handle<C>, store: Store<C>, keys: seq<Key>, vals: seq<real>, r: Range, lo: nat, hi: nat)
    requires |vals| == |keys| && Increasing(keys) && lo <= hi <= |keys|
    requires forall j :: 0 <= j < |keys| ==> (r.Has(keys[j]) <==> lo <= j < hi)
    ensures PushAll(h, Sub(store, r), keys[lo..hi], vals[lo..hi]) == Sub(PushAll(h, store, keys, vals), r)
  {
    hide PushAll, At, Sub;
    var part, whole := PushAll(h, Sub(store, r), keys[lo..hi], vals[lo..hi]), PushAll(h, store, keys, vals);
    forall k: Key
      ensures k in part <==> k in Sub(whole, r)
      ensures k in part ==> At(h, part, k) == At(h, Sub(whole, r), k)
    {
      PushShardAt(h, store, keys, vals, r, lo, hi, k);
    }
    SameStore(h, part, Sub(whole, r));
  }

  lemma PushShardAt<C>(h: Handle<C>, store: Store<C>, keys: seq<Key>, vals: seq<real>, r: Range, lo: nat, hi: nat,
          k: Key)
    requires |vals| == |keys| && Increasing(keys) && lo <= hi <= |keys|
    requires forall j :: 0 <= j < |keys| ==> (r.Has(keys[j]) <==> lo <= j < hi)
    ensures var part, whole := PushAll(h, Sub(store, r), keys[lo..hi], vals[lo..hi]), PushAll(h, store, keys, vals);
      && (k in part <==> k in Sub(whole, r))
      && (k in part ==> At(h, part, k) == At(h, Sub(whole, r), k))
  {
    hide PushAll, At, Sub;
    PushAllAt(h, store, keys, vals);
    PushAllAt(h, Sub(store, r), keys[lo..hi], vals[lo..hi]);
    SegmentKeys(keys, r, lo, hi, k);
    SubAt(h, store, r, k);
    SubAt(h, PushAll(h, store, keys, vals), r, k);
    if k in keys[lo..hi] {
      var i :| 0 <= i < hi - lo && keys[lo..hi][i] == k;
      assert keys[lo + i] == k && vals[lo..hi][i] == vals[lo + i];
    }
  }

  lemma SubAt<C>(h: Handle<C>, store: Store<C>, r: Range, k: Key)
    ensures k in Sub(store, r) <==> k in store && r.Has(k)
    ensures r.Has(k) ==> At(h, Sub(store, r), k) == At(h, store, k)
  {
  }

  lemma SegmentKeys(keys: seq<Key>, r: Range, lo: nat, hi: nat, k: Key)
    requires lo <= hi <= |keys|
    requires forall j :: 0 <= j < |keys| ==> (r.Has(keys[j]) <==> lo <= j < hi)
    ensures k in keys[lo..hi] <==> k in keys && r.Has(k)
  {
    if k in keys && r.Has(k) {
      var j :| 0 <= j < |keys| && keys[j] == k;
      assert keys[lo..hi][j - lo] == k;
    }
  }

  lemma PullShard<C>(h: Handle<C>, store: Store<C>, keys: seq<Key>, r: Range, lo: nat, hi: nat)
    requires lo <= hi <= |keys|
    requires forall j :: 0 <= j < |keys| ==> (r.Has(keys[j]) <==> lo <= j < hi)
    ensures PullAll(h, Sub(store, r), keys[lo..hi]) == Sub(PullAll(h, store, keys), r)
  {
    hide PullAll;
    var part, whole := PullAll(h, Sub(store, r), keys[lo..hi]), PullAll(h, store, keys);
    PullAllAt(h, store, keys);
    PullAllAt(h, Sub(store, r), keys[lo..hi]);
    forall k: Key
      ensures k in part <==> k in Sub(whole, r)
      ensures k in part ==> At(h, part, k) == At(h, Sub(whole, r), k)
    {
      SegmentKeys(keys, r, lo, hi, k);
      assert At(h, part, k) == At(h, Sub(store, r), k) && At(h, whole, k) == At(h, store, k);
    }
    SameStore(h, part, Sub(whole, r));
  }

  lemma ReadShard<C>(h: Handle<C>, store: Store<C>, keys: seq<Key>, r: Range, lo: nat, hi: nat)
    requires lo <= hi <= |keys|
    requires forall j :: 0 <= j < |keys| ==> (r.Has(keys[j]) <==> lo <= j < hi)
    ensures Read(h, Sub(store, r), keys[lo..hi]) == Read(h, store, keys)[lo..hi]
  {
    var part, whole := Read(h, Sub(store, r), keys[lo..hi]), Read(h, store, keys);
    forall i | 0 <= i < hi - lo
      ensures part[i] == whole[lo + i]
    {
      assert keys[lo..hi][i] == keys[lo + i] && r.Has(keys[lo + i]);
    }
    assert part == whole[lo..hi];
  }

  // ----- KVServerDefaultHandle -----

  /** store[key] += val; a new key starts at zero. */
  function DefaultHandle(): Handle<real> {
    Handle(0.0, (c: real, v: real) => c + v, (c: real) => c)
  }
}
