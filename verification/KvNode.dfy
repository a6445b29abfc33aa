// The two ends of the protocol as objects: KVServerDefaultHandle and KVWorker
// (deps/include/ps/kv_app.h), each method proved against the step it takes in the protocol.
module KvNode {
  import opened Wrappers
  import opened KvData
  import opened Slicer
  import opened PullMerge
  import opened KvStore
  import opened KvProtocol

  class KVServerDefaultHandle {
    var store: Store<real>

    constructor ()
      ensures store == map[]
    {
      store := map[];
    }

    /** operator(): add what is pushed, or look up what is pulled; reading creates the key. */
    method Call(push: bool, keys: seq<Key>, vals: seq<real>) returns (r: Result<KVPairs<real>>)
      modifies this
      ensures r.CheckFailed? <==> push && |keys| != |vals|
      ensures r.CheckFailed? ==> store == old(store)
      ensures r.Ok? && push ==> store == PushAll(DefaultHandle(), old(store), keys, vals) && r.value == Empty()
      ensures r.Ok? && !push ==> store == PullAll(DefaultHandle(), old(store), keys)
      ensures r.Ok? && !push ==> r.value == KVPairs(keys, Read(DefaultHandle(), old(store), keys), [])
    {
      var n := |keys|;
      if push && n != |vals| {
        return CheckFailed;
      }
      var res := [];
      for i := 0 to n
        invariant push ==> res == [] && store == PushAll(DefaultHandle(), old(store), keys[..i], vals[..i])
        invariant !push ==> store == PullAll(DefaultHandle(), old(store), keys[..i])
        invariant !push ==> res == Read(DefaultHandle(), old(store), keys[..i])
      {
        hide PushAll, PullAll, Read, DefaultHandle;
        var key := keys[i];
        assert keys[..i + 1] == keys[..i] + [key];
        if push {
          DefaultPushSnoc(old(store), keys[..i], vals[..i], key, vals[i]);
          assert vals[..i + 1] == vals[..i] + [vals[i]];
          store := store[key := (if key in store then store[key] else 0.0) + vals[i]];
        } else {
          DefaultPullSnoc(old(store), keys[..i], key);
          store := store[key := if key in store then store[key] else 0.0];
          res := res + [store[key]];
        }
      }
      assert keys[..n] == keys && (push ==> vals[..n] == vals);
      r := Ok(if push then Empty() else KVPairs(keys, res, []));
    }
  }

  lemma DefaultPushSnoc(store: Store<real>, keys: seq<Key>, vals: seq<real>, k: Key, v: real)
    requires |vals| == |keys|
    ensures var before := PushAll(DefaultHandle(), store, keys, vals);
      PushAll(DefaultHandle(), store, keys + [k], vals + [v])
      == before[k := (if k in before then before[k] else 0.0) + v]
  {
    hide PushAll;
    PushSnoc(DefaultHandle(), store, keys, vals, k, v);
  }

  lemma DefaultPullSnoc(store: Store<real>, keys: seq<Key>, k: Key)
    ensures var before := PullAll(DefaultHandle(), store, keys);
      var w := if k in before then before[k] else 0.0;
      && PullAll(DefaultHandle(), store, keys + [k]) == before[k := w]
      && Read(DefaultHandle(), store, keys + [k]) == Read(DefaultHandle(), store, keys) + [w]
  {
    hide PullAll, Read;
    PullSnoc(DefaultHandle(), store, keys, k);
  }

  class KVWorker {
    var recv: map<nat, seq<KVPairs<real>>>
    var callbacks: map<nat, Request>
    var results: map<nat, seq<real>>
    var runs: map<nat, nat>
    var failed: bool

    ghost function View(): Worker
      reads this
    {
      Worker(recv, callbacks, results, runs, failed)
    }

    constructor ()
      ensures View() == Worker(map[], map[], map[], map[], false)
    {
      recv, callbacks, results, runs, failed := map[], map[], map[], map[], false;
    }

    /** ZPush or Pull_: register the callback, slice, count the servers left out, send the rest. */
    method Issue(q: Request, ts: nat, ranges: seq<Range>) returns (skipped: nat, msgs: seq<Msg>)
      requires GoodRanges(ranges) && GoodRequest(ranges, q)
      modifies this
      ensures skipped == Skipped(ranges, q, |ranges|)
      ensures multiset(msgs) == Outgoing(ranges, q, ts, |ranges|)
      ensures var w := if q.Registers() then old(View()).(callbacks := old(callbacks)[ts := q]) else old(View());
        View() == if skipped == |ranges| then KvProtocol.RunCallback(w, ts) else w
    {
      hide Skipped, Outgoing, KvProtocol.RunCallback, GoodRequest, SliceOf, Accepts;
      if q.Registers() {
        callbacks := callbacks[ts := q];
      }
      var sliced := Cut(q, ranges);
      skipped := CountSkipped(q, ranges, sliced);
      if skipped == |ranges| {
        RunCallback(ts);
      }
      msgs := Messages(q, ts, ranges, sliced);
    }

    /** The slicer on a request, which it accepts. */
    method Cut(q: Request, ranges: seq<Range>) returns (sliced: seq<Slice<real>>)
      requires GoodRanges(ranges) && GoodRequest(ranges, q)
      ensures |sliced| == |ranges| && forall i :: 0 <= i < |ranges| ==> sliced[i] == Part(ranges, q, i)
    {
      GoodIsAccepted(ranges, q);
      var r := DefaultSlicer(Sent(q), ranges);
      sliced := r.value;
    }

    method CountSkipped(q: Request, ranges: seq<Range>, sliced: seq<Slice<real>>) returns (skipped: nat)
      requires GoodRanges(ranges) && GoodRequest(ranges, q)
      requires |sliced| == |ranges| && forall i :: 0 <= i < |ranges| ==> sliced[i] == Part(ranges, q, i)
      ensures skipped == Skipped(ranges, q, |ranges|)
    {
      hide Part, GoodRequest;
      skipped := 0;
      for i := 0 to |ranges|
        invariant skipped == Skipped(ranges, q, i)
      {
        if !sliced[i].first {
          skipped := skipped + 1;
        }
      }
    }

    method Messages(q: Request, ts: nat, ranges: seq<Range>, sliced: seq<Slice<real>>) returns (msgs: seq<Msg>)
      requires GoodRanges(ranges) && GoodRequest(ranges, q)
      requires |sliced| == |ranges| && forall i :: 0 <= i < |ranges| ==> sliced[i] == Part(ranges, q, i)
      ensures multiset(msgs) == Outgoing(ranges, q, ts, |ranges|)
    {
      hide Part, GoodRequest;
      msgs := [];
      for i := 0 to |ranges|
        invariant multiset(msgs) == Outgoing(ranges, q, ts, i)
      {
        hide Outgoing;
        var s := sliced[i];
        OneMoreServer(q, ts, ranges, i);
        if s.first {
          AppendAdds(msgs, Ask(ts, i, q.push, s.second));
          msgs := msgs + [Ask(ts, i, q.push, s.second)];
        }
      }
    }

    lemma OneMoreServer(q: Request, ts: nat, ranges: seq<Range>, i: nat)
      requires GoodRanges(ranges) && GoodRequest(ranges, q) && i < |ranges|
      ensures var part, before := Part(ranges, q, i), Outgoing(ranges, q, ts, i);
        && (part.first ==> Outgoing(ranges, q, ts, i + 1) == before + multiset{Ask(ts, i, q.push, part.second)})
        && (!part.first ==> Outgoing(ranges, q, ts, i + 1) == before)
    {
      hide Part, GoodRequest;
    }

    lemma AppendAdds(msgs: seq<Msg>, m: Msg)
      ensures multiset(msgs + [m]) == multiset(msgs) + multiset{m}
    {
    }

    /** Store an answer that carries data; with the last answer run the callback. */
    method Process(n: nat, numResponse: nat, m: Msg)
      modifies this
      ensures View() == KvProtocol.Process(old(View()), n, numResponse, m)
    {
      if !m.push && m.kvs.keys != [] {
        recv := recv[m.ts := (if m.ts in recv then recv[m.ts] else []) + [m.kvs]];
      }
      if numResponse == n - 1 {
        RunCallback(m.ts);
      }
    }

    /** Run and erase the callback; a pull's callback checks, sorts and joins what arrived. */
    method RunCallback(ts: nat)
      modifies this
      ensures View() == KvProtocol.RunCallback(old(View()), ts)
    {
      hide SortByFront, MergeOk, JoinVals, JoinLens;
      if ts in callbacks {
        var q := callbacks[ts];
        if !q.push {
          var got := if ts in recv then recv[ts] else [];
          var merged := Merge(q.keys, got, q.vals, false, []);
          if merged.CheckFailed? {
            failed := true;
            return;
          }
          results := results[ts := merged.value.0];
          recv := recv - {ts};
        }
        runs := runs[ts := (if ts in runs then runs[ts] else 0) + 1];
        callbacks := callbacks - {ts};
      }
    }
  }
}
