// FTRL on the sharded store: n servers running Ftrl::handle_request behave as one, and what
// a worker pulls are minimisers of the objective over all gradients pushed so far.
module FtrlSharded {
  import opened KvData
  import opened KvStore
  import opened KvProtocol
  import opened KvInvariant
  import opened KvRuns
  import opened KvRefinement
  import opened KvUnwaited
  import opened FtrlCell
  import opened FtrlServer

  /** Pushes to disjoint sets of keys can be served in either order. */
  lemma DisjointPushesCommute<C>(h: Handle<C>, store: Store<C>, keys: seq<Key>, vals: seq<real>, keys': seq<Key>,
          vals': seq<real>)
    requires Increasing(keys) && |vals| == |keys| && Increasing(keys') && |vals'| == |keys'|
    requires forall k :: k in keys ==> k !in keys'
    ensures PushAll(h, PushAll(h, store, keys, vals), keys', vals')
         == PushAll(h, PushAll(h, store, keys', vals'), keys, vals)
  {
    hide PushAll, At, Increasing;
    var a, b := PushAll(h, store, keys, vals), PushAll(h, store, keys', vals');
    PushAllAt(h, store, keys, vals);
    PushAllAt(h, store, keys', vals');
    PushAllAt(h, a, keys', vals');
    PushAllAt(h, b, keys, vals);
    forall k: Key
      ensures At(h, PushAll(h, a, keys', vals'), k) == At(h, PushAll(h, b, keys, vals), k)
    {
      if k in keys {
        var i :| 0 <= i < |keys| && keys[i] == k;
      } else if k in keys' {
        var i :| 0 <= i < |keys'| && keys'[i] == k;
      }
    }
    SameStore(h, PushAll(h, a, keys', vals'), PushAll(h, b, keys, vals));
  }

  /** A pull is not affected by a push to other keys, nor the push by the pull. */
  lemma DisjointPushAndPullCommute<C>(h: Handle<C>, store: Store<C>, keys: seq<Key>, vals: seq<real>, keys': seq<Key>)
    requires Increasing(keys) && |vals| == |keys| && forall k :: k in keys ==> k !in keys'
    ensures PullAll(h, PushAll(h, store, keys, vals), keys') == PushAll(h, PullAll(h, store, keys'), keys, vals)
    ensures Read(h, PushAll(h, store, keys, vals), keys') == Read(h, store, keys')
  {
    hide PushAll, PullAll, At, Increasing;
    var a, b := PushAll(h, store, keys, vals), PullAll(h, store, keys');
    PushAllAt(h, store, keys, vals);
    PullAllAt(h, store, keys');
    PullAllAt(h, a, keys');
    PushAllAt(h, b, keys, vals);
    forall k: Key
      ensures At(h, PullAll(h, a, keys'), k) == At(h, PushAll(h, b, keys, vals), k)
    {
      if k in keys {
        var i :| 0 <= i < |keys| && keys[i] == k;
      }
    }
    SameStore(h, PullAll(h, a, keys'), PushAll(h, b, keys, vals));
    assert forall i :: 0 <= i < |keys'| ==> keys'[i] !in keys;
    assert Read(h, a, keys') == Read(h, store, keys');
  }

  /** Pulls commute whatever their keys. */
  lemma PullsCommute<C>(h: Handle<C>, store: Store<C>, keys: seq<Key>, keys': seq<Key>)
    ensures PullAll(h, PullAll(h, store, keys), keys') == PullAll(h, PullAll(h, store, keys'), keys)
    ensures Read(h, PullAll(h, store, keys), keys') == Read(h, store, keys')
  {
    hide PullAll, At;
    var a, b := PullAll(h, store, keys), PullAll(h, store, keys');
    PullAllAt(h, store, keys);
    PullAllAt(h, store, keys');
    PullAllAt(h, a, keys');
    PullAllAt(h, b, keys);
    SameStore(h, PullAll(h, a, keys'), PullAll(h, b, keys));
    assert Read(h, a, keys') == Read(h, store, keys');
  }

  /** Two requests with disjoint keys can be served in either order: same store, same answers. */
  lemma DisjointRequestsCommute<C>(h: Handle<C>, store: Store<C>, a: Request, b: Request)
    requires Increasing(a.keys) && Increasing(b.keys) && forall k :: k in a.keys ==> k !in b.keys
    requires (a.push ==> |a.vals| == |a.keys|) && (b.push ==> |b.vals| == |b.keys|)
    ensures Apply(h, Apply(h, store, a), b) == Apply(h, Apply(h, store, b), a)
    ensures !a.push ==> Read(h, Apply(h, store, b), a.keys) == Read(h, store, a.keys)
    ensures !b.push ==> Read(h, Apply(h, store, a), b.keys) == Read(h, store, b.keys)
  {
    hide PushAll, PullAll, At, Increasing, Read;
    if a.push && b.push {
      DisjointPushesCommute(h, store, a.keys, a.vals, b.keys, b.vals);
    } else if a.push {
      DisjointPushAndPullCommute(h, store, a.keys, a.vals, b.keys);
    } else if b.push {
      DisjointPushAndPullCommute(h, store, b.keys, b.vals, a.keys);
    } else {
      PullsCommute(h, store, a.keys, b.keys);
      PullsCommute(h, store, b.keys, a.keys);
    }
  }

  // ----- the history of one key -----

  /** The gradients pushed for key k, in the order of the requests. */
  function GradientsFor(log: seq<Request>, k: Key): (es: seq<FtrlCell.Event>)
    requires ValuesGiven(log)
    ensures forall e :: e in es ==> e.Gradient?
    decreases |log|
  {
    if log == [] then []
    else
      var before, q := GradientsFor(log[..|log| - 1], k), log[|log| - 1];
      if q.push && k in q.keys then before + [Gradient(q.vals[IndexOf(q.keys, k)])] else before
  }

  /** The cell of the one store is the replay of that history. */
  lemma {:induction false} OneStoreReplays(sqrt: real -> real, p: Params, log: seq<Request>, k: Key)
    requires IsSqrt(sqrt) && p.Good() && ValuesGiven(log)
    requires forall ts :: 0 <= ts < |log| ==> Increasing(log[ts].keys)
    ensures At(FtrlHandle(sqrt, p), OneStore(FtrlHandle(sqrt, p), log), k) == Replay(sqrt, p, GradientsFor(log, k))
    decreases |log|
  {
    hide UpdateCell, IsSqrt;
    if log != [] {
      var last := |log| - 1;
      OneStoreReplays(sqrt, p, log[..last], k);
      var before, q := OneStore(FtrlHandle(sqrt, p), log[..last]), log[last];
      if q.push {
        PushAllAt(FtrlHandle(sqrt, p), before, q.keys, q.vals);
        if k in q.keys {
          var es := GradientsFor(log, k);
          assert es[..|es| - 1] == GradientsFor(log[..last], k);
          assert q.keys[IndexOf(q.keys, k)] == k;
        }
      } else {
        PullAllAt(FtrlHandle(sqrt, p), before, q.keys);
      }
    }
  }

  /** The weight a worker pulls from n servers is that of the whole history of its key. */
  lemma PullReturnsReplay(sqrt: real -> real, p: Params, ranges: seq<Range>, es: seq<KvProtocol.Event>, ts: nat, j: nat)
    requires IsSqrt(sqrt) && p.Good() && GoodRanges(ranges)
    requires Run(FtrlHandle(sqrt, p), ranges, es) && Waited(FtrlHandle(sqrt, p), ranges, es)
    requires ts < |After(FtrlHandle(sqrt, p), ranges, es).log| && ts < |After(FtrlHandle(sqrt, p), ranges, es).tracker|
    requires !After(FtrlHandle(sqrt, p), ranges, es).log[ts].push
    requires After(FtrlHandle(sqrt, p), ranges, es).tracker[ts] == |ranges|
    requires j < |After(FtrlHandle(sqrt, p), ranges, es).log[ts].keys|
    ensures var s := After(FtrlHandle(sqrt, p), ranges, es);
      && ts in s.worker.results && j < |s.worker.results[ts]| && ValuesGiven(s.log[..ts])
      && s.worker.results[ts][j] == Replay(sqrt, p, GradientsFor(s.log[..ts], s.log[ts].keys[j])).w
  {
    hide Run, After, Waited, OneStore, Replay, GradientsFor, IsSqrt, UpdateCell, NetOk, NothingLost, Counted, WorkerOk;
    var h := FtrlHandle(sqrt, p);
    ShardedPullIsOnePull(h, ranges, es, ts);
    RunKeepsInv(h, ranges, es);
    var s := After(h, ranges, es);
    forall t | 0 <= t < ts
      ensures Increasing(s.log[..ts][t].keys)
    {
      assert GoodRequest(ranges, s.log[t]);
    }
    OneStoreReplays(sqrt, p, s.log[..ts], s.log[ts].keys[j]);
  }

  /**
   * So every pulled weight minimises the cumulative regularised objective over exactly the
   * gradients pushed for its key, over all servers and in the order of the requests; a key
   * without a gradient yields zero.
   */
  lemma PulledWeightsMinimise(sqrt: real -> real, p: Params, ranges: seq<Range>, es: seq<KvProtocol.Event>, ts: nat,
          j: nat, x: real)
    requires IsSqrt(sqrt) && p.Good() && GoodRanges(ranges)
    requires Run(FtrlHandle(sqrt, p), ranges, es) && Waited(FtrlHandle(sqrt, p), ranges, es)
    requires ts < |After(FtrlHandle(sqrt, p), ranges, es).log| && ts < |After(FtrlHandle(sqrt, p), ranges, es).tracker|
    requires !After(FtrlHandle(sqrt, p), ranges, es).log[ts].push
    requires After(FtrlHandle(sqrt, p), ranges, es).tracker[ts] == |ranges|
    requires j < |After(FtrlHandle(sqrt, p), ranges, es).log[ts].keys|
    ensures var s := After(FtrlHandle(sqrt, p), ranges, es);
      && ts in s.worker.results && j < |s.worker.results[ts]| && ValuesGiven(s.log[..ts])
      && var w, history := s.worker.results[ts][j], GradientsFor(s.log[..ts], s.log[ts].keys[j]);
        && Objective(sqrt, p, history, w) <= Objective(sqrt, p, history, x)
        && (history == [] ==> w == 0.0)
  {
    hide Run, After, Waited, OneStore, GradientsFor, IsSqrt, UpdateCell, Objective;
    PullReturnsReplay(sqrt, p, ranges, es, ts, j);
    var s := After(FtrlHandle(sqrt, p), ranges, es);
    var history := GradientsFor(s.log[..ts], s.log[ts].keys[j]);
    if history == [] {
      NoGradientsNoLoss(sqrt, p, x);
    } else {
      assert history[|history| - 1] in history;
      UpdateMinimises(sqrt, p, history, x);
    }
  }

  // ----- requests that are not waited for -----

  /** The gradients that some pushes give key k. */
  function GradientsIn(log: seq<Request>, k: Key, order: seq<nat>): (es: seq<FtrlCell.Event>)
    requires ValuesGiven(log) && Issued(order, |log|)
    ensures |es| == |order| && forall j :: 0 <= j < |es| ==> es[j] == Gradient(PushedBy(log[order[j]], k))
  {
    seq(|order|, j requires 0 <= j < |order| => Gradient(PushedBy(log[order[j]], k)))
  }

  lemma {:induction false} FoldedIsReplay(sqrt: real -> real, p: Params, log: seq<Request>, k: Key, order: seq<nat>)
    requires IsSqrt(sqrt) && p.Good() && ValuesGiven(log) && Issued(order, |log|)
    ensures Folded(FtrlHandle(sqrt, p), log, k, order) == Replay(sqrt, p, GradientsIn(log, k, order))
    decreases |order|
  {
    hide UpdateCell, IsSqrt, PushedBy;
    if order != [] {
      var front := order[..|order| - 1];
      FoldedIsReplay(sqrt, p, log, k, front);
      assert GradientsIn(log, k, order)[..|front|] == GradientsIn(log, k, front);
    }
  }

  /**
   * Waited for or not: once nothing is in flight, every weight minimises the objective over all
   * gradients pushed for its key, each exactly once, in the order its server took them.
   */
  lemma QuietWeightsMinimise(sqrt: real -> real, p: Params, ranges: seq<Range>, es: seq<KvProtocol.Event>, i: nat,
          k: Key, x: real)
    requires IsSqrt(sqrt) && p.Good() && GoodRanges(ranges) && Run(FtrlHandle(sqrt, p), ranges, es)
    requires Finished(After(FtrlHandle(sqrt, p), ranges, es), |ranges|)
    requires i < |ranges| && ranges[i].Has(k)
    ensures var s, order := After(FtrlHandle(sqrt, p), ranges, es), ServedTs(es, i, k);
      && i < |s.servers| && ValuesGiven(s.log) && AllPushes(s.log, k, order)
      && var w, history := At(FtrlHandle(sqrt, p), s.servers[i], k).w, GradientsIn(s.log, k, order);
        Objective(sqrt, p, history, w) <= Objective(sqrt, p, history, x)
  {
    hide Run, After, Finished, Folded, GradientsIn, IsSqrt, UpdateCell, Objective;
    QuietCells(FtrlHandle(sqrt, p), ranges, es, i, k);
    var s, order := After(FtrlHandle(sqrt, p), ranges, es), ServedTs(es, i, k);
    FoldedMinimises(sqrt, p, s.log, k, order, x);
  }

  /**
   * And in every run, waited for or not, each weight that a pull delivers minimises the objective
   * over the gradients that the key's server had taken, in that order, when it served the pull.
   */
  lemma DeliveredWeightsMinimise(sqrt: real -> real, p: Params, ranges: seq<Range>, es: seq<KvProtocol.Event>,
          ts: nat, j: nat, x: real)
    returns (i: nat, n: nat)
    requires IsSqrt(sqrt) && p.Good() && GoodRanges(ranges) && Run(FtrlHandle(sqrt, p), ranges, es)
    requires ts < |After(FtrlHandle(sqrt, p), ranges, es).log| && !After(FtrlHandle(sqrt, p), ranges, es).log[ts].push
    requires j < |After(FtrlHandle(sqrt, p), ranges, es).log[ts].keys|
    requires ts in After(FtrlHandle(sqrt, p), ranges, es).worker.results
    ensures var s := After(FtrlHandle(sqrt, p), ranges, es); var k := s.log[ts].keys[j];
      && i < |ranges| && ranges[i].Has(k) && ServesAt(es, n, ts, i) && j < |s.worker.results[ts]|
      && ValuesGiven(s.log) && Issued(ServedTs(es[..n], i, k), |s.log|)
      && var w, history := s.worker.results[ts][j], GradientsIn(s.log, k, ServedTs(es[..n], i, k));
        Objective(sqrt, p, history, w) <= Objective(sqrt, p, history, x)
  {
    hide Run, After, Folded, GradientsIn, IsSqrt, UpdateCell, Objective, ServedTs;
    i, n := DeliveredReads(FtrlHandle(sqrt, p), ranges, es, ts, j);
    var s := After(FtrlHandle(sqrt, p), ranges, es);
    FoldedMinimises(sqrt, p, s.log, s.log[ts].keys[j], ServedTs(es[..n], i, s.log[ts].keys[j]), x);
  }

  /** The weight that some pushes leave minimises the objective over their gradients. */
  lemma FoldedMinimises(sqrt: real -> real, p: Params, log: seq<Request>, k: Key, order: seq<nat>, x: real)
    requires IsSqrt(sqrt) && p.Good() && ValuesGiven(log) && Issued(order, |log|)
    ensures var w, history := Folded(FtrlHandle(sqrt, p), log, k, order).w, GradientsIn(log, k, order);
      Objective(sqrt, p, history, w) <= Objective(sqrt, p, history, x)
  {
    hide Folded, GradientsIn, IsSqrt, UpdateCell, Objective;
    FoldedIsReplay(sqrt, p, log, k, order);
    var history := GradientsIn(log, k, order);
    if order == [] {
      assert history == [];
      NoGradientsNoLoss(sqrt, p, x);
    } else {
      assert history[|history| - 1] in history;
      UpdateMinimises(sqrt, p, history, x);
    }
  }

  /** Without gradients only the regularisation is left, and zero minimises it. */
  lemma NoGradientsNoLoss(sqrt: real -> real, p: Params, x: real)
    requires IsSqrt(sqrt) && p.Good()
    ensures Objective(sqrt, p, [], 0.0) <= Objective(sqrt, p, [], x)
  {
    hide IsSqrt, Times, Square;
    Quotient(p.beta, p.alpha);
    var c := p.beta / p.alpha + p.lamda2;
    TimesSign(p.lamda1, Abs(x));
    TimesSign(p.lamda1, 0.0);
    SquareSign(x);
    TimesSign(c, Square(x));
    Regular(c, x);
    Regular(c, 0.0);
    TimesSign(c, Square(0.0));
    SquareSign(0.0);
  }

  lemma Regular(c: real, x: real)
    ensures 0.5 * c * x * x == 0.5 * Times(c, Square(x))
  {
  }
}
