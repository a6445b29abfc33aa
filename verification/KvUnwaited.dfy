// Runs in which requests are not waited for: whatever order the servers serve them in, each key
// has been given every push to it exactly once, and every pull reads what was served before it.
module KvUnwaited {
  import opened KvData
  import opened Slicer
  import opened SlicerMeaning
  import opened KvStore
  import opened KvProtocol
  import opened Arrangement
  import opened KvInvariant
  import opened KvSteps
  import opened KvRuns
  import opened KvRefinement

  predicate Pushes(q: Request, k: Key) {
    q.push && k in q.keys
  }

  /** Timestamps of the first n requests. */
  predicate Issued(order: seq<nat>, n: int) {
    forall j :: 0 <= j < |order| ==> order[j] < n
  }

  /** A cell after the pushes with these timestamps, one after the other. */
  function Folded<C>(h: Handle<C>, log: seq<Request>, k: Key, order: seq<nat>): C
    requires ValuesGiven(log) && Issued(order, |log|)
  {
    if order == [] then h.init
    else h.push(Folded(h, log, k, order[..|order| - 1]), PushedBy(log[order[|order| - 1]], k))
  }

  /** Exactly the pushes to k, each once. */
  ghost predicate AllPushes(log: seq<Request>, k: Key, order: seq<nat>) {
    && Distinct(order) && Issued(order, |log|)
    && forall ts: nat :: ts in order <==> ts < |log| && Pushes(log[ts], k)
  }

  /** Server i's cell for k is the fold of the pushes it has served, in the order it served them. */
  ghost predicate ServedInOrder<C>(h: Handle<C>, ranges: seq<Range>, s: Sys<C>, i: nat, k: Key, order: seq<nat>)
    requires GoodRanges(ranges) && Shapes(ranges, s) && i < |ranges|
  {
    && ValuesGiven(s.log) && Distinct(order) && Issued(order, |s.log|)
    && (forall ts: nat :: ts in order <==> ts < |s.log| && Pushes(s.log[ts], k) && !Asked(s, ts, i))
    && At(h, s.servers[i], k) == Folded(h, s.log, k, order)
  }

  /** The pushes to k that server i serves in a run, in the order in which it serves them. */
  function ServedTs(es: seq<Event>, i: nat, k: Key): seq<nat>
    decreases |es|
  {
    if es == [] then []
    else ServedTs(es[..|es| - 1], i, k) + ServedIn(es[|es| - 1], i, k)
  }

  function ServedIn(e: Event, i: nat, k: Key): seq<nat> {
    if e.Serve? && e.m.push && e.m.server == i && k in e.m.kvs.keys then [e.m.ts] else []
  }

  // ----- what a request says about one key -----

  lemma {:induction false} ValueForAt(keys: seq<Key>, vals: seq<real>, k: Key)
    requires |keys| == |vals| && Increasing(keys)
    ensures k !in keys ==> ValueFor(keys, vals, k) == 0.0
    ensures forall j :: 0 <= j < |keys| && keys[j] == k ==> ValueFor(keys, vals, k) == vals[j]
    decreases |keys|
  {
    if keys != [] {
      ValueForAt(keys[1..], vals[1..], k);
    }
  }

  /** A server whose range holds a requested key takes part in the request. */
  lemma OwnerTakesPart(ranges: seq<Range>, q: Request, i: nat, k: Key)
    requires GoodRanges(ranges) && GoodRequest(ranges, q) && i < |ranges| && ranges[i].Has(k) && k in q.keys
    ensures Part(ranges, q, i).first && k in Part(ranges, q, i).second.keys
  {
    hide Part, Pos;
    PartIs(ranges, q, i);
    var lo, hi := Segment(ranges, q, i);
    var j :| 0 <= j < |q.keys| && q.keys[j] == k;
    assert q.keys[lo..hi][j - lo] == k;
  }

  lemma SegmentPushed<C>(h: Handle<C>, store: Store<C>, keys: seq<Key>, vals: seq<real>, r: Range, lo: nat, hi: nat,
          k: Key)
    requires |vals| == |keys| && Increasing(keys) && lo <= hi <= |keys| && r.Has(k)
    requires forall j :: 0 <= j < |keys| ==> (r.Has(keys[j]) <==> lo <= j < hi)
    ensures At(h, PushAll(h, store, keys[lo..hi], vals[lo..hi]), k) ==
      if k in keys then h.push(At(h, store, k), ValueFor(keys, vals, k)) else At(h, store, k)
  {
    hide PushAll, At;
    PushAllAt(h, store, keys[lo..hi], vals[lo..hi]);
    if k in keys {
      var j :| 0 <= j < |keys| && keys[j] == k;
      assert keys[lo..hi][j - lo] == k && vals[lo..hi][j - lo] == vals[j];
      ValueForAt(keys, vals, k);
    }
  }

  /** A push of server i's part changes the cell of k by what the request gives k, if it names k. */
  lemma PartPushed<C>(h: Handle<C>, ranges: seq<Range>, q: Request, i: nat, k: Key, store: Store<C>)
    requires GoodRanges(ranges) && GoodRequest(ranges, q) && i < |ranges| && ranges[i].Has(k)
    requires q.push && Part(ranges, q, i).first
    ensures var kvs := Part(ranges, q, i).second;
      && |kvs.vals| == |kvs.keys|
      && At(h, PushAll(h, store, kvs.keys, kvs.vals), k) ==
           if k in q.keys then h.push(At(h, store, k), PushedBy(q, k)) else At(h, store, k)
  {
    hide Part, Pos, PushAll, At, Increasing, ValueFor;
    PartIs(ranges, q, i);
    var lo, hi := Segment(ranges, q, i);
    SegmentPushed(h, store, q.keys, q.vals, ranges[i], lo, hi, k);
  }

  // ----- one step -----

  lemma AskedElsewhere<C>(h: Handle<C>, ranges: seq<Range>, s: Sys<C>, m: Msg, ts: nat, i: nat)
    requires GoodRanges(ranges) && Inv(ranges, s) && Enabled(ranges, s, Serve(m))
    requires ts != m.ts || i != m.server
    ensures Asked(ServeStep(h, s, m), ts, i) <==> Asked(s, ts, i)
  {
    hide ServeStep, Part, GoodRequest, NothingLost, WorkerOk, Counted, MsgOk, Read;
    ServeBag(h, ranges, s, m);
    if Asked(s, ts, i) {
      var x :| x in s.net && x.Ask? && x.ts == ts && x.server == i;
      assert x in ServeStep(h, s, m).net;
    }
  }

  lemma ServeKeepsOrder<C>(h: Handle<C>, ranges: seq<Range>, s: Sys<C>, m: Msg, i: nat, k: Key, order: seq<nat>)
    requires GoodRanges(ranges) && Inv(ranges, s) && Enabled(ranges, s, Serve(m)) && i < |ranges| && ranges[i].Has(k)
    requires ServedInOrder(h, ranges, s, i, k, order)
    ensures Shapes(ranges, ServeStep(h, s, m))
    ensures ServedInOrder(h, ranges, ServeStep(h, s, m), i, k, order + ServedIn(Serve(m), i, k))
  {
    hide ServeStep, Part, GoodRequest, NothingLost, WorkerOk, Counted, NetOk, MsgOk;
    hide Asked, PushAll, PullAll, PushedBy, At;
    ServeEffect(h, ranges, s, m);
    ServedIfPushed(h, ranges, s, m, i, k);
    var order' := order + ServedIn(Serve(m), i, k);
    AskedAfterServe(h, ranges, s, m, i);
    forall ts: nat
      ensures ts in order' <==> ts < |s.log| && Pushes(s.log[ts], k) && !Asked(ServeStep(h, s, m), ts, i)
    {
      if ts != m.ts || i != m.server {
        AskedElsewhere(h, ranges, s, m, ts, i);
      }
    }
    ServeCell(h, ranges, s, m, i, k);
    if ServedIn(Serve(m), i, k) == [] {
      assert order' == order;
    } else {
      assert order'[..|order|] == order;
    }
  }

  /** The part a server is sent names its keys of the request. */
  lemma ServedIfPushed<C>(h: Handle<C>, ranges: seq<Range>, s: Sys<C>, m: Msg, i: nat, k: Key)
    requires GoodRanges(ranges) && Inv(ranges, s) && Enabled(ranges, s, Serve(m)) && i < |ranges| && ranges[i].Has(k)
    ensures m.ts < |s.log|
    ensures ServedIn(Serve(m), i, k) == if m.server == i && Pushes(s.log[m.ts], k) then [m.ts] else []
  {
    hide ServeStep, Part, GoodRequest, NothingLost, WorkerOk, Counted, NetOk, MsgOk;
    ServeEffect(h, ranges, s, m);
    if m.server == i {
      PartKeys(ranges, s.log[m.ts], i, k);
    }
  }

  lemma PartKeys(ranges: seq<Range>, q: Request, i: nat, k: Key)
    requires GoodRanges(ranges) && GoodRequest(ranges, q) && i < |ranges| && ranges[i].Has(k)
    requires Part(ranges, q, i).first
    ensures k in Part(ranges, q, i).second.keys <==> k in q.keys
  {
    hide Part, Pos;
    PartIs(ranges, q, i);
    if k in q.keys {
      OwnerTakesPart(ranges, q, i, k);
    }
  }

  lemma ServeCell<C>(h: Handle<C>, ranges: seq<Range>, s: Sys<C>, m: Msg, i: nat, k: Key)
    requires GoodRanges(ranges) && Inv(ranges, s) && Enabled(ranges, s, Serve(m)) && i < |ranges| && ranges[i].Has(k)
    requires ValuesGiven(s.log)
    ensures m.ts < |s.log| && i < |ServeStep(h, s, m).servers|
    ensures At(h, ServeStep(h, s, m).servers[i], k) ==
      if m.server == i && Pushes(s.log[m.ts], k) then h.push(At(h, s.servers[i], k), PushedBy(s.log[m.ts], k))
      else At(h, s.servers[i], k)
  {
    hide ServeStep, Part, GoodRequest, NothingLost, WorkerOk, Counted, NetOk, PushAll, PullAll, PushedBy, MsgOk, At;
    ServeEffect(h, ranges, s, m);
    ServeStore(h, ranges, s, m);
    if m.server == i {
      if m.push {
        PartPushed(h, ranges, s.log[m.ts], i, k, s.servers[i]);
      } else {
        PullAllAt(h, s.servers[i], m.kvs.keys);
      }
    }
  }

  lemma {:induction false} FoldedLonger<C>(h: Handle<C>, log: seq<Request>, q: Request, k: Key, order: seq<nat>)
    requires ValuesGiven(log) && ValuesGiven(log + [q]) && Issued(order, |log|)
    ensures Folded(h, log + [q], k, order) == Folded(h, log, k, order)
    decreases |order|
  {
    if order != [] {
      FoldedLonger(h, log, q, k, order[..|order| - 1]);
    }
  }

  lemma AskedSinceSend<C>(ranges: seq<Range>, s: Sys<C>, q: Request, ts: nat, i: nat)
    requires GoodRanges(ranges) && GoodRequest(ranges, q) && Inv(ranges, s) && ts < |s.log|
    ensures Asked(SendStep(ranges, s, q), ts, i) <==> Asked(s, ts, i)
  {
    hide SendStep, Part, GoodRequest, NothingLost, WorkerOk, Counted, MsgOk, Outgoing;
    SendBag(ranges, s, q);
    OutgoingIs(ranges, q, |s.log|, |ranges|);
    if Asked(s, ts, i) {
      var x :| x in s.net && x.Ask? && x.ts == ts && x.server == i;
      assert x in SendStep(ranges, s, q).net;
    }
  }

  lemma SendKeepsOrder<C>(h: Handle<C>, ranges: seq<Range>, s: Sys<C>, q: Request, i: nat, k: Key, order: seq<nat>)
    requires GoodRanges(ranges) && GoodRequest(ranges, q) && Inv(ranges, s) && i < |ranges| && ranges[i].Has(k)
    requires ServedInOrder(h, ranges, s, i, k, order)
    ensures Shapes(ranges, SendStep(ranges, s, q))
    ensures ServedInOrder(h, ranges, SendStep(ranges, s, q), i, k, order)
  {
    hide SendStep, Part, NothingLost, WorkerOk, Counted, NetOk, Asked, PushedBy, MsgOk, At, Folded;
    SendEffect(ranges, s, q);
    var s' := SendStep(ranges, s, q);
    FoldedLonger(h, s.log, q, k, order);
    AskedAfterSend(ranges, s, q, i);
    if k in q.keys {
      OwnerTakesPart(ranges, q, i, k);
    }
    forall ts: nat
      ensures ts in order <==> ts < |s'.log| && Pushes(s'.log[ts], k) && !Asked(s', ts, i)
    {
      if ts < |s.log| {
        AskedSinceSend(ranges, s, q, ts, i);
      }
    }
  }

  lemma ReceiveKeepsOrder<C>(h: Handle<C>, ranges: seq<Range>, s: Sys<C>, m: Msg, i: nat, k: Key, order: seq<nat>)
    requires GoodRanges(ranges) && Inv(ranges, s) && Enabled(ranges, s, Receive(m)) && i < |ranges|
    requires ServedInOrder(h, ranges, s, i, k, order)
    ensures Shapes(ranges, ReceiveStep(ranges, s, m))
    ensures ServedInOrder(h, ranges, ReceiveStep(ranges, s, m), i, k, order)
  {
    hide ReceiveStep, Part, GoodRequest, NothingLost, WorkerOk, Counted, NetOk, Asked, PushedBy, MsgOk, At, Folded;
    ReceiveEffect(ranges, s, m);
    forall ts: nat
      ensures Asked(ReceiveStep(ranges, s, m), ts, i) <==> Asked(s, ts, i)
    {
      AskedAfterReceive(ranges, s, m, ts, i);
    }
  }

  // ----- the theorems -----

  /**
   * In every run, waited for or not, each cell is the result of the pushes that its server has
   * served, each once, in the order in which it served them.
   */
  lemma {:induction false} CellsFollowServing<C(!new)>(h: Handle<C>, ranges: seq<Range>, es: seq<Event>, i: nat, k: Key)
    requires GoodRanges(ranges) && Run(h, ranges, es) && i < |ranges| && ranges[i].Has(k)
    ensures Inv(ranges, After(h, ranges, es))
    ensures ServedInOrder(h, ranges, After(h, ranges, es), i, k, ServedTs(es, i, k))
    decreases |es|
  {
    hide Inv, ServedInOrder, SendStep, ServeStep, ReceiveStep;
    RunKeepsInv(h, ranges, es);
    if es == [] {
      NothingServed(h, ranges, i, k);
    } else {
      var before := es[..|es| - 1];
      CellsFollowServing(h, ranges, before, i, k);
      var s, order := After(h, ranges, before), ServedTs(before, i, k);
      match es[|es| - 1]
      case Send(q) =>
        SendKeepsOrder(h, ranges, s, q, i, k, order);
        assert ServedTs(es, i, k) == order;
      case Serve(m) => ServeKeepsOrder(h, ranges, s, m, i, k, order);
      case Receive(m) =>
        ReceiveKeepsOrder(h, ranges, s, m, i, k, order);
        assert ServedTs(es, i, k) == order;
    }
  }

  lemma NothingServed<C>(h: Handle<C>, ranges: seq<Range>, i: nat, k: Key)
    requires GoodRanges(ranges) && i < |ranges|
    ensures Shapes<C>(ranges, Init(|ranges|)) && ServedInOrder<C>(h, ranges, Init(|ranges|), i, k, [])
  {
  }

  /**
   * Once nothing is in flight, every cell is the result of all pushes to its key, each exactly
   * once, in the order in which its server served them.
   */
  lemma QuietCells<C(!new)>(h: Handle<C>, ranges: seq<Range>, es: seq<Event>, i: nat, k: Key)
    requires GoodRanges(ranges) && Run(h, ranges, es) && i < |ranges| && ranges[i].Has(k)
    requires Finished(After(h, ranges, es), |ranges|)
    ensures var s, order := After(h, ranges, es), ServedTs(es, i, k);
      && i < |s.servers| && ValuesGiven(s.log) && AllPushes(s.log, k, order)
      && At(h, s.servers[i], k) == Folded(h, s.log, k, order)
  {
    hide Run, After, Asked, NothingLost, NetOk, WorkerOk, Counted, Folded, GoodRequest, ServedTs;
    CellsFollowServing(h, ranges, es, i, k);
    var s := After(h, ranges, es);
    forall ts: nat | ts < |s.log|
      ensures !Asked(s, ts, i)
    {
      NotAsked(ranges, s, ts, i);
    }
  }

  // ----- what pulls read -----

  /** At position n of a run server i serves its part of request ts. */
  predicate ServesAt(es: seq<Event>, n: nat, ts: nat, i: nat) {
    n < |es| && es[n].Serve? && es[n].m.ts == ts && es[n].m.server == i
  }

  /** The value recorded for key j of pull ts is what the pushes that server i served before n left. */
  ghost predicate ReadAt<C>(h: Handle<C>, s: Sys<C>, es: seq<Event>, ts: nat, j: nat, i: nat, n: nat)
    requires ts < |s.log| == |s.seen| && j < |s.log[ts].keys| == |s.seen[ts]|
  {
    var k := s.log[ts].keys[j];
    && ServesAt(es, n, ts, i)
    && ValuesGiven(s.log) && Issued(ServedTs(es[..n], i, k), |s.log|)
    && s.seen[ts][j] == h.read(Folded(h, s.log, k, ServedTs(es[..n], i, k)))
  }

  /** Serving this part records what the cell holds, serving another leaves the record. */
  lemma ServeRecords<C>(h: Handle<C>, ranges: seq<Range>, s: Sys<C>, m: Msg, ts: nat, j: nat, i: nat)
    requires GoodRanges(ranges) && Inv(ranges, s) && Enabled(ranges, s, Serve(m)) && i < |ranges|
    requires ts < |s.log| && !s.log[ts].push && j < |s.log[ts].keys| && ranges[i].Has(s.log[ts].keys[j])
    ensures Shapes(ranges, ServeStep(h, s, m)) && ServeStep(h, s, m).log == s.log
    ensures ServeStep(h, s, m).seen[ts][j] ==
      if m.ts == ts && m.server == i then h.read(At(h, s.servers[i], s.log[ts].keys[j])) else s.seen[ts][j]
  {
    hide ServeStep, Part, NothingLost, WorkerOk, Counted, NetOk, MsgOk, At, Pos;
    ServeEffect(h, ranges, s, m);
    var q := s.log[ts];
    assert GoodRequest(ranges, q);
    if m.ts == ts {
      if m.server == i {
        PartKeys(ranges, q, i, q.keys[j]);
      } else {
        PartIs(ranges, q, m.server);
        InRange(q.keys, ranges, i, j);
        PartsDisjoint(ranges, q, m.server, i, j);
      }
    }
  }

  /** What was read stays read. */
  lemma ReadAtLater<C>(h: Handle<C>, ranges: seq<Range>, s: Sys<C>, s': Sys<C>, es: seq<Event>, e: Event, ts: nat,
          j: nat, i: nat, n: nat)
    requires GoodRanges(ranges) && Shapes(ranges, s) && Shapes(ranges, s')
    requires ts < |s.log| && j < |s.log[ts].keys| && ReadAt(h, s, es, ts, j, i, n)
    requires s'.log == s.log || exists q :: s'.log == s.log + [q]
    requires s'.seen[ts][j] == s.seen[ts][j]
    ensures ReadAt(h, s', es + [e], ts, j, i, n)
  {
    hide Folded, ServedTs;
    assert (es + [e])[..n] == es[..n];
    forall q | q in s'.log
      ensures q.push ==> |q.vals| == |q.keys|
    {
      var t :| 0 <= t < |s'.log| && s'.log[t] == q;
      assert GoodRequest(ranges, s'.log[t]);
    }
    if s'.log != s.log {
      var q :| s'.log == s.log + [q];
      FoldedLonger(h, s.log, q, s.log[ts].keys[j], ServedTs(es[..n], i, s.log[ts].keys[j]));
    }
  }

  /** A pull that is served when a request is issued was issued before. */
  lemma PullBeforeSend<C>(ranges: seq<Range>, s: Sys<C>, q: Request, ts: nat, j: nat, i: nat)
    requires GoodRanges(ranges) && GoodRequest(ranges, q) && Inv(ranges, s) && i < |ranges|
    requires var s' := SendStep(ranges, s, q);
      && ts < |s'.log| && j < |s'.log[ts].keys| && ranges[i].Has(s'.log[ts].keys[j]) && !Asked(s', ts, i)
    ensures var s' := SendStep(ranges, s, q);
      Shapes(ranges, s') && ts < |s.log| && s'.log[ts] == s.log[ts] && s'.seen[ts] == s.seen[ts] && !Asked(s, ts, i)
  {
    hide SendStep, Part, GoodRequest, NothingLost, WorkerOk, Counted, NetOk, MsgOk, Asked;
    SendEffect(ranges, s, q);
    AskedAfterSend(ranges, s, q, i);
    if ts == |s.log| {
      OwnerTakesPart(ranges, q, i, q.keys[j]);
    } else {
      AskedSinceSend(ranges, s, q, ts, i);
    }
  }

  lemma ReadAtServe<C>(h: Handle<C>, ranges: seq<Range>, s: Sys<C>, es: seq<Event>, m: Msg, ts: nat, j: nat, i: nat)
    requires GoodRanges(ranges) && Inv(ranges, s) && Enabled(ranges, s, Serve(m)) && i < |ranges|
    requires ts < |s.log| && !s.log[ts].push && j < |s.log[ts].keys| && ranges[i].Has(s.log[ts].keys[j])
    requires m.ts == ts && m.server == i
    requires ServedInOrder(h, ranges, s, i, s.log[ts].keys[j], ServedTs(es, i, s.log[ts].keys[j]))
    ensures Shapes(ranges, ServeStep(h, s, m)) && ServeStep(h, s, m).log == s.log
    ensures ReadAt(h, ServeStep(h, s, m), es + [Serve(m)], ts, j, i, |es|)
  {
    hide ServeStep, Inv, Folded, ServedTs, At, Asked, GoodRequest;
    ServeRecords(h, ranges, s, m, ts, j, i);
    assert (es + [Serve(m)])[..|es|] == es;
  }

  /** A step either serves this part of the pull, or it was served before and stays recorded. */
  lemma PullStep<C>(h: Handle<C>, ranges: seq<Range>, s: Sys<C>, e: Event, es: seq<Event>, ts: nat, j: nat, i: nat)
    returns (now: bool)
    requires GoodRanges(ranges) && Inv(ranges, s) && Enabled(ranges, s, e) && i < |ranges|
    requires var s' := Step(h, ranges, s, e);
      && ts < |s'.log| && !s'.log[ts].push && j < |s'.log[ts].keys|
      && ranges[i].Has(s'.log[ts].keys[j]) && !Asked(s', ts, i)
      && ServedInOrder(h, ranges, s, i, s'.log[ts].keys[j], ServedTs(es, i, s'.log[ts].keys[j]))
    ensures Shapes(ranges, Step(h, ranges, s, e))
    ensures now ==> ReadAt(h, Step(h, ranges, s, e), es + [e], ts, j, i, |es|)
    ensures !now ==> var s' := Step(h, ranges, s, e);
      && ts < |s.log| && s'.log[ts] == s.log[ts] && !Asked(s, ts, i) && s'.seen[ts][j] == s.seen[ts][j]
      && (s'.log == s.log || exists q :: s'.log == s.log + [q])
  {
    hide SendStep, ServeStep, ReceiveStep, ReadAt, Asked, Inv, ServedInOrder;
    now := false;
    match e
    case Send(q) =>
      SendEffect(ranges, s, q);
      PullBeforeSend(ranges, s, q, ts, j, i);
    case Serve(m) =>
      ServeEffect(h, ranges, s, m);
      ServeRecords(h, ranges, s, m, ts, j, i);
      now := m.ts == ts && m.server == i;
      if now {
        ReadAtServe(h, ranges, s, es, m, ts, j, i);
      } else {
        AskedElsewhere(h, ranges, s, m, ts, i);
      }
    case Receive(m) =>
      ReceiveEffect(ranges, s, m);
      AskedAfterReceive(ranges, s, m, ts, i);
  }

  lemma LastStep<C(!new)>(h: Handle<C>, ranges: seq<Range>, es: seq<Event>) returns (before: seq<Event>, e: Event)
    requires GoodRanges(ranges) && Run(h, ranges, es) && es != []
    ensures es == before + [e] && Run(h, ranges, before)
    ensures Enabled(ranges, After(h, ranges, before), e)
    ensures After(h, ranges, es) == Step(h, ranges, After(h, ranges, before), e)
  {
    before, e := es[..|es| - 1], es[|es| - 1];
  }

  /** Once server i has served its part of a pull, the run tells what it read. */
  lemma {:induction false} ServedPull<C(!new)>(h: Handle<C>, ranges: seq<Range>, es: seq<Event>, ts: nat, j: nat,
          i: nat)
    returns (n: nat)
    requires GoodRanges(ranges) && Run(h, ranges, es) && Inv(ranges, After(h, ranges, es)) && i < |ranges|
    requires ts < |After(h, ranges, es).log| && !After(h, ranges, es).log[ts].push
    requires j < |After(h, ranges, es).log[ts].keys| && ranges[i].Has(After(h, ranges, es).log[ts].keys[j])
    requires !Asked(After(h, ranges, es), ts, i)
    ensures ReadAt(h, After(h, ranges, es), es, ts, j, i, n)
    decreases |es|
  {
    if es == [] {
      assert false;
    } else {
      hide Run, After, Step, Enabled, ReadAt, Asked, Counted, WorkerOk, NothingLost, NetOk, ServedInOrder;
      var before, e := LastStep(h, ranges, es);
      var s, s' := After(h, ranges, before), After(h, ranges, es);
      CellsFollowServing(h, ranges, before, i, s'.log[ts].keys[j]);
      var now := PullStep(h, ranges, s, e, before, ts, j, i);
      if now {
        n := |before|;
      } else {
        n := ServedPull(h, ranges, before, ts, j, i);
        ReadAtLater(h, ranges, s, s', before, e, ts, j, i, n);
      }
    }
  }

  /**
   * In every run, waited for or not: each value a finished pull has delivered is what the pushes
   * left that the key's server had served, in that order, when it served the pull.
   */
  lemma DeliveredReads<C(!new)>(h: Handle<C>, ranges: seq<Range>, es: seq<Event>, ts: nat, j: nat)
    returns (i: nat, n: nat)
    requires GoodRanges(ranges) && Run(h, ranges, es) && ts < |After(h, ranges, es).log|
    requires !After(h, ranges, es).log[ts].push && j < |After(h, ranges, es).log[ts].keys|
    requires ts in After(h, ranges, es).worker.results
    ensures var s := After(h, ranges, es); var k := s.log[ts].keys[j];
      && i < |ranges| && ranges[i].Has(k) && ServesAt(es, n, ts, i)
      && ValuesGiven(s.log) && Issued(ServedTs(es[..n], i, k), |s.log|)
      && j < |s.worker.results[ts]|
      && s.worker.results[ts][j] == h.read(Folded(h, s.log, k, ServedTs(es[..n], i, k)))
  {
    hide Run, After, Folded, ServedTs, Asked, NetOk, NothingLost, WorkerOk, Counted;
    RunKeepsInv(h, ranges, es);
    PullDelivers(h, ranges, es, ts);
    var s := After(h, ranges, es);
    var q := s.log[ts];
    assert GoodRequest(ranges, q) && q.keys[j] in q.keys;
    OneServer(ranges, q.keys[j]);
    i :| i < |ranges| && ranges[i].Has(q.keys[j]);
    NotAsked(ranges, s, ts, i);
    n := ServedPull(h, ranges, es, ts, j, i);
  }

  // ----- the default handle adds, so the order does not matter -----

  /** The sum of what some pushes give k. */
  function SumOver(log: seq<Request>, k: Key, order: seq<nat>): real
    requires ValuesGiven(log) && Issued(order, |log|)
  {
    if order == [] then 0.0
    else SumOver(log, k, order[..|order| - 1]) + PushedBy(log[order[|order| - 1]], k)
  }

  lemma {:induction false} FoldedIsSum(log: seq<Request>, k: Key, order: seq<nat>)
    requires ValuesGiven(log) && Issued(order, |log|)
    ensures Folded(DefaultHandle(), log, k, order) == SumOver(log, k, order)
    decreases |order|
  {
    hide PushedBy;
    if order != [] {
      FoldedIsSum(log, k, order[..|order| - 1]);
    }
  }

  lemma {:induction false} SumConcatOver(log: seq<Request>, k: Key, a: seq<nat>, b: seq<nat>)
    requires ValuesGiven(log) && Issued(a + b, |log|)
    ensures Issued(a, |log|) && Issued(b, |log|)
    ensures SumOver(log, k, a + b) == SumOver(log, k, a) + SumOver(log, k, b)
    decreases |b|
  {
    hide PushedBy;
    assert forall j :: 0 <= j < |a| ==> (a + b)[j] == a[j];
    assert forall j :: 0 <= j < |b| ==> (a + b)[|a| + j] == b[j];
    if b == [] {
      assert a + b == a;
    } else {
      var last := |b| - 1;
      assert (a + b)[..|a + b| - 1] == a + b[..last];
      SumConcatOver(log, k, a, b[..last]);
    }
  }

  /** All pushes to k add up to the sum over the log, whatever their order. */
  lemma {:induction false} SumOverAll(log: seq<Request>, k: Key, order: seq<nat>)
    requires ValuesGiven(log) && AllPushes(log, k, order)
    requires forall ts :: 0 <= ts < |log| ==> Increasing(log[ts].keys)
    ensures SumOver(log, k, order) == PushedSoFar(log, k)
    decreases |log|
  {
    hide PushedBy, Increasing;
    if log == [] {
      SomeIssued(order, |log|);
    } else {
      hide SumOver, AllPushes;
      var rest := WithoutLast(log, k, order);
      SumOverAll(log[..|log| - 1], k, rest);
    }
  }

  lemma SomeIssued(order: seq<nat>, n: nat)
    requires Issued(order, n)
    ensures order != [] ==> n > 0
  {
    if order != [] {
      var first := order[0];
    }
  }

  /** What is left of the order without the last request. */
  lemma WithoutLast(log: seq<Request>, k: Key, order: seq<nat>) returns (rest: seq<nat>)
    requires log != [] && ValuesGiven(log) && AllPushes(log, k, order) && Increasing(log[|log| - 1].keys)
    ensures ValuesGiven(log[..|log| - 1]) && AllPushes(log[..|log| - 1], k, rest)
    ensures SumOver(log, k, order) == SumOver(log[..|log| - 1], k, rest) + PushedBy(log[|log| - 1], k)
  {
    hide PushedBy, SumOver, Increasing;
    var last := |log| - 1;
    if last in order {
      var p :| 0 <= p < |order| && order[p] == last;
      rest := order[..p] + order[p + 1..];
      OneOut(log, k, order, p);
    } else {
      rest := order;
      NotPushed(log[last], k);
    }
    forall j | 0 <= j < |rest|
      ensures rest[j] < last
    {
      assert rest[j] in rest;
    }
    SumShorter(log, k, rest);
  }

  lemma NotPushed(q: Request, k: Key)
    requires q.push ==> |q.vals| == |q.keys| && Increasing(q.keys)
    requires !Pushes(q, k)
    ensures PushedBy(q, k) == 0.0
  {
    if q.push {
      ValueForAt(q.keys, q.vals, k);
    }
  }

  /** The sum without the entry at p, and what is left of the order. */
  lemma OneOut(log: seq<Request>, k: Key, order: seq<nat>, p: nat)
    requires ValuesGiven(log) && Distinct(order) && p < |order| && Issued(order, |log|)
    ensures var rest := order[..p] + order[p + 1..];
      && Distinct(rest) && (forall ts: nat :: ts in rest <==> ts in order && ts != order[p])
      && SumOver(log, k, order) == SumOver(log, k, rest) + PushedBy(log[order[p]], k)
  {
    hide PushedBy;
    var a, b := order[..p], order[p + 1..];
    assert order == a + [order[p]] + b;
    SumConcatOver(log, k, a + [order[p]], b);
    SumConcatOver(log, k, a, [order[p]]);
    SumConcatOver(log, k, a, b);
  }

  lemma {:induction false} SumShorter(log: seq<Request>, k: Key, order: seq<nat>)
    requires log != [] && ValuesGiven(log) && Issued(order, |log| - 1)
    ensures ValuesGiven(log[..|log| - 1]) && SumOver(log, k, order) == SumOver(log[..|log| - 1], k, order)
    decreases |order|
  {
    hide PushedBy;
    if order != [] {
      SumShorter(log, k, order[..|order| - 1]);
    }
  }

  /**
   * With the default handle the servers hold, for every key, the sum of all values pushed to it
   * once nothing is in flight, in whatever order the pushes were served.
   */
  lemma QuietServersHoldSums(ranges: seq<Range>, es: seq<Event>, i: nat, k: Key)
    requires GoodRanges(ranges) && Run(DefaultHandle(), ranges, es) && i < |ranges| && ranges[i].Has(k)
    requires Finished(After(DefaultHandle(), ranges, es), |ranges|)
    ensures var s := After(DefaultHandle(), ranges, es);
      i < |s.servers| && ValuesGiven(s.log) && At(DefaultHandle(), s.servers[i], k) == PushedSoFar(s.log, k)
  {
    hide Run, After, NothingLost, NetOk, WorkerOk, Counted, Folded, At, Finished, PushedSoFar;
    RunKeepsInv(DefaultHandle(), ranges, es);
    QuietCells(DefaultHandle(), ranges, es, i, k);
    var order := ServedTs(es, i, k);
    var s := After(DefaultHandle(), ranges, es);
    FoldedIsSum(s.log, k, order);
    assert forall ts :: 0 <= ts < |s.log| ==> GoodRequest(ranges, s.log[ts]);
    SumOverAll(s.log, k, order);
  }
}
