// When every request is waited for before the next one is issued, n servers behave as one
// unsharded store, whatever order the messages of a request arrive in.
module KvRefinement {
  import opened KvData
  import opened Slicer
  import opened SlicerMeaning
  import opened KvStore
  import opened KvProtocol
  import opened KvInvariant
  import opened KvSteps
  import opened KvRuns

  // ----- the specification: one store -----

  /** Every push carries one value per key. */
  predicate ValuesGiven(log: seq<Request>) {
    forall q :: q in log ==> q.push ==> |q.vals| == |q.keys|
  }

  /** The store of one unsharded server after the requests of a log, one after the other. */
  function OneStore<C>(h: Handle<C>, log: seq<Request>): Store<C>
    requires ValuesGiven(log)
    decreases |log|
  {
    if log == [] then map[]
    else Apply(h, OneStore(h, log[..|log| - 1]), log[|log| - 1])
  }

  function Apply<C>(h: Handle<C>, store: Store<C>, q: Request): Store<C>
    requires q.push ==> |q.vals| == |q.keys|
  {
    if q.push then PushAll(h, store, q.keys, q.vals) else PullAll(h, store, q.keys)
  }

  /** What the one server returns for the pull issued at ts. */
  function OneRead<C>(h: Handle<C>, log: seq<Request>, ts: nat): (vals: seq<real>)
    requires ts < |log| && ValuesGiven(log)
    ensures |vals| == |log[ts].keys|
  {
    Read(h, OneStore(h, log[..ts]), log[ts].keys)
  }

  // ----- sharding one request -----

  /** A server that is sent its part of a request ends with its part of the whole result. */
  lemma PartApplied<C>(h: Handle<C>, ranges: seq<Range>, store: Store<C>, q: Request, i: nat)
    requires GoodRanges(ranges) && GoodRequest(ranges, q) && i < |ranges|
    requires Part(ranges, q, i).first
    ensures var kvs := Part(ranges, q, i).second;
      && (q.push ==> |kvs.vals| == |kvs.keys|)
      && (q.push ==> PushAll(h, Sub(store, ranges[i]), kvs.keys, kvs.vals) == Sub(Apply(h, store, q), ranges[i]))
      && (!q.push ==> PullAll(h, Sub(store, ranges[i]), kvs.keys) == Sub(Apply(h, store, q), ranges[i]))
  {
    hide Part, PushAll, PullAll, Sub, Pos, Increasing;
    PartIs(ranges, q, i);
    var lo, hi := Segment(ranges, q, i);
    if q.push {
      PushShard(h, store, q.keys, q.vals, ranges[i], lo, hi);
    } else {
      PullShard(h, store, q.keys, ranges[i], lo, hi);
    }
  }

  /** A server that is sent nothing has nothing to change. */
  lemma PartSkipped<C>(h: Handle<C>, ranges: seq<Range>, store: Store<C>, q: Request, i: nat)
    requires GoodRanges(ranges) && GoodRequest(ranges, q) && i < |ranges|
    requires !Part(ranges, q, i).first
    ensures Sub(Apply(h, store, q), ranges[i]) == Sub(store, ranges[i])
  {
    hide Part, Sub, Pos, Increasing;
    PartIs(ranges, q, i);
    var lo, hi := Segment(ranges, q, i);
    if q.push {
      PushShard(h, store, q.keys, q.vals, ranges[i], lo, hi);
    } else {
      PullShard(h, store, q.keys, ranges[i], lo, hi);
    }
  }

  /** The keys of range i are those between its two positions. */
  lemma Segment(ranges: seq<Range>, q: Request, i: nat) returns (lo: nat, hi: nat)
    requires GoodRanges(ranges) && GoodRequest(ranges, q) && i < |ranges|
    ensures lo == Pos(q.keys, ranges, i) <= hi == Pos(q.keys, ranges, i + 1)
    ensures forall j :: 0 <= j < |q.keys| ==> (ranges[i].Has(q.keys[j]) <==> lo <= j < hi)
  {
    hide Pos;
    PosMonotone(q.keys, ranges, i, i + 1);
    lo, hi := Pos(q.keys, ranges, i), Pos(q.keys, ranges, i + 1);
    forall j | 0 <= j < |q.keys|
      ensures ranges[i].Has(q.keys[j]) <==> lo <= j < hi
    {
      InRange(q.keys, ranges, i, j);
    }
  }

  // ----- waiting -----

  ghost predicate Finished<C>(s: Sys<C>, n: nat) {
    forall ts :: 0 <= ts < |s.tracker| ==> s.tracker[ts] == n
  }

  /** A run in which a request is only issued when all earlier ones are finished. */
  ghost predicate Waited<C(!new)>(h: Handle<C>, ranges: seq<Range>, es: seq<Event>)
    requires GoodRanges(ranges) && Run(h, ranges, es)
    decreases |es|
  {
    es == [] ||
    var before, e := es[..|es| - 1], es[|es| - 1];
    Waited(h, ranges, before) && (e.Send? ==> Finished(After(h, ranges, before), |ranges|))
  }

  /** Server i has been asked its part of request ts and has not served it yet. */
  ghost predicate Asked<C>(s: Sys<C>, ts: nat, i: nat) {
    exists m :: m in s.net && m.Ask? && m.ts == ts && m.server == i
  }

  /** Server i holds its part of the one store: before the last request, or after it. */
  ghost predicate ServerAgrees<C>(h: Handle<C>, ranges: seq<Range>, s: Sys<C>, i: nat)
    requires i < |ranges| && i < |s.servers| && ValuesGiven(s.log)
  {
    var last := |s.log| - 1;
    s.servers[i] ==
      if s.log != [] && Asked(s, last, i) then Sub(OneStore(h, s.log[..last]), ranges[i])
      else Sub(OneStore(h, s.log), ranges[i])
  }

  /** What server i read for the last request is what the one server reads. */
  ghost predicate ReadAgrees<C>(h: Handle<C>, ranges: seq<Range>, s: Sys<C>, i: nat)
    requires GoodRanges(ranges) && Shapes(ranges, s) && i < |ranges| && ValuesGiven(s.log) && s.log != []
  {
    var last := |s.log| - 1;
    var lo, hi := Pos(s.log[last].keys, ranges, i), Pos(s.log[last].keys, ranges, i + 1);
    !s.log[last].push && Part(ranges, s.log[last], i).first && !Asked(s, last, i) ==>
      lo <= hi && s.seen[last][lo..hi] == OneRead(h, s.log, last)[lo..hi]
  }

  ghost predicate Agree<C>(h: Handle<C>, ranges: seq<Range>, s: Sys<C>)
    requires GoodRanges(ranges) && Shapes(ranges, s)
  {
    && ValuesGiven(s.log)
    && (forall i :: 0 <= i < |ranges| ==> ServerAgrees(h, ranges, s, i))
    && (forall i :: 0 <= i < |ranges| && s.log != [] ==> ReadAgrees(h, ranges, s, i))
    && (forall ts :: 0 <= ts < |s.log| - 1 ==> s.tracker[ts] == |ranges|)
    && (forall ts :: 0 <= ts < |s.log| - 1 && !s.log[ts].push ==> s.seen[ts] == OneRead(h, s.log, ts))
  }

  /** A finished request has nothing in flight. */
  lemma FinishedQuiet<C>(ranges: seq<Range>, s: Sys<C>, m: Msg)
    requires GoodRanges(ranges) && Inv(ranges, s) && m in s.net
    ensures m.ts < |s.tracker| && s.tracker[m.ts] < |ranges|
  {
    hide Part, Skipped, GoodRequest, CallbackOk, NothingLost;
    assert MsgOk(ranges, s, m) && Counted(ranges, s, m.ts);
    StillWaiting(ranges, s, m.ts, m.server);
  }

  /** So in a waited run every message belongs to the last request. */
  lemma AboutTheLast<C>(h: Handle<C>, ranges: seq<Range>, s: Sys<C>, m: Msg)
    requires GoodRanges(ranges) && Inv(ranges, s) && Agree(h, ranges, s) && m in s.net
    ensures s.log != [] && m.ts == |s.log| - 1
  {
    hide Part, GoodRequest, NothingLost, NetOk, WorkerOk, Counted, ServerAgrees, ReadAgrees;
    FinishedQuiet(ranges, s, m);
  }

  // ----- Serve -----

  lemma ServeStore<C>(h: Handle<C>, ranges: seq<Range>, s: Sys<C>, m: Msg)
    requires GoodRanges(ranges) && Inv(ranges, s) && Enabled(ranges, s, Serve(m))
    ensures var store := s.servers[m.server];
      ServeStep(h, s, m).servers
      == s.servers[m.server :=
           if m.push then PushAll(h, store, m.kvs.keys, m.kvs.vals) else PullAll(h, store, m.kvs.keys)]
  {
    hide PushAll, PullAll, Overlay, Read, NetOk, NothingLost, WorkerOk, Counted;
  }

  lemma AskedAfterServe<C>(h: Handle<C>, ranges: seq<Range>, s: Sys<C>, m: Msg, i: nat)
    requires GoodRanges(ranges) && Inv(ranges, s) && Enabled(ranges, s, Serve(m))
    ensures Asked(ServeStep(h, s, m), m.ts, i) <==> Asked(s, m.ts, i) && i != m.server
    ensures Asked(s, m.ts, m.server)
  {
    hide ServeStep, Part, GoodRequest, NothingLost, WorkerOk, Counted, MsgOk, Read;
    ServeBag(h, ranges, s, m);
    var s' := ServeStep(h, s, m);
    if Asked(s, m.ts, i) && i != m.server {
      var x :| x in s.net && x.Ask? && x.ts == m.ts && x.server == i;
      assert x in s'.net;
    }
  }

  lemma ServeKeepsServer<C>(h: Handle<C>, ranges: seq<Range>, s: Sys<C>, m: Msg, i: nat)
    requires GoodRanges(ranges) && Inv(ranges, s) && Agree(h, ranges, s) && Enabled(ranges, s, Serve(m)) && i < |ranges|
    ensures ServeStep(h, s, m).log == s.log && i < |ServeStep(h, s, m).servers|
    ensures ServerAgrees(h, ranges, ServeStep(h, s, m), i)
  {
    hide ServeStep, Part, GoodRequest, NothingLost, WorkerOk, Counted, NetOk, MsgOk;
    hide Asked, PushAll, PullAll, Sub, Apply, ReadAgrees;
    ServeEffect(h, ranges, s, m);
    ServeStore(h, ranges, s, m);
    AskedAfterServe(h, ranges, s, m, i);
    AboutTheLast(h, ranges, s, m);
    var last := |s.log| - 1;
    assert ServerAgrees(h, ranges, s, i);
    if i == m.server {
      var before := OneStore(h, s.log[..last]);
      PartApplied(h, ranges, before, s.log[last], i);
      assert OneStore(h, s.log) == Apply(h, before, s.log[last]);
    }
  }

  lemma ServeKeepsRead<C>(h: Handle<C>, ranges: seq<Range>, s: Sys<C>, m: Msg, i: nat)
    requires GoodRanges(ranges) && Inv(ranges, s) && Agree(h, ranges, s) && Enabled(ranges, s, Serve(m)) && i < |ranges|
    ensures Shapes(ranges, ServeStep(h, s, m)) && ServeStep(h, s, m).log == s.log != []
    ensures ReadAgrees(h, ranges, ServeStep(h, s, m), i)
  {
    hide ServeStep, Part, GoodRequest, NothingLost, WorkerOk, Counted, NetOk, MsgOk;
    hide Asked, Sub, Apply, OneStore, Overlay, Read, Pos;
    ServeEffect(h, ranges, s, m);
    AskedAfterServe(h, ranges, s, m, i);
    AboutTheLast(h, ranges, s, m);
    var last := |s.log| - 1;
    var q, seen, store := s.log[last], s.seen[last], s.servers[m.server];
    assert ReadAgrees(h, ranges, s, i) && ServerAgrees(h, ranges, s, m.server);
    if !q.push && i == m.server {
      var lo, hi := Segment(ranges, q, i);
      PartIs(ranges, q, i);
      OverlaySegment(h, store, q.keys, seen, lo, hi);
      ReadShard(h, OneStore(h, s.log[..last]), q.keys, ranges[i], lo, hi);
    } else if !q.push {
      OverlayElsewhere(h, store, ranges, q, m.server, i, seen);
    }
  }

  lemma ServeKeepsAgree<C>(h: Handle<C>, ranges: seq<Range>, s: Sys<C>, m: Msg)
    requires GoodRanges(ranges) && Inv(ranges, s) && Agree(h, ranges, s) && Enabled(ranges, s, Serve(m))
    ensures Shapes(ranges, ServeStep(h, s, m)) && Agree(h, ranges, ServeStep(h, s, m))
  {
    hide ServeStep, Part, GoodRequest, NothingLost, WorkerOk, Counted, NetOk;
    hide ServerAgrees, ReadAgrees, OneRead, Overlay;
    ServeEffect(h, ranges, s, m);
    AboutTheLast(h, ranges, s, m);
    forall i | 0 <= i < |ranges|
      ensures ServerAgrees(h, ranges, ServeStep(h, s, m), i) && ReadAgrees(h, ranges, ServeStep(h, s, m), i)
    {
      ServeKeepsServer(h, ranges, s, m, i);
      ServeKeepsRead(h, ranges, s, m, i);
    }
  }

  // ----- Receive -----

  lemma ReceiveKeepsAgree<C>(h: Handle<C>, ranges: seq<Range>, s: Sys<C>, m: Msg)
    requires GoodRanges(ranges) && Inv(ranges, s) && Agree(h, ranges, s) && Enabled(ranges, s, Receive(m))
    ensures Shapes(ranges, ReceiveStep(ranges, s, m)) && Agree(h, ranges, ReceiveStep(ranges, s, m))
  {
    hide ReceiveStep, Part, GoodRequest, NothingLost, WorkerOk, Counted, OneStore, Sub, OneRead, Process, MsgOk, NetOk;
    ReceiveEffect(ranges, s, m);
    ReceiveBag(ranges, s, m);
    AboutTheLast(h, ranges, s, m);
    var s' := ReceiveStep(ranges, s, m);
    forall i | 0 <= i < |ranges|
      ensures ServerAgrees(h, ranges, s', i) && ReadAgrees(h, ranges, s', i)
    {
      assert ServerAgrees(h, ranges, s, i) && ReadAgrees(h, ranges, s, i);
      AskedAfterReceive(ranges, s, m, |s.log| - 1, i);
    }
  }

  lemma AskedAfterReceive<C>(ranges: seq<Range>, s: Sys<C>, m: Msg, ts: nat, i: nat)
    requires GoodRanges(ranges) && Inv(ranges, s) && Enabled(ranges, s, Receive(m))
    ensures Asked(ReceiveStep(ranges, s, m), ts, i) <==> Asked(s, ts, i)
  {
    hide ReceiveStep, Part, GoodRequest, NothingLost, WorkerOk, Counted, MsgOk;
    ReceiveBag(ranges, s, m);
    var s' := ReceiveStep(ranges, s, m);
    if Asked(s, ts, i) {
      var x :| x in s.net && x.Ask? && x.ts == ts && x.server == i;
      assert x in s'.net;
    }
  }

  // ----- Send -----

  /** When all servers have answered, everything the last pull read is what the one server reads. */
  lemma AllReadsAgree<C>(h: Handle<C>, ranges: seq<Range>, s: Sys<C>)
    requires GoodRanges(ranges) && Inv(ranges, s) && Agree(h, ranges, s)
    requires s.log != [] && s.tracker[|s.log| - 1] == |ranges| && !s.log[|s.log| - 1].push
    ensures s.seen[|s.log| - 1] == OneRead(h, s.log, |s.log| - 1)
  {
    hide Part, NothingLost, WorkerOk, Counted, MsgOk, NetOk, OneRead, Pos, Contiguous, Ordered;
    var last := |s.log| - 1;
    var q, x, y := s.log[last], s.seen[last], OneRead(h, s.log, last);
    forall j | 0 <= j < |q.keys|
      ensures x[j] == y[j]
    {
      var i := OwnerOf(ranges, q, j);
      assert ReadAgrees(h, ranges, s, i);
      NotAsked(ranges, s, last, i);
      var lo, hi := Pos(q.keys, ranges, i), Pos(q.keys, ranges, i + 1);
      assert x[lo..hi][j - lo] == y[lo..hi][j - lo];
    }
  }

  lemma NotAsked<C>(ranges: seq<Range>, s: Sys<C>, ts: nat, i: nat)
    requires GoodRanges(ranges) && Inv(ranges, s) && ts < |s.tracker| && s.tracker[ts] == |ranges|
    ensures !Asked(s, ts, i)
  {
    hide Part, NothingLost, WorkerOk, Counted, MsgOk, NetOk, GoodRequest;
    if Asked(s, ts, i) {
      var m :| m in s.net && m.Ask? && m.ts == ts && m.server == i;
      FinishedQuiet(ranges, s, m);
    }
  }

  /** The server of a requested key. */
  lemma OwnerOf(ranges: seq<Range>, q: Request, j: nat) returns (i: nat)
    requires GoodRanges(ranges) && GoodRequest(ranges, q) && j < |q.keys|
    ensures i < |ranges| && Part(ranges, q, i).first
    ensures Pos(q.keys, ranges, i) <= j < Pos(q.keys, ranges, i + 1)
  {
    hide Part, Pos;
    assert q.keys[j] in q.keys;
    OneServer(ranges, q.keys[j]);
    i :| i < |ranges| && ranges[i].Has(q.keys[j]);
    InRange(q.keys, ranges, i, j);
    PartIs(ranges, q, i);
  }

  /** What issuing a request does outside the worker. */
  lemma SendEffect<C>(ranges: seq<Range>, s: Sys<C>, q: Request)
    requires GoodRanges(ranges) && GoodRequest(ranges, q) && Inv(ranges, s)
    ensures var s' := SendStep(ranges, s, q);
      && Shapes(ranges, s')
      && s'.log == s.log + [q] && s'.servers == s.servers
      && (forall ts :: 0 <= ts < |s.log| ==> s'.tracker[ts] == s.tracker[ts] && s'.seen[ts] == s.seen[ts])
  {
    hide Part, GoodRequest, RunCallback, Skipped, Outgoing, NetOk, NothingLost, WorkerOk, Counted;
    var s' := SendStep(ranges, s, q);
    assert |s'.tracker| == |s'.log| && |s'.seen| == |s'.log|;
  }

  lemma AskedAfterSend<C>(ranges: seq<Range>, s: Sys<C>, q: Request, i: nat)
    requires GoodRanges(ranges) && GoodRequest(ranges, q) && Inv(ranges, s) && i < |ranges|
    ensures Asked(SendStep(ranges, s, q), |s.log|, i) <==> Part(ranges, q, i).first
  {
    hide SendStep, Part, GoodRequest, NothingLost, WorkerOk, Counted, MsgOk, Outgoing;
    SendBag(ranges, s, q);
    OutgoingIs(ranges, q, |s.log|, |ranges|);
    if Part(ranges, q, i).first {
      assert Ask(|s.log|, i, q.push, Part(ranges, q, i).second) in SendStep(ranges, s, q).net;
    }
  }

  lemma SendKeepsServer<C>(h: Handle<C>, ranges: seq<Range>, s: Sys<C>, q: Request, i: nat)
    requires GoodRanges(ranges) && GoodRequest(ranges, q) && Inv(ranges, s) && Agree(h, ranges, s) && i < |ranges|
    requires Finished(s, |ranges|)
    ensures var s' := SendStep(ranges, s, q);
      i < |s'.servers| && ValuesGiven(s'.log) && ServerAgrees(h, ranges, s', i)
  {
    hide SendStep, Part, NothingLost, WorkerOk, Counted, NetOk, Asked, Sub, Apply, ReadAgrees;
    SendEffect(ranges, s, q);
    AskedAfterSend(ranges, s, q, i);
    assert ServerAgrees(h, ranges, s, i);
    if s.log != [] {
      NotAsked(ranges, s, |s.log| - 1, i);
    }
    var s' := SendStep(ranges, s, q);
    assert s'.log[..|s.log|] == s.log;
    if !Part(ranges, q, i).first {
      PartSkipped(h, ranges, OneStore(h, s.log), q, i);
    }
  }

  lemma SendKeepsReads<C>(h: Handle<C>, ranges: seq<Range>, s: Sys<C>, q: Request, ts: nat)
    requires GoodRanges(ranges) && GoodRequest(ranges, q) && Inv(ranges, s) && Agree(h, ranges, s)
    requires Finished(s, |ranges|) && ts < |s.log| && !s.log[ts].push
    ensures var s' := SendStep(ranges, s, q);
      && |s'.log| == |s.log| + 1 == |s'.seen| && ValuesGiven(s'.log)
      && s'.seen[ts] == OneRead(h, s'.log, ts)
  {
    hide SendStep, Part, NothingLost, WorkerOk, Counted, NetOk, ReadAgrees, ServerAgrees, OneStore, Read;
    SendEffect(ranges, s, q);
    if ts == |s.log| - 1 {
      AllReadsAgree(h, ranges, s);
    }
    assert SendStep(ranges, s, q).log[..ts] == s.log[..ts];
  }

  lemma SendKeepsAgree<C>(h: Handle<C>, ranges: seq<Range>, s: Sys<C>, q: Request)
    requires GoodRanges(ranges) && GoodRequest(ranges, q) && Inv(ranges, s) && Agree(h, ranges, s)
    requires Finished(s, |ranges|)
    ensures Shapes(ranges, SendStep(ranges, s, q)) && Agree(h, ranges, SendStep(ranges, s, q))
  {
    hide SendStep, Part, NothingLost, WorkerOk, Counted, NetOk, ServerAgrees, OneRead, Asked;
    SendEffect(ranges, s, q);
    var s' := SendStep(ranges, s, q);
    forall i | 0 <= i < |ranges|
      ensures ValuesGiven(s'.log) && i < |s'.servers| && ServerAgrees(h, ranges, s', i) && ReadAgrees(h, ranges, s', i)
    {
      SendKeepsServer(h, ranges, s, q, i);
      AskedAfterSend(ranges, s, q, i);
    }
    assert ValuesGiven(s'.log) by {
      assert 0 < |ranges|;
    }
    forall ts | 0 <= ts < |s'.log| - 1 && !s'.log[ts].push
      ensures s'.seen[ts] == OneRead(h, s'.log, ts)
    {
      SendKeepsReads(h, ranges, s, q, ts);
    }
  }

  // ----- the theorems -----

  lemma {:induction false} WaitedRunsAgree<C(!new)>(h: Handle<C>, ranges: seq<Range>, es: seq<Event>)
    requires GoodRanges(ranges) && Run(h, ranges, es) && Waited(h, ranges, es)
    ensures Inv(ranges, After(h, ranges, es)) && Agree(h, ranges, After(h, ranges, es))
    decreases |es|
  {
    hide Inv, Agree, Enabled, SendStep, ServeStep, ReceiveStep;
    RunKeepsInv(h, ranges, es);
    if es == [] {
      InitAgrees(h, ranges);
    } else {
      var before := es[..|es| - 1];
      WaitedRunsAgree(h, ranges, before);
      StepKeepsAgree(h, ranges, After(h, ranges, before), es[|es| - 1]);
    }
  }

  lemma InitAgrees<C>(h: Handle<C>, ranges: seq<Range>)
    requires GoodRanges(ranges)
    ensures Shapes<C>(ranges, Init(|ranges|)) && Agree(h, ranges, Init(|ranges|))
  {
    forall i | 0 <= i < |ranges|
      ensures Sub<C>(map[], ranges[i]) == map[]
    {
    }
  }

  lemma StepKeepsAgree<C>(h: Handle<C>, ranges: seq<Range>, s: Sys<C>, e: Event)
    requires GoodRanges(ranges) && Inv(ranges, s) && Agree(h, ranges, s) && Enabled(ranges, s, e)
    requires e.Send? ==> Finished(s, |ranges|)
    ensures Shapes(ranges, Step(h, ranges, s, e)) && Agree(h, ranges, Step(h, ranges, s, e))
  {
    hide Inv, Agree, SendStep, ServeStep, ReceiveStep;
    match e
    case Send(q) => SendKeepsAgree(h, ranges, s, q);
    case Serve(m) => ServeKeepsAgree(h, ranges, s, m);
    case Receive(m) => ReceiveKeepsAgree(h, ranges, s, m);
  }

  /**
   * The sharded store is one store: in every waited run, whatever order messages are served
   * and answered in, each finished pull has returned exactly what one unsharded server
   * returns, value by value in key order.
   */
  lemma ShardedPullIsOnePull<C(!new)>(h: Handle<C>, ranges: seq<Range>, es: seq<Event>, ts: nat)
    requires GoodRanges(ranges) && Run(h, ranges, es) && Waited(h, ranges, es)
    requires ts < |After(h, ranges, es).log| && ts < |After(h, ranges, es).tracker|
    requires !After(h, ranges, es).log[ts].push && After(h, ranges, es).tracker[ts] == |ranges|
    ensures var s := After(h, ranges, es);
      ValuesGiven(s.log) && ts in s.worker.results && s.worker.results[ts] == OneRead(h, s.log, ts)
  {
    hide Run, After, Waited, Inv, OneRead, ServerAgrees, ReadAgrees;
    WaitedRunsAgree(h, ranges, es);
    PullDelivers(h, ranges, es, ts);
    var s := After(h, ranges, es);
    if ts == |s.log| - 1 {
      AllReadsAgree(h, ranges, s);
    }
  }

  /** Once nothing is outstanding every server holds exactly its range of the one store. */
  lemma ServersHoldOneStore<C(!new)>(h: Handle<C>, ranges: seq<Range>, es: seq<Event>, i: nat)
    requires GoodRanges(ranges) && Run(h, ranges, es) && Waited(h, ranges, es) && i < |ranges|
    requires Finished(After(h, ranges, es), |ranges|)
    ensures var s := After(h, ranges, es);
      ValuesGiven(s.log) && i < |s.servers| && s.servers[i] == Sub(OneStore(h, s.log), ranges[i])
  {
    hide Run, After, Waited, ReadAgrees, OneRead, OneStore, Sub, Asked, NothingLost, NetOk, WorkerOk, Counted;
    WaitedRunsAgree(h, ranges, es);
    var s := After(h, ranges, es);
    assert ServerAgrees(h, ranges, s, i);
    if s.log != [] {
      NotAsked(ranges, s, |s.log| - 1, i);
    }
  }

  /** And no key of the one store is missing: each is held by exactly the server of its range. */
  lemma EveryKeyHasItsServer<C(!new)>(h: Handle<C>, ranges: seq<Range>, es: seq<Event>, k: Key)
    requires GoodRanges(ranges) && Run(h, ranges, es) && Waited(h, ranges, es)
    requires Finished(After(h, ranges, es), |ranges|) && ValuesGiven(After(h, ranges, es).log)
    ensures var s := After(h, ranges, es);
      && |s.servers| == |ranges|
      && (k in OneStore(h, s.log) <==> exists i :: 0 <= i < |ranges| && k in s.servers[i])
      && (forall i :: 0 <= i < |ranges| && k in s.servers[i] ==>
           ranges[i].Has(k) && k in OneStore(h, s.log) && s.servers[i][k] == OneStore(h, s.log)[k])
  {
    hide Run, After, Waited, OneStore, NothingLost, NetOk, WorkerOk, Counted;
    RunKeepsInv(h, ranges, es);
    var s := After(h, ranges, es);
    forall i | 0 <= i < |ranges|
      ensures s.servers[i] == Sub(OneStore(h, s.log), ranges[i])
    {
      ServersHoldOneStore(h, ranges, es, i);
    }
    if k in OneStore(h, s.log) {
      StoredKeysCovered(h, ranges, s.log, k);
      OneServer(ranges, k);
    }
  }

  lemma {:induction false} StoredKeysCovered<C>(h: Handle<C>, ranges: seq<Range>, log: seq<Request>, k: Key)
    requires GoodRanges(ranges) && ValuesGiven(log) && k in OneStore(h, log)
    requires forall ts :: 0 <= ts < |log| ==> GoodRequest(ranges, log[ts])
    ensures ranges[0].begin <= k < ranges[|ranges| - 1].end
    decreases |log|
  {
    var last := |log| - 1;
    var before, q := OneStore(h, log[..last]), log[last];
    assert GoodRequest(ranges, q);
    if q.push {
      PushAllAt(h, before, q.keys, q.vals);
    } else {
      PullAllAt(h, before, q.keys);
    }
    if k in before {
      StoredKeysCovered(h, ranges, log[..last], k);
    }
  }

  // ----- what it means for KVServerDefaultHandle -----

  /** The value given to key k by a push, zero if it does not push k. */
  function PushedBy(q: Request, k: Key): real
    requires q.push ==> |q.vals| == |q.keys|
  {
    if q.push then ValueFor(q.keys, q.vals, k) else 0.0
  }

  function ValueFor(keys: seq<Key>, vals: seq<real>, k: Key): real
    requires |keys| == |vals|
  {
    if keys == [] then 0.0 else (if keys[0] == k then vals[0] else 0.0) + ValueFor(keys[1..], vals[1..], k)
  }

  function PushedSoFar(log: seq<Request>, k: Key): real
    requires ValuesGiven(log)
    decreases |log|
  {
    if log == [] then 0.0 else PushedSoFar(log[..|log| - 1], k) + PushedBy(log[|log| - 1], k)
  }

  lemma {:induction false} ValueForSplit(keys: seq<Key>, vals: seq<real>, k: Key)
    requires |keys| == |vals| > 0
    ensures ValueFor(keys, vals, k)
         == ValueFor(keys[..|keys| - 1], vals[..|keys| - 1], k)
          + (if keys[|keys| - 1] == k then vals[|keys| - 1] else 0.0)
    decreases |keys|
  {
    var last := |keys| - 1;
    if last > 0 {
      ValueForSplit(keys[1..], vals[1..], k);
      assert keys[1..][..last - 1] == keys[..last][1..] && vals[1..][..last - 1] == vals[..last][1..];
    }
  }

  /** Also with repeated keys, the default handle adds up what was pushed. */
  lemma {:induction false} DefaultAdds(store: Store<real>, keys: seq<Key>, vals: seq<real>, k: Key)
    requires |keys| == |vals|
    ensures At(DefaultHandle(), PushAll(DefaultHandle(), store, keys, vals), k)
         == At(DefaultHandle(), store, k) + ValueFor(keys, vals, k)
    decreases |keys|
  {
    if keys != [] {
      var last := |keys| - 1;
      DefaultAdds(store, keys[..last], vals[..last], k);
      ValueForSplit(keys, vals, k);
    }
  }

  lemma {:induction false} OneStoreSums(log: seq<Request>, k: Key)
    requires ValuesGiven(log)
    ensures At(DefaultHandle(), OneStore(DefaultHandle(), log), k) == PushedSoFar(log, k)
    decreases |log|
  {
    if log != [] {
      var last := |log| - 1;
      OneStoreSums(log[..last], k);
      var before, q := OneStore(DefaultHandle(), log[..last]), log[last];
      if q.push {
        DefaultAdds(before, q.keys, q.vals, k);
      } else {
        PullAllAt(DefaultHandle(), before, q.keys);
      }
    }
  }

  /** With the default handle a pull returns, for each key, the sum of all values pushed to it before. */
  lemma PullReturnsSums(ranges: seq<Range>, es: seq<Event>, ts: nat, j: nat)
    requires GoodRanges(ranges) && Run(DefaultHandle(), ranges, es) && Waited(DefaultHandle(), ranges, es)
    requires ts < |After(DefaultHandle(), ranges, es).log| && ts < |After(DefaultHandle(), ranges, es).tracker|
    requires !After(DefaultHandle(), ranges, es).log[ts].push
    requires After(DefaultHandle(), ranges, es).tracker[ts] == |ranges|
    requires j < |After(DefaultHandle(), ranges, es).log[ts].keys|
    ensures var s := After(DefaultHandle(), ranges, es);
      && ts in s.worker.results && j < |s.worker.results[ts]| && ValuesGiven(s.log[..ts])
      && s.worker.results[ts][j] == PushedSoFar(s.log[..ts], s.log[ts].keys[j])
  {
    hide Run, After, Waited, OneStore, PushedSoFar;
    ShardedPullIsOnePull(DefaultHandle(), ranges, es, ts);
    var s := After(DefaultHandle(), ranges, es);
    OneStoreSums(s.log[..ts], s.log[ts].keys[j]);
  }
}
