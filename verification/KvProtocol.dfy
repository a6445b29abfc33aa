// The request protocol between one worker and its servers as a step system: Send, the
// servers' Process, and the worker's Process with RunCallback (deps/include/ps/kv_app.h).
// Messages in flight are an unordered bag; any number of requests may be outstanding.
//
// Customer, Postoffice and Van are not part of this model. Of them only this is used: the
// response counter of a timestamp is raised after Process returns, and the server key
// ranges are contiguous.
module KvProtocol {
  import opened KvData
  import opened Slicer
  import opened PullMerge
  import opened KvStore

  // ----- requests -----

  /** One Push or Pull; for a pull vals is the caller's buffer; cb: a user callback was given. */
  datatype Request = Request(push: bool, keys: seq<Key>, vals: seq<real>, cb: bool) {
    /** A pull always registers a callback, a push only the user's. */
    predicate Registers() { !push || cb }
  }

  /** Server key ranges as Postoffice hands them out. */
  predicate GoodRanges(ranges: seq<Range>) {
    ranges != [] && Contiguous(ranges) && Ordered(ranges)
  }

  /** Unique increasing keys that have a server, and one value per key. */
  predicate GoodRequest(ranges: seq<Range>, q: Request)
    requires ranges != []
  {
    && Increasing(q.keys)
    && (forall k :: k in q.keys ==> ranges[0].begin <= k < ranges[|ranges| - 1].end)
    && (|q.vals| == |q.keys| || (!q.push && q.vals == []))
  }

  /** The list that is sliced: a pull carries keys only. */
  function Sent(q: Request): KVPairs<real> {
    KVPairs(q.keys, if q.push then q.vals else [], [])
  }

  lemma GoodIsAccepted(ranges: seq<Range>, q: Request)
    requires GoodRanges(ranges) && GoodRequest(ranges, q)
    ensures Accepts(Sent(q), ranges) && Shaped(Sent(q))
    ensures q.keys != [] ==> Width(Sent(q)) == if q.push then 1 else 0
    ensures Pos(q.keys, ranges, 0) == 0 && Pos(q.keys, ranges, |ranges|) == |q.keys|
  {
    forall j | 0 <= j < |q.keys|
      ensures ranges[0].begin <= q.keys[j] < ranges[|ranges| - 1].end
    {
      assert q.keys[j] in q.keys;
    }
    BelowUnique(q.keys, ranges[0].begin, 0);
    BelowUnique(q.keys, ranges[|ranges| - 1].end, |q.keys|);
    if q.keys != [] {
      var n := |q.keys|;
      assert n / n == 1 && 0 / n == 0;
    }
  }

  /** What server i gets of request q. */
  function Part(ranges: seq<Range>, q: Request, i: nat): Slice<real>
    requires GoodRanges(ranges) && GoodRequest(ranges, q) && i < |ranges|
  {
    GoodIsAccepted(ranges, q);
    SliceOf(Sent(q), ranges, i)
  }

  /** A part is a segment of the keys, with its values in a push. */
  lemma PartIs(ranges: seq<Range>, q: Request, i: nat)
    requires GoodRanges(ranges) && GoodRequest(ranges, q) && i < |ranges|
    ensures var lo, hi := Pos(q.keys, ranges, i), Pos(q.keys, ranges, i + 1);
      && lo <= hi
      && (Part(ranges, q, i).first <==> lo < hi)
      && (lo < hi ==> Part(ranges, q, i).second == KVPairs(q.keys[lo..hi], if q.push then q.vals[lo..hi] else [], []))
  {
    GoodIsAccepted(ranges, q);
    PosMonotone(q.keys, ranges, i, i + 1);
  }

  // ----- messages and states -----

  datatype Msg =
    | Ask(ts: nat, server: nat, push: bool, kvs: KVPairs<real>)
    | Reply(ts: nat, server: nat, push: bool, kvs: KVPairs<real>)

  /** The fields of KVWorker that a pull or push touches; results and runs record callbacks. */
  datatype Worker = Worker(
    recv: map<nat, seq<KVPairs<real>>>,   // recv_kvs_
    callbacks: map<nat, Request>,         // callbacks_
    results: map<nat, seq<real>>,         // what pull callbacks wrote
    runs: map<nat, nat>,                  // how often a callback ran
    failed: bool)                         // a CHECK failed

  datatype Sys<!C> = Sys(
    servers: seq<Store<C>>,
    net: multiset<Msg>,
    worker: Worker,
    tracker: seq<nat>,         // responses counted per timestamp
    // what happened so far, by timestamp:
    log: seq<Request>,         // the request issued
    answered: seq<seq<nat>>,   // the servers whose replies were processed, in order
    seen: seq<seq<real>>)      // what the servers read when they served a pull

  function Init<C>(n: nat): Sys<C> {
    Sys(seq(n, _ => map[]), multiset{}, Worker(map[], map[], map[], map[], false), [], [], [], [])
  }

  function Got(w: Worker, ts: nat): seq<KVPairs<real>> {
    if ts in w.recv then w.recv[ts] else []
  }

  function Runs(w: Worker, ts: nat): nat {
    if ts in w.runs then w.runs[ts] else 0
  }

  /** RunCallback: run and erase the callback of a timestamp, if there is one. */
  function RunCallback(w: Worker, ts: nat): Worker {
    if ts !in w.callbacks then w
    else
      var q := w.callbacks[ts];
      var done := w.(callbacks := w.callbacks - {ts}, runs := w.runs[ts := Runs(w, ts) + 1]);
      if q.push then done
      else if MergeOk(q.keys, Got(w, ts), q.vals, false, []) then
        done.(results := w.results[ts := JoinVals(SortByFront(Got(w, ts)))], recv := w.recv - {ts})
      else w.(failed := true)
  }

  /** KVWorker::Process on a reply, with the count of responses before it. */
  function Process(w: Worker, n: nat, count: nat, m: Msg): Worker {
    var stored :=
      if !m.push && m.kvs.keys != [] then w.(recv := w.recv[m.ts := Got(w, m.ts) + [m.kvs]]) else w;
    if count == n - 1 then RunCallback(stored, m.ts) else stored
  }

  /** Servers that are sent nothing. */
  function Skipped(ranges: seq<Range>, q: Request, upto: nat): nat
    requires GoodRanges(ranges) && GoodRequest(ranges, q) && upto <= |ranges|
  {
    if upto == 0 then 0
    else Skipped(ranges, q, upto - 1) + if Part(ranges, q, upto - 1).first then 0 else 1
  }

  /** The messages of Send. */
  function Outgoing(ranges: seq<Range>, q: Request, ts: nat, upto: nat): multiset<Msg>
    requires GoodRanges(ranges) && GoodRequest(ranges, q) && upto <= |ranges|
  {
    if upto == 0 then multiset{}
    else
      var part := Part(ranges, q, upto - 1);
      Outgoing(ranges, q, ts, upto - 1)
      + if part.first then multiset{Ask(ts, upto - 1, q.push, part.second)} else multiset{}
  }

  // ----- steps -----

  datatype Event = Send(q: Request) | Serve(m: Msg) | Receive(m: Msg)

  predicate Enabled<C(==)>(ranges: seq<Range>, s: Sys<C>, e: Event)
    requires GoodRanges(ranges)
  {
    match e
    case Send(q) => GoodRequest(ranges, q)
    case Serve(m) => m in s.net && m.Ask? && m.server < |s.servers| && (m.push ==> |m.kvs.vals| == |m.kvs.keys|)
    case Receive(m) => m in s.net && m.Reply? && m.ts < |s.tracker|
  }

  /** ZPush or Pull_: register the callback, count skipped servers, send. */
  function SendStep<C>(ranges: seq<Range>, s: Sys<C>, q: Request): Sys<C>
    requires GoodRanges(ranges) && GoodRequest(ranges, q)
  {
    var ts := |s.log|;
    var skipped := Skipped(ranges, q, |ranges|);
    var w := if q.Registers() then s.worker.(callbacks := s.worker.callbacks[ts := q]) else s.worker;
    s.(log := s.log + [q],
       answered := s.answered + [[]],
       seen := s.seen + [seq(|q.keys|, _ => 0.0)],
       tracker := s.tracker + [skipped],
       worker := if skipped == |ranges| then RunCallback(w, ts) else w,
       net := s.net + Outgoing(ranges, q, ts, |ranges|))
  }

  /** What is recorded as read, after a server read its part of the keys. */
  function Overlay<C>(h: Handle<C>, store: Store<C>, keys: seq<Key>, seen: seq<real>, part: seq<Key>): (r: seq<real>)
    requires |seen| == |keys|
    ensures |r| == |keys|
    ensures forall j :: 0 <= j < |r| ==> r[j] == if keys[j] in part then h.read(At(h, store, keys[j])) else seen[j]
  {
    seq(|keys|, j requires 0 <= j < |keys| => if keys[j] in part then h.read(At(h, store, keys[j])) else seen[j])
  }

  /** KVServer::Process with its handle: update or read the store, answer. */
  function ServeStep<C>(h: Handle<C>, s: Sys<C>, m: Msg): Sys<C>
    requires m.Ask? && m.server < |s.servers| && (m.push ==> |m.kvs.vals| == |m.kvs.keys|)
  {
    var store := s.servers[m.server];
    var store', kvs :=
      if m.push then PushAll(h, store, m.kvs.keys, m.kvs.vals) else PullAll(h, store, m.kvs.keys),
      if m.push then Empty() else KVPairs(m.kvs.keys, Read(h, store, m.kvs.keys), []);
    s.(servers := s.servers[m.server := store'],
       seen := if m.push || m.ts >= |s.seen| || m.ts >= |s.log| || |s.seen[m.ts]| != |s.log[m.ts].keys| then s.seen
               else s.seen[m.ts := Overlay(h, store, s.log[m.ts].keys, s.seen[m.ts], m.kvs.keys)],
       net := s.net - multiset{m} + multiset{Reply(m.ts, m.server, m.push, kvs)})
  }

  /** Customer's receiving thread: Process, then count the response. */
  function ReceiveStep<C>(ranges: seq<Range>, s: Sys<C>, m: Msg): Sys<C>
    requires m.Reply? && m.ts < |s.tracker|
  {
    s.(net := s.net - multiset{m},
       worker := Process(s.worker, |ranges|, s.tracker[m.ts], m),
       tracker := s.tracker[m.ts := s.tracker[m.ts] + 1],
       answered := if m.ts < |s.answered| then s.answered[m.ts := s.answered[m.ts] + [m.server]] else s.answered)
  }

  function Step<C>(h: Handle<C>, ranges: seq<Range>, s: Sys<C>, e: Event): Sys<C>
    requires GoodRanges(ranges) && Enabled(ranges, s, e)
  {
    match e
    case Send(q) => SendStep(ranges, s, q)
    case Serve(m) => ServeStep(h, s, m)
    case Receive(m) => ReceiveStep(ranges, s, m)
  }
}
