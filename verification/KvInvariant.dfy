// What every step of the request protocol keeps, for any number of outstanding requests and
// any order of message delivery.
module KvInvariant {
  import opened KvData
  import opened PullMerge
  import opened KvProtocol
  import opened Arrangement

  // ----- the invariant -----

  ghost predicate Shapes<C>(ranges: seq<Range>, s: Sys<C>)
    requires GoodRanges(ranges)
  {
    && |s.servers| == |ranges|
    && |s.tracker| == |s.log| && |s.answered| == |s.log| && |s.seen| == |s.log|
    && forall ts :: 0 <= ts < |s.log| ==> GoodRequest(ranges, s.log[ts]) && |s.seen[ts]| == |s.log[ts].keys|
  }

  /** A message in flight carries exactly what was sent, or what was read. */
  ghost predicate MsgOk<C>(ranges: seq<Range>, s: Sys<C>, m: Msg)
    requires GoodRanges(ranges) && Shapes(ranges, s)
  {
    && m.ts < |s.log| && m.server < |ranges|
    && var q := s.log[m.ts];
      && Part(ranges, q, m.server).first
      && m.push == q.push
      && (m.Ask? ==> m.kvs == Part(ranges, q, m.server).second)
      && (m.Reply? && !m.push ==> AnswersPart(ranges, q, m.server, m.kvs, s.seen[m.ts]))
  }

  /** At most one message per timestamp and server, and none once the answer was processed. */
  ghost predicate NetOk<C>(ranges: seq<Range>, s: Sys<C>)
    requires GoodRanges(ranges) && Shapes(ranges, s)
  {
    && (forall m :: m in s.net ==> s.net[m] == 1 && MsgOk(ranges, s, m) && m.server !in s.answered[m.ts])
    && (forall m, m' :: m in s.net && m' in s.net && m.ts == m'.ts && m.server == m'.server ==> m == m')
  }

  /** Some message is on its way between the worker and server i about request ts. */
  ghost predicate InFlight<C>(s: Sys<C>, ts: nat, i: nat) {
    exists m :: m in s.net && m.ts == ts && m.server == i
  }

  /** No request and no answer is lost. */
  ghost predicate NothingLost<C>(ranges: seq<Range>, s: Sys<C>)
    requires GoodRanges(ranges) && Shapes(ranges, s)
  {
    forall ts: nat, i: nat {:trigger InFlight(s, ts, i)} ::
      ts < |s.log| && i < |ranges| && Part(ranges, s.log[ts], i).first && i !in s.answered[ts] ==> InFlight(s, ts, i)
  }

  /** The response counter: skipped servers plus processed answers, each answer counted once. */
  ghost predicate Counted<C>(ranges: seq<Range>, s: Sys<C>, ts: nat)
    requires GoodRanges(ranges) && Shapes(ranges, s) && ts < |s.log|
  {
    var q, order := s.log[ts], s.answered[ts];
    && Distinct(order)
    && (forall j :: 0 <= j < |order| ==> order[j] < |ranges| && Part(ranges, q, order[j]).first)
    && s.tracker[ts] == Skipped(ranges, q, |ranges|) + |order|
  }

  /** The answers stored for a pull so far, in the order they were processed. */
  ghost predicate Stored(ranges: seq<Range>, q: Request, order: seq<nat>, got: seq<KVPairs<real>>, seen: seq<real>)
    requires GoodRanges(ranges) && GoodRequest(ranges, q) && |seen| == |q.keys|
  {
    |got| == |order|
    && forall j :: 0 <= j < |got| ==> order[j] < |ranges| && AnswersPart(ranges, q, order[j], got[j], seen)
  }

  /** Until the last response the callback waits; with the last response it has run, once. */
  ghost predicate CallbackOk(ranges: seq<Range>, w: Worker, ts: nat, q: Request, count: nat, order: seq<nat>,
          seen: seq<real>)
    requires GoodRanges(ranges) && GoodRequest(ranges, q) && |seen| == |q.keys|
  {
    && (count < |ranges| ==>
      && Runs(w, ts) == 0
      && (ts in w.callbacks <==> q.Registers())
      && (ts in w.callbacks ==> w.callbacks[ts] == q)
      && ts !in w.results
      && (!q.push ==> Stored(ranges, q, order, Got(w, ts), seen)))
    && (count == |ranges| ==>
      && Runs(w, ts) == (if q.Registers() then 1 else 0)
      && ts !in w.callbacks && ts !in w.recv
      && (!q.push ==> ts in w.results && w.results[ts] == seen))
    && (q.push ==> ts !in w.recv)
  }

  ghost predicate Unused(w: Worker, ts: nat) {
    ts !in w.recv && ts !in w.callbacks && ts !in w.results && ts !in w.runs
  }

  ghost predicate WorkerOk<C>(ranges: seq<Range>, s: Sys<C>)
    requires GoodRanges(ranges) && Shapes(ranges, s)
  {
    && !s.worker.failed
    && (forall ts :: 0 <= ts < |s.log| ==>
      CallbackOk(ranges, s.worker, ts, s.log[ts], s.tracker[ts], s.answered[ts], s.seen[ts]))
    && (forall ts: nat :: ts >= |s.log| ==> Unused(s.worker, ts))
  }

  ghost predicate Inv<C>(ranges: seq<Range>, s: Sys<C>)
    requires GoodRanges(ranges)
  {
    && Shapes(ranges, s)
    && NetOk(ranges, s)
    && NothingLost(ranges, s)
    && (forall ts :: 0 <= ts < |s.log| ==> Counted(ranges, s, ts))
    && WorkerOk(ranges, s)
  }

  lemma InitInv<C>(ranges: seq<Range>)
    requires GoodRanges(ranges)
    ensures Inv<C>(ranges, Init(|ranges|))
  {
  }

  // ----- the worker's callback -----

  /** Running the callback of a complete pull: no CHECK fails, the caller gets what was read. */
  lemma CallbackRuns(ranges: seq<Range>, w: Worker, ts: nat, q: Request, order: seq<nat>, seen: seq<real>)
    requires GoodRanges(ranges) && GoodRequest(ranges, q) && |seen| == |q.keys|
    requires Complete(ranges, q, order)
    requires !w.failed && Runs(w, ts) == 0
    requires ts in w.callbacks <==> q.Registers()
    requires ts in w.callbacks ==> w.callbacks[ts] == q
    requires !q.push ==> Stored(ranges, q, order, Got(w, ts), seen)
    requires q.push ==> ts !in w.recv
    ensures CallbackOk(ranges, RunCallback(w, ts), ts, q, |ranges|, order, seen)
    ensures !RunCallback(w, ts).failed
  {
    hide Complete, Stored, SortByFront, JoinVals, GoodRequest;
    if !q.push {
      PullSucceeds(ranges, q, order, Got(w, ts), seen);
    }
  }

  lemma PullSucceeds(ranges: seq<Range>, q: Request, order: seq<nat>, got: seq<KVPairs<real>>, seen: seq<real>)
    requires GoodRanges(ranges) && GoodRequest(ranges, q) && |seen| == |q.keys|
    requires Complete(ranges, q, order) && Stored(ranges, q, order, got, seen)
    ensures MergeOk(q.keys, got, q.vals, false, [])
    ensures JoinVals(SortByFront(got)) == seen
  {
    hide Complete, AnswersPart;
    PullCompletes(ranges, q, order, got, seen);
  }

  lemma OtherCallbacks(ranges: seq<Range>, w: Worker, ts: nat, other: nat, q: Request, count: nat, order: seq<nat>,
          seen: seq<real>)
    requires GoodRanges(ranges) && GoodRequest(ranges, q) && |seen| == |q.keys| && other != ts
    requires CallbackOk(ranges, w, other, q, count, order, seen)
    ensures CallbackOk(ranges, RunCallback(w, ts), other, q, count, order, seen)
  {
    hide Stored, MergeOk, JoinVals, SortByFront, GoodRequest;
  }
}
