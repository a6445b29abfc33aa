// The protocol's messages on the wire: what is in flight in any run is read back as it was sent,
// and the protocol's Send and Process are those of the messages (deps/include/ps/kv_app.h).
module KvDelivery {
  import opened Wrappers
  import opened KvData
  import opened Slicer
  import opened KvStore
  import opened KvProtocol
  import opened Arrangement
  import opened KvInvariant
  import opened KvSteps
  import opened KvRuns
  import KvWire

  // ----- Send -----

  /** The questions that messages put to the servers. */
  function Questions(ts: nat, push: bool, msgs: seq<(nat, KvWire.Wire<real>)>): multiset<Msg>
    requires KvWire.Readable(msgs)
  {
    if msgs == [] then multiset{}
    else
      var (server, w) := msgs[|msgs| - 1];
      Questions(ts, push, msgs[..|msgs| - 1]) + multiset{Ask(ts, server, push, KvWire.ServerReads(w).value)}
  }

  lemma QuestionsSnoc(ts: nat, push: bool, msgs: seq<(nat, KvWire.Wire<real>)>, m: (nat, KvWire.Wire<real>))
    requires KvWire.Readable(msgs) && KvWire.Readable(msgs + [m]) && KvWire.ServerReads(m.1).Ok?
    ensures Questions(ts, push, msgs + [m])
         == Questions(ts, push, msgs) + multiset{Ask(ts, m.0, push, KvWire.ServerReads(m.1).value)}
  {
    assert (msgs + [m])[..|msgs|] == msgs;
  }

  lemma OneMoreMessage(ranges: seq<Range>, q: Request, n: nat)
    requires GoodRanges(ranges) && GoodRequest(ranges, q) && 0 < n <= |ranges| && Accepts(Sent(q), ranges)
    ensures var part, before := Part(ranges, q, n - 1), KvWire.Messages(Sent(q), ranges, n - 1);
      && (!part.first ==> KvWire.Messages(Sent(q), ranges, n) == before)
      && (part.first ==> KvWire.Messages(Sent(q), ranges, n) == before + [(n - 1, KvWire.Encode(part.second))])
      && (part.first ==> KvWire.ServerReads(KvWire.Encode(part.second)) == Ok(part.second))
  {
    hide SliceOf, KvWire.Encode, KvWire.ServerReads;
    if Part(ranges, q, n - 1).first {
      KvWire.SliceArrives(Sent(q), ranges, n - 1);
    }
  }

  /**
   * What the protocol puts in flight for a request is what the servers read from the messages
   * that Send makes of its list, and the servers it counts as skipped are the others.
   */
  lemma {:induction false} SendIsOutgoing(ranges: seq<Range>, q: Request, ts: nat, n: nat)
    requires GoodRanges(ranges) && GoodRequest(ranges, q) && n <= |ranges|
    ensures Accepts(Sent(q), ranges) && KvWire.Readable(KvWire.Messages(Sent(q), ranges, n))
    ensures Questions(ts, q.push, KvWire.Messages(Sent(q), ranges, n)) == Outgoing(ranges, q, ts, n)
    ensures Skipped(ranges, q, n) == n - |KvWire.Messages(Sent(q), ranges, n)|
  {
    hide *;
    Sendable(ranges, q, n);
    if n == 0 {
      NothingSentYet(ranges, q, ts);
    } else {
      var part, before := Part(ranges, q, n - 1), KvWire.Messages(Sent(q), ranges, n - 1);
      SendIsOutgoing(ranges, q, ts, n - 1);
      OneMoreMessage(ranges, q, n);
      OneMoreServer(ranges, q, ts, n);
      OneMoreQuestion(ts, q.push, before, KvWire.Messages(Sent(q), ranges, n), part, n - 1,
        Outgoing(ranges, q, ts, n - 1), Outgoing(ranges, q, ts, n));
    }
  }

  lemma OneMoreQuestion(ts: nat, push: bool, before: seq<(nat, KvWire.Wire<real>)>,
          after: seq<(nat, KvWire.Wire<real>)>, part: Slice<real>, server: nat, out: multiset<Msg>, out': multiset<Msg>)
    requires KvWire.Readable(before) && KvWire.Readable(after) && Questions(ts, push, before) == out
    requires !part.first ==> after == before && out' == out
    requires part.first ==>
      && after == before + [(server, KvWire.Encode(part.second))]
      && KvWire.ServerReads(KvWire.Encode(part.second)) == Ok(part.second)
      && out' == out + multiset{Ask(ts, server, push, part.second)}
    ensures Questions(ts, push, after) == out' && |after| == |before| + if part.first then 1 else 0
  {
    hide *;
    if part.first {
      QuestionsSnoc(ts, push, before, (server, KvWire.Encode(part.second)));
    }
  }

  lemma Sendable(ranges: seq<Range>, q: Request, n: nat)
    requires GoodRanges(ranges) && GoodRequest(ranges, q) && n <= |ranges|
    ensures Increasing(Sent(q).keys) && Ordered(ranges) && Accepts(Sent(q), ranges)
    ensures KvWire.Readable(KvWire.Messages(Sent(q), ranges, n))
  {
    hide KvWire.Readable, KvWire.Messages, Accepts;
    GoodIsAccepted(ranges, q);
    KvWire.ReceivedIsJoined(Sent(q), ranges, n);
  }

  lemma NothingSentYet(ranges: seq<Range>, q: Request, ts: nat)
    requires GoodRanges(ranges) && GoodRequest(ranges, q) && Accepts(Sent(q), ranges)
    ensures KvWire.Readable(KvWire.Messages(Sent(q), ranges, 0))
    ensures Questions(ts, q.push, KvWire.Messages(Sent(q), ranges, 0)) == Outgoing(ranges, q, ts, 0)
    ensures Skipped(ranges, q, 0) == 0 == |KvWire.Messages(Sent(q), ranges, 0)|
  {
  }

  lemma OneMoreServer(ranges: seq<Range>, q: Request, ts: nat, n: nat)
    requires GoodRanges(ranges) && GoodRequest(ranges, q) && 0 < n <= |ranges|
    ensures var part := Part(ranges, q, n - 1);
      && (!part.first ==>
           Skipped(ranges, q, n) == Skipped(ranges, q, n - 1) + 1
           && Outgoing(ranges, q, ts, n) == Outgoing(ranges, q, ts, n - 1))
      && (part.first ==>
           Skipped(ranges, q, n) == Skipped(ranges, q, n - 1)
           && Outgoing(ranges, q, ts, n)
              == Outgoing(ranges, q, ts, n - 1) + multiset{Ask(ts, n - 1, q.push, part.second)})
  {
    hide Part;
  }

  // ----- in flight -----

  /** Every question in flight is read by its server as it was sent. */
  lemma QuestionsArrive<C(!new)>(h: Handle<C>, ranges: seq<Range>, es: seq<Event>, m: Msg)
    requires GoodRanges(ranges) && Run(h, ranges, es) && m in After(h, ranges, es).net && m.Ask?
    ensures KvWire.ServerReads(KvWire.Encode(m.kvs)) == Ok(m.kvs)
  {
    hide Run, After, Part, GoodRequest, NothingLost, WorkerOk, Counted;
    RunKeepsInv(h, ranges, es);
    var s := After(h, ranges, es);
    assert MsgOk(ranges, s, m);
    PartIs(ranges, s.log[m.ts], m.server);
    KvWire.ServerRoundTrip(m.kvs);
  }

  /** Every answer to a pull in flight is kept by the worker as it was sent. */
  lemma AnswersArrive<C(!new)>(h: Handle<C>, ranges: seq<Range>, es: seq<Event>, m: Msg)
    requires GoodRanges(ranges) && Run(h, ranges, es) && m in After(h, ranges, es).net && m.Reply? && !m.push
    ensures KvWire.WorkerReads(KvWire.Encode(m.kvs)) == Ok(Some(m.kvs))
  {
    hide Run, After, Part, GoodRequest, NothingLost, WorkerOk, Counted, AnswersPart;
    RunKeepsInv(h, ranges, es);
    var s := After(h, ranges, es);
    assert MsgOk(ranges, s, m);
    AnswerNotEmpty(ranges, s.log[m.ts], m.server, m.kvs, s.seen[m.ts]);
    KvWire.WorkerRoundTrip(m.kvs);
  }

  /** What the worker does with an answer's data blocks: KVWorker::Process on the message. */
  function ProcessWire(w: Worker, n: nat, count: nat, ts: nat, push: bool, data: KvWire.Wire<real>): Result<Worker> {
    if push then Ok(if count == n - 1 then RunCallback(w, ts) else w)
    else
      match KvWire.WorkerReads(data)
      case CheckFailed => CheckFailed
      case Ok(kept) =>
        var stored := match kept
          case None => w
          case Some(kvs) => w.(recv := w.recv[ts := Got(w, ts) + [kvs]]);
        Ok(if count == n - 1 then RunCallback(stored, ts) else stored)
  }

  /** On the message of any answer it is the protocol's Process, and no CHECK on its shape fails. */
  lemma ProcessIsProcessWire(w: Worker, n: nat, count: nat, m: Msg)
    ensures ProcessWire(w, n, count, m.ts, m.push, KvWire.Encode(m.kvs)) == Ok(Process(w, n, count, m))
  {
    hide RunCallback;
    KvWire.WorkerRoundTrip(m.kvs);
  }
}
