// Whole runs of the request protocol: any sequence of enabled steps from the initial state.
module KvRuns {
  import opened KvData
  import opened KvStore
  import opened KvProtocol
  import opened Arrangement
  import opened KvInvariant
  import opened KvSteps

  /** es is a run; the steps may interleave in any way. */
  ghost predicate Run<C(!new)>(h: Handle<C>, ranges: seq<Range>, es: seq<Event>)
    requires GoodRanges(ranges)
    decreases |es|, 0
  {
    es == [] || (Run(h, ranges, es[..|es| - 1]) && Enabled(ranges, After(h, ranges, es[..|es| - 1]), es[|es| - 1]))
  }

  ghost function After<C(!new)>(h: Handle<C>, ranges: seq<Range>, es: seq<Event>): Sys<C>
    requires GoodRanges(ranges) && Run(h, ranges, es)
    decreases |es|, 1
  {
    if es == [] then Init(|ranges|)
    else Step(h, ranges, After(h, ranges, es[..|es| - 1]), es[|es| - 1])
  }

  /** In every reachable state the invariant holds. */
  lemma {:induction false} RunKeepsInv<C(!new)>(h: Handle<C>, ranges: seq<Range>, es: seq<Event>)
    requires GoodRanges(ranges) && Run(h, ranges, es)
    ensures Inv(ranges, After(h, ranges, es))
    decreases |es|
  {
    hide Inv, Step, Enabled;
    if es == [] {
      InitInv<C>(ranges);
    } else {
      RunKeepsInv(h, ranges, es[..|es| - 1]);
      StepKeepsInv(h, ranges, After(h, ranges, es[..|es| - 1]), es[|es| - 1]);
    }
  }

  /** No CHECK of the worker ever fails. */
  lemma NoCheckFails<C(!new)>(h: Handle<C>, ranges: seq<Range>, es: seq<Event>)
    requires GoodRanges(ranges) && Run(h, ranges, es)
    ensures !After(h, ranges, es).worker.failed
  {
    hide Run, After;
    RunKeepsInv(h, ranges, es);
  }

  /**
   * A callback runs at most once, and it has run exactly when the skipped servers and the
   * distinct servers whose answers were processed number n.
   */
  lemma CallbackOnce<C(!new)>(h: Handle<C>, ranges: seq<Range>, es: seq<Event>, ts: nat)
    requires GoodRanges(ranges) && Run(h, ranges, es) && ts < |After(h, ranges, es).log|
    ensures var s := After(h, ranges, es);
      && ts < |s.answered| && GoodRequest(ranges, s.log[ts])
      && Distinct(s.answered[ts])
      && (forall j :: 0 <= j < |s.answered[ts]| ==>
           s.answered[ts][j] < |ranges| && Part(ranges, s.log[ts], s.answered[ts][j]).first)
      && Runs(s.worker, ts) <= 1
      && (s.log[ts].Registers() ==>
           (Runs(s.worker, ts) == 1 <==> Skipped(ranges, s.log[ts], |ranges|) + |s.answered[ts]| == |ranges|))
      && (!s.log[ts].Registers() ==> Runs(s.worker, ts) == 0)
  {
    hide Run, After, Part, Skipped, NetOk, NothingLost, GoodRequest;
    RunKeepsInv(h, ranges, es);
    var s := After(h, ranges, es);
    assert Counted(ranges, s, ts);
    CompleteByCount(ranges, s.log[ts], s.answered[ts]);
  }

  /**
   * When the last answer of a pull is processed, recv_kvs_ holds the slice of every server
   * that takes part, each exactly once, and nothing else.
   */
  lemma LastAnswerCompletes<C(!new)>(h: Handle<C>, ranges: seq<Range>, es: seq<Event>, m: Msg)
    requires GoodRanges(ranges) && Run(h, ranges, es) && Enabled(ranges, After(h, ranges, es), Receive(m))
    requires !m.push && After(h, ranges, es).tracker[m.ts] == |ranges| - 1
    ensures var s := After(h, ranges, es);
      && m.ts < |s.log| == |s.answered| == |s.seen|
      && GoodRequest(ranges, s.log[m.ts]) && |s.seen[m.ts]| == |s.log[m.ts].keys|
      && m.kvs.keys != []
      && Complete(ranges, s.log[m.ts], s.answered[m.ts] + [m.server])
      && Stored(ranges, s.log[m.ts], s.answered[m.ts] + [m.server], Got(s.worker, m.ts) + [m.kvs], s.seen[m.ts])
  {
    hide Run, After, Part, Skipped, NothingLost, GoodRequest, Complete, AnswersPart;
    RunKeepsInv(h, ranges, es);
    var s := After(h, ranges, es);
    assert MsgOk(ranges, s, m) && Counted(ranges, s, m.ts);
    StillWaiting(ranges, s, m.ts, m.server);
    AnswerNotEmpty(ranges, s.log[m.ts], m.server, m.kvs, s.seen[m.ts]);
  }

  /** A finished pull has delivered what the servers read, in the order of its keys. */
  lemma PullDelivers<C(!new)>(h: Handle<C>, ranges: seq<Range>, es: seq<Event>, ts: nat)
    requires GoodRanges(ranges) && Run(h, ranges, es) && ts < |After(h, ranges, es).log|
    ensures var s := After(h, ranges, es);
      && ts < |s.tracker| == |s.seen| && s.tracker[ts] <= |ranges|
      && (!s.log[ts].push ==>
           (ts in s.worker.results <==> s.tracker[ts] == |ranges|)
           && (ts in s.worker.results ==> s.worker.results[ts] == s.seen[ts]))
  {
    hide Run, After, Part, Skipped, NetOk, NothingLost, GoodRequest, Stored;
    RunKeepsInv(h, ranges, es);
    var s := After(h, ranges, es);
    assert Counted(ranges, s, ts);
    CompleteByCount(ranges, s.log[ts], s.answered[ts]);
  }

  // ----- progress -----

  /** While some request is unfinished, some server or the worker can take a step. */
  lemma SomeStepEnabled<C(!new)>(h: Handle<C>, ranges: seq<Range>, es: seq<Event>, ts: nat)
    requires GoodRanges(ranges) && Run(h, ranges, es) && ts < |After(h, ranges, es).log|
    requires ts < |After(h, ranges, es).tracker| && After(h, ranges, es).tracker[ts] < |ranges|
    ensures exists e: Event :: !e.Send? && Enabled(ranges, After(h, ranges, es), e)
  {
    hide Run, After, Part, Skipped, GoodRequest, CallbackOk;
    RunKeepsInv(h, ranges, es);
    var s := After(h, ranges, es);
    var i := MissingServer(ranges, s, ts);
    assert InFlight(s, ts, i);
    var m :| m in s.net && m.ts == ts && m.server == i;
    assert MsgOk(ranges, s, m);
    if m.Ask? {
      AskHasValues(ranges, s, m);
      assert Enabled(ranges, s, Serve(m));
    } else {
      assert Enabled(ranges, s, Receive(m));
    }
  }

  lemma AskHasValues<C>(ranges: seq<Range>, s: Sys<C>, m: Msg)
    requires GoodRanges(ranges) && Shapes(ranges, s) && MsgOk(ranges, s, m) && m.Ask?
    ensures m.push ==> |m.kvs.vals| == |m.kvs.keys|
  {
    hide Part;
    PartIs(ranges, s.log[m.ts], m.server);
  }

  lemma MissingServer<C>(ranges: seq<Range>, s: Sys<C>, ts: nat) returns (i: nat)
    requires GoodRanges(ranges) && Inv(ranges, s) && ts < |s.log| && s.tracker[ts] < |ranges|
    ensures i < |ranges| && Part(ranges, s.log[ts], i).first && i !in s.answered[ts]
  {
    hide Part, Skipped, GoodRequest, CallbackOk, NetOk, NothingLost, WorkerOk;
    assert Counted(ranges, s, ts);
    CompleteByCount(ranges, s.log[ts], s.answered[ts]);
    i :| i < |ranges| && Part(ranges, s.log[ts], i).first && i !in s.answered[ts];
  }


  function Asks(net: multiset<Msg>): set<Msg> {
    set m | m in net && m.Ask?
  }

  /** Steps still to be taken: two for every question in flight, one for every answer. */
  function Work<C>(s: Sys<C>): nat {
    |s.net| + |Asks(s.net)|
  }

  /** Every step but a Send takes one off the remaining work, so requests cannot wait forever. */
  lemma StepTakesWork<C(!new)>(h: Handle<C>, ranges: seq<Range>, es: seq<Event>, e: Event)
    requires GoodRanges(ranges) && Run(h, ranges, es) && Enabled(ranges, After(h, ranges, es), e) && !e.Send?
    ensures Work(Step(h, ranges, After(h, ranges, es), e)) == Work(After(h, ranges, es)) - 1
  {
    hide Run, After, Inv, Asks, Process, PushAll, PullAll, Read, Overlay;
    RunKeepsInv(h, ranges, es);
    var s := After(h, ranges, es);
    SentOnce(ranges, s, e.m);
    if e.Serve? {
      AnswerTakesOne(s.net, e.m, Answer(h, s, e.m));
    } else {
      LeavingTakesOne(s.net, e.m);
    }
  }

  lemma SentOnce<C>(ranges: seq<Range>, s: Sys<C>, m: Msg)
    requires GoodRanges(ranges) && Inv(ranges, s) && m in s.net
    ensures s.net[m] == 1
  {
    hide Counted, WorkerOk, NothingLost, MsgOk;
  }

  lemma AnswerTakesOne(net: multiset<Msg>, ask: Msg, reply: Msg)
    requires ask in net && net[ask] == 1 && ask.Ask? && reply.Reply?
    ensures var net' := net - multiset{ask} + multiset{reply};
      |net'| == |net| && |Asks(net')| == |Asks(net)| - 1
  {
    assert Asks(net - multiset{ask} + multiset{reply}) == Asks(net) - {ask};
  }

  lemma LeavingTakesOne(net: multiset<Msg>, reply: Msg)
    requires reply in net && reply.Reply?
    ensures |net - multiset{reply}| == |net| - 1 && Asks(net - multiset{reply}) == Asks(net)
  {
  }

  /** All requests are finished exactly when nothing is in flight. */
  lemma FinishedIffQuiet<C(!new)>(h: Handle<C>, ranges: seq<Range>, es: seq<Event>)
    requires GoodRanges(ranges) && Run(h, ranges, es)
    ensures var s := After(h, ranges, es);
      (forall ts :: 0 <= ts < |s.tracker| ==> s.tracker[ts] == |ranges|) <==> Work(s) == 0
  {
    hide Run, After, Part, Skipped, GoodRequest, CallbackOk;
    RunKeepsInv(h, ranges, es);
    var s := After(h, ranges, es);
    if Work(s) == 0 {
      assert |s.net| == 0;
      forall ts | 0 <= ts < |s.tracker|
        ensures s.tracker[ts] == |ranges|
      {
        FinishedUnlessInFlight(ranges, s, ts);
      }
    } else if m :| m in s.net {
      assert MsgOk(ranges, s, m) && Counted(ranges, s, m.ts);
      StillWaiting(ranges, s, m.ts, m.server);
    }
  }

  lemma FinishedUnlessInFlight<C>(ranges: seq<Range>, s: Sys<C>, ts: nat)
    requires GoodRanges(ranges) && Inv(ranges, s) && ts < |s.tracker|
    ensures s.tracker[ts] == |ranges| || exists m :: m in s.net
  {
    hide Part, Skipped, GoodRequest, CallbackOk;
    assert Counted(ranges, s, ts);
    CompleteByCount(ranges, s.log[ts], s.answered[ts]);
    if s.tracker[ts] < |ranges| {
      var i := MissingServer(ranges, s, ts);
      assert InFlight(s, ts, i);
    }
  }

  /** Two runs one after the other, the second without a Send. */
  ghost predicate Extends(es: seq<Event>, es': seq<Event>) {
    es <= es' && forall i :: |es| <= i < |es'| ==> !es'[i].Send?
  }

  /** From every reachable state the servers and the worker can finish all requests issued so far. */
  lemma {:induction false} CanFinish<C(!new)>(h: Handle<C>, ranges: seq<Range>,
          es: seq<Event>) returns (es': seq<Event>)
    requires GoodRanges(ranges) && Run(h, ranges, es)
    ensures Extends(es, es') && Run(h, ranges, es')
    ensures |es'| == |es| + Work(After(h, ranges, es))
    ensures var s := After(h, ranges, es'); forall ts :: 0 <= ts < |s.tracker| ==> s.tracker[ts] == |ranges|
    decreases Work(After(h, ranges, es))
  {
    hide Inv, Enabled, Step, Work;
    var s := After(h, ranges, es);
    FinishedIffQuiet(h, ranges, es);
    if Work(s) == 0 {
      es' := es;
    } else {
      var e := NextStep(h, ranges, es);
      StepTakesWork(h, ranges, es, e);
      assert (es + [e])[..|es + [e]| - 1] == es;
      es' := CanFinish(h, ranges, es + [e]);
      assert es'[|es|] == (es + [e])[|es|];
    }
  }

  lemma NextStep<C(!new)>(h: Handle<C>, ranges: seq<Range>, es: seq<Event>) returns (e: Event)
    requires GoodRanges(ranges) && Run(h, ranges, es) && Work(After(h, ranges, es)) != 0
    ensures !e.Send? && Enabled(ranges, After(h, ranges, es), e)
  {
    hide Run, After, Work, Enabled;
    FinishedIffQuiet(h, ranges, es);
    RunKeepsInv(h, ranges, es);
    var s := After(h, ranges, es);
    var ts :| 0 <= ts < |s.tracker| && s.tracker[ts] != |ranges|;
    PullDelivers(h, ranges, es, ts);
    SomeStepEnabled(h, ranges, es, ts);
    e :| !e.Send? && Enabled(ranges, s, e);
  }
}
