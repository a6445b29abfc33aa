// Each step of the protocol keeps the invariant.
module KvSteps {
  import opened KvData
  import opened Slicer
  import opened KvStore
  import opened KvProtocol
  import opened Arrangement
  import opened KvInvariant

  // ----- Send -----

  lemma {:induction false} OutgoingIs(ranges: seq<Range>, q: Request, ts: nat, upto: nat)
    requires GoodRanges(ranges) && GoodRequest(ranges, q) && upto <= |ranges|
    ensures forall m :: m in Outgoing(ranges, q, ts, upto) <==>
      m.Ask? && m.ts == ts && m.server < upto && Part(ranges, q, m.server).first
      && m.push == q.push && m.kvs == Part(ranges, q, m.server).second
    ensures forall m :: m in Outgoing(ranges, q, ts, upto) ==> Outgoing(ranges, q, ts, upto)[m] == 1
  {
    hide Part, GoodRequest;
    if upto > 0 {
      OutgoingIs(ranges, q, ts, upto - 1);
    }
  }

  lemma SendBag<C>(ranges: seq<Range>, s: Sys<C>, q: Request)
    requires GoodRanges(ranges) && GoodRequest(ranges, q) && Inv(ranges, s)
    ensures var net', out := SendStep(ranges, s, q).net, Outgoing(ranges, q, |s.log|, |ranges|);
      && (forall x :: x in net' <==> x in s.net || x in out)
      && (forall x :: x in net' ==> net'[x] == 1)
      && (forall x :: x in s.net ==> x.ts < |s.log|)
  {
    hide Part, GoodRequest, RunCallback, Skipped, Outgoing, AnswersPart, Counted, WorkerOk, NothingLost;
    OutgoingIs(ranges, q, |s.log|, |ranges|);
    forall x | x in s.net
      ensures x.ts < |s.log|
    {
      assert MsgOk(ranges, s, x);
    }
  }

  lemma SendNet<C>(ranges: seq<Range>, s: Sys<C>, q: Request)
    requires GoodRanges(ranges) && GoodRequest(ranges, q) && Inv(ranges, s)
    ensures Shapes(ranges, SendStep(ranges, s, q)) && NetOk(ranges, SendStep(ranges, s, q))
  {
    hide Part, GoodRequest, RunCallback, Skipped, Outgoing, AnswersPart, Counted, WorkerOk, NothingLost;
    var s', ts := SendStep(ranges, s, q), |s.log|;
    var out := Outgoing(ranges, q, ts, |ranges|);
    OutgoingIs(ranges, q, ts, |ranges|);
    SendBag(ranges, s, q);
    assert Shapes(ranges, s');
    forall m | m in s'.net
      ensures s'.net[m] == 1 && MsgOk(ranges, s', m) && m.server !in s'.answered[m.ts]
      ensures (m in s.net && m.ts < ts) || (m in out && m.ts == ts)
    {
      if m in s.net {
        assert MsgOk(ranges, s, m);
      }
    }
  }

  lemma SendLosesNothing<C>(ranges: seq<Range>, s: Sys<C>, q: Request)
    requires GoodRanges(ranges) && GoodRequest(ranges, q) && Inv(ranges, s)
    requires Shapes(ranges, SendStep(ranges, s, q))
    ensures NothingLost(ranges, SendStep(ranges, s, q))
  {
    hide Part, GoodRequest, RunCallback, Skipped, Outgoing, Counted, WorkerOk, NetOk;
    var s', ts := SendStep(ranges, s, q), |s.log|;
    OutgoingIs(ranges, q, ts, |ranges|);
    SendBag(ranges, s, q);
    forall t: nat, i: nat | t < |s'.log| && i < |ranges| && Part(ranges, s'.log[t], i).first && i !in s'.answered[t]
      ensures InFlight(s', t, i)
    {
      if t < ts {
        assert InFlight(s, t, i);
        var m :| m in s.net && m.ts == t && m.server == i;
        assert m in s'.net;
      } else {
        assert Ask(ts, i, q.push, Part(ranges, q, i).second) in s'.net;
      }
    }
  }

  lemma SendWorker<C>(ranges: seq<Range>, s: Sys<C>, q: Request)
    requires GoodRanges(ranges) && GoodRequest(ranges, q) && Inv(ranges, s)
    requires Shapes(ranges, SendStep(ranges, s, q))
    ensures var s' := SendStep(ranges, s, q);
      WorkerOk(ranges, s') && forall ts :: 0 <= ts < |s'.log| ==> Counted(ranges, s', ts)
  {
    hide Part, GoodRequest, RunCallback, Skipped, Outgoing, NetOk, NothingLost, CallbackOk;
    var s', ts := SendStep(ranges, s, q), |s.log|;
    var seen: seq<real> := seq(|q.keys|, _ => 0.0);
    var skipped := Skipped(ranges, q, |ranges|);
    CompleteByCount(ranges, q, []);
    var w := if q.Registers() then s.worker.(callbacks := s.worker.callbacks[ts := q]) else s.worker;
    assert Unused(s.worker, ts);
    NewCallback(ranges, s.worker, ts, q, skipped, seen);
    assert CallbackOk(ranges, s'.worker, ts, q, skipped, [], seen) by {
      if skipped == |ranges| {
        assert Stored(ranges, q, [], Got(w, ts), seen);
        CallbackRuns(ranges, w, ts, q, [], seen);
      }
    }
    forall t | 0 <= t < |s'.log|
      ensures CallbackOk(ranges, s'.worker, t, s'.log[t], s'.tracker[t], s'.answered[t], s'.seen[t])
      ensures Counted(ranges, s', t)
    {
      if t < ts {
        assert Counted(ranges, s, t);
        Registering(ranges, s.worker, ts, q, t, s.log[t], s.tracker[t], s.answered[t], s.seen[t]);
        OtherCallbacks(ranges, w, ts, t, s.log[t], s.tracker[t], s.answered[t], s.seen[t]);
      }
    }
    forall t: nat | t >= |s'.log|
      ensures Unused(s'.worker, t)
    {
      assert Unused(s.worker, t);
      UnusedKept(w, ts);
    }
    assert !s'.worker.failed by {
      if skipped == |ranges| {
        assert Stored(ranges, q, [], Got(w, ts), seen);
        CallbackRuns(ranges, w, ts, q, [], seen);
      }
    }
  }

  lemma UnusedKept(w: Worker, ts: nat)
    ensures forall t: nat :: t != ts && Unused(w, t) ==> Unused(RunCallback(w, ts), t)
  {
  }

  lemma NewCallback(ranges: seq<Range>, w0: Worker, ts: nat, q: Request, skipped: nat, seen: seq<real>)
    requires GoodRanges(ranges) && GoodRequest(ranges, q) && |seen| == |q.keys|
    requires Unused(w0, ts) && skipped <= |ranges|
    ensures var w := if q.Registers() then w0.(callbacks := w0.callbacks[ts := q]) else w0;
      skipped < |ranges| ==> CallbackOk(ranges, w, ts, q, skipped, [], seen)
  {
  }

  lemma Registering(ranges: seq<Range>, w0: Worker, ts: nat, q: Request, other: nat, q': Request, count: nat,
          order: seq<nat>, seen: seq<real>)
    requires GoodRanges(ranges) && GoodRequest(ranges, q') && |seen| == |q'.keys| && other != ts
    requires CallbackOk(ranges, w0, other, q', count, order, seen)
    ensures var w := if q.Registers() then w0.(callbacks := w0.callbacks[ts := q]) else w0;
      CallbackOk(ranges, w, other, q', count, order, seen)
  {
    hide Stored, GoodRequest;
  }

  // ----- Serve -----

  /** Two different servers' parts share no key. */
  lemma PartsDisjoint(ranges: seq<Range>, q: Request, i: nat, j: nat, k: nat)
    requires GoodRanges(ranges) && GoodRequest(ranges, q) && i < |ranges| && j < |ranges| && i != j
    requires Pos(q.keys, ranges, j) <= k < Pos(q.keys, ranges, j + 1)
    ensures Pos(q.keys, ranges, i) <= Pos(q.keys, ranges, i + 1)
    ensures q.keys[k] !in q.keys[Pos(q.keys, ranges, i)..Pos(q.keys, ranges, i + 1)]
  {
    hide Pos;
    PosMonotone(q.keys, ranges, i, i + 1);
    if i < j {
      PosMonotone(q.keys, ranges, i + 1, j);
    } else {
      PosMonotone(q.keys, ranges, j + 1, i);
    }
  }

  /** Recording what server i read leaves what server j read. */
  lemma OverlayElsewhere<C>(h: Handle<C>, store: Store<C>, ranges: seq<Range>, q: Request, i: nat, j: nat,
          seen: seq<real>)
    requires GoodRanges(ranges) && GoodRequest(ranges, q) && i < |ranges| && j < |ranges| && i != j
    requires |seen| == |q.keys| && Part(ranges, q, i).first
    ensures var lo, hi := Pos(q.keys, ranges, j), Pos(q.keys, ranges, j + 1);
      lo <= hi && Overlay(h, store, q.keys, seen, Part(ranges, q, i).second.keys)[lo..hi] == seen[lo..hi]
  {
    hide Part, GoodRequest, Pos;
    PartIs(ranges, q, i);
    PartIs(ranges, q, j);
    var after := Overlay(h, store, q.keys, seen, Part(ranges, q, i).second.keys);
    var lo, hi := Pos(q.keys, ranges, j), Pos(q.keys, ranges, j + 1);
    forall k | lo <= k < hi
      ensures after[k] == seen[k]
    {
      PartsDisjoint(ranges, q, i, j, k);
    }
    assert after[lo..hi] == seen[lo..hi];
  }

  /** So what server j answered stays recorded. */
  lemma OverlayKeeps<C>(h: Handle<C>, store: Store<C>, ranges: seq<Range>, q: Request, i: nat, j: nat,
          kvs: KVPairs<real>, seen: seq<real>)
    requires GoodRanges(ranges) && GoodRequest(ranges, q) && i < |ranges| && j < |ranges| && i != j
    requires |seen| == |q.keys| && AnswersPart(ranges, q, j, kvs, seen)
    requires Part(ranges, q, i).first
    ensures AnswersPart(ranges, q, j, kvs, Overlay(h, store, q.keys, seen, Part(ranges, q, i).second.keys))
  {
    hide Part, GoodRequest, Pos, Overlay;
    OverlayElsewhere(h, store, ranges, q, i, j, seen);
  }

  /** What server i answers is what is recorded. */
  lemma OverlayAnswers<C>(h: Handle<C>, store: Store<C>, ranges: seq<Range>, q: Request, i: nat, seen: seq<real>)
    requires GoodRanges(ranges) && GoodRequest(ranges, q) && i < |ranges| && |seen| == |q.keys|
    requires Part(ranges, q, i).first
    ensures var keys := Part(ranges, q, i).second.keys;
      AnswersPart(ranges, q, i, KVPairs(keys, Read(h, store, keys), []), Overlay(h, store, q.keys, seen, keys))
  {
    hide Part, GoodRequest, Pos, Overlay, Read;
    PartIs(ranges, q, i);
    OverlaySegment(h, store, q.keys, seen, Pos(q.keys, ranges, i), Pos(q.keys, ranges, i + 1));
  }

  lemma OverlaySegment<C>(h: Handle<C>, store: Store<C>, keys: seq<Key>, seen: seq<real>, lo: nat, hi: nat)
    requires |seen| == |keys| && lo <= hi <= |keys|
    ensures Overlay(h, store, keys, seen, keys[lo..hi])[lo..hi] == Read(h, store, keys[lo..hi])
  {
    var part := keys[lo..hi];
    var after, vals := Overlay(h, store, keys, seen, part), Read(h, store, part);
    forall k | 0 <= k < hi - lo
      ensures vals[k] == after[lo + k]
    {
      assert part[k] == keys[lo + k] && part[k] in part;
    }
    assert vals == after[lo..hi];
  }

  /** While a server's answer is missing, the count stays below n. */
  lemma StillWaiting<C>(ranges: seq<Range>, s: Sys<C>, ts: nat, i: nat)
    requires GoodRanges(ranges) && Shapes(ranges, s) && ts < |s.log| && i < |ranges|
    requires Counted(ranges, s, ts) && Part(ranges, s.log[ts], i).first && i !in s.answered[ts]
    ensures s.tracker[ts] < |ranges|
    ensures var order := s.answered[ts] + [i];
      && Distinct(order)
      && (forall j :: 0 <= j < |order| ==> order[j] < |ranges| && Part(ranges, s.log[ts], order[j]).first)
      && (s.tracker[ts] + 1 == |ranges| <==> Complete(ranges, s.log[ts], order))
  {
    hide Part, Skipped, Complete, GoodRequest;
    CompleteByCount(ranges, s.log[ts], s.answered[ts] + [i]);
  }

  /** What a server does to the state, in the invariant's terms. */
  lemma ServeEffect<C>(h: Handle<C>, ranges: seq<Range>, s: Sys<C>, m: Msg)
    requires GoodRanges(ranges) && Inv(ranges, s) && Enabled(ranges, s, Serve(m))
    ensures m.ts < |s.log| && m.server < |ranges| && Part(ranges, s.log[m.ts], m.server).first
    ensures m.kvs == Part(ranges, s.log[m.ts], m.server).second && m.push == s.log[m.ts].push
    ensures m.server !in s.answered[m.ts]
    ensures var s' := ServeStep(h, s, m);
      && Shapes(ranges, s')
      && s'.worker == s.worker && s'.tracker == s.tracker && s'.log == s.log && s'.answered == s.answered
      && s'.seen == if m.push then s.seen
           else s.seen[m.ts := Overlay(h, s.servers[m.server], s.log[m.ts].keys, s.seen[m.ts], m.kvs.keys)]
  {
    hide Part, GoodRequest, NothingLost, WorkerOk, Counted, PushAll, PullAll, Overlay, Read, AnswersPart;
    assert MsgOk(ranges, s, m);
  }

  /** One message leaves the bag and one enters. */
  lemma SwapMessage(net: multiset<Msg>, m: Msg, reply: Msg)
    requires m in net && reply !in net && forall x :: x in net ==> net[x] == 1
    ensures var net' := net - multiset{m} + multiset{reply};
      && (forall x :: x in net' <==> (x in net && x != m) || x == reply)
      && (forall x :: x in net' ==> net'[x] == 1)
  {
  }

  /** The answer a server sends. */
  function Answer<C>(h: Handle<C>, s: Sys<C>, m: Msg): Msg
    requires m.Ask? && m.server < |s.servers|
  {
    Reply(m.ts, m.server, m.push,
      if m.push then Empty() else KVPairs(m.kvs.keys, Read(h, s.servers[m.server], m.kvs.keys), []))
  }

  lemma ServeBag<C>(h: Handle<C>, ranges: seq<Range>, s: Sys<C>, m: Msg)
    requires GoodRanges(ranges) && Inv(ranges, s) && Enabled(ranges, s, Serve(m))
    ensures var net', reply := ServeStep(h, s, m).net, Answer(h, s, m);
      && reply !in s.net
      && (forall x :: x in net' <==> (x in s.net && x != m) || x == reply)
      && (forall x :: x in net' ==> net'[x] == 1)
  {
    hide Part, GoodRequest, NothingLost, WorkerOk, Counted, PushAll, PullAll, Overlay, Read, MsgOk;
    var reply := Answer(h, s, m);
    assert reply !in s.net;
    SwapMessage(s.net, m, reply);
    assert ServeStep(h, s, m).net == s.net - multiset{m} + multiset{reply};
  }

  /** The other messages stay what they were, the answer is what was read. */
  lemma ServeMessages<C>(h: Handle<C>, ranges: seq<Range>, s: Sys<C>, m: Msg, x: Msg)
    requires GoodRanges(ranges) && Inv(ranges, s) && Enabled(ranges, s, Serve(m))
    requires Shapes(ranges, ServeStep(h, s, m))
    requires (x in s.net && x != m) || x == Answer(h, s, m)
    ensures MsgOk(ranges, ServeStep(h, s, m), x)
    ensures x.ts < |s.answered| && x.server !in s.answered[x.ts]
    ensures x.ts == m.ts && x.server == m.server ==> x == Answer(h, s, m)
  {
    hide Part, GoodRequest, NothingLost, WorkerOk, Counted, PushAll, PullAll, Overlay, Read, AnswersPart, ServeStep;
    ServeEffect(h, ranges, s, m);
    var q := s.log[m.ts];
    if x == Answer(h, s, m) {
      if !m.push {
        OverlayAnswers(h, s.servers[m.server], ranges, q, m.server, s.seen[m.ts]);
      }
    } else {
      assert MsgOk(ranges, s, x);
      if x.Reply? && !x.push && !m.push && x.ts == m.ts {
        OverlayKeeps(h, s.servers[m.server], ranges, q, m.server, x.server, x.kvs, s.seen[m.ts]);
      }
    }
  }

  lemma ServeNet<C>(h: Handle<C>, ranges: seq<Range>, s: Sys<C>, m: Msg)
    requires GoodRanges(ranges) && Inv(ranges, s) && Enabled(ranges, s, Serve(m))
    ensures Shapes(ranges, ServeStep(h, s, m)) && NetOk(ranges, ServeStep(h, s, m))
  {
    hide Part, GoodRequest, WorkerOk, Counted, ServeStep, MsgOk, NothingLost;
    ServeEffect(h, ranges, s, m);
    ServeBag(h, ranges, s, m);
    var s' := ServeStep(h, s, m);
    forall x | x in s'.net
      ensures s'.net[x] == 1 && MsgOk(ranges, s', x)
      ensures x.ts < |s'.answered| && x.server !in s'.answered[x.ts]
      ensures x.ts == m.ts && x.server == m.server ==> x == Answer(h, s, m)
    {
      ServeMessages(h, ranges, s, m, x);
    }
  }

  lemma ServeLosesNothing<C>(h: Handle<C>, ranges: seq<Range>, s: Sys<C>, m: Msg)
    requires GoodRanges(ranges) && Inv(ranges, s) && Enabled(ranges, s, Serve(m))
    requires Shapes(ranges, ServeStep(h, s, m))
    ensures NothingLost(ranges, ServeStep(h, s, m))
  {
    hide Part, GoodRequest, WorkerOk, Counted, ServeStep, MsgOk, NetOk, Read;
    ServeEffect(h, ranges, s, m);
    ServeBag(h, ranges, s, m);
    var s' := ServeStep(h, s, m);
    forall ts: nat, i: nat | ts < |s'.log| && i < |ranges| && Part(ranges, s'.log[ts], i).first && i !in s'.answered[ts]
      ensures InFlight(s', ts, i)
    {
      assert InFlight(s, ts, i);
      var x :| x in s.net && x.ts == ts && x.server == i;
      assert x in s'.net || (x == m && Answer(h, s, m) in s'.net);
    }
  }

  lemma ServeWorker<C>(h: Handle<C>, ranges: seq<Range>, s: Sys<C>, m: Msg)
    requires GoodRanges(ranges) && Inv(ranges, s) && Enabled(ranges, s, Serve(m))
    requires Shapes(ranges, ServeStep(h, s, m))
    ensures var s' := ServeStep(h, s, m);
      WorkerOk(ranges, s') && forall ts :: 0 <= ts < |s'.log| ==> Counted(ranges, s', ts)
  {
    hide Part, GoodRequest, NetOk, NothingLost, PushAll, PullAll, Overlay, Read, CallbackOk, Skipped, ServeStep;
    ServeEffect(h, ranges, s, m);
    var s', ts := ServeStep(h, s, m), m.ts;
    StillWaiting(ranges, s, ts, m.server);
    if !m.push {
      CallbackAfterServe(h, s.servers[m.server], ranges, s.worker, ts, s.log[ts], s.tracker[ts], s.answered[ts],
        s.seen[ts], m.server);
    }
    forall t | 0 <= t < |s'.log|
      ensures CallbackOk(ranges, s'.worker, t, s'.log[t], s'.tracker[t], s'.answered[t], s'.seen[t])
      ensures Counted(ranges, s', t)
    {
      assert Counted(ranges, s, t);
      assert CallbackOk(ranges, s.worker, t, s.log[t], s.tracker[t], s.answered[t], s.seen[t]);
    }
  }

  lemma CallbackAfterServe<C>(h: Handle<C>, store: Store<C>, ranges: seq<Range>, w: Worker, ts: nat, q: Request,
          count: nat,
                              order: seq<nat>, seen: seq<real>, i: nat)
    requires GoodRanges(ranges) && GoodRequest(ranges, q) && |seen| == |q.keys| && i < |ranges|
    requires count < |ranges| && CallbackOk(ranges, w, ts, q, count, order, seen)
    requires Part(ranges, q, i).first && i !in order && !q.push
    ensures CallbackOk(ranges, w, ts, q, count, order, Overlay(h, store, q.keys, seen, Part(ranges, q, i).second.keys))
  {
    hide Part, GoodRequest, Overlay, AnswersPart;
    var got := Got(w, ts);
    forall j | 0 <= j < |got|
      ensures AnswersPart(ranges, q, order[j], got[j], Overlay(h, store, q.keys, seen, Part(ranges, q, i).second.keys))
    {
      assert order[j] in order;
      OverlayKeeps(h, store, ranges, q, i, order[j], got[j], seen);
    }
  }

  // ----- Receive -----

  lemma ReceiveBag<C>(ranges: seq<Range>, s: Sys<C>, m: Msg)
    requires GoodRanges(ranges) && Inv(ranges, s) && Enabled(ranges, s, Receive(m))
    ensures var net' := ReceiveStep(ranges, s, m).net;
      && (forall x :: x in net' <==> x in s.net && x != m)
      && (forall x :: x in net' ==> net'[x] == 1)
  {
    hide Part, GoodRequest, NothingLost, WorkerOk, Counted, Process, MsgOk;
    assert ReceiveStep(ranges, s, m).net == s.net - multiset{m};
    assert s.net[m] == 1;
  }

  /** What processing an answer does outside the worker's maps. */
  lemma ReceiveEffect<C>(ranges: seq<Range>, s: Sys<C>, m: Msg)
    requires GoodRanges(ranges) && Inv(ranges, s) && Enabled(ranges, s, Receive(m))
    ensures m.ts < |s.log| && MsgOk(ranges, s, m) && m.server !in s.answered[m.ts]
    ensures var s' := ReceiveStep(ranges, s, m);
      && Shapes(ranges, s')
      && s'.log == s.log && s'.seen == s.seen && s'.servers == s.servers
      && s'.answered == s.answered[m.ts := s.answered[m.ts] + [m.server]]
      && s'.tracker == s.tracker[m.ts := s.tracker[m.ts] + 1]
      && s'.worker == Process(s.worker, |ranges|, s.tracker[m.ts], m)
  {
    hide Part, GoodRequest, NothingLost, WorkerOk, Counted, Process, AnswersPart;
    assert MsgOk(ranges, s, m);
  }

  lemma ReceiveNet<C>(ranges: seq<Range>, s: Sys<C>, m: Msg)
    requires GoodRanges(ranges) && Inv(ranges, s) && Enabled(ranges, s, Receive(m))
    ensures var s' := ReceiveStep(ranges, s, m);
      Shapes(ranges, s') && NetOk(ranges, s')
  {
    hide Part, GoodRequest, NothingLost, WorkerOk, Counted, Process, AnswersPart, ReceiveStep;
    ReceiveEffect(ranges, s, m);
    ReceiveBag(ranges, s, m);
    var s' := ReceiveStep(ranges, s, m);
    forall x | x in s'.net
      ensures s'.net[x] == 1 && MsgOk(ranges, s', x) && x.server !in s'.answered[x.ts]
    {
      assert MsgOk(ranges, s, x);
    }
  }

  lemma ReceiveLosesNothing<C>(ranges: seq<Range>, s: Sys<C>, m: Msg)
    requires GoodRanges(ranges) && Inv(ranges, s) && Enabled(ranges, s, Receive(m))
    requires Shapes(ranges, ReceiveStep(ranges, s, m))
    ensures NothingLost(ranges, ReceiveStep(ranges, s, m))
  {
    hide Part, GoodRequest, WorkerOk, Counted, Process, AnswersPart, ReceiveStep, NetOk, MsgOk;
    ReceiveEffect(ranges, s, m);
    ReceiveBag(ranges, s, m);
    var s' := ReceiveStep(ranges, s, m);
    forall ts: nat, i: nat | ts < |s'.log| && i < |ranges| && Part(ranges, s'.log[ts], i).first && i !in s'.answered[ts]
      ensures InFlight(s', ts, i)
    {
      assert ts == m.ts ==> i != m.server && i !in s.answered[ts];
      assert InFlight(s, ts, i);
      var x :| x in s.net && x.ts == ts && x.server == i;
      assert x in s'.net;
    }
  }

  lemma ReceiveWorker<C>(ranges: seq<Range>, s: Sys<C>, m: Msg)
    requires GoodRanges(ranges) && Inv(ranges, s) && Enabled(ranges, s, Receive(m))
    requires Shapes(ranges, ReceiveStep(ranges, s, m))
    ensures var s' := ReceiveStep(ranges, s, m);
      WorkerOk(ranges, s') && forall ts :: 0 <= ts < |s'.log| ==> Counted(ranges, s', ts)
  {
    hide Part, GoodRequest, NothingLost, NetOk, CallbackOk, Skipped, Process, AnswersPart, ReceiveStep;
    ReceiveEffect(ranges, s, m);
    var s', ts := ReceiveStep(ranges, s, m), m.ts;
    var q, count, order, seen := s.log[ts], s.tracker[ts], s.answered[ts], s.seen[ts];
    StillWaiting(ranges, s, ts, m.server);
    ProcessOk(ranges, s.worker, ts, q, count, order, seen, m);
    forall t | 0 <= t < |s'.log|
      ensures CallbackOk(ranges, s'.worker, t, s'.log[t], s'.tracker[t], s'.answered[t], s'.seen[t])
      ensures Counted(ranges, s', t)
    {
      assert Counted(ranges, s, t);
      if t != ts {
        ProcessOthers(ranges, s.worker, count, m, t, s.log[t], s.tracker[t], s.answered[t], s.seen[t]);
      }
    }
    forall t: nat | t >= |s.log|
      ensures Unused(s'.worker, t)
    {
      ProcessUnused(ranges, s.worker, count, m, t);
    }
  }

  /** Processing one answer: store it, and with the last one run the callback. */
  lemma ProcessOk(ranges: seq<Range>, w: Worker, ts: nat, q: Request, count: nat, order: seq<nat>, seen: seq<real>,
          m: Msg)
    requires GoodRanges(ranges) && GoodRequest(ranges, q) && |seen| == |q.keys|
    requires !w.failed && count < |ranges| && CallbackOk(ranges, w, ts, q, count, order, seen)
    requires m.ts == ts && m.push == q.push && m.server < |ranges|
    requires Part(ranges, q, m.server).first
    requires !m.push ==> AnswersPart(ranges, q, m.server, m.kvs, seen)
    requires count + 1 == |ranges| <==> Complete(ranges, q, order + [m.server])
    ensures var w' := Process(w, |ranges|, count, m);
      !w'.failed && CallbackOk(ranges, w', ts, q, count + 1, order + [m.server], seen)
  {
    hide Part, GoodRequest, Complete, RunCallback, AnswersPart;
    var stored :=
      if !m.push && m.kvs.keys != [] then w.(recv := w.recv[m.ts := Got(w, m.ts) + [m.kvs]]) else w;
    if !m.push {
      AnswerNotEmpty(ranges, q, m.server, m.kvs, seen);
      assert Stored(ranges, q, order + [m.server], Got(stored, ts), seen);
    }
    if count + 1 == |ranges| {
      CallbackRuns(ranges, stored, ts, q, order + [m.server], seen);
    }
  }

  lemma AnswerNotEmpty(ranges: seq<Range>, q: Request, i: nat, kvs: KVPairs<real>, seen: seq<real>)
    requires GoodRanges(ranges) && GoodRequest(ranges, q) && |seen| == |q.keys| && i < |ranges|
    requires Part(ranges, q, i).first && AnswersPart(ranges, q, i, kvs, seen)
    ensures kvs.keys != []
  {
    hide Part, GoodRequest;
    PartIs(ranges, q, i);
  }

  lemma ProcessOthers(ranges: seq<Range>, w: Worker, count: nat, m: Msg, t: nat, q: Request, count': nat,
          order: seq<nat>, seen: seq<real>)
    requires GoodRanges(ranges) && GoodRequest(ranges, q) && |seen| == |q.keys| && t != m.ts
    requires CallbackOk(ranges, w, t, q, count', order, seen)
    ensures CallbackOk(ranges, Process(w, |ranges|, count, m), t, q, count', order, seen)
  {
    hide GoodRequest, RunCallback, Stored;
    var stored :=
      if !m.push && m.kvs.keys != [] then w.(recv := w.recv[m.ts := Got(w, m.ts) + [m.kvs]]) else w;
    assert CallbackOk(ranges, stored, t, q, count', order, seen);
    OtherCallbacks(ranges, stored, m.ts, t, q, count', order, seen);
  }

  lemma ProcessUnused(ranges: seq<Range>, w: Worker, count: nat, m: Msg, t: nat)
    requires t != m.ts && Unused(w, t)
    ensures Unused(Process(w, |ranges|, count, m), t)
  {
    hide RunCallback;
    var stored :=
      if !m.push && m.kvs.keys != [] then w.(recv := w.recv[m.ts := Got(w, m.ts) + [m.kvs]]) else w;
    UnusedKept(stored, m.ts);
  }

  // ----- every step, every run -----

  lemma StepKeepsInv<C>(h: Handle<C>, ranges: seq<Range>, s: Sys<C>, e: Event)
    requires GoodRanges(ranges) && Inv(ranges, s) && Enabled(ranges, s, e)
    ensures Inv(ranges, Step(h, ranges, s, e))
  {
    hide Shapes, NetOk, NothingLost, WorkerOk, SendStep, ServeStep, ReceiveStep;
    match e
    case Send(q) =>
      SendNet(ranges, s, q);
      SendLosesNothing(ranges, s, q);
      SendWorker(ranges, s, q);
    case Serve(m) =>
      ServeNet(h, ranges, s, m);
      ServeLosesNothing(h, ranges, s, m);
      ServeWorker(h, ranges, s, m);
    case Receive(m) =>
      ReceiveNet(ranges, s, m);
      ReceiveLosesNothing(ranges, s, m);
      ReceiveWorker(ranges, s, m);
  }
}
