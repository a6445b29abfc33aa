// From log lines to a learner's updates: the parser's batches (Batching) handed over under
// any interleaving of the two threads (Handoff).
module Pipeline {
  import opened Wrappers
  import opened KvData
  import opened Batching
  import opened Handoff
  import Delivery
  import Fleet
  import KvProtocol
  import LearnerMath
  import LearnerUpdate
  import MessageParse
  import ParserBuffers

  function AllGiven(batches: seq<Batch>, learner: nat): (r: seq<seq<Stored>>)
    ensures |r| == |batches| && forall b :: 0 <= b < |r| ==> r[b] == Given(batches[b].Items(), learner)
  {
    seq(|batches|, b requires 0 <= b < |batches| => Given(batches[b].Items(), learner))
  }

  lemma KeepIs(items: seq<Item>, learner: nat)
    ensures Keep(items, learner) == Kept(Given(items, learner))
  {
  }

  function Joined(batches: seq<seq<Stored>>): seq<Stored> {
    if batches == [] then [] else Joined(batches[..|batches| - 1]) + batches[|batches| - 1]
  }

  lemma {:induction false} JoinedIsStored(processed: seq<seq<Stored>>, batches: seq<Batch>, learner: nat)
    requires |processed| == |batches|
    requires forall b :: 0 <= b < |batches| ==> processed[b] == Keep(batches[b].Items(), learner)
    ensures Joined(processed) == StoredBy(batches, learner)
    decreases |batches|
  {
    if batches != [] {
      hide Keep, Joined, StoredBy;
      var last := |batches| - 1;
      JoinedIsStored(processed[..last], batches[..last], learner);
      JoinedStep(processed, batches, learner);
    }
  }

  lemma JoinedStep(processed: seq<seq<Stored>>, batches: seq<Batch>, learner: nat)
    requires processed != [] && batches != []
    ensures Joined(processed) == Joined(processed[..|processed| - 1]) + processed[|processed| - 1]
    ensures StoredBy(batches, learner)
         == StoredBy(batches[..|batches| - 1], learner) + Keep(batches[|batches| - 1].Items(), learner)
  {
  }

  /** Every flush fits the learner's sample buffer. */
  lemma FlushesFit(ms: seq<Message>, learner: nat)
    ensures var given := AllGiven(Batching.After(ms).1, learner);
      forall b :: 0 <= b < |given| ==> |given[b]| <= CAPACITY
  {
    hide Batching.After;
    RunBounds(ms);
  }

  /**
   * Whatever lines arrive and however the two threads interleave: once neither thread can go
   * on, the learner has updated on exactly the accepted samples that carry a label for it,
   * each once, except those still waiting in the parser for the next flush.
   */
  lemma LearnerSeesEverything(ms: seq<Message>, learner: nat, samples: seq<Stored>, es: seq<Step>)
    requires |samples| == CAPACITY
    requires Run(Init(AllGiven(Batching.After(ms).1, learner), samples), es)
    requires var s := Handoff.After(Init(AllGiven(Batching.After(ms).1, learner), samples), es);
      !s.exiting && forall e :: e != Exit ==> !Enabled(s, e)
    ensures var (st, batches) := Batching.After(ms);
      var s := Handoff.After(Init(AllGiven(batches, learner), samples), es);
      multiset(Joined(s.processed)) + multiset(Keep(st.imps, learner)) + multiset(Keep(st.bhvs, learner))
      == multiset(Keep(Expected(ms, Impression), learner)) + multiset(Keep(Expected(ms, Behaviour), learner))
  {
    hide Run, Handoff.After, Batching.After, Keep, Kept, Joined, StoredBy, Expected;
    var batches := Batching.After(ms).1;
    var input := AllGiven(batches, learner);
    FlushesFit(ms, learner);
    SomeStepEnabled(input, samples, es);
    ProcessedInOrder(input, samples, es);
    var s := Handoff.After(Init(input, samples), es);
    forall b | 0 <= b < |batches|
      ensures s.processed[b] == Keep(batches[b].Items(), learner)
    {
      KeepIs(batches[b].Items(), learner);
    }
    JoinedIsStored(s.processed, batches, learner);
    NothingLostOrDuplicated(ms, learner);
  }

  /** What each of n learners is given. */
  function Inputs(ms: seq<Message>, n: nat): (r: seq<seq<seq<Stored>>>)
    ensures |r| == n && forall l :: 0 <= l < n ==> r[l] == AllGiven(Batching.After(ms).1, l)
  {
    seq(n, l requires 0 <= l < n => AllGiven(Batching.After(ms).1, l))
  }

  lemma InputsFit(ms: seq<Message>, samples: seq<seq<Stored>>)
    requires samples != [] && forall l :: 0 <= l < |samples| ==> |samples[l]| == CAPACITY
    ensures Fleet.SameFlushes(Inputs(ms, |samples|), samples, |Batching.After(ms).1|)
  {
    hide Batching.After;
    forall l | 0 <= l < |samples|
      ensures forall b :: 0 <= b < |Batching.After(ms).1| ==> |Inputs(ms, |samples|)[l][b]| <= CAPACITY
    {
      FlushesFit(ms, l);
    }
  }

  /**
   * The same for all learners behind the one parser thread: however the parser and all learner
   * threads interleave, once no thread can go on, every learner has seen everything.
   */
  lemma EveryLearnerSeesEverything(ms: seq<Message>, samples: seq<seq<Stored>>, moves: seq<Fleet.Move>, l: nat)
    requires l < |samples| && forall x :: 0 <= x < |samples| ==> |samples[x]| == CAPACITY
    requires Fleet.GroupRun(Fleet.Start(Inputs(ms, |samples|), samples), moves)
    requires var g := Fleet.GroupAfter(Fleet.Start(Inputs(ms, |samples|), samples), moves);
      && (forall x :: 0 <= x < |g.learners| ==> !g.learners[x].exiting)
      && (forall m :: m != Fleet.ExitAll ==> !Fleet.Can(g, m))
    ensures var st := Batching.After(ms).0;
      var s := Fleet.GroupAfter(Fleet.Start(Inputs(ms, |samples|), samples), moves).learners[l];
      multiset(Joined(s.processed)) + multiset(Keep(st.imps, l)) + multiset(Keep(st.bhvs, l))
      == multiset(Keep(Expected(ms, Impression), l)) + multiset(Keep(Expected(ms, Behaviour), l))
  {
    hide Fleet.GroupRun, Fleet.GroupAfter, Fleet.Can, Fleet.SameFlushes, Fleet.Own, Run, Handoff.After;
    hide Batching.After, Keep, Joined, Expected, Enabled;
    var inputs, flushes := Inputs(ms, |samples|), |Batching.After(ms).1|;
    InputsFit(ms, samples);
    Fleet.SomeMove(inputs, samples, flushes, moves);
    Fleet.OwnRun(Fleet.Start(inputs, samples), moves, l);
    FlushesFit(ms, l);
    SomeStepEnabled(inputs[l], samples[l], Fleet.Own(moves, l));
    LearnerSeesEverything(ms, l, samples[l], Fleet.Own(moves, l));
  }

  /**
   * In the messages' own fields: what a learner has processed, with what waits for it, is one sample
   * for each message that arrives and has a label for it, holding all its features, its rate and
   * that label.
   */
  lemma EveryLearnerGetsItsMessages(ms: seq<Message>, samples: seq<seq<Stored>>, moves: seq<Fleet.Move>, l: nat)
    returns (imps: seq<nat>, bhvs: seq<nat>, fromImps: seq<Stored>, fromBhvs: seq<Stored>)
    requires l < |samples| && forall x :: 0 <= x < |samples| ==> |samples[x]| == CAPACITY
    requires Fleet.GroupRun(Fleet.Start(Inputs(ms, |samples|), samples), moves)
    requires var g := Fleet.GroupAfter(Fleet.Start(Inputs(ms, |samples|), samples), moves);
      && (forall x :: 0 <= x < |g.learners| ==> !g.learners[x].exiting)
      && (forall m :: m != Fleet.ExitAll ==> !Fleet.Can(g, m))
    ensures var st := Batching.After(ms).0;
      var s := Fleet.GroupAfter(Fleet.Start(Inputs(ms, |samples|), samples), moves).learners[l];
      multiset(Joined(s.processed)) + multiset(Keep(st.imps, l)) + multiset(Keep(st.bhvs, l))
      == multiset(fromImps) + multiset(fromBhvs)
    ensures Delivery.Places(imps, ms) && Delivery.Places(bhvs, ms)
    ensures forall i: nat :: i < |ms| ==> (i in imps <==> Delivery.ArrivesFor(ms, Impression, l, i))
    ensures forall i: nat :: i < |ms| ==> (i in bhvs <==> Delivery.ArrivesFor(ms, Behaviour, l, i))
    ensures |fromImps| == |imps| && |fromBhvs| == |bhvs|
    ensures forall a :: 0 <= a < |imps| ==> Delivery.IsStoredOf(fromImps[a], ms[imps[a]], l)
    ensures forall a :: 0 <= a < |bhvs| ==> Delivery.IsStoredOf(fromBhvs[a], ms[bhvs[a]], l)
  {
    hide Fleet.GroupRun, Fleet.GroupAfter, Fleet.Can, Batching.After, Keep, Joined, Expected, Inputs;
    hide Delivery.ArrivesFor, Delivery.IsStoredOf;
    EveryLearnerSeesEverything(ms, samples, moves, l);
    imps := Delivery.KeptFrom(ms, Impression, l);
    bhvs := Delivery.KeptFrom(ms, Behaviour, l);
    fromImps, fromBhvs := Keep(Expected(ms, Impression), l), Keep(Expected(ms, Behaviour), l);
  }

  /**
   * What a learner pulls and pushes for a batch is a request the key-value store is made for:
   * distinct increasing keys that have a server, and one value per key.
   */
  lemma BatchIsGoodRequest(ranges: seq<Range>, ss: seq<LearnerMath.LSample>)
    requires KvProtocol.GoodRanges(ranges) && ranges[0].begin == 0
    requires LearnerMath.INT_LIMIT <= ranges[|ranges| - 1].end
    requires LearnerMath.SmallFeatures(ss)
    ensures var keys := LearnerMath.BatchKeys(ss);
      && keys != [] && LearnerMath.Known(keys, ss)
      && KvProtocol.GoodRequest(ranges, KvProtocol.Request(false, keys, [], false))
      && KvProtocol.GoodRequest(ranges, KvProtocol.Request(true, keys, LearnerMath.Gradient(keys, ss), false))
  {
    hide LearnerMath.BatchKeys, LearnerMath.Gradient;
    LearnerMath.BatchKeysAre(ss);
    forall k | k in LearnerMath.BatchKeys(ss)
      ensures ranges[0].begin <= k < ranges[|ranges| - 1].end
    {
      if k != 0 {
        var i :| 0 <= i < |ss| && k in ss[i].mem;
        var j :| 0 <= j < |ss[i].mem| && ss[i].mem[j] == k;
      }
    }
  }

  // ----- every flush of a run meets what update needs -----

  /** At most 1000 features, all below 2^31. */
  predicate Small(mem: seq<Key>) {
    |mem| <= 1000 && forall j :: 0 <= j < |mem| ==> mem[j] < LearnerMath.INT_LIMIT
  }

  predicate SmallItems(items: seq<Item>) {
    forall i :: 0 <= i < |items| ==> Small(items[i].sample.mem)
  }

  predicate SmallMessages(ms: seq<Message>) {
    forall i :: 0 <= i < |ms| ==> Small(ms[i].features)
  }

  /** The text of a log message, its kind, and the labels the learners give it. */
  datatype Raw = Raw(kind: Kind, text: string, labels: seq<int>)

  /** The messages of a list of texts, each of which is parsed inside its bounds. */
  ghost predicate ParsedFrom(env: MessageParse.Env, raws: seq<Raw>, ms: seq<Message>)
    requires env.Ok()
  {
    && |ms| == |raws|
    && forall i :: 0 <= i < |raws| ==>
      && MessageParse.InBounds(env, raws[i].kind, raws[i].text)
      && ms[i] == MessageParse.Parse(env, raws[i].kind, raws[i].text, raws[i].labels)
  }

  /** Messages parsed from text are small if none has more than 1000 features. */
  lemma ParsedAreSmall(env: MessageParse.Env, raws: seq<Raw>, ms: seq<Message>)
    requires env.Ok() && ParsedFrom(env, raws, ms)
    ensures SmallMessages(ms) <==> forall i :: 0 <= i < |ms| ==> |ms[i].features| <= 1000
  {
    hide MessageParse.Parse, MessageParse.InBounds, MessageParse.Env.Ok;
    forall i | 0 <= i < |ms|
      ensures Small(ms[i].features) <==> |ms[i].features| <= 1000
    {
      MessageParse.ParsedFeaturesAreSmall(env, raws[i].kind, raws[i].text, raws[i].labels);
    }
  }

  /**
   * One text through the parser object: the batching step of the message it stands for, unless an
   * element that is not there is read or a sample has more features than memory.
   */
  method ProcessText(parser: ParserBuffers.Parser, env: MessageParse.Env, raw: Raw)
    returns (inBounds: bool, out: Option<ParserBuffers.Flush>)
    requires parser.Valid() && env.Ok() && |raw.labels| == parser.appnum
    modifies parser, parser.sample0, parser.sample1, parser.ysImp, parser.ysBhv
    ensures !MessageParse.InBounds(env, raw.kind, raw.text) ==> !inBounds
    ensures MessageParse.InBounds(env, raw.kind, raw.text) ==>
      var m := MessageParse.Parse(env, raw.kind, raw.text, raw.labels);
      && (inBounds <==> (Taken(old(parser.View()), m) ==> |m.features| <= 1000))
      && (inBounds ==> parser.Valid() && parser.View() == Batching.Process(old(parser.View()), m).0)
      && (inBounds ==> (out.Some? <==> Batching.Process(old(parser.View()), m).1.Some?))
      && (inBounds && out.Some? ==> ParserBuffers.IsFlushOf(out.value,
            Batching.Process(old(parser.View()), m).1.value.Items(), parser.appnum))
  {
    hide MessageParse.Parse, MessageParse.InBounds, MessageParse.Env.Ok, Batching.Process, Taken;
    hide ParserBuffers.IsFlushOf;
    inBounds, out := false, None;
    var m := MessageParse.ParseMessage(env, raw.kind, raw.text, raw.labels);
    if m.Some? {
      MessageParse.ParsedLabels(env, raw.kind, raw.text, raw.labels);
      inBounds, out := parser.Process(m.value);
    }
  }

  lemma {:induction false} FlushesSmall(ms: seq<Message>)
    requires SmallMessages(ms)
    ensures SmallItems(Batching.After(ms).0.imps) && SmallItems(Batching.After(ms).0.bhvs)
    ensures forall b :: 0 <= b < |Batching.After(ms).1| ==> SmallItems(Batching.After(ms).1[b].Items())
    decreases |ms|
  {
    hide Small, Taken;
    if ms != [] {
      FlushesSmall(ms[..|ms| - 1]);
    }
  }

  lemma {:induction false} KeptSmall(items: seq<Item>, learner: nat)
    requires SmallItems(items)
    ensures forall i :: 0 <= i < |Keep(items, learner)| ==> Small(Keep(items, learner)[i].0.mem)
    decreases |items|
  {
    hide Small, LabelOf;
    if items != [] {
      var last := |items| - 1;
      KeptSmall(items[..last], learner);
      assert items[..last] + [items[last]] == items;
      KeepSnoc(items[..last], items[last], learner);
    }
  }

  /** Stored samples, before update predicts them. */
  function Unpredicted(kept: seq<Stored>): (r: seq<LearnerMath.LSample>)
    ensures |r| == |kept|
  {
    seq(|kept|, j requires 0 <= j < |kept| => LearnerMath.LSample(kept[j].1, kept[j].0.ctr, kept[j].0.mem, 0.0))
  }

  /** What learner `learner` stores of flush b. */
  function FlushFor(ms: seq<Message>, b: nat, learner: nat): seq<LearnerMath.LSample>
    requires b < |Batching.After(ms).1|
  {
    Unpredicted(Keep(Batching.After(ms).1[b].Items(), learner))
  }

  /**
   * Whatever lines arrive, each with at most 1000 features below 2^31: every flush fits every
   * learner's flat buffer, its positions are exact in a float, and its keys survive the int.
   */
  lemma EveryFlushFits(ms: seq<Message>, b: nat, learner: nat)
    requires SmallMessages(ms) && b < |Batching.After(ms).1|
    ensures var ss := FlushFor(ms, b, learner);
      && |ss| <= 2100 && 1 + |LearnerMath.FlatMem(ss)| <= 2100001 < LearnerMath.ALLFEATURE_SIZE
      && |LearnerMath.BatchKeys(ss)| < LearnerMath.FLOAT_EXACT
      && LearnerMath.SmallFeatures(ss)
  {
    hide Batching.After, LearnerMath.FlatMem, LearnerMath.BatchKeys;
    RunBounds(ms);
    FlushesSmall(ms);
    KeptSmall(Batching.After(ms).1[b].Items(), learner);
    LearnerMath.FlushFits(FlushFor(ms, b, learner));
  }

  /** So what a learner pulls and pushes for a flush is always a request the servers are made for. */
  lemma EveryFlushIsGoodRequest(ranges: seq<Range>, ms: seq<Message>, b: nat, learner: nat,
                                weights: Key -> real, sigmoid: real -> real)
    requires KvProtocol.GoodRanges(ranges) && ranges[0].begin == 0
    requires LearnerMath.INT_LIMIT <= ranges[|ranges| - 1].end
    requires SmallMessages(ms) && b < |Batching.After(ms).1|
    ensures var ss := LearnerUpdate.Prediction(weights, sigmoid, FlushFor(ms, b, learner));
      var keys := LearnerMath.BatchKeys(ss);
      && LearnerMath.Known(keys, ss)
      && KvProtocol.GoodRequest(ranges, KvProtocol.Request(false, keys, [], false))
      && KvProtocol.GoodRequest(ranges, KvProtocol.Request(true, keys, LearnerMath.Gradient(keys, ss), false))
  {
    hide Batching.After, LearnerMath.FlatMem, LearnerMath.BatchKeys, KvProtocol.GoodRequest;
    EveryFlushFits(ms, b, learner);
    BatchIsGoodRequest(ranges, LearnerUpdate.Prediction(weights, sigmoid, FlushFor(ms, b, learner)));
  }

  /** The same samples but for what an earlier batch left as their predictions. */
  predicate Alike(ss: seq<LearnerMath.LSample>, ss': seq<LearnerMath.LSample>) {
    && |ss| == |ss'|
    && forall i :: 0 <= i < |ss| ==> ss[i].mem == ss'[i].mem && ss[i].y == ss'[i].y && ss[i].ctr == ss'[i].ctr
  }

  lemma {:induction false} AlikeFlat(ss: seq<LearnerMath.LSample>, ss': seq<LearnerMath.LSample>)
    requires Alike(ss, ss')
    ensures LearnerMath.FlatMem(ss) == LearnerMath.FlatMem(ss')
    decreases |ss|
  {
    if ss != [] {
      AlikeFlat(ss[..|ss| - 1], ss'[..|ss| - 1]);
    }
  }

  lemma AlikeUsed(weights: Key -> real, sigmoid: real -> real, ss: seq<LearnerMath.LSample>,
                  ss': seq<LearnerMath.LSample>)
    requires Alike(ss, ss')
    ensures LearnerUpdate.Prediction(weights, sigmoid, ss) == LearnerUpdate.Prediction(weights, sigmoid, ss')
    ensures LearnerMath.BatchKeys(ss) == LearnerMath.BatchKeys(ss')
    ensures LearnerMath.FlatMem(ss) == LearnerMath.FlatMem(ss')
    ensures LearnerMath.SmallFeatures(ss') ==> LearnerMath.SmallFeatures(ss)
  {
    hide LearnerMath.FlatMem;
    AlikeFlat(ss, ss');
  }

  lemma AlikeSize(ss: seq<LearnerMath.LSample>, ss': seq<LearnerMath.LSample>)
    requires Alike(ss, ss')
    ensures |ss| == |ss'|
  {
  }

  lemma AlikeStored(stored: seq<Stored>, ss: seq<LearnerMath.LSample>)
    requires |stored| == |ss|
    requires forall i :: 0 <= i < |ss| ==> stored[i] == (Sample(ss[i].ctr, ss[i].mem), ss[i].y)
    ensures Alike(ss, Unpredicted(stored))
  {
  }

  /** GetData on a flush of a run: what is stored is what the run has for this learner. */
  method TakeFlush(learner: LearnerUpdate.Learner, flush: ParserBuffers.Flush, appnum: nat, index: nat,
                   ghost ms: seq<Message>, ghost b: nat)
    requires learner.Valid() && index < appnum && b < |Batching.After(ms).1|
    requires ParserBuffers.IsFlushOf(flush, Batching.After(ms).1[b].Items(), appnum)
    modifies learner, learner.samples
    ensures learner.Valid() && Alike(learner.samples[..learner.numSample], FlushFor(ms, b, index))
  {
    hide Batching.After, Kept;
    RunBounds(ms);
    var xs, ys := flush.samples, flush.ys[index];
    assert LearnerUpdate.Paired(xs, ys) == Given(Batching.After(ms).1[b].Items(), index);
    learner.GetData(xs, ys);
    AlikeStored(learner.Stored(learner.numSample), learner.samples[..learner.numSample]);
  }

  /**
   * From lines to a push: a learner that gets a flush of any run and updates pushes the keys of
   * the samples with its label and the gradient of their predictions, whatever it held before.
   */
  method LearnFlush(learner: LearnerUpdate.Learner, flush: ParserBuffers.Flush, appnum: nat, index: nat,
                    weights: Key -> real, sigmoid: real -> real, ghost ms: seq<Message>, ghost b: nat)
    returns (push: Option<(seq<Key>, seq<real>)>)
    requires learner.Valid() && index < appnum
    requires SmallMessages(ms) && b < |Batching.After(ms).1|
    requires ParserBuffers.IsFlushOf(flush, Batching.After(ms).1[b].Items(), appnum)
    modifies learner, learner.samples, learner.uniqueFeatures
    ensures push.None? <==> FlushFor(ms, b, index) == []
    ensures push.Some? ==>
      var ss := LearnerUpdate.Prediction(weights, sigmoid, FlushFor(ms, b, index));
      && push.value.0 == LearnerMath.BatchKeys(FlushFor(ms, b, index))
      && push.value.0 != [] && LearnerMath.Known(push.value.0, ss)
      && push.value.1 == LearnerMath.Gradient(push.value.0, ss)
  {
    hide Batching.After, LearnerMath.FlatMem, LearnerMath.Gradient, Kept, Alike, FlushFor, LearnerMath.BatchKeys;
    hide LearnerUpdate.Prediction, LearnerMath.Known;
    EveryFlushFits(ms, b, index);
    TakeFlush(learner, flush, appnum, index, ms, b);
    AlikeUsed(weights, sigmoid, learner.samples[..learner.numSample], FlushFor(ms, b, index));
    AlikeSize(learner.samples[..learner.numSample], FlushFor(ms, b, index));
    push := learner.Update(weights, sigmoid);
  }
}
