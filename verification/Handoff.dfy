// The hand-over between the parser thread (GetData) and a learner's own thread (Start)
// through the semaphores sem_done and sem_ready (src/core/learner.cpp). The threads share
// samples and num_sample without a lock; every single sample that is written or read is a
// step of its own, so all interleavings are covered.
module Handoff {
  import opened Batching

  /** The parser thread: waiting at sem_done, or in GetData's loop with i and idx. */
  datatype Giver = AtDone | Filling(i: nat, idx: nat)

  /** The learner thread: waiting at sem_ready, in update with what it has read, or left the loop. */
  datatype Taker = AtReady | Updating(read: seq<Stored>) | Left

  /** input: the batches the parser hands to this learner, as (sample, label) pairs. */
  datatype Sys = Sys(
    input: seq<seq<Stored>>,
    next: nat,                   // batches handed over completely
    semDone: nat,
    semReady: nat,
    giver: Giver,
    taker: Taker,
    samples: seq<Stored>,
    numSample: nat,
    exiting: bool,               // __exit_flag__
    processed: seq<seq<Stored>>)

  const CAPACITY := 10000

  datatype Step =
    | WaitDone      // sem_wait(&sem_done)
    | FillOne       // one pass of GetData's loop
    | PostReady     // num_sample = idx; sem_post(&sem_ready)
    | WaitReady     // sem_wait(&sem_ready)
    | ReadOne       // update reads one sample
    | PostDone      // sem_post(&sem_done), then look at the exit flag
    | Exit          // somebody sets __exit_flag__

  function Init(input: seq<seq<Stored>>, samples: seq<Stored>): Sys {
    Sys(input, 0, 1, 0, AtDone, AtReady, samples, 0, false, [])
  }

  predicate Enabled(s: Sys, e: Step) {
    match e
    case WaitDone => s.giver.AtDone? && s.next < |s.input| && s.semDone > 0
    case FillOne => s.giver.Filling? && s.next < |s.input| && s.giver.i < |s.input[s.next]| && s.giver.idx < |s.samples|
    case PostReady => s.giver.Filling? && s.next < |s.input| && s.giver.i == |s.input[s.next]|
    case WaitReady => s.taker.AtReady? && s.semReady > 0
    case ReadOne => s.taker.Updating? && |s.taker.read| < s.numSample && |s.taker.read| < |s.samples|
    case PostDone => s.taker.Updating? && |s.taker.read| == s.numSample
    case Exit => !s.exiting
  }

  function Do(s: Sys, e: Step): Sys
    requires Enabled(s, e)
  {
    match e
    case WaitDone => s.(semDone := s.semDone - 1, giver := Filling(0, 0))
    case FillOne =>
      var (x, y) := s.input[s.next][s.giver.i];
      if y == -1 then s.(giver := Filling(s.giver.i + 1, s.giver.idx))
      else s.(giver := Filling(s.giver.i + 1, s.giver.idx + 1), samples := s.samples[s.giver.idx := (x, y)])
    case PostReady => s.(numSample := s.giver.idx, semReady := s.semReady + 1, giver := AtDone, next := s.next + 1)
    case WaitReady => s.(semReady := s.semReady - 1, taker := Updating([]))
    case ReadOne => s.(taker := Updating(s.taker.read + [s.samples[|s.taker.read|]]))
    case PostDone =>
      s.(processed := s.processed + [s.taker.read], semDone := s.semDone + 1,
         taker := if s.exiting then Left else AtReady)
    case Exit => s.(exiting := true)
  }

  function One(b: bool): nat { if b then 1 else 0 }

  /** Exactly one of: done is posted, ready is posted, the parser fills, the learner updates. */
  predicate OneToken(s: Sys) {
    s.semDone + s.semReady + One(s.giver.Filling?) + One(s.taker.Updating?) == 1
  }

  /** Batches between the parser and the learner's result: handed over but not processed. */
  predicate InBetween(s: Sys) {
    && s.next <= |s.input| && (s.giver.Filling? ==> s.next < |s.input|)
    && s.next == |s.processed| + s.semReady + One(s.taker.Updating?)
    && (forall b :: 0 <= b < |s.processed| ==> s.processed[b] == Kept(s.input[b]))
  }

  /** The contents of the shared buffer. */
  predicate BufferOk(s: Sys) {
    && |s.samples| == CAPACITY && s.numSample <= CAPACITY
    && (s.giver.Filling? && s.next < |s.input| ==>
      && s.giver.i <= |s.input[s.next]|
      && s.giver.idx == |Kept(s.input[s.next][..s.giver.i])| <= CAPACITY
      && s.samples[..s.giver.idx] == Kept(s.input[s.next][..s.giver.i]))
    && (s.semReady > 0 || s.taker.Updating? ==>
      && 0 < s.next <= |s.input|
      && s.samples[..s.numSample] == Kept(s.input[s.next - 1]))
    && (s.taker.Updating? ==> |s.taker.read| <= s.numSample && s.taker.read == s.samples[..|s.taker.read|])
  }

  predicate Inv(s: Sys) {
    && (forall b :: 0 <= b < |s.input| ==> |s.input[b]| <= CAPACITY)
    && OneToken(s) && InBetween(s) && BufferOk(s)
    && (s.taker.Left? ==> s.exiting)
  }

  lemma InitInv(input: seq<seq<Stored>>, samples: seq<Stored>)
    requires |samples| == CAPACITY && forall b :: 0 <= b < |input| ==> |input[b]| <= CAPACITY
    ensures Inv(Init(input, samples))
  {
  }

  lemma StepKeepsInv(s: Sys, e: Step)
    requires Inv(s) && Enabled(s, e)
    ensures Inv(Do(s, e))
  {
    hide Kept, Inv;
    match e
    case WaitDone => WaitDoneKeeps(s);
    case FillOne => FillOneKeeps(s);
    case PostReady => PostReadyKeeps(s);
    case WaitReady => WaitReadyKeeps(s);
    case ReadOne => ReadOneKeeps(s);
    case PostDone => PostDoneKeeps(s);
    case Exit => ExitKeeps(s);
  }

  lemma WaitDoneKeeps(s: Sys)
    requires Inv(s) && Enabled(s, WaitDone)
    ensures Inv(Do(s, WaitDone))
  {
  }

  lemma FillOneKeeps(s: Sys)
    requires Inv(s) && Enabled(s, FillOne)
    ensures Inv(Do(s, FillOne))
  {
    var batch, i := s.input[s.next], s.giver.i;
    KeptSnoc(batch, i);
    assert |Kept(batch[..i + 1])| <= i + 1;
  }

  lemma PostReadyKeeps(s: Sys)
    requires Inv(s) && Enabled(s, PostReady)
    ensures Inv(Do(s, PostReady))
  {
    hide Kept;
    assert s.input[s.next][..|s.input[s.next]|] == s.input[s.next];
  }

  lemma WaitReadyKeeps(s: Sys)
    requires Inv(s) && Enabled(s, WaitReady)
    ensures Inv(Do(s, WaitReady))
  {
    hide Kept;
  }

  lemma ReadOneKeeps(s: Sys)
    requires Inv(s) && Enabled(s, ReadOne)
    ensures Inv(Do(s, ReadOne))
  {
    hide Kept;
  }

  lemma PostDoneKeeps(s: Sys)
    requires Inv(s) && Enabled(s, PostDone)
    ensures Inv(Do(s, PostDone))
  {
    hide Kept;
    assert s.taker.read == s.samples[..s.numSample];
  }

  lemma ExitKeeps(s: Sys)
    requires Inv(s) && Enabled(s, Exit)
    ensures Inv(Do(s, Exit))
  {
    hide Kept;
  }

  // ----- the theorems -----

  predicate Run(s: Sys, es: seq<Step>)
    decreases |es|
  {
    es == [] || (Enabled(s, es[0]) && Run(Do(s, es[0]), es[1..]))
  }

  function After(s: Sys, es: seq<Step>): Sys
    requires Run(s, es)
    decreases |es|
  {
    if es == [] then s else After(Do(s, es[0]), es[1..])
  }

  lemma {:induction false} RunKeepsInv(s: Sys, es: seq<Step>)
    requires Inv(s) && Run(s, es)
    ensures Inv(After(s, es)) && After(s, es).input == s.input
    decreases |es|
  {
    if es != [] {
      hide Inv, Kept;
      StepKeepsInv(s, es[0]);
      RunKeepsInv(Do(s, es[0]), es[1..]);
    }
  }

  /** The buffer is never filled while it is read. */
  lemma NeverBoth(input: seq<seq<Stored>>, samples: seq<Stored>, es: seq<Step>)
    requires |samples| == CAPACITY && forall b :: 0 <= b < |input| ==> |input[b]| <= CAPACITY
    requires Run(Init(input, samples), es)
    ensures var s := After(Init(input, samples), es);
      && s.semDone + s.semReady + One(s.giver.Filling?) + One(s.taker.Updating?) == 1
      && !(s.giver.Filling? && s.taker.Updating?)
  {
    hide Run, After;
    InitInv(input, samples);
    RunKeepsInv(Init(input, samples), es);
  }

  /**
   * In every interleaving the processed batches are the filtered batches in order, a prefix of
   * the ones handed over and at most one behind.
   */
  lemma ProcessedInOrder(input: seq<seq<Stored>>, samples: seq<Stored>, es: seq<Step>)
    requires |samples| == CAPACITY && forall b :: 0 <= b < |input| ==> |input[b]| <= CAPACITY
    requires Run(Init(input, samples), es)
    ensures var s := After(Init(input, samples), es);
      && |s.processed| <= s.next <= |s.processed| + 1 && s.next <= |input|
      && forall b :: 0 <= b < |s.processed| ==> s.processed[b] == Kept(input[b])
  {
    hide Run, After;
    InitInv(input, samples);
    RunKeepsInv(Init(input, samples), es);
  }

  /** While the exit flag is clear nothing gets stuck before every batch is processed. */
  lemma SomeStepEnabled(input: seq<seq<Stored>>, samples: seq<Stored>, es: seq<Step>)
    requires |samples| == CAPACITY && forall b :: 0 <= b < |input| ==> |input[b]| <= CAPACITY
    requires Run(Init(input, samples), es) && !After(Init(input, samples), es).exiting
    ensures var s := After(Init(input, samples), es);
      (exists e :: e != Exit && Enabled(s, e)) <==> |s.processed| < |input|
  {
    hide Run, After;
    InitInv(input, samples);
    RunKeepsInv(Init(input, samples), es);
    var s := After(Init(input, samples), es);
    if s.giver.Filling? {
      FillerCanGo(s);
    } else if s.taker.Updating? {
      assert Enabled(s, ReadOne) || Enabled(s, PostDone);
    } else if s.semReady > 0 {
      assert Enabled(s, WaitReady);
    } else if s.next < |s.input| {
      assert Enabled(s, WaitDone);
    }
  }

  lemma FillerCanGo(s: Sys)
    requires Inv(s) && s.giver.Filling?
    ensures Enabled(s, FillOne) || Enabled(s, PostReady)
  {
    var batch, i := s.input[s.next], s.giver.i;
    assert |Kept(batch[..i])| <= i;
  }

  /** Steps still to be taken for the batches from b on. */
  function WorkFrom(input: seq<seq<Stored>>, b: nat): nat
    requires b <= |input|
    decreases |input| - b
  {
    if b == |input| then 0 else |input[b]| + |Kept(input[b])| + 4 + WorkFrom(input, b + 1)
  }

  function Work(s: Sys): int
    requires s.next <= |s.input| && (s.giver.Filling? ==> s.next < |s.input|)
  {
    WorkFrom(s.input, s.next)
    - (if s.giver.Filling? then s.giver.i + 1 else 0)
    + (if s.taker.Updating? then s.numSample - |s.taker.read| + 1 else 0)
    + (if s.semReady > 0 then s.numSample + 2 else 0)
  }

  /** Every step but Exit takes exactly one off the remaining work, so all batches get processed. */
  lemma StepTakesWork(input: seq<seq<Stored>>, samples: seq<Stored>, es: seq<Step>, e: Step)
    requires |samples| == CAPACITY && forall b :: 0 <= b < |input| ==> |input[b]| <= CAPACITY
    requires Run(Init(input, samples), es) && Enabled(After(Init(input, samples), es), e) && e != Exit
    ensures var s := After(Init(input, samples), es);
      && s.next <= |s.input| && (s.giver.Filling? ==> s.next < |s.input|)
      && Do(s, e).next <= |s.input| && (Do(s, e).giver.Filling? ==> Do(s, e).next < |s.input|)
      && Work(Do(s, e)) == Work(s) - 1 >= 0
  {
    hide Run, After, Kept;
    InitInv(input, samples);
    RunKeepsInv(Init(input, samples), es);
    var s := After(Init(input, samples), es);
    StepKeepsInv(s, e);
    if e == PostReady {
      assert s.input[s.next][..|s.input[s.next]|] == s.input[s.next];
    }
    WorkLeft(Do(s, e));
  }

  lemma WorkLeft(s: Sys)
    requires Inv(s)
    ensures Work(s) >= 0
  {
  }
}
