// One parser thread and all learners: the parser hands each flush to the learners in turn
// (src/io/parser.cpp) and waits at each one's sem_done, while the learners' own threads run
// (src/core/learner.cpp). Each learner with the parser is a hand-over of its own.
module Fleet {
  import opened Batching
  import opened Handoff

  /** Every learner's hand-over, and the learner that the parser serves now or next. */
  datatype Group = Group(learners: seq<Sys>, turn: nat)

  /** A step of the parser or of a learner's thread at one hand-over, or the exit flag for all. */
  datatype Move = Of(l: nat, e: Step) | ExitAll

  predicate IsParsers(e: Step) {
    e == WaitDone || e == FillOne || e == PostReady
  }

  predicate Can(g: Group, m: Move) {
    match m
    case Of(l, e) => l < |g.learners| && e != Exit && Enabled(g.learners[l], e) && (IsParsers(e) ==> l == g.turn)
    case ExitAll => forall l :: 0 <= l < |g.learners| ==> !g.learners[l].exiting
  }

  function AllExiting(learners: seq<Sys>): (r: seq<Sys>)
    ensures |r| == |learners| && forall l :: 0 <= l < |r| ==> r[l] == learners[l].(exiting := true)
  {
    seq(|learners|, l requires 0 <= l < |learners| => learners[l].(exiting := true))
  }

  function Make(g: Group, m: Move): Group
    requires Can(g, m)
  {
    match m
    case Of(l, e) =>
      Group(g.learners[l := Do(g.learners[l], e)],
        if e != PostReady then g.turn else if l + 1 == |g.learners| then 0 else l + 1)
    case ExitAll => g.(learners := AllExiting(g.learners))
  }

  function Start(inputs: seq<seq<seq<Stored>>>, samples: seq<seq<Stored>>): (g: Group)
    requires |inputs| == |samples|
    ensures |g.learners| == |inputs| && g.turn == 0
    ensures forall l :: 0 <= l < |inputs| ==> g.learners[l] == Init(inputs[l], samples[l])
  {
    Group(seq(|inputs|, l requires 0 <= l < |inputs| => Init(inputs[l], samples[l])), 0)
  }

  predicate GroupRun(g: Group, ms: seq<Move>)
    decreases |ms|
  {
    ms == [] || (Can(g, ms[0]) && GroupRun(Make(g, ms[0]), ms[1..]))
  }

  function GroupAfter(g: Group, ms: seq<Move>): (r: Group)
    requires GroupRun(g, ms)
    ensures |r.learners| == |g.learners|
    decreases |ms|
  {
    if ms == [] then g else GroupAfter(Make(g, ms[0]), ms[1..])
  }

  // ----- each learner's own run -----

  /** The steps of a run that happen at learner l's hand-over. */
  function Own(ms: seq<Move>, l: nat): seq<Step> {
    if ms == [] then []
    else
      match ms[0]
      case Of(l', e) => if l' == l then [e] + Own(ms[1..], l) else Own(ms[1..], l)
      case ExitAll => [Exit] + Own(ms[1..], l)
  }

  /** Seen from one learner, a run of the group is a run of its hand-over. */
  lemma {:induction false} OwnRun(g: Group, ms: seq<Move>, l: nat)
    requires GroupRun(g, ms) && l < |g.learners|
    ensures Run(g.learners[l], Own(ms, l))
    ensures GroupAfter(g, ms).learners[l] == Handoff.After(g.learners[l], Own(ms, l))
    decreases |ms|
  {
    hide Enabled, Do;
    if ms != [] {
      OwnRun(Make(g, ms[0]), ms[1..], l);
      OwnStep(g, ms[0], l);
      if ms[0].ExitAll? {
        RunCons(g.learners[l], Exit, Own(ms[1..], l));
      } else if ms[0].l == l {
        RunCons(g.learners[l], ms[0].e, Own(ms[1..], l));
      }
    }
  }

  lemma OwnStep(g: Group, m: Move, l: nat)
    requires Can(g, m) && l < |g.learners|
    ensures m.ExitAll? ==> Enabled(g.learners[l], Exit) && Make(g, m).learners[l] == Do(g.learners[l], Exit)
    ensures m.Of? && m.l == l ==> Enabled(g.learners[l], m.e) && Make(g, m).learners[l] == Do(g.learners[l], m.e)
    ensures m.Of? && m.l != l ==> Make(g, m).learners[l] == g.learners[l]
  {
  }

  lemma RunCons(s: Sys, e: Step, es: seq<Step>)
    requires Enabled(s, e) && Run(Do(s, e), es)
    ensures Run(s, [e] + es) && Handoff.After(s, [e] + es) == Handoff.After(Do(s, e), es)
  {
    hide Enabled, Do;
    assert ([e] + es)[1..] == es;
  }

  // ----- taking turns -----

  /** Every learner gets the same flushes. */
  predicate SameFlushes(inputs: seq<seq<seq<Stored>>>, samples: seq<seq<Stored>>, flushes: nat) {
    && inputs != [] && |inputs| == |samples|
    && forall l :: 0 <= l < |inputs| ==>
      && |samples[l]| == CAPACITY && |inputs[l]| == flushes
      && forall b :: 0 <= b < flushes ==> |inputs[l][b]| <= CAPACITY
  }

  /** The learners before the one whose turn it is are one flush ahead; only that one is filled. */
  predicate InTurn(g: Group, flushes: nat) {
    && g.turn < |g.learners|
    && var f := g.learners[|g.learners| - 1].next;
      && f + (if g.turn > 0 then 1 else 0) <= flushes
      && forall l :: 0 <= l < |g.learners| ==>
        && g.learners[l].next == (if l < g.turn then f + 1 else f)
        && (g.learners[l].giver.Filling? ==> l == g.turn)
  }

  ghost predicate GroupInv(g: Group, flushes: nat) {
    && (forall l :: 0 <= l < |g.learners| ==> Inv(g.learners[l]) && |g.learners[l].input| == flushes)
    && InTurn(g, flushes)
  }

  /** What a step does to the batch count and the giver. */
  lemma StepNext(s: Sys, e: Step)
    requires Inv(s) && Enabled(s, e)
    ensures Do(s, e).input == s.input && s.next <= |s.input|
    ensures Do(s, e).next == s.next + (if e == PostReady then 1 else 0)
    ensures e == PostReady ==> s.giver.Filling? && s.next < |s.input|
    ensures Do(s, e).giver.Filling? ==> s.giver.Filling? || e == WaitDone
    ensures e == PostReady ==> !Do(s, e).giver.Filling?
  {
    hide Kept;
  }

  lemma MakeKeepsInTurn(g: Group, m: Move, flushes: nat)
    requires GroupInv(g, flushes) && Can(g, m)
    ensures InTurn(Make(g, m), flushes)
  {
    hide Inv, Enabled, Do;
    if m.Of? {
      StepNext(g.learners[m.l], m.e);
      var g', n := Make(g, m), |g.learners|;
      assert forall l :: 0 <= l < n && l != m.l ==> g'.learners[l] == g.learners[l];
      assert g'.learners[m.l] == Do(g.learners[m.l], m.e);
      if m.e == PostReady && m.l + 1 == n {
        assert g'.learners[n - 1].next == g.learners[n - 1].next + 1;
      }
    }
  }

  lemma MakeKeepsInv(g: Group, m: Move, flushes: nat)
    requires GroupInv(g, flushes) && Can(g, m)
    ensures GroupInv(Make(g, m), flushes)
  {
    hide Inv, Enabled, Do, InTurn;
    MakeKeepsInTurn(g, m, flushes);
    forall l | 0 <= l < |g.learners|
      ensures Inv(Make(g, m).learners[l]) && |Make(g, m).learners[l].input| == flushes
    {
      OwnStep(g, m, l);
      if m.ExitAll? {
        StepKeepsInv(g.learners[l], Exit);
        StepNext(g.learners[l], Exit);
      } else if m.l == l {
        StepKeepsInv(g.learners[l], m.e);
        StepNext(g.learners[l], m.e);
      }
    }
  }

  lemma {:induction false} RunKeepsGroupInv(g: Group, ms: seq<Move>, flushes: nat)
    requires GroupInv(g, flushes) && GroupRun(g, ms)
    ensures GroupInv(GroupAfter(g, ms), flushes)
    decreases |ms|
  {
    hide GroupInv, Make, Can;
    if ms != [] {
      MakeKeepsInv(g, ms[0], flushes);
      RunKeepsGroupInv(Make(g, ms[0]), ms[1..], flushes);
    }
  }

  lemma StartInv(inputs: seq<seq<seq<Stored>>>, samples: seq<seq<Stored>>, flushes: nat)
    requires SameFlushes(inputs, samples, flushes)
    ensures GroupInv(Start(inputs, samples), flushes)
  {
    hide Inv;
    forall l | 0 <= l < |inputs|
      ensures Inv(Init(inputs[l], samples[l]))
    {
      InitInv(inputs[l], samples[l]);
    }
  }

  // ----- the theorems -----

  /**
   * In every interleaving of the parser and all learners: a flush goes to the learners one after
   * the other, no two of them ever being more than one flush apart, and only the one whose turn it
   * is is being filled.
   */
  lemma FlushesInTurn(inputs: seq<seq<seq<Stored>>>, samples: seq<seq<Stored>>, flushes: nat, ms: seq<Move>)
    requires SameFlushes(inputs, samples, flushes) && GroupRun(Start(inputs, samples), ms)
    ensures InTurn(GroupAfter(Start(inputs, samples), ms), flushes)
  {
    hide GroupRun, GroupAfter, Inv;
    StartInv(inputs, samples, flushes);
    RunKeepsGroupInv(Start(inputs, samples), ms, flushes);
  }

  /** No learner reads its batch while the parser writes it, and each processes its batches in order. */
  lemma EachInOrder(inputs: seq<seq<seq<Stored>>>, samples: seq<seq<Stored>>, flushes: nat, ms: seq<Move>, l: nat)
    requires SameFlushes(inputs, samples, flushes) && GroupRun(Start(inputs, samples), ms) && l < |inputs|
    ensures var s := GroupAfter(Start(inputs, samples), ms).learners[l];
      && !(s.giver.Filling? && s.taker.Updating?)
      && |s.processed| <= s.next <= |s.processed| + 1 && s.next <= flushes
      && forall b :: 0 <= b < |s.processed| ==> s.processed[b] == Kept(inputs[l][b])
  {
    hide GroupRun, GroupAfter, Run, Handoff.After, Kept;
    OwnRun(Start(inputs, samples), ms, l);
    NeverBoth(inputs[l], samples[l], Own(ms, l));
    ProcessedInOrder(inputs[l], samples[l], Own(ms, l));
  }

  /**
   * The parser cannot get stuck at a learner: while the exit flag is clear, some thread can take a
   * step exactly as long as some learner has a flush to process.
   */
  lemma SomeMove(inputs: seq<seq<seq<Stored>>>, samples: seq<seq<Stored>>, flushes: nat, ms: seq<Move>)
    requires SameFlushes(inputs, samples, flushes) && GroupRun(Start(inputs, samples), ms)
    requires forall l :: 0 <= l < |inputs| ==> !GroupAfter(Start(inputs, samples), ms).learners[l].exiting
    ensures var g := GroupAfter(Start(inputs, samples), ms);
      (exists m :: m != ExitAll && Can(g, m))
      <==> exists l :: 0 <= l < |inputs| && |g.learners[l].processed| < flushes
  {
    hide GroupRun, GroupAfter, GroupInv, Can;
    StartInv(inputs, samples, flushes);
    RunKeepsGroupInv(Start(inputs, samples), ms, flushes);
    var g := GroupAfter(Start(inputs, samples), ms);
    if m :| m != ExitAll && Can(g, m) {
      CanIsOwn(g, m);
      OwnRun(Start(inputs, samples), ms, m.l);
      SameInput(g, flushes, m.l);
      SomeStepEnabled(inputs[m.l], samples[m.l], Own(ms, m.l));
    }
    if l :| 0 <= l < |inputs| && |g.learners[l].processed| < flushes {
      var m := NextMove(g, flushes, l);
    }
  }

  lemma CanIsOwn(g: Group, m: Move)
    requires Can(g, m) && m.Of?
    ensures m.l < |g.learners| && m.e != Exit && Enabled(g.learners[m.l], m.e)
  {
  }

  lemma SameInput(g: Group, flushes: nat, l: nat)
    requires GroupInv(g, flushes) && l < |g.learners|
    ensures |g.learners[l].input| == flushes
  {
  }

  lemma TakerMove(g: Group, flushes: nat, x: nat) returns (m: Move)
    requires GroupInv(g, flushes) && x < |g.learners| && !g.learners[x].exiting
    requires g.learners[x].taker.Updating? || g.learners[x].semReady > 0
    ensures m != ExitAll && Can(g, m)
  {
    hide Kept;
    var s := g.learners[x];
    m := if s.semReady > 0 then Of(x, WaitReady)
         else if |s.taker.read| == s.numSample then Of(x, PostDone) else Of(x, ReadOne);
  }

  /** When every learner waits, the parser can go to the one whose turn it is. */
  lemma ParserMove(g: Group, flushes: nat, l: nat) returns (m: Move)
    requires GroupInv(g, flushes) && l < |g.learners| && |g.learners[l].processed| < flushes
    requires forall x :: 0 <= x < |g.learners| ==> !g.learners[x].taker.Updating? && g.learners[x].semReady == 0
    ensures m != ExitAll && Can(g, m)
  {
    hide Kept;
    var s := g.learners[g.turn];
    if s.giver.Filling? {
      FillerCanGo(s);
      m := if Enabled(s, FillOne) then Of(g.turn, FillOne) else Of(g.turn, PostReady);
    } else {
      assert !g.learners[l].taker.Updating? && g.learners[l].semReady == 0;
      assert g.learners[l].next == |g.learners[l].processed|;
      m := Of(g.turn, WaitDone);
    }
  }

  lemma NextMove(g: Group, flushes: nat, l: nat) returns (m: Move)
    requires GroupInv(g, flushes) && l < |g.learners| && |g.learners[l].processed| < flushes
    requires forall x :: 0 <= x < |g.learners| ==> !g.learners[x].exiting
    ensures m != ExitAll && Can(g, m)
  {
    hide GroupInv, Can;
    if x :| 0 <= x < |g.learners| && (g.learners[x].taker.Updating? || g.learners[x].semReady > 0) {
      m := TakerMove(g, flushes, x);
    } else {
      m := ParserMove(g, flushes, l);
    }
  }

  /** What is left to do at all hand-overs. */
  function TotalWork(learners: seq<Sys>): int
    requires forall l :: 0 <= l < |learners| ==> Counts(learners[l])
  {
    if learners == [] then 0
    else
      assert Counts(learners[|learners| - 1]);
      TotalWork(learners[..|learners| - 1]) + Work(learners[|learners| - 1])
  }

  predicate Counts(s: Sys) {
    s.next <= |s.input| && (s.giver.Filling? ==> s.next < |s.input|)
  }

  lemma {:induction false} OneWorks(learners: seq<Sys>, l: nat, s: Sys)
    requires l < |learners| && Counts(s) && forall x :: 0 <= x < |learners| ==> Counts(learners[x])
    ensures TotalWork(learners[l := s]) == TotalWork(learners) - Work(learners[l]) + Work(s)
    decreases |learners|
  {
    hide Work, Counts;
    var last := |learners| - 1;
    if l < last {
      OneWorks(learners[..last], l, s);
      assert learners[l := s][..last] == learners[..last][l := s];
    } else {
      assert learners[l := s][..last] == learners[..last];
    }
  }

  lemma {:induction false} TotalWorkLeft(learners: seq<Sys>)
    requires forall x :: 0 <= x < |learners| ==> Inv(learners[x])
    ensures forall x :: 0 <= x < |learners| ==> Counts(learners[x])
    ensures TotalWork(learners) >= 0
  {
    hide Kept, Work;
    if learners != [] {
      TotalWorkLeft(learners[..|learners| - 1]);
      WorkLeft(learners[|learners| - 1]);
    }
  }

  /** Every step but the exit flag takes one off a finite amount of work, so no learner starves. */
  lemma MoveTakesWork(inputs: seq<seq<seq<Stored>>>, samples: seq<seq<Stored>>, flushes: nat, ms: seq<Move>, m: Move)
    requires SameFlushes(inputs, samples, flushes) && GroupRun(Start(inputs, samples), ms)
    requires m != ExitAll && Can(GroupAfter(Start(inputs, samples), ms), m)
    ensures var g := GroupAfter(Start(inputs, samples), ms);
      && (forall l :: 0 <= l < |g.learners| ==> Counts(g.learners[l]))
      && (forall l :: 0 <= l < |g.learners| ==> Counts(Make(g, m).learners[l]))
      && TotalWork(Make(g, m).learners) == TotalWork(g.learners) - 1 >= 0
  {
    hide GroupRun, GroupAfter, Inv, Can, Make, Run, Handoff.After, Work, Counts, TotalWork, Enabled, Do, InTurn;
    var g := GroupAfter(Start(inputs, samples), ms);
    Fits(inputs, samples, flushes, m.l);
    StartInv(inputs, samples, flushes);
    RunKeepsGroupInv(Start(inputs, samples), ms, flushes);
    MakeKeepsInv(g, m, flushes);
    TotalWorkLeft(g.learners);
    TotalWorkLeft(Make(g, m).learners);
    CanIsOwn(g, m);
    OwnRun(Start(inputs, samples), ms, m.l);
    StepTakesWork(inputs[m.l], samples[m.l], Own(ms, m.l), m.e);
    MadeOne(g, m);
    assert Make(g, m).learners[m.l] == Do(g.learners[m.l], m.e);
    OneWorks(g.learners, m.l, Do(g.learners[m.l], m.e));
  }

  lemma MadeOne(g: Group, m: Move)
    requires Can(g, m) && m.Of?
    ensures m.l < |g.learners| && Enabled(g.learners[m.l], m.e)
    ensures Make(g, m).learners == g.learners[m.l := Do(g.learners[m.l], m.e)]
  {
  }

  lemma Fits(inputs: seq<seq<seq<Stored>>>, samples: seq<seq<Stored>>, flushes: nat, l: nat)
    requires SameFlushes(inputs, samples, flushes)
    ensures l < |inputs| ==>
      |samples[l]| == CAPACITY && forall b :: 0 <= b < |inputs[l]| ==> |inputs[l][b]| <= CAPACITY
  {
  }
}
