// Which messages the delivered samples come from, in the messages' own fields: whatever the parser
// (src/io/parser.cpp) buffers, flushes and a learner (src/core/learner.cpp) stores.
module Delivery {
  import opened Batching

  /** Message i is usable, the first with its hash, and there is room for it. */
  predicate Arrives(ms: seq<Message>, kind: Kind, i: nat)
    requires i < |ms|
  {
    var m := ms[i];
    && m.kind == kind && m.wellFormed && m.complete && m.ctr != -1.0 && m.features != []
    && (forall j :: 0 <= j < i && ms[j].kind == kind && ms[j].wellFormed ==> ms[j].hash != m.hash)
    && (kind == Behaviour ==> |After(ms[..i]).0.bhvs| < 2000)
  }

  /** A sample has all features of its message, and its rate, raised to 0.00001. */
  predicate IsSampleOf(x: Sample, m: Message) {
    x.mem == m.features && x.ctr == if m.ctr < 0.00001 then 0.00001 else m.ctr
  }

  /** Places in a list of messages, in order. */
  predicate Places(at: seq<nat>, ms: seq<Message>) {
    (forall a :: 0 <= a < |at| ==> at[a] < |ms|) && forall a, b :: 0 <= a < b < |at| ==> at[a] < at[b]
  }

  lemma ArrivesIff(ms: seq<Message>, kind: Kind, i: nat)
    requires i < |ms|
    ensures Arrives(ms, kind, i) <==> ms[i].kind == kind && Admissible(ms, i) && Room(ms, i)
  {
    hide After;
    assert forall j :: 0 <= j < i ==>
      (SameLine(ms[j], ms[i]) <==>
       ms[j].kind == ms[i].kind && ms[j].wellFormed && ms[i].wellFormed && ms[j].hash == ms[i].hash);
  }

  lemma ArrivesBefore(ms: seq<Message>, n: nat, kind: Kind, i: nat)
    requires i < n <= |ms|
    ensures Arrives(ms[..n], kind, i) <==> Arrives(ms, kind, i)
  {
    hide After;
    assert ms[..n][..i] == ms[..i];
    assert forall j :: 0 <= j <= i ==> ms[..n][j] == ms[j];
  }

  lemma ItemIs(m: Message)
    ensures IsSampleOf(ToItem(m).sample, m) && ToItem(m).labels == m.labels
  {
  }

  lemma {:induction false} ExpectedFrom(ms: seq<Message>, kind: Kind) returns (at: seq<nat>)
    ensures Places(at, ms) && forall i: nat :: i < |ms| ==> (i in at <==> Arrives(ms, kind, i))
    ensures var items := Expected(ms, kind);
      && |items| == |at|
      && forall a :: 0 <= a < |at| ==>
        IsSampleOf(items[a].sample, ms[at[a]]) && items[a].labels == ms[at[a]].labels
    decreases |ms|
  {
    hide Arrives, IsSampleOf, Admissible, Room, ToItem, Expected, After;
    at := [];
    if ms == [] {
      NothingExpected(kind);
    } else {
      var last := |ms| - 1;
      at := ExpectedFrom(ms[..last], kind);
      ExpectedStep(ms, kind);
      ArrivesIff(ms, kind, last);
      ItemIs(ms[last]);
      forall i: nat | i < last
        ensures Arrives(ms[..last], kind, i) <==> Arrives(ms, kind, i)
      {
        ArrivesBefore(ms, last, kind, i);
      }
      if Arrives(ms, kind, last) {
        at := at + [last];
      }
    }
  }

  lemma NothingExpected(kind: Kind)
    ensures Expected([], kind) == []
  {
  }

  /**
   * The samples of a kind that have been flushed or wait, in this order, are those of the messages
   * that arrive, each once and in order: with all their features, their own labels, and their
   * rate.
   */
  lemma DeliveredFrom(ms: seq<Message>, kind: Kind) returns (at: seq<nat>)
    ensures Places(at, ms) && forall i: nat :: i < |ms| ==> (i in at <==> Arrives(ms, kind, i))
    ensures var items := Flushed(After(ms).1, kind) + Waiting(After(ms).0, kind);
      && |items| == |at|
      && forall a :: 0 <= a < |at| ==>
        IsSampleOf(items[a].sample, ms[at[a]]) && items[a].labels == ms[at[a]].labels
  {
    hide Arrives, IsSampleOf, Expected, After, Flushed, Waiting;
    EverythingDelivered(ms, kind);
    at := ExpectedFrom(ms, kind);
  }

  // ----- per learner -----

  /** GetData's filter keeps each sample whose own label is not -1, where it stands. */
  lemma KeptIs(a: seq<Stored>, x: Sample, y: int, b: seq<Stored>)
    ensures Kept([]) == []
    ensures Kept(a + [(x, y)] + b) == Kept(a) + (if y == -1 then [] else [(x, y)]) + Kept(b)
  {
    KeptJoins(a + [(x, y)], b);
    KeptJoins(a, [(x, y)]);
    assert Kept([(x, y)]) == if y == -1 then [] else [(x, y)];
  }

  /** Learner l has a label for message m, and (x, y) is its sample with that label. */
  predicate IsStoredOf(x: Stored, m: Message, learner: nat) {
    learner < |m.labels| && m.labels[learner] != -1 && x.1 == m.labels[learner] && IsSampleOf(x.0, m)
  }

  predicate ArrivesFor(ms: seq<Message>, kind: Kind, learner: nat, i: nat)
    requires i < |ms|
  {
    Arrives(ms, kind, i) && learner < |ms[i].labels| && ms[i].labels[learner] != -1
  }

  /** What is kept for a learner comes from exactly the messages that arrive for it, in order. */
  lemma {:induction false} KeptFrom(ms: seq<Message>, kind: Kind, learner: nat) returns (at: seq<nat>)
    ensures Places(at, ms) && forall i: nat :: i < |ms| ==> (i in at <==> ArrivesFor(ms, kind, learner, i))
    ensures var kept := Keep(Expected(ms, kind), learner);
      |kept| == |at| && forall a :: 0 <= a < |at| ==> IsStoredOf(kept[a], ms[at[a]], learner)
    decreases |ms|
  {
    hide Arrives, IsSampleOf, Admissible, Room, ToItem, Expected, After, Keep;
    at := [];
    if ms == [] {
      NothingExpected(kind);
      NothingKept(learner);
    } else {
      var last := |ms| - 1;
      at := KeptFrom(ms[..last], kind, learner);
      ExpectedStep(ms, kind);
      ArrivesIff(ms, kind, last);
      ItemIs(ms[last]);
      forall i: nat | i < last
        ensures Arrives(ms[..last], kind, i) <==> Arrives(ms, kind, i)
      {
        ArrivesBefore(ms, last, kind, i);
      }
      if Arrives(ms, kind, last) {
        KeepSnoc(Expected(ms[..last], kind), ToItem(ms[last]), learner);
        if learner < |ms[last].labels| && ms[last].labels[learner] != -1 {
          at := at + [last];
        }
      } else {
        assert Expected(ms, kind) == Expected(ms[..last], kind);
      }
    }
  }

  // ----- when, in numbers -----

  /** Between calls at most 99 impressions and 2000 behaviours wait. */
  lemma WaitingBounds(ms: seq<Message>)
    ensures |After(ms).0.imps| <= 99 && |After(ms).0.bhvs| <= 2000
  {
    hide After;
    RunBounds(ms);
  }

  /**
   * A call flushes exactly if it takes an impression and with it 100 samples wait; the flush is
   * all of them, so it has 100 to 2100.
   */
  lemma FlushesAtHundred(ms: seq<Message>, m: Message)
    ensures var (st, (st', out)) := (After(ms).0, Process(After(ms).0, m));
      && (out.Some? <==> Arrives(ms + [m], Impression, |ms|) && |st.imps| + 1 + |st.bhvs| >= 100)
      && (out.Some? ==>
           && st'.imps == [] && st'.bhvs == []
           && |out.value.imps| == |st.imps| + 1 && out.value.imps[..|st.imps|] == st.imps
           && out.value.bhvs == st.bhvs && 100 <= |out.value.Items()| <= 2100)
  {
    hide After, Admissible, Parsed;
    RunBounds(ms);
    var all := ms + [m];
    assert all[..|ms|] == ms && all[|ms|] == m;
    TakenIff(all, |ms|);
    ArrivesIff(all, Impression, |ms|);
  }
}
