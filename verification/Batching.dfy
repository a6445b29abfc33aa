// What Parser::Process (src/io/parser.cpp) accepts, keeps and delivers, as one step per
// message. Parsing a message is a parameter: a message carries the fields that decide.
//
// The two duplicate maps are emptied only when strftime turns "$M" into "00" or "%H:$M" into
// "00:00"; those texts keep their dollar sign, so the maps are never emptied.
module Batching {
  import opened Wrappers
  import opened KvData

  datatype Kind = Impression | Behaviour

  /**
   * wellFormed: the checks before the duplicate filter pass; complete: those after it pass.
   * labels holds each learner's label: -1 (not used), 0 or 1.
   */
  datatype Message = Message(kind: Kind, wellFormed: bool, hash: Key, complete: bool,
                             ctr: real, features: seq<Key>, labels: seq<int>)

  datatype Sample = Sample(ctr: real, mem: seq<Key>)

  datatype Item = Item(sample: Sample, labels: seq<int>)

  /** Samples waiting in the two buffers, and how often each hash was seen. */
  datatype Pending = Pending(imps: seq<Item>, bhvs: seq<Item>, seenImp: map<Key, nat>, seenBhv: map<Key, nat>)

  /** What one flush hands to every learner: impressions first. */
  datatype Batch = Batch(imps: seq<Item>, bhvs: seq<Item>) {
    function Items(): seq<Item> { imps + bhvs }
  }

  /** Features a sample has memory for. */
  const FEATURE_LIMIT := 1000

  const FLUSH := 100
  const IMP_LIMIT := 10000
  const BHV_LIMIT := 2000

  function Count(seen: map<Key, nat>, hash: Key): nat {
    if hash in seen then seen[hash] else 0
  }

  function Mark(seen: map<Key, nat>, m: Message): map<Key, nat> {
    if m.wellFormed then seen[m.hash := Count(seen, m.hash) + 1] else seen
  }

  /** parse_sample_0 and parse_sample_1 succeed and there are features. */
  predicate Parsed(seen: map<Key, nat>, m: Message) {
    m.wellFormed && Count(seen, m.hash) == 0 && m.complete && m.ctr != -1.0 && m.features != []
  }

  function ToItem(m: Message): Item {
    Item(Sample(if m.ctr > 0.00001 then m.ctr else 0.00001, m.features), m.labels)
  }

  function Seen(st: Pending, k: Kind): map<Key, nat> {
    if k == Impression then st.seenImp else st.seenBhv
  }

  /** The message is taken into a buffer. */
  predicate Taken(st: Pending, m: Message) {
    Parsed(Seen(st, m.kind), m) && (if m.kind == Impression then |st.imps| < IMP_LIMIT else |st.bhvs| < BHV_LIMIT)
  }

  /** Process: a new state, and the batch flushed if there is one. */
  function Process(st: Pending, m: Message): (Pending, Option<Batch>) {
    var marked :=
      if m.kind == Impression then st.(seenImp := Mark(st.seenImp, m)) else st.(seenBhv := Mark(st.seenBhv, m));
    if !Taken(st, m) then (marked, None)
    else if m.kind == Behaviour then (marked.(bhvs := st.bhvs + [ToItem(m)]), None)
    else if |st.imps| + 1 + |st.bhvs| >= FLUSH then
      (marked.(imps := [], bhvs := []), Some(Batch(st.imps + [ToItem(m)], st.bhvs)))
    else (marked.(imps := st.imps + [ToItem(m)]), None)
  }

  const START := Pending([], [], map[], map[])

  /** The state after a list of messages, and all batches flushed on the way. */
  function After(ms: seq<Message>): (Pending, seq<Batch>)
    decreases |ms|
  {
    if ms == [] then (START, [])
    else
      var (st, batches) := After(ms[..|ms| - 1]);
      var (st', out) := Process(st, ms[|ms| - 1]);
      (st', match out case None => batches case Some(b) => batches + [b])
  }

  // ----- sizes -----

  predicate Bounded(st: Pending) {
    |st.imps| <= 99 && |st.bhvs| <= 2000
  }

  /** Between calls at most 99 impressions and 2000 behaviours wait, and a flush is small. */
  lemma ProcessBounds(st: Pending, m: Message)
    requires Bounded(st)
    ensures Bounded(Process(st, m).0)
    ensures var out := Process(st, m).1; out.Some? ==>
      |out.value.imps| <= 100 && |out.value.bhvs| <= 2000 && 100 <= |out.value.Items()| <= 2100
  {
  }

  lemma {:induction false} RunBounds(ms: seq<Message>)
    ensures Bounded(After(ms).0)
    ensures forall i :: 0 <= i < |After(ms).1| ==> 100 <= |After(ms).1[i].Items()| <= 2100
    decreases |ms|
  {
    hide Process;
    if ms != [] {
      RunBounds(ms[..|ms| - 1]);
      ProcessBounds(After(ms[..|ms| - 1]).0, ms[|ms| - 1]);
    }
  }

  /** The branch that drops impressions when 10000 wait is never taken. */
  lemma NoImpressionDropped(ms: seq<Message>, m: Message)
    requires m.kind == Impression
    ensures Taken(After(ms).0, m) <==> Parsed(After(ms).0.seenImp, m)
  {
    hide After, Parsed;
    RunBounds(ms);
  }

  // ----- which messages are taken -----

  /** The same log line, as far as the duplicate filter can tell. */
  predicate SameLine(a: Message, b: Message) {
    a.kind == b.kind && a.wellFormed && b.wellFormed && a.hash == b.hash
  }

  /** Message k is usable, and no message before it was the same line. */
  predicate Admissible(ms: seq<Message>, k: nat)
    requires k < |ms|
  {
    && ms[k].wellFormed && ms[k].complete && ms[k].ctr != -1.0 && ms[k].features != []
    && forall j :: 0 <= j < k ==> !SameLine(ms[j], ms[k])
  }

  lemma MarkCounts(st: Pending, m: Message, kind: Kind, hash: Key)
    ensures Count(Seen(Process(st, m).0, kind), hash)
         == Count(Seen(st, kind), hash) + (if m.kind == kind && m.wellFormed && m.hash == hash then 1 else 0)
  {
  }

  lemma {:induction false} SeenBefore(ms: seq<Message>, kind: Kind, hash: Key)
    ensures Count(Seen(After(ms).0, kind), hash) == 0
       <==> forall j :: 0 <= j < |ms| ==> !(ms[j].kind == kind && ms[j].wellFormed && ms[j].hash == hash)
    decreases |ms|
  {
    hide Process, Count, Seen;
    if ms == [] {
      NothingSeen(kind, hash);
    } else {
      var last := |ms| - 1;
      var before := ms[..last];
      SeenBefore(before, kind, hash);
      MarkCounts(After(before).0, ms[last], kind, hash);
      assert forall j :: 0 <= j < last ==> before[j] == ms[j];
    }
  }

  lemma NothingSeen(kind: Kind, hash: Key)
    ensures Count(Seen(START, kind), hash) == 0
  {
  }

  /** A line is parsed exactly when it is usable and new: each hash counts once, for each kind. */
  lemma ParsedOnce(ms: seq<Message>, k: nat)
    requires k < |ms|
    ensures Parsed(Seen(After(ms[..k]).0, ms[k].kind), ms[k]) <==> Admissible(ms, k)
  {
    hide After, Count, Seen;
    var m := ms[k];
    SeenBefore(ms[..k], m.kind, m.hash);
    assert forall j :: 0 <= j < k ==> ms[..k][j] == ms[j];
    assert m.wellFormed ==> forall j :: 0 <= j < k ==>
      (SameLine(ms[j], m) <==> ms[j].kind == m.kind && ms[j].wellFormed && ms[j].hash == m.hash);
  }

  /** A behaviour finds room; an impression always does. */
  predicate Room(ms: seq<Message>, k: nat)
    requires k < |ms|
  {
    ms[k].kind == Impression || |After(ms[..k]).0.bhvs| < BHV_LIMIT
  }

  /** The messages of a kind that are to be delivered, in the order they arrived. */
  function Expected(ms: seq<Message>, kind: Kind): seq<Item>
    decreases |ms|
  {
    if ms == [] then []
    else
      var last := |ms| - 1;
      Expected(ms[..last], kind)
      + if ms[last].kind == kind && Admissible(ms, last) && Room(ms, last) then [ToItem(ms[last])] else []
  }

  // ----- delivery -----

  function Flushed(batches: seq<Batch>, kind: Kind): seq<Item> {
    if batches == [] then []
    else
      var last := |batches| - 1;
      Flushed(batches[..last], kind) + if kind == Impression then batches[last].imps else batches[last].bhvs
  }

  function Waiting(st: Pending, kind: Kind): seq<Item> {
    if kind == Impression then st.imps else st.bhvs
  }

  lemma TakenIff(ms: seq<Message>, k: nat)
    requires k < |ms|
    ensures Taken(After(ms[..k]).0, ms[k]) <==> Admissible(ms, k) && Room(ms, k)
  {
    hide After, Admissible, Parsed;
    ParsedOnce(ms, k);
    if ms[k].kind == Impression {
      NoImpressionDropped(ms[..k], ms[k]);
    }
  }

  /**
   * Every accepted sample is delivered in exactly one flush or still waits, each kind in the
   * order of arrival; nothing else is delivered.
   */
  lemma {:induction false} EverythingDelivered(ms: seq<Message>, kind: Kind)
    ensures Flushed(After(ms).1, kind) + Waiting(After(ms).0, kind) == Expected(ms, kind)
    decreases |ms|
  {
    if ms != [] {
      hide Process, Taken, Admissible, Room, ToItem, Expected, After, Flushed, Waiting;
      var last := |ms| - 1;
      var (st, batches) := After(ms[..last]);
      EverythingDelivered(ms[..last], kind);
      TakenIff(ms, last);
      ProcessKeeps(st, ms[last], kind);
      AfterStep(ms);
      ExpectedStep(ms, kind);
      var out := Process(st, ms[last]).1;
      var taken := if ms[last].kind == kind && Taken(st, ms[last]) then [ToItem(ms[last])] else [];
      Associate(Flushed(batches, kind), Waiting(st, kind), taken);
      if out.Some? {
        FlushedSnoc(batches, out.value, kind);
      }
    } else {
      NothingDelivered(kind);
    }
  }

  lemma NothingDelivered(kind: Kind)
    ensures Flushed(After([]).1, kind) + Waiting(After([]).0, kind) == Expected([], kind)
  {
  }

  lemma AfterStep(ms: seq<Message>)
    requires ms != []
    ensures var (st, batches) := After(ms[..|ms| - 1]);
      var (st', out) := Process(st, ms[|ms| - 1]);
      After(ms) == (st', match out case None => batches case Some(b) => batches + [b])
  {
    hide Process;
  }

  lemma ExpectedStep(ms: seq<Message>, kind: Kind)
    requires ms != []
    ensures var last := |ms| - 1;
      Expected(ms, kind) == Expected(ms[..last], kind)
        + if ms[last].kind == kind && Admissible(ms, last) && Room(ms, last) then [ToItem(ms[last])] else []
  {
    hide Admissible, Room, ToItem;
  }

  lemma FlushedSnoc(batches: seq<Batch>, b: Batch, kind: Kind)
    ensures Flushed(batches + [b], kind) == Flushed(batches, kind) + if kind == Impression then b.imps else b.bhvs
  {
    assert (batches + [b])[..|batches|] == batches;
  }

  lemma ProcessKeeps(st: Pending, m: Message, kind: Kind)
    ensures var (st', out) := Process(st, m);
      var all := Waiting(st, kind) + (if m.kind == kind && Taken(st, m) then [ToItem(m)] else []);
      match out
      case None => Waiting(st', kind) == all
      case Some(b) => Waiting(st', kind) == [] && (if kind == Impression then b.imps else b.bhvs) == all
  {
  }

  // ----- what a learner stores -----

  function LabelOf(item: Item, learner: nat): int {
    if learner < |item.labels| then item.labels[learner] else -1
  }

  /** A sample and its label for one learner. */
  type Stored = (Sample, int)

  /** GetData's filter: samples labelled -1 are left out. */
  function Kept(batch: seq<Stored>): (r: seq<Stored>)
    ensures |r| <= |batch|
  {
    if batch == [] then []
    else Kept(batch[..|batch| - 1]) + if batch[|batch| - 1].1 != -1 then [batch[|batch| - 1]] else []
  }

  /** A batch as one learner is given it: every sample with its label for that learner. */
  function Given(items: seq<Item>, learner: nat): (r: seq<Stored>)
    ensures |r| == |items|
  {
    seq(|items|, j requires 0 <= j < |items| => (items[j].sample, LabelOf(items[j], learner)))
  }

  /** What a learner stores of a batch. */
  function Keep(items: seq<Item>, learner: nat): seq<Stored> {
    Kept(Given(items, learner))
  }

  lemma KeptSnoc(batch: seq<Stored>, i: nat)
    requires i < |batch|
    ensures Kept(batch[..i + 1]) == Kept(batch[..i]) + if batch[i].1 != -1 then [batch[i]] else []
  {
    assert batch[..i + 1][..i] == batch[..i];
  }

  lemma KeepSnoc(items: seq<Item>, x: Item, learner: nat)
    ensures Keep(items + [x], learner)
         == Keep(items, learner) + if LabelOf(x, learner) != -1 then [(x.sample, LabelOf(x, learner))] else []
  {
    assert Given(items + [x], learner)[..|items|] == Given(items, learner);
  }

  lemma {:induction false} KeptJoins(a: seq<Stored>, b: seq<Stored>)
    ensures Kept(a + b) == Kept(a) + Kept(b)
    decreases |b|
  {
    if b == [] {
      assert a + b == a;
    } else {
      var front := b[..|b| - 1];
      assert (a + b)[..|a + b| - 1] == a + front;
      KeptJoins(a, front);
    }
  }

  lemma KeepJoins(a: seq<Item>, b: seq<Item>, learner: nat)
    ensures Keep(a + b, learner) == Keep(a, learner) + Keep(b, learner)
  {
    hide Kept, LabelOf;
    assert Given(a + b, learner) == Given(a, learner) + Given(b, learner);
    KeptJoins(Given(a, learner), Given(b, learner));
  }

  lemma Associate<T>(a: seq<T>, b: seq<T>, c: seq<T>)
    ensures (a + b) + c == a + (b + c)
  {
  }

  /** All a learner has stored, batch after batch. */
  function StoredBy(batches: seq<Batch>, learner: nat): seq<Stored> {
    if batches == [] then []
    else StoredBy(batches[..|batches| - 1], learner) + Keep(batches[|batches| - 1].Items(), learner)
  }

  lemma {:induction false} StoredIsFlushed(batches: seq<Batch>, learner: nat)
    ensures multiset(StoredBy(batches, learner))
         == multiset(Keep(Flushed(batches, Impression), learner)) + multiset(Keep(Flushed(batches, Behaviour), learner))
    decreases |batches|
  {
    hide Keep;
    if batches == [] {
      NothingKept(learner);
    } else {
      var last := |batches| - 1;
      StoredIsFlushed(batches[..last], learner);
      KeepJoins(batches[last].imps, batches[last].bhvs, learner);
      KeepJoins(Flushed(batches[..last], Impression), batches[last].imps, learner);
      KeepJoins(Flushed(batches[..last], Behaviour), batches[last].bhvs, learner);
    }
  }

  lemma NothingKept(learner: nat)
    ensures Keep([], learner) == []
  {
  }

  /**
   * Nothing is lost and nothing is duplicated: what a learner has stored, with what still
   * waits, is exactly what was accepted and has a label for it.
   */
  lemma NothingLostOrDuplicated(ms: seq<Message>, learner: nat)
    ensures var (st, batches) := After(ms);
      multiset(StoredBy(batches, learner)) + multiset(Keep(st.imps, learner)) + multiset(Keep(st.bhvs, learner))
      == multiset(Keep(Expected(ms, Impression), learner)) + multiset(Keep(Expected(ms, Behaviour), learner))
  {
    hide After, Keep, StoredBy, Flushed, Expected;
    var (st, batches) := After(ms);
    EverythingDelivered(ms, Impression);
    EverythingDelivered(ms, Behaviour);
    StoredIsFlushed(batches, learner);
    KeepJoins(Flushed(batches, Impression), st.imps, learner);
    KeepJoins(Flushed(batches, Behaviour), st.bhvs, learner);
  }
}
