// The parser object (src/io/parser.cpp): two sample buffers, their label tables and the
// counters, filled and flushed in place.
//
// One Process call is one step: the busy flag between the two consumer threads is not part
// of this model.
module ParserBuffers {
  import opened Wrappers
  import opened KvData
  import opened Batching

  /** One GetData call for every learner: the samples, and each learner's labels. */
  datatype Flush = Flush(samples: seq<Sample>, ys: seq<seq<int>>)

  function Samples(items: seq<Item>): (r: seq<Sample>)
    ensures |r| == |items| && forall j :: 0 <= j < |r| ==> r[j] == items[j].sample
  {
    seq(|items|, j requires 0 <= j < |items| => items[j].sample)
  }

  function Labels(items: seq<Item>, learner: nat): (r: seq<int>)
    ensures |r| == |items| && forall j :: 0 <= j < |r| ==> r[j] == LabelOf(items[j], learner)
  {
    seq(|items|, j requires 0 <= j < |items| => LabelOf(items[j], learner))
  }

  /** The flush hands over these items, with every learner's own labels. */
  ghost predicate IsFlushOf(flush: Flush, items: seq<Item>, appnum: nat) {
    && flush.samples == Samples(items)
    && |flush.ys| == appnum
    && forall i :: 0 <= i < appnum ==> flush.ys[i] == Labels(items, i)
  }

  class Parser {
    const appnum: nat
    const sample0: array<Sample>
    const sample1: array<Sample>
    const ysImp: array2<int>
    const ysBhv: array2<int>
    var idx0: nat
    var idx1: nat
    var cntl0: nat
    var cntl1: nat
    var markid0: map<Key, nat>
    var markid1: map<Key, nat>

    ghost predicate Valid()
      reads this
    {
      && sample0.Length == 10000 && sample1.Length == 3000
      && ysImp.Length0 == appnum && ysImp.Length1 == 10000
      && ysBhv.Length0 == appnum && ysBhv.Length1 == 10000
      && ysImp != ysBhv && sample0 != sample1
      && cntl0 == idx0 <= 99 && cntl1 == idx1 <= 2000
    }

    /** Buffer entries 0 to n with their label columns. */
    ghost function Buffered(samples: array<Sample>, ys: array2<int>, n: nat): (r: seq<Item>)
      requires n <= samples.Length && n <= ys.Length1 && ys.Length0 == appnum
      reads samples, ys
      ensures |r| == n
    {
      seq(n, j requires 0 <= j < n reads samples, ys =>
        Item(samples[j], seq(appnum, i requires 0 <= i < appnum reads ys => ys[i, j])))
    }

    ghost function View(): Pending
      requires Valid()
      reads this, sample0, sample1, ysImp, ysBhv
    {
      Pending(Buffered(sample0, ysImp, idx0), Buffered(sample1, ysBhv, idx1), markid0, markid1)
    }

    /** The constructor and SetLearner. */
    constructor (appnum: nat)
      ensures Valid() && View() == START && this.appnum == appnum
      ensures fresh(sample0) && fresh(sample1) && fresh(ysImp) && fresh(ysBhv)
    {
      this.appnum := appnum;
      sample0 := new Sample[10000];
      sample1 := new Sample[3000];
      ysImp := new int[appnum, 10000];
      ysBhv := new int[appnum, 10000];
      idx0, idx1, cntl0, cntl1 := 0, 0, 0, 0;
      markid0, markid1 := map[], map[];
    }

    /** Store a sample and its labels in entry n of a buffer. */
    method Put(samples: array<Sample>, ys: array2<int>, n: nat, m: Message)
      requires n < samples.Length && n < ys.Length1 && ys.Length0 == appnum == |m.labels|
      modifies samples, ys
      ensures Buffered(samples, ys, n + 1) == old(Buffered(samples, ys, n)) + [ToItem(m)]
    {
      ghost var before := Buffered(samples, ys, n);
      for i := 0 to appnum
        invariant forall a, b :: 0 <= a < appnum && 0 <= b < ys.Length1 && b != n ==> ys[a, b] == old(ys[a, b])
        invariant forall a :: 0 <= a < i ==> ys[a, n] == m.labels[a]
        invariant samples[..] == old(samples[..])
      {
        ys[i, n] := m.labels[i];
      }
      samples[n] := ToItem(m).sample;
      ghost var after := Buffered(samples, ys, n + 1);
      assert after[n].labels == m.labels;
      forall j | 0 <= j < n
        ensures after[j] == before[j]
      {
        assert after[j].labels == before[j].labels;
      }
      assert after == before + [ToItem(m)];
    }

    /** The duplicate filter: count the hash, and say whether it was new. */
    method IsNew(m: Message) returns (isNew: bool)
      modifies this`markid0, this`markid1
      ensures markid0 == if m.kind == Impression then Mark(old(markid0), m) else old(markid0)
      ensures markid1 == if m.kind == Behaviour then Mark(old(markid1), m) else old(markid1)
      ensures isNew <==> m.wellFormed && Count(if m.kind == Impression then old(markid0) else old(markid1), m.hash) == 0
    {
      if !m.wellFormed {
        return false;
      }
      if m.kind == Impression {
        markid0 := markid0[m.hash := (if m.hash in markid0 then markid0[m.hash] else 0) + 1];
        isNew := markid0[m.hash] <= 1;
      } else {
        markid1 := markid1[m.hash := (if m.hash in markid1 then markid1[m.hash] else 0) + 1];
        isNew := markid1[m.hash] <= 1;
      }
    }

    /**
     * Process: the same step on the buffers, with the same batch handed over. inBounds says
     * whether a sample that is taken has memory for its features, which nothing checks.
     */
    method Process(m: Message) returns (inBounds: bool, out: Option<Flush>)
      requires Valid() && |m.labels| == appnum
      modifies this, sample0, sample1, ysImp, ysBhv
      ensures inBounds <==> (Taken(old(View()), m) ==> |m.features| <= 1000)
      ensures inBounds ==> Valid() && View() == Batching.Process(old(View()), m).0
      ensures inBounds ==> (out.Some? <==> Batching.Process(old(View()), m).1.Some?)
      ensures inBounds && out.Some? ==>
        IsFlushOf(out.value, Batching.Process(old(View()), m).1.value.Items(), appnum)
    {
      inBounds, out := true, None;
      var isNew := IsNew(m);
      if !isNew || !m.complete || m.ctr == -1.0 || m.features == [] {
        return;
      }
      if m.kind == Impression {
        if idx0 >= 10000 {
          return;
        }
        if |m.features| > FEATURE_LIMIT {
          return false, None;
        }
        out := TakeImpression(m);
      } else {
        if idx1 >= 2000 {
          return;
        }
        if |m.features| > FEATURE_LIMIT {
          return false, None;
        }
        TakeBehaviour(m);
      }
    }

    /** Buffer a behaviour. */
    method TakeBehaviour(m: Message)
      requires Valid() && |m.labels| == appnum && idx1 < 2000
      modifies this`idx1, this`cntl1, sample1, ysBhv
      ensures Valid()
      ensures View() == old(View()).(bhvs := old(View()).bhvs + [ToItem(m)])
    {
      hide ToItem;
      Put(sample1, ysBhv, idx1, m);
      idx1 := idx1 + 1;
      cntl1 := cntl1 + 1;
    }

    /** Buffer an impression, and flush once 100 samples were counted. */
    method TakeImpression(m: Message) returns (out: Option<Flush>)
      requires Valid() && |m.labels| == appnum
      modifies this`idx0, this`idx1, this`cntl0, this`cntl1, sample0, ysImp
      ensures Valid()
      ensures var imps, bhvs := old(View()).imps + [ToItem(m)], old(View()).bhvs;
        && (out.Some? <==> |imps| + |bhvs| >= 100)
        && (out.None? ==> View() == old(View()).(imps := imps))
        && (out.Some? ==> View() == old(View()).(imps := [], bhvs := []) && IsFlushOf(out.value, imps + bhvs, appnum))
    {
      hide ToItem, IsFlushOf;
      out := None;
      Put(sample0, ysImp, idx0, m);
      idx0 := idx0 + 1;
      cntl0 := cntl0 + 1;
      if cntl1 + cntl0 >= 100 {
        cntl1, cntl0 := 0, 0;
        var flush := Drain();
        out := Some(flush);
        idx0, idx1 := 0, 0;
      }
    }

    /** The first n labels of learner i. */
    function Column(ys: array2<int>, i: nat, n: nat): (r: seq<int>)
      requires i < ys.Length0 && n <= ys.Length1
      reads ys
      ensures |r| == n && forall j :: 0 <= j < n ==> r[j] == ys[i, j]
    {
      seq(n, j requires 0 <= j < n reads ys => ys[i, j])
    }

    lemma LabelsAreColumns(i: nat)
      requires sample0.Length == 10000 && sample1.Length == 3000
      requires ysImp.Length0 == appnum && ysImp.Length1 == 10000 && ysBhv.Length0 == appnum && ysBhv.Length1 == 10000
      requires idx0 <= 100 && idx1 <= 2000 && i < appnum
      ensures Labels(Buffered(sample0, ysImp, idx0) + Buffered(sample1, ysBhv, idx1), i)
           == Column(ysImp, i, idx0) + Column(ysBhv, i, idx1)
    {
      var imps, bhvs := Buffered(sample0, ysImp, idx0), Buffered(sample1, ysBhv, idx1);
      assert Labels(imps, i) == Column(ysImp, i, idx0);
      assert Labels(bhvs, i) == Column(ysBhv, i, idx1);
      assert Labels(imps + bhvs, i) == Labels(imps, i) + Labels(bhvs, i);
    }

    /** The buffered behaviours, copied behind the impressions. */
    method CopyBehaviours()
      requires sample0 != sample1 && idx0 + idx1 <= sample0.Length && idx1 <= sample1.Length
      modifies sample0
      ensures forall j :: 0 <= j < idx0 ==> sample0[j] == old(sample0[j])
      ensures forall j :: 0 <= j < idx1 ==> sample0[idx0 + j] == sample1[j]
    {
      ghost var imps, bhvs := sample0[..idx0], sample1[..idx1];
      for i := 0 to idx1
        invariant sample0[..idx0] == imps && sample1[..idx1] == bhvs
        invariant forall j :: 0 <= j < i ==> sample0[idx0 + j] == bhvs[j]
      {
        sample0[idx0 + i] := sample1[i];
      }
    }

    /** Append the behaviours to the impressions and hand all of it to every learner. */
    method Drain() returns (flush: Flush)
      requires sample0.Length == 10000 && sample1.Length == 3000 && sample0 != sample1
      requires ysImp.Length0 == appnum && ysImp.Length1 == 10000 && ysBhv.Length0 == appnum && ysBhv.Length1 == 10000
      requires idx0 <= 100 && idx1 <= 2000
      modifies sample0
      ensures IsFlushOf(flush, old(Buffered(sample0, ysImp, idx0)) + old(Buffered(sample1, ysBhv, idx1)), appnum)
    {
      ghost var items := Buffered(sample0, ysImp, idx0) + Buffered(sample1, ysBhv, idx1);
      forall i: nat | i < appnum
        ensures Labels(items, i) == Column(ysImp, i, idx0) + Column(ysBhv, i, idx1)
      {
        LabelsAreColumns(i);
      }
      CopyBehaviours();
      var len := idx0 + idx1;
      assert sample0[..len] == Samples(items);
      var ys: seq<seq<int>> := [];
      for i := 0 to appnum
        invariant |ys| == i
        invariant forall k: nat :: k < i ==> ys[k] == Column(ysImp, k, idx0) + Column(ysBhv, k, idx1)
      {
        ys := ys + [Column(ysImp, i, idx0) + Column(ysBhv, i, idx1)];
      }
      flush := Flush(sample0[..len], ys);
    }
  }
}
