// Replies that arrived in some order, rearranged by server: the bridge between the order in
// which a worker processed its replies and the order of the requested keys.
module Arrangement {
  import opened KvData
  import opened Slicer
  import opened PullMerge
  import opened KvProtocol

  predicate Distinct(order: seq<nat>) {
    forall i, j :: 0 <= i < j < |order| ==> order[i] != order[j]
  }

  /** The servers below upto that take part in a request, in server order. */
  function Servers(ranges: seq<Range>, q: Request, upto: nat): (r: seq<nat>)
    requires GoodRanges(ranges) && GoodRequest(ranges, q) && upto <= |ranges|
    ensures forall j :: 0 <= j < |r| ==> r[j] < upto && Part(ranges, q, r[j]).first
  {
    if upto == 0 then []
    else Servers(ranges, q, upto - 1) + if Part(ranges, q, upto - 1).first then [upto - 1] else []
  }

  lemma {:induction false} ServersAre(ranges: seq<Range>, q: Request, upto: nat)
    requires GoodRanges(ranges) && GoodRequest(ranges, q) && upto <= |ranges|
    ensures Distinct(Servers(ranges, q, upto))
    ensures forall i :: 0 <= i < upto ==> (i in Servers(ranges, q, upto) <==> Part(ranges, q, i).first)
    ensures |Servers(ranges, q, upto)| + Skipped(ranges, q, upto) == upto
  {
    hide Part;
    if upto > 0 {
      ServersAre(ranges, q, upto - 1);
    }
  }

  /** order lists every taking-part server once. */
  ghost predicate Complete(ranges: seq<Range>, q: Request, order: seq<nat>)
    requires GoodRanges(ranges) && GoodRequest(ranges, q)
  {
    && Distinct(order)
    && forall i: nat :: i in order <==> i < |ranges| && Part(ranges, q, i).first
  }

  /** Distinct taking-part servers are complete exactly when, with the skipped ones, they number n. */
  lemma CompleteByCount(ranges: seq<Range>, q: Request, order: seq<nat>)
    requires GoodRanges(ranges) && GoodRequest(ranges, q)
    requires Distinct(order)
    requires forall j :: 0 <= j < |order| ==> order[j] < |ranges| && Part(ranges, q, order[j]).first
    ensures Skipped(ranges, q, |ranges|) + |order| <= |ranges|
    ensures Skipped(ranges, q, |ranges|) + |order| == |ranges| <==> Complete(ranges, q, order)
  {
    hide Part, Skipped;
    var all := Servers(ranges, q, |ranges|);
    ServersAre(ranges, q, |ranges|);
    DistinctSize(order);
    DistinctSize(all);
    var a, b := ToSet(order), ToSet(all);
    assert a <= b;
    SubsetSize(a, b);
    if Complete(ranges, q, order) {
      assert a == b;
    }
    if |a| == |b| {
      assert a == b;
      assert forall i: nat :: i in order <==> i in a;
      assert forall i: nat :: i in all <==> i in b;
    }
  }

  function ToSet(s: seq<nat>): set<nat> {
    set i | i in s
  }

  lemma {:induction false} DistinctSize(s: seq<nat>)
    requires Distinct(s)
    ensures |ToSet(s)| == |s|
  {
    if s != [] {
      var last := |s| - 1;
      DistinctSize(s[..last]);
      assert s == s[..last] + [s[last]];
      assert ToSet(s) == ToSet(s[..last]) + {s[last]};
      assert s[last] !in s[..last];
    }
  }

  lemma SubsetSize(a: set<nat>, b: set<nat>)
    requires a <= b
    ensures |a| <= |b|
    ensures |a| == |b| ==> a == b
  {
    assert b == a + (b - a);
    assert |b| == |a| + |b - a|;
    if |a| == |b| {
      assert b - a == {};
    }
  }

  // ----- images of server lists -----

  /** The replies of the listed servers. */
  function Image<T>(f: map<nat, T>, order: seq<nat>): (r: seq<T>)
    requires forall i :: i in order ==> i in f
    ensures |r| == |order| && forall j :: 0 <= j < |r| ==> r[j] == f[order[j]]
  {
    seq(|order|, j requires 0 <= j < |order| => f[order[j]])
  }

  /** A list without entry i. */
  function Without(b: seq<nat>, i: nat): (r: seq<nat>)
    requires i < |b|
    ensures |r| == |b| - 1
  {
    b[..i] + b[i + 1..]
  }

  /** Listing the same servers in another order permutes the replies. */
  lemma {:induction false} ImagePermutes<T>(f: map<nat, T>, a: seq<nat>, b: seq<nat>)
    requires Distinct(a) && Distinct(b)
    requires forall i: nat :: i in a <==> i in b
    requires forall i :: i in a ==> i in f
    ensures multiset(Image(f, a)) == multiset(Image(f, b))
    decreases |a|
  {
    hide Image, Distinct, Without;
    if a == [] {
      NothingListed(b);
    } else {
      var i := PlaceOf(a[0], b);
      SameRest(a, b, i);
      TakeOut(f, a, 0);
      TakeOut(f, b, i);
      ImagePermutes(f, Without(a, 0), Without(b, i));
    }
  }

  lemma PlaceOf(x: nat, b: seq<nat>) returns (i: nat)
    requires x in b
    ensures i < |b| && b[i] == x
  {
    i :| i < |b| && b[i] == x;
  }

  /** One server's reply and those of the others. */
  lemma TakeOut<T>(f: map<nat, T>, b: seq<nat>, i: nat)
    requires i < |b| && forall j :: j in b ==> j in f
    ensures forall j :: j in Without(b, i) ==> j in f
    ensures multiset(Image(f, b)) == multiset{f[b[i]]} + multiset(Image(f, Without(b, i)))
  {
    hide Image;
    ImageRest(f, b, i);
    SplitAt(Image(f, b), i);
  }

  lemma NothingListed(b: seq<nat>)
    requires Distinct(b) && forall i: nat :: i !in b
    ensures b == []
  {
    DistinctSize(b);
    assert ToSet(b) == {};
  }

  /** Without entry i, the image loses exactly that entry. */
  lemma ImageRest<T>(f: map<nat, T>, b: seq<nat>, i: nat)
    requires i < |b| && forall j :: j in b ==> j in f
    ensures forall j :: j in Without(b, i) ==> j in f
    ensures Image(f, b)[..i] + Image(f, b)[i + 1..] == Image(f, Without(b, i))
  {
    hide Image;
    var rest := Without(b, i);
    forall j | j in rest
      ensures j in f
    {
      assert j in b[..i] || j in b[i + 1..];
    }
    var x, y := Image(f, b)[..i] + Image(f, b)[i + 1..], Image(f, rest);
    forall k | 0 <= k < |rest|
      ensures x[k] == y[k]
    {
      assert rest[k] == if k < i then b[k] else b[k + 1];
    }
  }

  /** Two lists of the same distinct servers still agree after losing the same one. */
  lemma SameRest(a: seq<nat>, b: seq<nat>, i: nat)
    requires Distinct(a) && Distinct(b) && a != [] && i < |b| && b[i] == a[0]
    requires forall j: nat :: j in a <==> j in b
    ensures Distinct(Without(a, 0)) && Distinct(Without(b, i))
    ensures forall j: nat :: j in Without(a, 0) <==> j in Without(b, i)
  {
    StillDistinct(a, 0);
    StillDistinct(b, i);
    hide Without, Distinct;
    forall j: nat
      ensures j in Without(a, 0) <==> j in Without(b, i)
    {
      RestOf(a, 0, j);
      RestOf(b, i, j);
    }
  }

  lemma StillDistinct(b: seq<nat>, i: nat)
    requires Distinct(b) && i < |b|
    ensures Distinct(Without(b, i))
  {
    var rest := Without(b, i);
    forall k, m | 0 <= k < m < |rest|
      ensures rest[k] != rest[m]
    {
      assert rest[k] == if k < i then b[k] else b[k + 1];
      assert rest[m] == if m < i then b[m] else b[m + 1];
    }
  }

  lemma RestOf(b: seq<nat>, i: nat, j: nat)
    requires Distinct(b) && i < |b|
    ensures j in Without(b, i) <==> j in b && j != b[i]
  {
    if j in b && j != b[i] {
      var k :| 0 <= k < |b| && b[k] == j;
      assert k < i ==> b[..i][k] == j;
      assert k > i ==> b[i + 1..][k - i - 1] == j;
    }
  }

  // ----- the merged pull -----

  /** kvs has the keys of part i. */
  ghost predicate HasPartKeys(ranges: seq<Range>, q: Request, i: nat, kvs: KVPairs<real>)
    requires GoodRanges(ranges) && GoodRequest(ranges, q) && i < |ranges|
  {
    var lo, hi := Pos(q.keys, ranges, i), Pos(q.keys, ranges, i + 1);
    lo <= hi && kvs.keys == q.keys[lo..hi]
  }

  lemma ServersStep(ranges: seq<Range>, q: Request, upto: nat)
    requires GoodRanges(ranges) && GoodRequest(ranges, q) && 0 < upto <= |ranges|
    ensures var before := Servers(ranges, q, upto - 1);
      && (Part(ranges, q, upto - 1).first ==> Servers(ranges, q, upto) == before + [upto - 1])
      && (!Part(ranges, q, upto - 1).first ==> Servers(ranges, q, upto) == before)
      && (forall i :: i in before ==> i in Servers(ranges, q, upto))
  {
    hide Part;
  }

  lemma PrefixGrows<T>(s: seq<T>, lo: nat, hi: nat)
    requires lo <= hi <= |s|
    ensures s[..hi] == s[..lo] + s[lo..hi]
  {
  }

  /** In server order the replies' keys are the requested keys. */
  lemma {:induction false} ServerOrderKeys(ranges: seq<Range>, q: Request, f: map<nat, KVPairs<real>>, upto: nat)
    requires GoodRanges(ranges) && GoodRequest(ranges, q) && upto <= |ranges|
    requires forall i :: i in Servers(ranges, q, upto) ==> i in f && HasPartKeys(ranges, q, i, f[i])
    ensures JoinKeys(Image(f, Servers(ranges, q, upto))) == q.keys[..Pos(q.keys, ranges, upto)]
  {
    hide Part, GoodRequest, JoinKeys;
    GoodIsAccepted(ranges, q);
    if upto == 0 {
      NoReplies();
    } else {
      hide Servers, Pos;
      ServersStep(ranges, q, upto);
      var before := Servers(ranges, q, upto - 1);
      var lo, hi := Pos(q.keys, ranges, upto - 1), Pos(q.keys, ranges, upto);
      PartIs(ranges, q, upto - 1);
      ServerOrderKeys(ranges, q, f, upto - 1);
      if lo < hi {
        assert Image(f, Servers(ranges, q, upto)) == Image(f, before) + [f[upto - 1]];
        JoinKeysSnoc(Image(f, before), f[upto - 1]);
        PrefixGrows(q.keys, lo, hi);
      }
    }
  }

  lemma NoReplies()
    ensures JoinKeys<real>([]) == [] && JoinVals<real>([]) == [] && JoinLens<real>([]) == []
  {
  }

  lemma ServerOrderCovers(ranges: seq<Range>, q: Request, f: map<nat, KVPairs<real>>)
    requires GoodRanges(ranges) && GoodRequest(ranges, q)
    requires forall i :: i in Servers(ranges, q, |ranges|) ==> i in f && HasPartKeys(ranges, q, i, f[i])
    ensures Covers(q.keys, Image(f, Servers(ranges, q, |ranges|)))
    ensures forall k :: k in q.keys ==> k < KEY_LIMIT - 1
  {
    hide Part, GoodRequest, Servers, JoinKeys, Pos;
    var servers := Servers(ranges, q, |ranges|);
    ServerOrderKeys(ranges, q, f, |ranges|);
    GoodIsAccepted(ranges, q);
    KeysAreSorted(ranges, q);
    assert q.keys[..|q.keys|] == q.keys;
    forall j | 0 <= j < |servers|
      ensures f[servers[j]].keys != []
    {
      PartIs(ranges, q, servers[j]);
      assert servers[j] in servers;
    }
  }

  /** A key below a range end is not the largest 64-bit value. */
  lemma KeysAreSorted(ranges: seq<Range>, q: Request)
    requires GoodRanges(ranges) && GoodRequest(ranges, q)
    ensures Increasing(q.keys) && forall k :: k in q.keys ==> k < KEY_LIMIT - 1
  {
  }

  /** The replies by the server that sent them. */
  lemma ByServer<T>(order: seq<nat>, got: seq<T>) returns (f: map<nat, T>)
    requires Distinct(order) && |got| == |order|
    ensures forall j :: 0 <= j < |order| ==> order[j] in f && f[order[j]] == got[j]
    ensures forall i :: i in order ==> i in f
    ensures Image(f, order) == got
  {
    f := map j | 0 <= j < |order| :: order[j] := got[j];
  }

  /**
   * When every taking-part server has answered once, in any order and with any values, no
   * check on keys or lengths fails, and sorting puts the replies in server order.
   */
  lemma RepliesInServerOrder(ranges: seq<Range>, q: Request, order: seq<nat>, got: seq<KVPairs<real>>, wantLens: bool)
    returns (f: map<nat, KVPairs<real>>)
    requires GoodRanges(ranges) && GoodRequest(ranges, q)
    requires Complete(ranges, q, order) && |got| == |order|
    requires forall j :: 0 <= j < |got| ==> order[j] < |ranges| && HasPartKeys(ranges, q, order[j], got[j])
    requires wantLens ==> forall j :: 0 <= j < |got| ==> |got[j].lens| == |got[j].keys|
    ensures forall j :: 0 <= j < |order| ==> order[j] in f && f[order[j]] == got[j]
    ensures forall i :: i in Servers(ranges, q, |ranges|) ==> i in f && i in order
    ensures MergeOk(q.keys, got, [], wantLens, [])
    ensures SortByFront(got) == Image(f, Servers(ranges, q, |ranges|))
  {
    hide HasPartKeys, MergeOk, Covers, SortByFront, GoodRequest, Part;
    var servers := Servers(ranges, q, |ranges|);
    f := ByServer(order, got);
    ServersAre(ranges, q, |ranges|);
    ImagePermutes(f, order, servers);
    forall i | i in servers
      ensures i in f && i < |ranges| && HasPartKeys(ranges, q, i, f[i]) && (wantLens ==> |f[i].lens| == |f[i].keys|)
    {
      var j :| 0 <= j < |order| && order[j] == i;
    }
    ServerOrderCovers(ranges, q, f);
    MergeRebuilds(q.keys, Image(f, servers), got, wantLens);
  }

  // ----- values of any width -----

  /** The values of some keys one after the other; each key may have any number of them. */
  function AllValues(value: Key -> seq<real>, keys: seq<Key>): seq<real> {
    if keys == [] then [] else AllValues(value, keys[..|keys| - 1]) + value(keys[|keys| - 1])
  }

  function AllLens(value: Key -> seq<real>, keys: seq<Key>): (r: seq<nat>)
    ensures |r| == |keys| && forall i :: 0 <= i < |r| ==> r[i] == |value(keys[i])|
  {
    seq(|keys|, i requires 0 <= i < |keys| => |value(keys[i])|)
  }

  lemma {:induction false} AllValuesJoin(value: Key -> seq<real>, a: seq<Key>, b: seq<Key>)
    ensures AllValues(value, a + b) == AllValues(value, a) + AllValues(value, b)
    decreases |b|
  {
    if b == [] {
      assert a + b == a;
    } else {
      var front, k := b[..|b| - 1], b[|b| - 1];
      AllValuesJoin(value, a, front);
      assert (a + b)[..|a + b| - 1] == a + front;
    }
  }

  /** kvs answers part i: its keys with their values, and their lengths if these are wanted. */
  ghost predicate AnswersWith(ranges: seq<Range>, q: Request, i: nat, kvs: KVPairs<real>, value: Key -> seq<real>,
          wantLens: bool)
    requires GoodRanges(ranges) && GoodRequest(ranges, q) && i < |ranges|
  {
    && HasPartKeys(ranges, q, i, kvs)
    && kvs.vals == AllValues(value, kvs.keys)
    && (wantLens ==> kvs.lens == AllLens(value, kvs.keys))
  }

  lemma {:induction false} JoinAnswerValues(kvs: seq<KVPairs<real>>, value: Key -> seq<real>)
    requires forall i :: 0 <= i < |kvs| ==> kvs[i].vals == AllValues(value, kvs[i].keys)
    ensures JoinVals(kvs) == AllValues(value, JoinKeys(kvs))
  {
    hide AllValues;
    if kvs == [] {
      NoValues(value);
    } else {
      JoinAnswerValues(kvs[1..], value);
      AllValuesJoin(value, kvs[0].keys, JoinKeys(kvs[1..]));
    }
  }

  lemma {:induction false} JoinAnswerLens(kvs: seq<KVPairs<real>>, value: Key -> seq<real>)
    requires forall i :: 0 <= i < |kvs| ==> kvs[i].lens == AllLens(value, kvs[i].keys)
    ensures JoinLens(kvs) == AllLens(value, JoinKeys(kvs))
  {
    hide AllLens;
    if kvs == [] {
      assert AllLens(value, []) == [];
    } else {
      JoinAnswerLens(kvs[1..], value);
      AllLensJoin(value, kvs[0].keys, JoinKeys(kvs[1..]));
    }
  }

  lemma AllLensJoin(value: Key -> seq<real>, a: seq<Key>, b: seq<Key>)
    ensures AllLens(value, a + b) == AllLens(value, a) + AllLens(value, b)
  {
  }

  lemma NoValues(value: Key -> seq<real>)
    ensures AllValues(value, []) == []
  {
  }

  /**
   * For values of any width, with or without lengths: whatever order the replies come in, the
   * pull callback passes its CHECKs and delivers, for every requested key in order, that key's
   * values and their number. vals0 and lens0 are the caller's buffers, empty or of the right size.
   */
  lemma PullDeliversAnyWidth(ranges: seq<Range>, q: Request, order: seq<nat>, got: seq<KVPairs<real>>,
                             value: Key -> seq<real>, vals0: seq<real>, wantLens: bool, lens0: seq<nat>)
    requires GoodRanges(ranges) && GoodRequest(ranges, q)
    requires Complete(ranges, q, order) && |got| == |order|
    requires forall j :: 0 <= j < |got| ==>
      order[j] < |ranges| && AnswersWith(ranges, q, order[j], got[j], value, wantLens)
    requires vals0 == [] || |vals0| == |AllValues(value, q.keys)|
    requires lens0 == [] || |lens0| == |q.keys|
    ensures MergeOk(q.keys, got, vals0, wantLens, lens0)
    ensures JoinVals(SortByFront(got)) == AllValues(value, q.keys)
    ensures wantLens ==> JoinLens(SortByFront(got)) == AllLens(value, q.keys)
  {
    hide *;
    MergePasses(ranges, q, order, got, value, wantLens);
    BuffersFit(q.keys, got, vals0, wantLens, lens0);
  }

  lemma MergePasses(ranges: seq<Range>, q: Request, order: seq<nat>, got: seq<KVPairs<real>>,
                    value: Key -> seq<real>, wantLens: bool)
    requires GoodRanges(ranges) && GoodRequest(ranges, q)
    requires Complete(ranges, q, order) && |got| == |order|
    requires forall j :: 0 <= j < |got| ==>
      order[j] < |ranges| && AnswersWith(ranges, q, order[j], got[j], value, wantLens)
    ensures forall j :: 0 <= j < |got| ==> got[j].keys != []
    ensures MergeOk(q.keys, got, [], wantLens, [])
    ensures JoinVals(SortByFront(got)) == AllValues(value, q.keys)
    ensures wantLens ==> JoinLens(SortByFront(got)) == AllLens(value, q.keys)
  {
    hide *;
    AnswersHaveKeys(ranges, q, order, got, value, wantLens);
    RepliesHaveKeys(ranges, q, order, got);
    SortedAnswers(ranges, q, order, got, value, wantLens);
    JoinSorted(SortByFront(got), q.keys, value, wantLens);
  }

  lemma SortedAnswers(ranges: seq<Range>, q: Request, order: seq<nat>, got: seq<KVPairs<real>>,
                      value: Key -> seq<real>, wantLens: bool)
    requires GoodRanges(ranges) && GoodRequest(ranges, q)
    requires Complete(ranges, q, order) && |got| == |order|
    requires forall j :: 0 <= j < |got| ==>
      order[j] < |ranges| && AnswersWith(ranges, q, order[j], got[j], value, wantLens)
    requires forall j :: 0 <= j < |got| ==> HasPartKeys(ranges, q, order[j], got[j]) && got[j].keys != []
    requires wantLens ==> forall j :: 0 <= j < |got| ==> |got[j].lens| == |got[j].keys|
    ensures MergeOk(q.keys, got, [], wantLens, [])
    ensures var sorted := SortByFront(got);
      && JoinKeys(sorted) == q.keys
      && (forall i :: 0 <= i < |sorted| ==> sorted[i].vals == AllValues(value, sorted[i].keys))
      && (wantLens ==> forall i :: 0 <= i < |sorted| ==> sorted[i].lens == AllLens(value, sorted[i].keys))
  {
    hide *;
    var f := RepliesInServerOrder(ranges, q, order, got, wantLens);
    AnswersInOrder(ranges, q, order, got, value, wantLens, f);
  }

  lemma JoinSorted(sorted: seq<KVPairs<real>>, keys: seq<Key>, value: Key -> seq<real>, wantLens: bool)
    requires JoinKeys(sorted) == keys
    requires forall i :: 0 <= i < |sorted| ==> sorted[i].vals == AllValues(value, sorted[i].keys)
    requires wantLens ==> forall i :: 0 <= i < |sorted| ==> sorted[i].lens == AllLens(value, sorted[i].keys)
    ensures JoinVals(sorted) == AllValues(value, keys)
    ensures wantLens ==> JoinLens(sorted) == AllLens(value, keys)
  {
    hide *;
    JoinAnswerValues(sorted, value);
    if wantLens {
      JoinAnswerLens(sorted, value);
    }
  }

  lemma AnswersHaveKeys(ranges: seq<Range>, q: Request, order: seq<nat>, got: seq<KVPairs<real>>,
                        value: Key -> seq<real>, wantLens: bool)
    requires GoodRanges(ranges) && GoodRequest(ranges, q) && |got| == |order|
    requires forall j :: 0 <= j < |got| ==>
      order[j] < |ranges| && AnswersWith(ranges, q, order[j], got[j], value, wantLens)
    ensures forall j :: 0 <= j < |got| ==> HasPartKeys(ranges, q, order[j], got[j])
    ensures wantLens ==> forall j :: 0 <= j < |got| ==> |got[j].lens| == |got[j].keys|
  {
    hide HasPartKeys, GoodRequest, AllValues;
  }

  /** Sorted, the replies are still answers, and their keys are the requested ones. */
  lemma AnswersInOrder(ranges: seq<Range>, q: Request, order: seq<nat>, got: seq<KVPairs<real>>,
                       value: Key -> seq<real>, wantLens: bool, f: map<nat, KVPairs<real>>)
    requires GoodRanges(ranges) && GoodRequest(ranges, q) && |got| == |order|
    requires forall j :: 0 <= j < |got| ==>
      order[j] < |ranges| && AnswersWith(ranges, q, order[j], got[j], value, wantLens)
    requires forall j :: 0 <= j < |order| ==> order[j] in f && f[order[j]] == got[j]
    requires forall i :: i in Servers(ranges, q, |ranges|) ==> i in f && i in order
    ensures var sorted := Image(f, Servers(ranges, q, |ranges|));
      && JoinKeys(sorted) == q.keys
      && (forall i :: 0 <= i < |sorted| ==> sorted[i].vals == AllValues(value, sorted[i].keys))
      && (wantLens ==> forall i :: 0 <= i < |sorted| ==> sorted[i].lens == AllLens(value, sorted[i].keys))
  {
    hide HasPartKeys, GoodRequest, Part, AllValues, Servers, AllLens;
    var servers := Servers(ranges, q, |ranges|);
    forall i | i in servers
      ensures i < |ranges| && AnswersWith(ranges, q, i, f[i], value, wantLens)
    {
      var j :| 0 <= j < |order| && order[j] == i;
    }
    ServerOrderCovers(ranges, q, f);
    var sorted := Image(f, servers);
    forall i | 0 <= i < |sorted|
      ensures sorted[i].vals == AllValues(value, sorted[i].keys)
      ensures wantLens ==> sorted[i].lens == AllLens(value, sorted[i].keys)
    {
      assert servers[i] in servers;
    }
  }

  lemma RepliesHaveKeys(ranges: seq<Range>, q: Request, order: seq<nat>, got: seq<KVPairs<real>>)
    requires GoodRanges(ranges) && GoodRequest(ranges, q)
    requires Complete(ranges, q, order) && |got| == |order|
    requires forall j :: 0 <= j < |got| ==> order[j] < |ranges| && HasPartKeys(ranges, q, order[j], got[j])
    ensures forall j :: 0 <= j < |got| ==> got[j].keys != []
  {
    hide Part, GoodRequest;
    forall j | 0 <= j < |got|
      ensures got[j].keys != []
    {
      assert order[j] in order;
      PartIs(ranges, q, order[j]);
    }
  }

  /** The caller's buffers do not matter when they have the size of the result. */
  lemma BuffersFit(keys: seq<Key>, got: seq<KVPairs<real>>, vals0: seq<real>, wantLens: bool, lens0: seq<nat>)
    requires forall j :: 0 <= j < |got| ==> got[j].keys != []
    requires MergeOk(keys, got, [], wantLens, [])
    requires vals0 == [] || |vals0| == |JoinVals(SortByFront(got))|
    requires lens0 == [] || |lens0| == |keys|
    ensures MergeOk(keys, got, vals0, wantLens, lens0)
  {
    hide ReplyOk, TotalKeys, SortByFront, JoinVals;
    SortSorts(got);
    JoinValsLength(got, SortByFront(got));
  }

  // ----- one value per key -----

  /** kvs is a reply to part i with one value per key, all[lo..hi]. */
  ghost predicate AnswersPart(ranges: seq<Range>, q: Request, i: nat, kvs: KVPairs<real>, all: seq<real>)
    requires GoodRanges(ranges) && GoodRequest(ranges, q) && i < |ranges| && |all| == |q.keys|
  {
    var lo, hi := Pos(q.keys, ranges, i), Pos(q.keys, ranges, i + 1);
    lo <= hi && kvs == KVPairs(q.keys[lo..hi], all[lo..hi], [])
  }

  /** The value of a requested key among all. */
  function ValueAmong(keys: seq<Key>, all: seq<real>): Key -> seq<real>
    requires |all| == |keys|
  {
    k => if k in keys then [all[IndexOf(keys, k)]] else []
  }

  lemma {:induction false} ValuesAmong(keys: seq<Key>, all: seq<real>, lo: nat, hi: nat)
    requires |all| == |keys| && Increasing(keys) && lo <= hi <= |keys|
    ensures AllValues(ValueAmong(keys, all), keys[lo..hi]) == all[lo..hi]
    decreases hi
  {
    hide AllValues, IndexOf, Increasing;
    var value := ValueAmong(keys, all);
    if lo < hi {
      ValuesAmong(keys, all, lo, hi - 1);
      IndexUnique(keys, hi - 1);
      LastOfCut(keys, lo, hi);
      LastOfCut(all, lo, hi);
      OneMoreValue(value, keys[lo..hi - 1], keys[hi - 1]);
    } else {
      NoValues(value);
      assert keys[lo..hi] == [];
    }
  }

  lemma LastOfCut<T>(s: seq<T>, lo: nat, hi: nat)
    requires lo < hi <= |s|
    ensures s[lo..hi] == s[lo..hi - 1] + [s[hi - 1]]
  {
  }

  lemma IndexUnique(keys: seq<Key>, i: nat)
    requires Increasing(keys) && i < |keys|
    ensures keys[i] in keys && IndexOf(keys, keys[i]) == i
  {
    hide IndexOf;
  }

  lemma OneMoreValue(value: Key -> seq<real>, keys: seq<Key>, k: Key)
    ensures AllValues(value, keys + [k]) == AllValues(value, keys) + value(k)
  {
    assert (keys + [k])[..|keys|] == keys;
  }

  /**
   * When every taking-part server has answered once, in any order, the pull callback passes
   * all its CHECKs and delivers the values in the order of the requested keys.
   */
  lemma PullCompletes(ranges: seq<Range>, q: Request, order: seq<nat>, got: seq<KVPairs<real>>, all: seq<real>)
    requires GoodRanges(ranges) && GoodRequest(ranges, q) && |all| == |q.keys|
    requires Complete(ranges, q, order) && |got| == |order|
    requires forall j :: 0 <= j < |got| ==> order[j] < |ranges| && AnswersPart(ranges, q, order[j], got[j], all)
    ensures MergeOk(q.keys, got, q.vals, false, [])
    ensures JoinVals(SortByFront(got)) == all
  {
    hide MergeOk, JoinVals, SortByFront, AllValues, Part, Complete;
    var value := ValueAmong(q.keys, all);
    forall j | 0 <= j < |got|
      ensures AnswersWith(ranges, q, order[j], got[j], value, false)
    {
      ValuesAmong(q.keys, all, Pos(q.keys, ranges, order[j]), Pos(q.keys, ranges, order[j] + 1));
    }
    ValuesAmong(q.keys, all, 0, |q.keys|);
    assert q.keys[0..|q.keys|] == q.keys && all[0..|q.keys|] == all;
    PullDeliversAnyWidth(ranges, q, order, got, value, q.vals, false, []);
  }
}
