// Keys, key ranges and key-value lists of the parameter server
// (deps/include/ps/kv_app.h, deps/include/ps/range.h).
module KvData {

  const KEY_LIMIT: int := 0x1_0000_0000_0000_0000

  /** uint64_t keys. */
  type Key = k: int | 0 <= k < KEY_LIMIT witness 0

  /** A server's keys: begin inclusive, end exclusive, both uint64_t. */
  datatype Range = Range(begin: Key, end: Key) {
    predicate Has(k: Key) { begin <= k < end }
  }

  /** A list of keys with their values; lens may be empty, then all values have one width. */
  datatype KVPairs<V> = KVPairs(keys: seq<Key>, vals: seq<V>, lens: seq<nat>)

  function Empty<V>(): KVPairs<V> { KVPairs([], [], []) }

  predicate Increasing(keys: seq<Key>) {
    forall i, j :: 0 <= i < j < |keys| ==> keys[i] < keys[j]
  }

  /** Where a key first stands in a list. */
  function IndexOf(keys: seq<Key>, k: Key): (i: nat)
    requires k in keys
    ensures i < |keys| && keys[i] == k
  {
    if keys[0] == k then 0 else 1 + IndexOf(keys[1..], k)
  }

  function Sum(lens: seq<nat>): nat {
    if lens == [] then 0 else lens[0] + Sum(lens[1..])
  }

  function Repeat<T>(k: T, n: nat): (r: seq<T>)
    ensures |r| == n && forall i :: 0 <= i < n ==> r[i] == k
  {
    seq(n, _ => k)
  }

  /** Key i owns the next widths[i] values. */
  function Zip<V>(keys: seq<Key>, widths: seq<nat>, vals: seq<V>): (r: seq<(Key, seq<V>)>)
    requires |widths| == |keys| && Sum(widths) <= |vals|
    ensures |r| == |keys|
    ensures forall i :: 0 <= i < |r| ==> r[i].0 == keys[i]
    decreases |keys|
  {
    if keys == [] then []
    else [(keys[0], vals[..widths[0]])] + Zip(keys[1..], widths[1..], vals[widths[0]..])
  }

  /** The common width k of a list without lens. */
  function Width<V>(kv: KVPairs<V>): nat {
    if kv.keys == [] then 0 else |kv.vals| / |kv.keys|
  }

  function Widths<V>(kv: KVPairs<V>): seq<nat> {
    if kv.lens == [] then Repeat(Width(kv), |kv.keys|) else kv.lens
  }

  /** The shape the slicer checks. */
  predicate Shaped<V>(kv: KVPairs<V>) {
    if kv.lens == [] then Width(kv) * |kv.keys| == |kv.vals|
    else |kv.lens| == |kv.keys| && Sum(kv.lens) <= |kv.vals|
  }

  /** What a list means: each key with its values, in key order. */
  function Pairs<V>(kv: KVPairs<V>): (r: seq<(Key, seq<V>)>)
    requires Shaped(kv)
    ensures |r| == |kv.keys|
    ensures forall i :: 0 <= i < |r| ==> r[i].0 == kv.keys[i]
  {
    ShapedWidths(kv);
    Zip(kv.keys, Widths(kv), kv.vals)
  }

  lemma ShapedWidths<V>(kv: KVPairs<V>)
    requires Shaped(kv)
    ensures |Widths(kv)| == |kv.keys| && Sum(Widths(kv)) <= |kv.vals|
  {
    if kv.lens == [] {
      SumRepeat(Width(kv), |kv.keys|);
    }
  }

  lemma {:induction false} SumRepeat(k: nat, n: nat)
    ensures Sum(Repeat(k, n)) == k * n
  {
    if n > 0 {
      assert Repeat(k, n)[1..] == Repeat(k, n - 1);
      SumRepeat(k, n - 1);
      assert k * n == k + k * (n - 1);
    }
  }

  lemma {:induction false} SumConcat(a: seq<nat>, b: seq<nat>)
    ensures Sum(a + b) == Sum(a) + Sum(b)
  {
    if a == [] {
      assert a + b == b;
    } else {
      assert (a + b)[1..] == a[1..] + b;
      SumConcat(a[1..], b);
    }
  }

  /** The values of key i: those between the partial width sums. */
  function Group<V>(widths: seq<nat>, vals: seq<V>, i: nat): seq<V>
    requires i < |widths| && Sum(widths) <= |vals|
  {
    SumCut(widths, i, i + 1);
    vals[Sum(widths[..i])..Sum(widths[..i + 1])]
  }

  lemma {:induction false} ZipAt<V>(keys: seq<Key>, widths: seq<nat>, vals: seq<V>, i: nat)
    requires |widths| == |keys| && Sum(widths) <= |vals| && i < |keys|
    ensures Zip(keys, widths, vals)[i] == (keys[i], Group(widths, vals, i))
    decreases |keys|
  {
    var w := widths[0];
    if i == 0 {
      assert widths[..1][1..] == [];
    } else {
      ZipAt(keys[1..], widths[1..], vals[w..], i - 1);
      GroupOfTail(widths, vals, i);
    }
  }

  /** Group i counts from the first key, or, one key later, group i - 1 from the second. */
  lemma GroupOfTail<V>(widths: seq<nat>, vals: seq<V>, i: nat)
    requires 0 < i < |widths| && Sum(widths) <= |vals|
    requires widths[0] <= |vals| && Sum(widths[1..]) <= |vals| - widths[0]
    ensures Group(widths, vals, i) == Group(widths[1..], vals[widths[0]..], i - 1)
  {
    hide Sum;
    var w := widths[0];
    SumFirst(widths, i);
    SumFirst(widths, i + 1);
    SumFirst(widths, |widths|);
    assert widths[..|widths|] == widths && widths[1..][..|widths| - 1] == widths[1..];
    var a, b := Sum(widths[1..][..i - 1]), Sum(widths[1..][..i]);
    SumCut(widths[1..], i - 1, i);
    assert vals[w..] == vals[w..|vals|];
    SliceOfSlice(vals, w, |vals|, a, b);
  }

  lemma SumFirst(widths: seq<nat>, i: nat)
    requires 0 < i <= |widths|
    ensures Sum(widths[..i]) == widths[0] + Sum(widths[1..][..i - 1])
  {
    assert widths[..i][1..] == widths[1..][..i - 1];
  }

  /** Cutting a list: the pairs from key i to key j are the zip of the three cuts. */
  lemma ZipCut<V>(keys: seq<Key>, widths: seq<nat>, vals: seq<V>, i: nat, j: nat)
    requires |widths| == |keys| && Sum(widths) <= |vals| && i <= j <= |keys|
    ensures Sum(widths[..i]) <= Sum(widths[..j]) <= |vals|
    ensures Sum(widths[i..j]) == Sum(widths[..j]) - Sum(widths[..i])
    ensures Zip(keys, widths, vals)[i..j]
         == Zip(keys[i..j], widths[i..j], vals[Sum(widths[..i])..Sum(widths[..j])])
  {
    hide Zip, Sum;
    SumCut(widths, i, j);
    var whole := Zip(keys, widths, vals);
    var cut := Zip(keys[i..j], widths[i..j], vals[Sum(widths[..i])..Sum(widths[..j])]);
    forall m: nat | m < j - i
      ensures whole[i + m] == cut[m]
    {
      ZipCutAt(keys, widths, vals, i, j, m, vals[Sum(widths[..i])..Sum(widths[..j])]);
    }
    SamePart(whole, cut, i, j);
  }

  lemma SamePart<T>(whole: seq<T>, cut: seq<T>, i: nat, j: nat)
    requires i <= j <= |whole| && |cut| == j - i && forall m: nat :: m < j - i ==> whole[i + m] == cut[m]
    ensures whole[i..j] == cut
  {
  }

  lemma ZipCutAt<V>(keys: seq<Key>, widths: seq<nat>, vals: seq<V>, i: nat, j: nat, m: nat, part: seq<V>)
    requires |widths| == |keys| && Sum(widths) <= |vals| && i <= j <= |keys| && m < j - i
    requires Sum(widths[..i]) <= Sum(widths[..j]) <= |vals| && part == vals[Sum(widths[..i])..Sum(widths[..j])]
    requires Sum(widths[i..j]) == |part|
    ensures Zip(keys, widths, vals)[i + m] == Zip(keys[i..j], widths[i..j], part)[m]
  {
    hide Zip, Sum, Group;
    var ks, ws := keys[i..j], widths[i..j];
    assert keys[i + m] == ks[m];
    ZipAt(keys, widths, vals, i + m);
    ZipAt(ks, ws, part, m);
    CutGroup(widths, vals, i, j, m);
  }

  lemma CutGroup<V>(widths: seq<nat>, vals: seq<V>, i: nat, j: nat, m: nat)
    requires Sum(widths) <= |vals| && i <= j <= |widths| && m < j - i
    requires Sum(widths[..i]) <= Sum(widths[..j]) <= |vals|
    requires Sum(widths[i..j]) == Sum(widths[..j]) - Sum(widths[..i])
    ensures Group(widths, vals, i + m)
         == Group(widths[i..j], vals[Sum(widths[..i])..Sum(widths[..j])], m)
  {
    hide Sum;
    CutSum(widths, i, j, m);
    CutSum(widths, i, j, m + 1);
    assert i + (m + 1) == i + m + 1;
    SumCut(widths, i + m, i + m + 1);
    SumCut(widths[i..j], m, m + 1);
    var a, b := Sum(widths[i..j][..m]), Sum(widths[i..j][..m + 1]);
    SliceOfSlice(vals, Sum(widths[..i]), Sum(widths[..j]), a, b);
  }

  lemma SliceOfSlice<T>(s: seq<T>, lo: nat, hi: nat, a: nat, b: nat)
    requires lo <= hi <= |s| && a <= b <= hi - lo
    ensures s[lo..hi][a..b] == s[lo + a..lo + b]
  {
    var x, y := s[lo..hi][a..b], s[lo + a..lo + b];
    forall i | 0 <= i < |x|
      ensures x[i] == y[i]
    {
      assert s[lo..hi][a + i] == s[lo + a + i];
    }
  }

  lemma CutSum(widths: seq<nat>, i: nat, j: nat, m: nat)
    requires i <= j <= |widths| && m <= j - i
    ensures Sum(widths[..i + m]) == Sum(widths[..i]) + Sum(widths[i..j][..m])
    ensures Sum(widths[..i + m]) <= Sum(widths[..j])
  {
    SumCut(widths, i, i + m);
    SumCut(widths, i + m, j);
    assert widths[i..j][..m] == widths[i..i + m];
  }

  lemma SumCut(widths: seq<nat>, i: nat, j: nat)
    requires i <= j <= |widths|
    ensures Sum(widths[..i]) <= Sum(widths[..j]) <= Sum(widths)
    ensures Sum(widths[i..j]) == Sum(widths[..j]) - Sum(widths[..i])
  {
    assert widths[..j] == widths[..i] + widths[i..j];
    SumConcat(widths[..i], widths[i..j]);
    assert widths == widths[..j] + widths[j..];
    SumConcat(widths[..j], widths[j..]);
  }

  // ----- lower_bound on increasing keys -----

  /** std::lower_bound: how many leading keys are below x. */
  function Below(keys: seq<Key>, x: int): (n: nat)
    ensures n <= |keys|
  {
    if keys == [] || keys[0] >= x then 0 else 1 + Below(keys[1..], x)
  }

  /** On increasing keys the count is a cut: everything before it is below x, nothing after. */
  lemma {:induction false} BelowCut(keys: seq<Key>, x: int)
    requires Increasing(keys)
    ensures forall i :: 0 <= i < |keys| ==> (keys[i] < x <==> i < Below(keys, x))
  {
    if keys != [] && keys[0] < x {
      BelowCut(keys[1..], x);
      forall i | 0 <= i < |keys|
        ensures keys[i] < x <==> i < Below(keys, x)
      {
        if i > 0 {
          assert keys[i] == keys[1..][i - 1];
        }
      }
    }
  }

  /** The cut is determined by that property. */
  lemma BelowUnique(keys: seq<Key>, x: int, n: nat)
    requires Increasing(keys) && n <= |keys|
    requires forall i :: 0 <= i < |keys| ==> (keys[i] < x <==> i < n)
    ensures Below(keys, x) == n
  {
    BelowCut(keys, x);
    var m := Below(keys, x);
    assert m < |keys| ==> (keys[m] < x <==> m < n);
    assert n < |keys| ==> (keys[n] < x <==> n < m);
  }

  /** Searching from a later start finds the same cut. */
  lemma BelowFrom(keys: seq<Key>, start: nat, x: int)
    requires Increasing(keys) && start <= Below(keys, x)
    ensures start + Below(keys[start..], x) == Below(keys, x)
  {
    BelowCut(keys, x);
    var rest := keys[start..];
    forall i | 0 <= i < |rest|
      ensures rest[i] < x <==> i < Below(keys, x) - start
    {
      assert rest[i] == keys[start + i];
    }
    BelowUnique(rest, x, Below(keys, x) - start);
  }

  lemma BelowMonotone(keys: seq<Key>, x: int, y: int)
    requires Increasing(keys) && x <= y
    ensures Below(keys, x) <= Below(keys, y)
  {
    BelowCut(keys, x);
    BelowCut(keys, y);
    var n := Below(keys, y);
    assert n < |keys| ==> (keys[n] < x <==> n < Below(keys, x));
  }
}
