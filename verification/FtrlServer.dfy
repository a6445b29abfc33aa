// Ftrl::handle_request (src/optimizer/ftrl.cpp): the maps W, Z, N and acc, updated in place,
// behave as one map from keys to cells.
//
// The reset branch of update compares the text strftime makes of "%H:$M" with "00:00" and
// "0:0"; that text always contains a dollar sign, so the branch never runs.
module FtrlServer {
  import opened Wrappers
  import opened KvData
  import opened KvStore
  import opened FtrlCell

  /** A plain push updates the cell of its key, a plain pull reads its weight. */
  function FtrlHandle(sqrt: real -> real, p: Params): Handle<Live>
    requires IsSqrt(sqrt) && p.Good()
  {
    Handle(ZERO, (c: Live, g: real) => UpdateCell(sqrt, p, c, g), (c: Live) => c.w)
  }

  /** A pull depends on no parameter. */
  function PullHandle(): Handle<Live> {
    Handle(ZERO, (c: Live, g: real) => c, (c: Live) => c.w)
  }

  lemma {:induction false} PullsAlike(sqrt: real -> real, p: Params, store: Store<Live>, keys: seq<Key>)
    requires IsSqrt(sqrt) && p.Good()
    ensures PullAll(PullHandle(), store, keys) == PullAll(FtrlHandle(sqrt, p), store, keys)
    ensures Read(PullHandle(), store, keys) == Read(FtrlHandle(sqrt, p), store, keys)
    decreases |keys|
  {
    hide UpdateCell, IsSqrt;
    if keys != [] {
      PullsAlike(sqrt, p, store, keys[..|keys| - 1]);
    }
  }

  /** set_weight on a list of keys. */
  function SetAll(store: Store<Live>, keys: seq<Key>, vals: seq<real>): Store<Live>
    requires |vals| == |keys|
  {
    if keys == [] then store
    else
      var last := |keys| - 1;
      var before := SetAll(store, keys[..last], vals[..last]);
      before[keys[last] := SetCell(At(PullHandle(), before, keys[last]), vals[last])]
  }

  function GetReal(m: map<Key, real>, k: Key): real { if k in m then m[k] else 0.0 }

  function GetNat(m: map<Key, nat>, k: Key): nat { if k in m then m[k] else 0 }

  /** Four maps as one; a key exists once W has it. */
  function Cells(W: map<Key, real>, Z: map<Key, real>, N: map<Key, real>, acc: map<Key, nat>): map<Key, Cell> {
    map k | k in W :: Cell(W[k], GetReal(Z, k), GetReal(N, k), GetNat(acc, k))
  }

  lemma CellsUpdated(W: map<Key, real>, Z: map<Key, real>, N: map<Key, real>, acc: map<Key, nat>,
                     k: Key, w: real, z: real, n: real, a: nat)
    ensures Cells(W[k := w], Z[k := z], N[k := n], acc[k := a]) == Cells(W, Z, N, acc)[k := Cell(w, z, n, a)]
  {
  }

  lemma WeightSet(W: map<Key, real>, Z: map<Key, real>, N: map<Key, real>, acc: map<Key, nat>, k: Key, w: real, a: nat)
    ensures Cells(W[k := w], Z, N, acc[k := a]) == Cells(W, Z, N, acc)[k := Cell(w, GetReal(Z, k), GetReal(N, k), a)]
  {
  }

  lemma WeightRead(W: map<Key, real>, Z: map<Key, real>, N: map<Key, real>, acc: map<Key, nat>, k: Key, w: real)
    ensures Cells(W[k := w], Z, N, acc)
         == Cells(W, Z, N, acc)[k := Cell(w, GetReal(Z, k), GetReal(N, k), GetNat(acc, k))]
  {
  }

  lemma CellsAt(W: map<Key, real>, Z: map<Key, real>, N: map<Key, real>, acc: map<Key, nat>, k: Key)
    ensures k in Cells(W, Z, N, acc) <==> k in W
    ensures k in W ==> Cells(W, Z, N, acc)[k] == Cell(GetReal(W, k), GetReal(Z, k), GetReal(N, k), GetNat(acc, k))
    ensures k !in W && Z.Keys <= W.Keys && N.Keys <= W.Keys && acc.Keys <= W.Keys ==>
      Cell(GetReal(W, k), GetReal(Z, k), GetReal(N, k), GetNat(acc, k)) == ZERO
  {
  }

  datatype Meta = Meta(push: bool, cmd: int)

  class Ftrl {
    var alpha: real
    var beta: real
    var lamda1: real
    var lamda2: real
    var setFlag: bool
    var W: map<Key, real>
    var Z: map<Key, real>
    var N: map<Key, real>
    var acc: map<Key, nat>
    const sqrt: real -> real

    /** The cell a key has, all zero for what its maps do not hold yet. */
    ghost function CellAt(k: Key): Cell
      reads this
    {
      Cell(GetReal(W, k), GetReal(Z, k), GetReal(N, k), GetNat(acc, k))
    }

    ghost predicate Valid()
      reads this
    {
      && IsSqrt(sqrt)
      && Z.Keys <= W.Keys && N.Keys <= W.Keys && acc.Keys <= W.Keys
      && forall k :: k in Cells(W, Z, N, acc) ==> CellOk(Cells(W, Z, N, acc)[k])
    }

    ghost function Param(): Params
      reads this
    {
      Params(alpha, beta, lamda1, lamda2)
    }

    /** The four maps as one store. */
    ghost function View(): Store<Live>
      reads this
      requires Valid()
    {
      Cells(W, Z, N, acc)
    }

    constructor (sqrt: real -> real)
      requires IsSqrt(sqrt)
      ensures Valid() && View() == map[] && !setFlag && this.sqrt == sqrt
    {
      this.sqrt := sqrt;
      alpha, beta, lamda1, lamda2 := 0.0, 0.0, 0.0, 0.0;
      setFlag := false;
      W, Z, N, acc := map[], map[], map[], map[];
    }

    /** set_param */
    method SetParam(alpha: real, beta: real, l1: real, l2: real)
      modifies this`alpha, this`beta, this`lamda1, this`lamda2
      ensures Param() == Params(alpha, beta, l1, l2)
    {
      this.alpha, this.beta, lamda1, lamda2 := alpha, beta, l1, l2;
    }

    /** The weight computed at the end of a pass. */
    method NewWeight(z: real, n: real) returns (w: real)
      requires IsSqrt(sqrt) && Param().Good() && n >= 0.0 && (n == 0.0 ==> z == 0.0)
      ensures w == Weight(sqrt, Param(), z, n)
    {
      hide IsSqrt;
      if Abs(z) <= lamda1 {
        w := 0.0;
      } else {
        CurvatureSign(sqrt, Param(), n);
        var sign := if z > 0.0 then 1.0 else -1.0;
        var tmpr := z - sign * lamda1;
        var tmpl := -((beta + sqrt(n)) / alpha + lamda2);
        w := tmpr / tmpl;
      }
    }

    /** One pass of the loop in update. */
    method UpdateKey(key: Key, g: real)
      requires Valid() && Param().Good() && CellOk(CellAt(key))
      modifies this`W, this`Z, this`N, this`acc
      ensures Valid()
      ensures View() == old(View())[key := UpdateCell(sqrt, Param(), old(CellAt(key)), g)]
    {
      hide UpdateCell, Weight, Sigma, Grown, Moved, IsSqrt, Cells;
      ghost var c: Live := CellAt(key);
      CellStep(sqrt, Param(), c, g);
      acc := acc[key := GetNat(acc, key) + 1];
      var ni := Grown(GetReal(N, key), g);
      Z := Z[key := Moved(GetReal(Z, key), g, (sqrt(ni) - sqrt(GetReal(N, key))) / alpha, GetReal(W, key))];
      N := N[key := ni];
      var w := NewWeight(Z[key], ni);
      W := W[key := w];
      ghost var r := UpdateCell(sqrt, Param(), c, g);
      CellsUpdated(old(W), old(Z), old(N), old(acc), key, r.w, r.z, r.n, r.acc);
    }

    /** update */
    method Update(keys: seq<Key>, vals: seq<real>)
      requires Valid() && Param().Good() && |vals| == |keys|
      modifies this`W, this`Z, this`N, this`acc
      ensures Valid()
      ensures View() == PushAll(FtrlHandle(sqrt, Param()), old(View()), keys, vals)
    {
      ghost var h := FtrlHandle(sqrt, Param());
      for i := 0 to |keys|
        invariant Valid() && Param() == old(Param())
        invariant View() == PushAll(h, old(View()), keys[..i], vals[..i])
      {
        hide UpdateCell, PushAll, IsSqrt, Cells;
        PushSnoc(h, old(View()), keys[..i], vals[..i], keys[i], vals[i]);
        assert keys[..i + 1] == keys[..i] + [keys[i]] && vals[..i + 1] == vals[..i] + [vals[i]];
        AtIsCellAt(keys[i]);
        UpdateKey(keys[i], vals[i]);
      }
      assert keys[..|keys|] == keys && vals[..|keys|] == vals;
    }

    /** set_weight */
    method SetWeight(keys: seq<Key>, vals: seq<real>)
      requires Valid() && |vals| == |keys|
      modifies this`W, this`acc, this`setFlag
      ensures Valid() && setFlag
      ensures View() == SetAll(old(View()), keys, vals)
    {
      for i := 0 to |keys|
        invariant Valid()
        invariant View() == SetAll(old(View()), keys[..i], vals[..i])
      {
        hide SetAll, IsSqrt, Cells;
        SetOneMore(old(View()), keys[..i], vals[..i], keys[i], vals[i]);
        assert keys[..i + 1] == keys[..i] + [keys[i]] && vals[..i + 1] == vals[..i] + [vals[i]];
        SetKey(keys[i], vals[i]);
      }
      assert keys[..|keys|] == keys && vals[..|keys|] == vals;
      setFlag := true;
    }

    /** One pass of the loop in set_weight. */
    method SetKey(key: Key, v: real)
      requires Valid()
      modifies this`W, this`acc
      ensures Valid()
      ensures View() == old(View())[key := SetCell(At(PullHandle(), old(View()), key), v)]
    {
      hide IsSqrt, Cells;
      CellsAt(W, Z, N, acc, key);
      W := W[key := v];
      acc := acc[key := 1000000];
      WeightSet(old(W), Z, N, old(acc), key, v, 1000000);
    }

    /** Reading a weight creates it. */
    method ReadKey(key: Key) returns (w: real)
      requires Valid() && CellOk(CellAt(key))
      modifies this`W
      ensures Valid() && w == old(CellAt(key)).w
      ensures View() == old(View())[key := old(CellAt(key))]
    {
      hide IsSqrt, Cells;
      CellsAt(W, Z, N, acc, key);
      W := W[key := GetReal(W, key)];
      w := W[key];
      WeightRead(old(W), Z, N, acc, key, w);
    }

    /** Looking up a key in the store is looking it up in the four maps. */
    lemma AtIsCellAt(k: Key)
      requires Valid()
      ensures CellOk(CellAt(k))
      ensures CellAt(k) == At(PullHandle(), View(), k)
    {
      hide Cells;
      CellsAt(W, Z, N, acc, k);
    }

    /** The plain pull. */
    method ReadAll(keys: seq<Key>) returns (vals: seq<real>)
      requires Valid()
      modifies this`W
      ensures Valid()
      ensures View() == PullAll(PullHandle(), old(View()), keys)
      ensures vals == Read(PullHandle(), old(View()), keys)
    {
      ghost var h := PullHandle();
      vals := [];
      for i := 0 to |keys|
        invariant Valid()
        invariant View() == PullAll(h, old(View()), keys[..i])
        invariant vals == Read(h, old(View()), keys[..i])
      {
        hide PullAll, Read, IsSqrt, Cells;
        AtIsCellAt(keys[i]);
        PullSnoc(h, old(View()), keys[..i], keys[i]);
        assert keys[..i + 1] == keys[..i] + [keys[i]];
        var w := ReadKey(keys[i]);
        vals := vals + [w];
      }
      assert keys[..|keys|] == keys;
    }

    /**
     * handle_request: a push with command 1 sets weights, with command 2 the parameters, with
     * any other command it is a gradient; a pull with command 1 asks whether weights were set.
     * Out of bounds are exactly an empty pull with command 1 and a push of fewer than four values
     * with command 2; in both cases the source reads an element that is not there.
     */
    method HandleRequest(meta: Meta, keys: seq<Key>, vals: seq<real>) returns (inBounds: bool, res: Result<seq<real>>)
      requires Valid()
      requires meta.push && meta.cmd != 1 && meta.cmd != 2 ==> Param().Good()
      modifies this
      ensures Valid()
      ensures inBounds <==>
        if meta.push then meta.cmd == 2 && |vals| == |keys| ==> |vals| >= 4 else meta.cmd == 1 ==> keys != []
      ensures res.CheckFailed? <==> meta.push && |vals| != |keys|
      ensures res.CheckFailed? ==> View() == old(View()) && Param() == old(Param()) && setFlag == old(setFlag)
      ensures res.Ok? && meta.push && meta.cmd == 1 ==> View() == SetAll(old(View()), keys, vals)
      ensures res.Ok? && meta.push && meta.cmd == 2 && inBounds ==>
        View() == old(View()) && Param() == Params(vals[0], vals[1], vals[2], vals[3])
      ensures res.Ok? && meta.push && meta.cmd != 1 && meta.cmd != 2 ==>
        View() == PushAll(FtrlHandle(sqrt, old(Param())), old(View()), keys, vals)
      ensures !meta.push && meta.cmd != 1 ==> View() == PullAll(PullHandle(), old(View()), keys)
      ensures !meta.push && meta.cmd != 1 ==> res == Ok(Read(PullHandle(), old(View()), keys))
      ensures !meta.push && meta.cmd == 1 ==> View() == old(View())
      ensures !meta.push && meta.cmd == 1 && inBounds ==>
        res.Ok? && |res.value| == |keys| && res.value[0] == if setFlag then 0.0 else 1.0
      ensures setFlag == (old(setFlag) || (meta.push && meta.cmd == 1 && res.Ok?))
      ensures Param() == old(Param()) || (meta.push && meta.cmd == 2)
    {
      hide IsSqrt, PushAll, PullAll, Read, SetAll;
      inBounds := true;
      if meta.push && |vals| != |keys| {
        return true, CheckFailed;
      }
      res := Ok([]);
      if meta.push {
        if meta.cmd == 1 {
          SetWeight(keys, vals);
        } else if meta.cmd == 2 {
          inBounds := |vals| >= 4;
          if inBounds {
            SetParam(vals[0], vals[1], vals[2], vals[3]);
          }
        } else {
          Update(keys, vals);
        }
      } else if meta.cmd == 1 {
        inBounds := keys != [];
        if inBounds {
          res := Ok([if setFlag then 0.0 else 1.0] + seq(|keys| - 1, _ => 0.0));
        }
      } else {
        var ws := ReadAll(keys);
        res := Ok(ws);
      }
    }
  }

  /** The fields of an updated cell. */
  lemma CellStep(sqrt: real -> real, p: Params, c: Live, g: real)
    requires IsSqrt(sqrt) && p.Good()
    ensures var r := UpdateCell(sqrt, p, c, g);
      && r.n == Grown(c.n, g)
      && r.z == Moved(c.z, g, (sqrt(Grown(c.n, g)) - sqrt(c.n)) / p.alpha, c.w)
      && r.acc == c.acc + 1
      && r.n >= 0.0 && (r.n == 0.0 ==> r.z == 0.0)
      && r.w == Weight(sqrt, p, r.z, r.n)
  {
    hide Grown, Moved, Weight;
  }

  lemma SetOneMore(store: Store<Live>, keys: seq<Key>, vals: seq<real>, k: Key, v: real)
    requires |vals| == |keys|
    ensures var before := SetAll(store, keys, vals);
      SetAll(store, keys + [k], vals + [v]) == before[k := SetCell(At(PullHandle(), before, k), v)]
  {
    assert (keys + [k])[..|keys|] == keys && (vals + [v])[..|keys|] == vals;
  }

  /** The value set_weight gives to key k: the last one listed for it. */
  function LastValue(keys: seq<Key>, vals: seq<real>, k: Key): real
    requires |vals| == |keys| && k in keys
  {
    var last := |keys| - 1;
    if keys[last] == k then vals[last] else LastValue(keys[..last], vals[..last], k)
  }

  lemma {:induction false} LastListed(keys: seq<Key>, vals: seq<real>, i: nat)
    requires |vals| == |keys| && i < |keys| && forall j :: i < j < |keys| ==> keys[j] != keys[i]
    ensures LastValue(keys, vals, keys[i]) == vals[i]
    decreases |keys|
  {
    if i < |keys| - 1 {
      LastListed(keys[..|keys| - 1], vals[..|keys| - 1], i);
    }
  }

  lemma {:induction false} SetAllCells(store: Store<Live>, keys: seq<Key>, vals: seq<real>, k: Key)
    requires |vals| == |keys|
    ensures k in SetAll(store, keys, vals) <==> k in store || k in keys
    ensures k in keys ==> At(PullHandle(), SetAll(store, keys, vals), k)
                          == SetCell(At(PullHandle(), store, k), LastValue(keys, vals, k))
    ensures k !in keys ==> At(PullHandle(), SetAll(store, keys, vals), k) == At(PullHandle(), store, k)
    decreases |keys|
  {
    if keys != [] {
      var last := |keys| - 1;
      assert keys == keys[..last] + [keys[last]];
      SetAllCells(store, keys[..last], vals[..last], k);
    }
  }

  /** Per key, set_weight is one SetWeight event with the last value listed, also for repeated keys. */
  lemma SetAllAt(sqrt: real -> real, p: Params, store: Store<Live>, keys: seq<Key>, vals: seq<real>, k: Key)
    requires IsSqrt(sqrt) && p.Good() && |vals| == |keys|
    ensures k in SetAll(store, keys, vals) <==> k in store || k in keys
    ensures k in keys ==> At(PullHandle(), SetAll(store, keys, vals), k)
                          == Happen(sqrt, p, At(PullHandle(), store, k), Event.SetWeight(LastValue(keys, vals, k)))
    ensures k !in keys ==> At(PullHandle(), SetAll(store, keys, vals), k) == At(PullHandle(), store, k)
  {
    hide UpdateCell, IsSqrt, SetAll, LastValue;
    SetAllCells(store, keys, vals, k);
  }

  /** What a store says of a key: the cell's fields, or zeros. */
  function CellOf(store: Store<Live>, k: Key): Cell {
    if k in store then store[k] else Cell(0.0, 0.0, 0.0, 0)
  }

  /**
   * What a plain pull reads behind set_weight, whatever the store and the lists: for a listed key
   * the last value listed for it, for any other key what it would have read before. Z and N stay,
   * and the counters of listed keys become 1000000.
   */
  lemma SetThenPull(store: Store<Live>, keys: seq<Key>, vals: seq<real>, pulled: seq<Key>, j: nat)
    requires |vals| == |keys| && j < |pulled|
    ensures var k, read := pulled[j], Read(PullHandle(), SetAll(store, keys, vals), pulled)[j];
      && (forall i :: 0 <= i < |keys| && keys[i] == k && (forall m :: i < m < |keys| ==> keys[m] != k) ==>
           read == vals[i])
      && (k !in keys ==> read == CellOf(store, k).w)
    ensures var k, after := pulled[j], SetAll(store, keys, vals);
      && (k in keys ==> k in after && after[k] == Cell(after[k].w, CellOf(store, k).z, CellOf(store, k).n, 1000000))
      && (k !in keys ==> CellOf(after, k) == CellOf(store, k))
  {
    hide SetAll, LastValue;
    var k := pulled[j];
    SetAllCells(store, keys, vals, k);
    forall i | 0 <= i < |keys| && keys[i] == k && forall m :: i < m < |keys| ==> keys[m] != k
      ensures LastValue(keys, vals, k) == vals[i]
    {
      LastListed(keys, vals, i);
    }
  }
}
