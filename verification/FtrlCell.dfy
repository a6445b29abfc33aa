// The FTRL-Proximal state of one key (src/optimizer/ftrl.cpp): what Ftrl::update and
// Ftrl::set_weight do to it, and the objective its weight minimises (Algorithm 1 of McMahan
// et al., Ad Click Prediction, KDD 2013). float is modelled as real and std::sqrt as any
// function that gives non-negative square roots.
module FtrlCell {

  // Products are named where their sign matters: the solver decides signs of named products.
  function Times(x: real, y: real): real { x * y }

  function Square(x: real): real { Times(x, x) }

  lemma TimesSign(x: real, y: real)
    ensures x > 0.0 && y > 0.0 ==> Times(x, y) > 0.0
    ensures x == 0.0 || y == 0.0 ==> Times(x, y) == 0.0
    ensures x >= 0.0 && y >= 0.0 ==> Times(x, y) >= 0.0
  {
    if x == 0.0 || y == 0.0 {
      assert x * y == 0.0;
    } else if x > 0.0 && y > 0.0 {
      TimesPositive(x, y);
    }
  }

  lemma TimesPositive(x: real, y: real)
    requires x > 0.0 && y > 0.0
    ensures Times(x, y) > 0.0
  {
  }

  lemma TimesOpposites(x: real)
    ensures Times(-x, -x) == Times(x, x)
  {
  }

  lemma SquareSign(x: real)
    ensures Square(x) >= 0.0 && (Square(x) == 0.0 <==> x == 0.0)
  {
    hide Times;
    TimesSign(x, x);
    TimesSign(-x, -x);
    TimesOpposites(x);
  }

  ghost predicate IsSqrt(sqrt: real -> real) {
    forall x: real {:trigger sqrt(x)} :: x >= 0.0 ==> sqrt(x) >= 0.0 && Square(sqrt(x)) == x
  }

  datatype Params = Params(alpha: real, beta: real, lamda1: real, lamda2: real) {
    predicate Good() { alpha > 0.0 && beta >= 0.0 && lamda1 >= 0.0 && lamda2 >= 0.0 }
  }

  /** W, Z, N and acc of one key. */
  datatype Cell = Cell(w: real, z: real, n: real, acc: nat)

  const ZERO: Live := Cell(0.0, 0.0, 0.0, 0)

  /** N is a sum of squares, and Z has only moved if N has. */
  predicate CellOk(c: Cell) { c.n >= 0.0 && (c.n == 0.0 ==> c.z == 0.0) }

  type Live = c: Cell | CellOk(c) witness Cell(0.0, 0.0, 0.0, 0)

  function Abs(x: real): real { if x >= 0.0 then x else -x }

  /** The curvature (beta + sqrt(N)) / alpha + lamda2 of a cell's objective. */
  function Curvature(sqrt: real -> real, p: Params, n: real): real
    requires p.alpha > 0.0
  {
    (p.beta + sqrt(n)) / p.alpha + p.lamda2
  }

  /** N after one more gradient. */
  function Grown(n: real, g: real): real {
    n + Square(g)
  }

  /** Z after one more gradient, with weight w in force. */
  function Moved(z: real, g: real, sigma: real, w: real): real {
    z + (g - sigma * w)
  }

  /** sigma: how much one gradient adds to the proximal term. */
  function Sigma(sqrt: real -> real, p: Params, n: real, g: real): real
    requires p.alpha > 0.0
  {
    (sqrt(Grown(n, g)) - sqrt(n)) / p.alpha
  }

  /** The weight for given Z and N. */
  function Weight(sqrt: real -> real, p: Params, z: real, n: real): real
    requires IsSqrt(sqrt) && p.Good() && n >= 0.0 && (n == 0.0 ==> z == 0.0)
  {
    if Abs(z) <= p.lamda1 then 0.0
    else
      CurvatureSign(sqrt, p, n);
      var sign := if z > 0.0 then 1.0 else -1.0;
      (z - sign * p.lamda1) / -Curvature(sqrt, p, n)
  }

  /** The body of the loop in update, for one key. */
  function UpdateCell(sqrt: real -> real, p: Params, c: Live, g: real): Live
    requires IsSqrt(sqrt) && p.Good()
  {
    var n := Grown(c.n, g);
    var z := Moved(c.z, g, Sigma(sqrt, p, c.n, g), c.w);
    StillOk(sqrt, p, c, g);
    Cell(Weight(sqrt, p, z, n), z, n, c.acc + 1)
  }

  /** The body of the loop in set_weight, for one key. */
  function SetCell(c: Live, v: real): Live {
    c.(w := v, acc := 1000000)
  }

  lemma GrownSign(n: real, g: real)
    requires n >= 0.0
    ensures Grown(n, g) >= n && (Grown(n, g) == 0.0 <==> n == 0.0 && g == 0.0)
    ensures g == 0.0 ==> Grown(n, g) == n
  {
    hide Square;
    SquareSign(g);
  }

  lemma StillOk(sqrt: real -> real, p: Params, c: Live, g: real)
    requires p.Good()
    ensures CellOk(Cell(c.w, Moved(c.z, g, Sigma(sqrt, p, c.n, g), c.w), Grown(c.n, g), c.acc))
  {
    hide Grown, Square;
    GrownSign(c.n, g);
    if Grown(c.n, g) == 0.0 {
      Quotient(0.0, p.alpha);
      assert Sigma(sqrt, p, c.n, g) == 0.0;
      assert 0.0 * c.w == 0.0;
    }
  }

  /** The divisor is never zero when a division happens: then N, hence sqrt(N), is positive. */
  lemma CurvatureSign(sqrt: real -> real, p: Params, n: real)
    requires IsSqrt(sqrt) && p.Good() && n >= 0.0
    ensures Curvature(sqrt, p, n) >= 0.0
    ensures n > 0.0 ==> Curvature(sqrt, p, n) > 0.0
    ensures Curvature(sqrt, p, n) == 0.0 <==> n == 0.0 && p.beta == 0.0 && p.lamda2 == 0.0
  {
    hide Square;
    var r := sqrt(n);
    SquareSign(r);
    assert Square(r) == n;
    Quotient(p.beta + r, p.alpha);
  }

  lemma Quotient(x: real, a: real)
    requires a > 0.0 && x >= 0.0
    ensures x / a >= 0.0 && (x == 0.0 <==> x / a == 0.0)
  {
    hide Times;
    var q := x / a;
    TimesBack(x, a);
    TimesSign(q, a);
    TimesSign(-q, a);
    TimesOfOpposite(q, a);
  }

  lemma TimesBack(x: real, a: real)
    requires a > 0.0
    ensures Times(x / a, a) == x
  {
  }

  lemma TimesOfOpposite(x: real, y: real)
    ensures Times(-x, y) == -Times(x, y)
  {
  }

  // ----- histories of one key -----

  datatype Event = Gradient(g: real) | SetWeight(v: real)

  function Happen(sqrt: real -> real, p: Params, c: Live, e: Event): Live
    requires IsSqrt(sqrt) && p.Good()
  {
    match e
    case Gradient(g) => UpdateCell(sqrt, p, c, g)
    case SetWeight(v) => SetCell(c, v)
  }

  function Replay(sqrt: real -> real, p: Params, es: seq<Event>): Live
    requires IsSqrt(sqrt) && p.Good()
  {
    if es == [] then ZERO
    else Happen(sqrt, p, Replay(sqrt, p, es[..|es| - 1]), es[|es| - 1])
  }

  /**
   * W is what was set last until a gradient comes, and acc counts the gradients: from 0, or from
   * 1000000 behind the last set_weight, which is event n - 1.
   */
  lemma {:induction false} SetAndCounted(sqrt: real -> real, p: Params, es: seq<Event>, n: nat)
    requires IsSqrt(sqrt) && p.Good() && n <= |es|
    requires (n > 0 ==> es[n - 1].SetWeight?) && forall i :: n <= i < |es| ==> es[i].Gradient?
    ensures Replay(sqrt, p, es).acc == (if n > 0 then 1000000 else 0) + (|es| - n)
    ensures 0 < n == |es| ==> Replay(sqrt, p, es).w == es[n - 1].v
    decreases |es|
  {
    hide IsSqrt;
    if n < |es| {
      SetAndCounted(sqrt, p, es[..|es| - 1], n);
    }
  }

  function SumOfSquares(es: seq<Event>): real {
    if es == [] then 0.0
    else
      var before, last := es[..|es| - 1], es[|es| - 1];
      SumOfSquares(before) + if last.Gradient? then last.g * last.g else 0.0
  }

  /** sigma of the gradients, each between the sums of squares before and after it. */
  function SumOfSigmas(sqrt: real -> real, p: Params, es: seq<Event>): real
    requires p.Good()
  {
    if es == [] then 0.0
    else
      var before, last := es[..|es| - 1], es[|es| - 1];
      SumOfSigmas(sqrt, p, before)
      + if last.Gradient? then (sqrt(SumOfSquares(es)) - sqrt(SumOfSquares(before))) / p.alpha else 0.0
  }

  /**
   * The cumulative loss: for every gradient a linear term and a proximal term around the
   * weight in force when it arrived.
   */
  function Loss(sqrt: real -> real, p: Params, es: seq<Event>, x: real): real
    requires IsSqrt(sqrt) && p.Good()
  {
    if es == [] then 0.0
    else
      var before, last := es[..|es| - 1], es[|es| - 1];
      Loss(sqrt, p, before, x) +
      if last.Gradient? then
        Term(last.g, (sqrt(SumOfSquares(es)) - sqrt(SumOfSquares(before))) / p.alpha, Replay(sqrt, p, before).w, x)
      else 0.0
  }

  /** g x + sigma (x - w)^2 / 2 */
  function Term(g: real, sigma: real, w: real, x: real): real {
    g * x + 0.5 * sigma * (x - w) * (x - w)
  }

  /** The loss with the l1 and l2 regularisation. */
  function Objective(sqrt: real -> real, p: Params, es: seq<Event>, x: real): real
    requires IsSqrt(sqrt) && p.Good()
  {
    Loss(sqrt, p, es, x) + Times(p.lamda1, Abs(x)) + 0.5 * (p.beta / p.alpha + p.lamda2) * x * x
  }

  // ----- Z and N summarise the history -----

  /** sqrt(N) / alpha, the inverse of the learning rate. */
  function Rate(sqrt: real -> real, p: Params, n: real): real
    requires p.alpha > 0.0
  {
    sqrt(n) / p.alpha
  }

  lemma LastSquare(es: seq<Event>)
    requires es != [] && es[|es| - 1].Gradient?
    ensures SumOfSquares(es) == Grown(SumOfSquares(es[..|es| - 1]), es[|es| - 1].g)
  {
  }

  lemma SigmaIs(sqrt: real -> real, p: Params, n: real, n': real, g: real)
    requires p.alpha > 0.0 && n' == Grown(n, g)
    ensures (sqrt(n') - sqrt(n)) / p.alpha == Sigma(sqrt, p, n, g)
  {
    hide Grown;
  }

  /** N is the sum of the squared gradients, and the sigmas add up to sqrt(N) / alpha. */
  lemma {:induction false} Totals(sqrt: real -> real, p: Params, es: seq<Event>)
    requires IsSqrt(sqrt) && p.Good()
    ensures Replay(sqrt, p, es).n == SumOfSquares(es)
    ensures SumOfSigmas(sqrt, p, es) == sqrt(SumOfSquares(es)) / p.alpha == Rate(sqrt, p, SumOfSquares(es))
  {
    if es == [] {
      SqrtZero(sqrt);
      Quotient(0.0, p.alpha);
    } else {
      hide IsSqrt, Sigma, Weight, UpdateCell, Grown, Rate;
      var before, last := es[..|es| - 1], es[|es| - 1];
      Totals(sqrt, p, before);
      if last.Gradient? {
        GradientStep(sqrt, p, Replay(sqrt, p, before), last.g);
        LastSquare(es);
        SigmaIs(sqrt, p, SumOfSquares(before), SumOfSquares(es), last.g);
        SigmaTelescopes(sqrt, p, SumOfSquares(before), last.g);
      } else {
        assert SumOfSquares(es) == SumOfSquares(before);
      }
    }
  }

  lemma SqrtZero(sqrt: real -> real)
    requires IsSqrt(sqrt)
    ensures sqrt(0.0) == 0.0
  {
    hide Square;
    SquareSign(sqrt(0.0));
    assert Square(sqrt(0.0)) == 0.0;
  }

  lemma GradientStep(sqrt: real -> real, p: Params, c: Live, g: real)
    requires IsSqrt(sqrt) && p.Good()
    ensures UpdateCell(sqrt, p, c, g).n == Grown(c.n, g)
    ensures UpdateCell(sqrt, p, c, g).z == Moved(c.z, g, Sigma(sqrt, p, c.n, g), c.w)
  {
    hide Sigma, Weight;
  }

  lemma SigmaTelescopes(sqrt: real -> real, p: Params, n: real, g: real)
    requires p.alpha > 0.0
    ensures Rate(sqrt, p, n) + Sigma(sqrt, p, n, g) == Rate(sqrt, p, Grown(n, g))
  {
    QuotientDifference(sqrt(Grown(n, g)), sqrt(n), p.alpha);
  }

  lemma QuotientDifference(x: real, y: real, a: real)
    requires a > 0.0
    ensures (x - y) / a + y / a == x / a
  {
  }

  /** The part of the loss that does not depend on x. */
  function Offset(sqrt: real -> real, p: Params, es: seq<Event>): real
    requires IsSqrt(sqrt) && p.Good()
  {
    if es == [] then 0.0
    else
      var before, last := es[..|es| - 1], es[|es| - 1];
      Offset(sqrt, p, before) +
      if last.Gradient? then Term(0.0, Sigma(sqrt, p, SumOfSquares(before), last.g), Replay(sqrt, p, before).w, 0.0)
      else 0.0
  }

  /** z x + t x^2 / 2 + k */
  function Quadratic(z: real, t: real, k: real, x: real): real {
    z * x + 0.5 * t * x * x + k
  }

  /** The incremental Z and N hold everything the loss depends on. */
  lemma {:induction false} LossIsQuadratic(sqrt: real -> real, p: Params, es: seq<Event>, x: real)
    requires IsSqrt(sqrt) && p.Good()
    ensures Loss(sqrt, p, es, x)
         == Quadratic(Replay(sqrt, p, es).z, SumOfSigmas(sqrt, p, es), Offset(sqrt, p, es), x)
  {
    if es != [] {
      hide IsSqrt, Sigma, Weight, UpdateCell, Grown, Moved, Term, Quadratic;
      var before, last := es[..|es| - 1], es[|es| - 1];
      LossIsQuadratic(sqrt, p, before, x);
      Totals(sqrt, p, before);
      var c := Replay(sqrt, p, before);
      if last.Gradient? {
        var s := Sigma(sqrt, p, c.n, last.g);
        GradientStep(sqrt, p, c, last.g);
        LastSquare(es);
        SigmaIs(sqrt, p, c.n, SumOfSquares(es), last.g);
        assert Replay(sqrt, p, es).z == Moved(c.z, last.g, s, c.w);
        var t, k := SumOfSigmas(sqrt, p, before), Offset(sqrt, p, before);
        assert SumOfSigmas(sqrt, p, es) == t + s;
        assert Offset(sqrt, p, es) == k + Term(0.0, s, c.w, 0.0);
        assert Loss(sqrt, p, es, x) == Quadratic(c.z, t, k, x) + Term(last.g, s, c.w, x);
        Expand(c.z, t, k, last.g, s, c.w, x);
      } else {
        assert Replay(sqrt, p, es).z == c.z;
      }
    }
  }

  lemma Expand(z: real, t: real, k: real, g: real, s: real, w: real, x: real)
    ensures Quadratic(z, t, k, x) + Term(g, s, w, x) == Quadratic(Moved(z, g, s, w), t + s, k + Term(0.0, s, w, 0.0), x)
  {
    assert (x - w) * (x - w) == x * x - 2.0 * (w * x) + w * w;
    assert s * ((x - w) * (x - w)) == s * (x * x) - 2.0 * (s * (w * x)) + s * (w * w);
    assert (z + (g - s * w)) * x == z * x + g * x - s * (w * x);
    assert (t + s) * (x * x) == t * (x * x) + s * (x * x);
  }

  // ----- the minimiser -----

  /** z x + l |x| + q x^2 / 2 */
  function Scalar(z: real, l: real, q: real, x: real): real {
    z * x + Times(l, Abs(x)) + 0.5 * q * x * x
  }

  lemma ObjectiveIsScalar(sqrt: real -> real, p: Params, es: seq<Event>, x: real)
    requires IsSqrt(sqrt) && p.Good()
    ensures var c := Replay(sqrt, p, es);
      Objective(sqrt, p, es, x) == Scalar(c.z, p.lamda1, Curvature(sqrt, p, c.n), x) + Offset(sqrt, p, es)
  {
    hide IsSqrt, Loss, SumOfSigmas, Offset, Replay, Quadratic, Scalar, SumOfSquares;
    LossIsQuadratic(sqrt, p, es, x);
    Totals(sqrt, p, es);
    var r := sqrt(SumOfSquares(es));
    SumOfQuotients(p.beta, r, p.alpha);
    Collect(Replay(sqrt, p, es).z, Rate(sqrt, p, SumOfSquares(es)), Offset(sqrt, p, es), p.lamda1,
      p.beta / p.alpha + p.lamda2, x);
  }

  lemma SumOfQuotients(x: real, y: real, a: real)
    requires a > 0.0
    ensures (x + y) / a == x / a + y / a
  {
  }

  lemma Collect(z: real, a: real, k: real, l: real, b: real, x: real)
    ensures Quadratic(z, a, k, x) + Times(l, Abs(x)) + 0.5 * b * x * x == Scalar(z, l, a + b, x) + k
  {
    assert (a + b) * (x * x) == a * (x * x) + b * (x * x);
  }

  function Parabola(q: real, d: real): real {
    0.5 * Times(q, Square(d))
  }

  lemma TimesPlus(a: real, b: real, c: real)
    ensures Times(a + b, c) == Times(a, c) + Times(b, c)
  {
  }

  lemma TimesMinus(a: real, c: real, d: real)
    ensures Times(a, c - d) == Times(a, c) - Times(a, d)
  {
  }

  lemma TimesSwap(a: real, b: real)
    ensures Times(a, b) == Times(b, a)
  {
  }

  lemma TimesGroup(a: real, b: real, c: real)
    ensures Times(a * b, c) == Times(a, Times(b, c))
  {
  }

  lemma SquareGap(x: real, w: real)
    ensures Square(x - w) == Square(x) - Times(w, x) - (Times(w, x) - Square(w))
  {
    hide Times;
    TimesMinus(x - w, x, w);
    TimesSwap(x - w, x);
    TimesSwap(x - w, w);
    TimesMinus(x, x, w);
    TimesMinus(w, x, w);
    TimesSwap(x, w);
  }

  lemma ScalarIs(z: real, l: real, q: real, x: real)
    ensures Scalar(z, l, q, x) == Times(z, x) + Times(l, Abs(x)) + 0.5 * Times(q, Square(x))
  {
    assert 0.5 * q * x * x == 0.5 * (q * (x * x));
  }

  lemma TimesIs(l: real, d: real)
    ensures Times(l, d) == l * d
  {
  }

  lemma SquareIs(w: real)
    ensures Square(w) == Times(w, w)
  {
  }

  lemma FourProducts(z: real, p: real, w: real, x: real)
    ensures Times(z + p, x - w) == Times(z, x) - Times(z, w) + Times(p, x) - Times(p, w)
  {
    hide Times;
    TimesMinus(z + p, x, w);
    TimesPlus(z, p, x);
    TimesPlus(z, p, w);
  }

  lemma SlopeIs(z: real, q: real, w: real, x: real)
    ensures (z + q * w) * (x - w) == Times(z, x) - Times(z, w) + Times(q, Times(w, x)) - Times(q, Square(w))
  {
    TimesIs(z + q * w, x - w);
    hide Times, Square;
    FourProducts(z, q * w, w, x);
    TimesGroup(q, w, x);
    TimesGroup(q, w, w);
    SquareIs(w);
  }

  lemma ParabolaIs(q: real, w: real, x: real)
    ensures Parabola(q, x - w) == 0.5 * Times(q, Square(x)) - Times(q, Times(w, x)) + 0.5 * Times(q, Square(w))
  {
    hide Times, Square;
    var s, t := Square(x) - Times(w, x), Times(w, x) - Square(w);
    SquareGap(x, w);
    assert Square(x - w) == s - t;
    TimesMinus(q, s, t);
    TimesMinus(q, Square(x), Times(w, x));
    TimesMinus(q, Times(w, x), Square(w));
  }

  /** The slope at w is balanced by the absolute value, so only the square of x - w remains. */
  lemma Gap(z: real, l: real, q: real, w: real, x: real)
    ensures Scalar(z, l, q, x) - Scalar(z, l, q, w)
         == (z + q * w) * (x - w) + l * (Abs(x) - Abs(w)) + Parabola(q, x - w)
  {
    hide Scalar, Times, Abs, Square, Parabola;
    ScalarIs(z, l, q, x);
    ScalarIs(z, l, q, w);
    SlopeIs(z, q, w, x);
    ParabolaIs(q, w, x);
    TimesIs(l, Abs(x) - Abs(w));
    TimesMinus(l, Abs(x), Abs(w));
  }

  /** The code's weight: beyond it the objective grows at least like a parabola. */
  lemma WeightGap(sqrt: real -> real, p: Params, z: real, n: real, x: real)
    requires IsSqrt(sqrt) && p.Good() && n >= 0.0 && (n == 0.0 ==> z == 0.0)
    ensures var q, w := Curvature(sqrt, p, n), Weight(sqrt, p, z, n);
      Scalar(z, p.lamda1, q, x) - Scalar(z, p.lamda1, q, w) >= Parabola(q, x - w)
  {
    var q, w, l := Curvature(sqrt, p, n), Weight(sqrt, p, z, n), p.lamda1;
    hide Scalar, Curvature, Parabola;
    Gap(z, l, q, w, x);
    if Abs(z) <= l {
      Dominates(z, l, x);
    } else {
      CurvatureSign(sqrt, p, n);
      var sign := if z > 0.0 then 1.0 else -1.0;
      Solves(z - sign * l, q, w);
      assert z + q * w == sign * l;
      OneSided(l, sign, w, x);
    }
  }

  lemma Dominates(z: real, l: real, x: real)
    requires Abs(z) <= l
    ensures z * x + l * Abs(x) >= 0.0
  {
    if x >= 0.0 {
      assert (z + l) * x >= 0.0;
    } else {
      assert (l - z) * (-x) >= 0.0;
    }
  }

  lemma Solves(t: real, q: real, w: real)
    requires q > 0.0 && w == t / -q
    ensures q * w == -t
    ensures t > 0.0 ==> w < 0.0
    ensures t < 0.0 ==> w > 0.0
  {
    assert w * -q == t;
    assert w >= 0.0 ==> w * q >= 0.0;
    assert w <= 0.0 ==> (-w) * q >= 0.0;
  }

  /** With w on the side opposite to sign, sign*l*(x - w) + l*(|x| - |w|) = l*(|x| + sign*x). */
  lemma OneSided(l: real, sign: real, w: real, x: real)
    requires l >= 0.0 && (sign == 1.0 || sign == -1.0) && sign * w < 0.0
    ensures sign * l * (x - w) + l * (Abs(x) - Abs(w)) >= 0.0
  {
    if sign == 1.0 {
      assert sign * l * (x - w) + l * (Abs(x) - Abs(w)) == l * (Abs(x) + x);
    } else {
      assert sign * l * (x - w) + l * (Abs(x) - Abs(w)) == l * (Abs(x) - x);
    }
  }

  /** After an update W is Weight of Z and N, whatever set_weight did before. */
  lemma AfterGradient(sqrt: real -> real, p: Params, es: seq<Event>)
    requires IsSqrt(sqrt) && p.Good() && es != [] && es[|es| - 1].Gradient?
    ensures var c := Replay(sqrt, p, es); c.w == Weight(sqrt, p, c.z, c.n)
  {
  }

  /** Right after each update W minimises the cumulative regularised objective. */
  lemma UpdateMinimises(sqrt: real -> real, p: Params, es: seq<Event>, x: real)
    requires IsSqrt(sqrt) && p.Good() && es != [] && es[|es| - 1].Gradient?
    ensures var c := Replay(sqrt, p, es);
      Objective(sqrt, p, es, x) - Objective(sqrt, p, es, c.w) >= Parabola(Curvature(sqrt, p, c.n), x - c.w)
    ensures Objective(sqrt, p, es, Replay(sqrt, p, es).w) <= Objective(sqrt, p, es, x)
  {
    hide Scalar, Curvature, Weight, Objective, Replay, Parabola;
    var c := Replay(sqrt, p, es);
    AfterGradient(sqrt, p, es);
    ObjectiveIsScalar(sqrt, p, es, x);
    ObjectiveIsScalar(sqrt, p, es, c.w);
    WeightGap(sqrt, p, c.z, c.n, x);
    CurvatureSign(sqrt, p, c.n);
    HalfSquare(Curvature(sqrt, p, c.n), x - c.w);
  }

  lemma HalfSquare(q: real, d: real)
    requires q >= 0.0
    ensures Parabola(q, d) >= 0.0
    ensures q > 0.0 && d != 0.0 ==> Parabola(q, d) > 0.0
  {
    hide Times, Square;
    SquareSign(d);
    TimesSign(q, Square(d));
  }

  /** Some other point is as good as w. */
  ghost predicate AnotherMinimiser(sqrt: real -> real, p: Params, es: seq<Event>, w: real)
    requires IsSqrt(sqrt) && p.Good()
  {
    exists x :: x != w && Objective(sqrt, p, es, x) <= Objective(sqrt, p, es, w)
  }

  /** It is the only minimiser, unless nothing at all has moved or regularises the weight. */
  lemma UpdateUnique(sqrt: real -> real, p: Params, es: seq<Event>)
    requires IsSqrt(sqrt) && p.Good() && es != [] && es[|es| - 1].Gradient?
    ensures AnotherMinimiser(sqrt, p, es, Replay(sqrt, p, es).w)
       <==> SumOfSquares(es) == 0.0 && p.beta == 0.0 && p.lamda1 == 0.0 && p.lamda2 == 0.0
  {
    hide Scalar, Weight, Objective, Replay, Curvature, Parabola;
    var c := Replay(sqrt, p, es);
    Totals(sqrt, p, es);
    CurvatureSign(sqrt, p, c.n);
    if Curvature(sqrt, p, c.n) > 0.0 {
      forall x | x != c.w
        ensures Objective(sqrt, p, es, x) > Objective(sqrt, p, es, c.w)
      {
        UpdateMinimises(sqrt, p, es, x);
        HalfSquare(Curvature(sqrt, p, c.n), x - c.w);
      }
    } else {
      forall x
        ensures Objective(sqrt, p, es, x) - Objective(sqrt, p, es, c.w) == Times(p.lamda1, Abs(x))
      {
        FlatObjective(sqrt, p, es, x);
      }
      FlatObjective(sqrt, p, es, 1.0);
      if p.lamda1 == 0.0 {
        assert Objective(sqrt, p, es, 1.0) <= Objective(sqrt, p, es, c.w);
      } else {
        forall x | x != c.w
          ensures Objective(sqrt, p, es, x) > Objective(sqrt, p, es, c.w)
        {
          TimesPositive(p.lamda1, Abs(x));
        }
      }
    }
  }

  /** Without curvature there was no gradient, so W is zero and only l1 is left. */
  lemma FlatObjective(sqrt: real -> real, p: Params, es: seq<Event>, x: real)
    requires IsSqrt(sqrt) && p.Good() && es != [] && es[|es| - 1].Gradient?
    requires Curvature(sqrt, p, Replay(sqrt, p, es).n) == 0.0
    ensures Replay(sqrt, p, es).w == 0.0
    ensures Objective(sqrt, p, es, x) - Objective(sqrt, p, es, 0.0) == Times(p.lamda1, Abs(x))
  {
    hide Objective, Curvature, Replay;
    var c := Replay(sqrt, p, es);
    CurvatureSign(sqrt, p, c.n);
    AfterGradient(sqrt, p, es);
    ObjectiveIsScalar(sqrt, p, es, x);
    ObjectiveIsScalar(sqrt, p, es, 0.0);
  }
}
