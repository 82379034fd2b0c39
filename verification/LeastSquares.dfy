/** The least-squares line, fitted once by the planner's fallback
    (apps/agents/planner/forecaster.py) and once by Sentinel's slope feature
    (apps/agents/sentinel/features.py).  Floats are reals. */
module LeastSquares {
  import opened Wrappers

  /** A sample: seconds and value. */
  datatype Point = Point(x: real, y: real)

  datatype Line = Line(intercept: real, slope: real)

  // ----- sums over samples -----

  // Products are named, so that proofs can keep them closed and open them only in the
  // few lemmas that are about products.
  function Times(a: real, b: real): (r: real) { a * b }
  function Sq(z: real): (r: real) { Times(z, z) }

  function Value(l: Line, x: real): (r: real) { l.intercept + Times(l.slope, x) }

  function Sum(ps: seq<Point>, f: Point -> real): (r: real)
  {
    if ps == [] then 0.0 else f(ps[0]) + Sum(ps[1..], f)
  }

  function X(): Point -> real { (p: Point) => p.x }
  function Y(): Point -> real { (p: Point) => p.y }
  function Cross(mx: real, my: real): Point -> real { (p: Point) => Times(p.x - mx, p.y - my) }
  function SquareX(mx: real): Point -> real { (p: Point) => Sq(p.x - mx) }
  function SquareY(my: real): Point -> real { (p: Point) => Sq(p.y - my) }
  function Residual(l: Line): Point -> real { (p: Point) => p.y - Value(l, p.x) }
  function SquaredResidual(l: Line): Point -> real { (p: Point) => Sq(p.y - Value(l, p.x)) }

  // ----- the two fits -----

  function MeanX(ps: seq<Point>): (r: real)
    requires ps != []
  {
    Sum(ps, X()) / |ps| as real
  }

  function MeanY(ps: seq<Point>): (r: real)
    requires ps != []
  {
    Sum(ps, Y()) / |ps| as real
  }

  /** The planner's line through samples whose x is the time since the first one. */
  function Fit(ps: seq<Point>): (l: Line)
    requires ps != []
  {
    if |ps| < 2 then Line(ps[0].y, 0.0)
    else
      var mx, my := MeanX(ps), MeanY(ps);
      var num, den := Sum(ps, Cross(mx, my)), Sum(ps, SquareX(mx));
      var slope := if den > 0.0 then num / den else 0.0;
      Line(my - Times(slope, mx), slope)
  }

  /** Sentinel's feature; None stands for NaN. */
  function SlopePerMin(ps: seq<Point>): (r: Option<real>)
  {
    if |ps| < 2 then None
    else
      var mx, my := MeanX(ps), MeanY(ps);
      var num, den := Sum(ps, Cross(mx, my)), Sum(ps, SquareX(mx));
      if den <= 0.0 then Some(0.0) else Some(num / den * 60.0)
  }

  // ----- the algebra -----

  lemma Distribute(k: real, a: real, b: real)
    ensures Times(k, a + b) == Times(k, a) + Times(k, b)
  {
  }

  lemma TimesZero(k: real)
    ensures Times(k, 0.0) == 0.0 && Times(0.0, k) == 0.0 && Sq(0.0) == 0.0
    ensures Times(k, 1.0) == k
  {
  }

  lemma Negate(a: real, b: real)
    ensures Times(a, -b) == -Times(a, b) && Times(-a, b) == -Times(a, b)
  {
  }

  lemma MeanCentres(sum: real, n: real)
    requires n > 0.0
    ensures sum + Times(-(sum / n), n) == 0.0
  {
  }

  lemma MeanShifts(sum: real, t: real, n: real)
    requires n > 0.0
    ensures (sum + Times(t, n)) / n == sum / n + t
  {
  }

  lemma Quotient(num: real, den: real)
    requires den > 0.0
    ensures Times(num / den, den) == num
  {
  }

  lemma ProductPositive(k: real, w: real)
    requires k >= 0.0 && w >= 0.0
    ensures Times(k, w) >= 0.0 && (k > 0.0 && w > 0.0 ==> Times(k, w) > 0.0)
  {
  }

  lemma SquareNonNegative(z: real)
    ensures Sq(z) >= 0.0 && (z != 0.0 ==> Sq(z) > 0.0)
  {
    hide Times;
    if z < 0.0 {
      Negate(z, -z);
      Negate(z, z);
      ProductPositive(-z, -z);
    } else {
      ProductPositive(z, z);
    }
  }

  lemma ThreeSquare(v: real, w: real, c: real)
    ensures (v - w - c) * (v - w - c) == v * v + w * w - 2.0 * (v * w) - 2.0 * (c * v) + 2.0 * (w * c) + c * c
  {
    var z := v - w;
    assert (z - c) * (z - c) == z * z - 2.0 * (z * c) + c * c;
    assert z * c == v * c - w * c;
    assert z * z == v * v - 2.0 * (v * w) + w * w;
  }

  lemma Regroup(a: real, b: real, c: real, d: real)
    ensures (a * b) * (c * d) == (a * c) * (b * d)
  {
  }

  lemma SquareExpands(u: real, v: real, b: real, c: real)
    ensures Sq(v - Times(b, u) - c)
         == Sq(v) + Times(Sq(b), Sq(u)) + Times(-2.0 * b, Times(u, v)) + Times(-2.0 * c, v)
            + Times(2.0 * Times(b, c), u) + Sq(c)
  {
    ThreeSquare(v, b * u, c);
    Regroup(b, u, b, u);
    Regroup(b, u, 1.0, v);
    assert (-2.0 * b) * (u * v) == -2.0 * (v * (b * u));
    assert (2.0 * (b * c)) * u == 2.0 * (b * u * c);
    assert (-2.0 * c) * v == -2.0 * (c * v);
  }

  lemma CompleteSquare(b: real, s: real, den: real, num: real)
    requires Times(s, den) == num
    ensures Times(Sq(b), den) + Times(-2.0 * b, num)
         == Times(Sq(s), den) + Times(-2.0 * s, num) + Times(den, Sq(b - s))
  {
    var d := b - s;
    assert b == s + d;
    assert b * b == s * s + 2.0 * (s * d) + d * d by { ThreeSquare(s, -d, 0.0); }
    Distribute(den, s * s + 2.0 * (s * d), d * d);
    Distribute(den, s * s, 2.0 * (s * d));
    assert den * (2.0 * (s * d)) == 2.0 * (d * num) by { Regroup(s, den, d, 1.0); }
    assert (-2.0 * b) * num == -2.0 * (s * num) - 2.0 * (d * num);
  }

  // ----- sums are linear -----

  function One(): Point -> real { (p: Point) => 1.0 }
  function Plus(g: Point -> real, k: real, h: Point -> real): Point -> real { (p: Point) => g(p) + Times(k, h(p)) }

  lemma {:induction false} SumPlus(ps: seq<Point>, g: Point -> real, k: real, h: Point -> real)
    ensures Sum(ps, Plus(g, k, h)) == Sum(ps, g) + Times(k, Sum(ps, h))
  {
    hide Times;
    if ps != [] {
      SumPlus(ps[1..], g, k, h);
      Distribute(k, h(ps[0]), Sum(ps[1..], h));
    } else {
      TimesZero(k);
    }
  }

  /** Summing `f` over shifted samples is summing `g` over the samples. */
  lemma {:induction false} SumShifted(ps: seq<Point>, t: real, f: Point -> real, g: Point -> real)
    requires forall p: Point :: f(Point(p.x + t, p.y)) == g(p)
    ensures Sum(Shift(ps, t), f) == Sum(ps, g)
  {
    if ps != [] {
      SumShifted(ps[1..], t, f, g);
      assert Shift(ps, t)[1..] == Shift(ps[1..], t);
    }
  }

  lemma {:induction false} SumEqual(ps: seq<Point>, f: Point -> real, g: Point -> real)
    requires forall p: Point :: f(p) == g(p)
    ensures Sum(ps, f) == Sum(ps, g)
  {
    if ps != [] { SumEqual(ps[1..], f, g); }
  }

  lemma {:induction false} SumOne(ps: seq<Point>)
    ensures Sum(ps, One()) == |ps| as real
  {
    if ps != [] { SumOne(ps[1..]); }
  }

  // ----- expanding the squared error around the means -----

  function FromX(mx: real): Point -> real { Plus(X(), -mx, One()) }
  function FromY(my: real): Point -> real { Plus(Y(), -my, One()) }

  /** The terms of a squared residual, `c` being the height of the line above (mx, my). */
  function Expanded(mx: real, my: real, b: real, c: real): Point -> real
  {
    Plus(Plus(Plus(Plus(Plus(SquareY(my), Sq(b), SquareX(mx)), -2.0 * b, Cross(mx, my)), -2.0 * c, FromY(my)),
              2.0 * Times(b, c), FromX(mx)), Sq(c), One())
  }

  lemma PointExpands(p: Point, mx: real, my: real, l: Line, c: real)
    requires c == Value(l, mx) - my
    ensures SquaredResidual(l)(p) == Expanded(mx, my, l.slope, c)(p)
  {
    hide Times, Sq;
    var u, v := p.x - mx, p.y - my;
    SquareExpands(u, v, l.slope, c);
    Distribute(l.slope, p.x, -mx);
    Negate(l.slope, mx);
    TimesZero(-mx);
    TimesZero(-my);
    TimesZero(Sq(c));
  }

  /** The squared error of any line, by the usual five sums. */
  lemma {:induction false} ErrorExpands(ps: seq<Point>, mx: real, my: real, b: real, c: real, l: Line)
    requires b == l.slope && c == Value(l, mx) - my
    ensures Sum(ps, SquaredResidual(l))
         == Sum(ps, SquareY(my)) + Times(Sq(b), Sum(ps, SquareX(mx))) + Times(-2.0 * b, Sum(ps, Cross(mx, my)))
            + Times(-2.0 * c, Sum(ps, FromY(my))) + Times(2.0 * Times(b, c), Sum(ps, FromX(mx)))
                + Times(Sq(c), |ps| as real)
  {
    hide SquareX, SquareY, Cross, FromX, FromY, SquaredResidual, One, Sum, Plus, Times, Sq, Value;
    forall p: Point ensures SquaredResidual(l)(p) == Expanded(mx, my, b, c)(p) { PointExpands(p, mx, my, l, c); }
    SumEqual(ps, SquaredResidual(l), Expanded(mx, my, b, c));
    var g1 := Plus(SquareY(my), Sq(b), SquareX(mx));
    var g2 := Plus(g1, -2.0 * b, Cross(mx, my));
    var g3 := Plus(g2, -2.0 * c, FromY(my));
    var g4 := Plus(g3, 2.0 * Times(b, c), FromX(mx));
    SumPlus(ps, SquareY(my), Sq(b), SquareX(mx));
    SumPlus(ps, g1, -2.0 * b, Cross(mx, my));
    SumPlus(ps, g2, -2.0 * c, FromY(my));
    SumPlus(ps, g3, 2.0 * Times(b, c), FromX(mx));
    SumPlus(ps, g4, Sq(c), One());
    SumOne(ps);
  }

  lemma {:induction false} MeansCentre(ps: seq<Point>)
    requires ps != []
    ensures Sum(ps, FromX(MeanX(ps))) == 0.0 && Sum(ps, FromY(MeanY(ps))) == 0.0
  {
    hide Times, Sum;
    SumPlus(ps, X(), -MeanX(ps), One());
    SumPlus(ps, Y(), -MeanY(ps), One());
    SumOne(ps);
    MeanCentres(Sum(ps, X()), |ps| as real);
    MeanCentres(Sum(ps, Y()), |ps| as real);
  }

  /** A zero spread in x means all x coincide, hence a zero cross sum. */
  lemma {:induction false} SpreadIsNonNegative(ps: seq<Point>, mx: real, my: real)
    ensures Sum(ps, SquareX(mx)) >= 0.0
    ensures Sum(ps, SquareX(mx)) == 0.0 ==> Sum(ps, Cross(mx, my)) == 0.0 && forall i :: 0 <= i < |ps| ==> ps[i].x == mx
  {
    hide Sq, Times;
    if ps != [] {
      SpreadIsNonNegative(ps[1..], mx, my);
      SquareNonNegative(ps[0].x - mx);
      TimesZero(ps[0].y - my);
      if ps[0].x != mx {
        assert Sq(ps[0].x - mx) > 0.0;
      } else if Sum(ps, SquareX(mx)) == 0.0 {
        assert Sum(ps[1..], SquareX(mx)) == 0.0;
        forall i | 0 <= i < |ps| ensures ps[i].x == mx {
          if i > 0 { assert ps[i] == ps[1..][i - 1]; }
        }
      }
    }
  }

  lemma {:induction false} FitThroughMeans(ps: seq<Point>)
    requires |ps| >= 2
    ensures Times(Fit(ps).slope, Sum(ps, SquareX(MeanX(ps)))) == Sum(ps, Cross(MeanX(ps), MeanY(ps)))
    ensures Value(Fit(ps), MeanX(ps)) == MeanY(ps)
  {
    hide Sum, Times, MeanX, MeanY;
    var num, den := Sum(ps, Cross(MeanX(ps), MeanY(ps))), Sum(ps, SquareX(MeanX(ps)));
    SpreadIsNonNegative(ps, MeanX(ps), MeanY(ps));
    if den > 0.0 { Quotient(num, den); }
    TimesZero(0.0);
  }

  /** The error of any line is the fitted line's error plus two squares. */
  lemma {:induction false} ErrorAboveFit(ps: seq<Point>, l: Line, c: real)
    requires |ps| >= 2 && c == Value(l, MeanX(ps)) - MeanY(ps)
    ensures Sum(ps, SquaredResidual(l)) == Sum(ps, SquaredResidual(Fit(ps)))
              + Times(Sum(ps, SquareX(MeanX(ps))), Sq(l.slope - Fit(ps).slope)) + Times(Sq(c), |ps| as real)
  {
    hide Sum, Fit, SquareX, SquareY, Cross, FromX, FromY, SquaredResidual, Sq, Times, Value, MeanX, MeanY;
    var mx, my, fit := MeanX(ps), MeanY(ps), Fit(ps);
    MeansCentre(ps);
    FitThroughMeans(ps);
    ErrorExpands(ps, mx, my, l.slope, c, l);
    ErrorExpands(ps, mx, my, fit.slope, 0.0, fit);
    TimesZero(|ps| as real);
    TimesZero(-2.0 * c);
    TimesZero(-2.0 * 0.0);
    TimesZero(2.0 * Times(l.slope, c));
    TimesZero(2.0 * Times(fit.slope, 0.0));
    CompleteSquare(l.slope, fit.slope, Sum(ps, SquareX(mx)), Sum(ps, Cross(mx, my)));
  }

  // ----- main results -----

  lemma {:induction false} ErrorOfPassingLine(ps: seq<Point>, l: Line)
    ensures (forall i :: 0 <= i < |ps| ==> ps[i].y == Value(l, ps[i].x)) <==> Sum(ps, SquaredResidual(l)) == 0.0
    ensures Sum(ps, SquaredResidual(l)) >= 0.0
  {
    hide Sq, Value;
    if ps != [] {
      ErrorOfPassingLine(ps[1..], l);
      assert forall i :: 0 <= i < |ps| - 1 ==> ps[1..][i] == ps[i + 1];
      SquareNonNegative(ps[0].y - Value(l, ps[0].x));
      TimesZero(0.0);
      if Sum(ps, SquaredResidual(l)) == 0.0 {
        forall i | 0 <= i < |ps| ensures ps[i].y == Value(l, ps[i].x) {
          if i > 0 { assert ps[i] == ps[1..][i - 1]; }
        }
      }
    }
  }

  /** MAIN: no line has a smaller sum of squared residuals than the fitted one, also
      when all x coincide or there is a single sample. */
  lemma {:induction false} FitMinimises(ps: seq<Point>, l: Line)
    requires ps != []
    ensures Sum(ps, SquaredResidual(Fit(ps))) <= Sum(ps, SquaredResidual(l))
  {
    hide Sum, SquaredResidual, SquareX, MeanX, MeanY, Sq, Times;
    if |ps| == 1 {
      TimesZero(ps[0].x);
      ErrorOfPassingLine(ps, l);
      ErrorOfPassingLine(ps, Fit(ps));
    } else {
      var c, d := Value(l, MeanX(ps)) - MeanY(ps), l.slope - Fit(ps).slope;
      ErrorAboveFit(ps, l, c);
      SpreadIsNonNegative(ps, MeanX(ps), MeanY(ps));
      SquareNonNegative(d);
      SquareNonNegative(c);
      ProductPositive(Sum(ps, SquareX(MeanX(ps))), Sq(d));
      ProductPositive(Sq(c), |ps| as real);
    }
  }

  /** When the x do not all coincide the fitted line is the only minimiser. */
  lemma {:induction false} FitIsUnique(ps: seq<Point>, l: Line)
    requires |ps| >= 2 && (exists i :: 0 <= i < |ps| && ps[i].x != ps[0].x)
    requires Sum(ps, SquaredResidual(l)) <= Sum(ps, SquaredResidual(Fit(ps)))
    ensures l == Fit(ps)
  {
    hide Sum, Fit, MeanX, MeanY, Sq, Times, SquaredResidual, SquareX;
    var fit, mx, my := Fit(ps), MeanX(ps), MeanY(ps);
    var c, d := Value(l, mx) - my, l.slope - fit.slope;
    ErrorAboveFit(ps, l, c);
    SpreadIsNonNegative(ps, mx, my);
    assert Sum(ps, SquareX(mx)) > 0.0;
    SquareNonNegative(d);
    SquareNonNegative(c);
    ProductPositive(Sum(ps, SquareX(mx)), Sq(d));
    ProductPositive(Sq(c), |ps| as real);
    FitThroughMeans(ps);
  }

  lemma PointResidual(p: Point, l: Line, mx: real, my: real)
    requires Value(l, mx) == my
    ensures Residual(l)(p) == Plus(FromY(my), -l.slope, FromX(mx))(p)
  {
    hide Times;
    TimesZero(-mx);
    TimesZero(-my);
    Negate(l.slope, p.x - mx);
    Negate(l.slope, mx);
    Distribute(l.slope, p.x, -mx);
  }

  lemma {:induction false} ResidualsSumToZero(ps: seq<Point>)
    requires ps != []
    ensures Sum(ps, Residual(Fit(ps))) == 0.0
  {
    var l := Fit(ps);
    if |ps| >= 2 {
      hide Sum, Fit, Plus, FromX, FromY, MeanX, MeanY, Residual, Times, Value;
      var my, mx := MeanY(ps), MeanX(ps);
      FitThroughMeans(ps);
      forall p: Point ensures Residual(l)(p) == Plus(FromY(my), -l.slope, FromX(mx))(p) { PointResidual(p, l, mx, my); }
      SumEqual(ps, Residual(l), Plus(FromY(my), -l.slope, FromX(mx)));
      SumPlus(ps, FromY(my), -l.slope, FromX(mx));
      MeansCentre(ps);
      TimesZero(-l.slope);
    } else {
      hide Times;
      TimesZero(ps[0].x);
      assert ps[1..] == [];
    }
  }

  /** An exactly linear history is recovered exactly. */
  lemma LinearHistoryRecovered(ps: seq<Point>, l: Line)
    requires |ps| >= 2 && (exists i :: 0 <= i < |ps| && ps[i].x != ps[0].x)
    requires forall i :: 0 <= i < |ps| ==> ps[i].y == Value(l, ps[i].x)
    ensures Fit(ps) == l
  {
    hide Sum, Fit, Value;
    ErrorOfPassingLine(ps, l);
    ErrorOfPassingLine(ps, Fit(ps));
    FitIsUnique(ps, l);
  }

  // ----- the two slopes -----

  function Shift(ps: seq<Point>, t: real): (r: seq<Point>)
    ensures |r| == |ps| && forall i :: 0 <= i < |ps| ==> r[i] == Point(ps[i].x + t, ps[i].y)
  {
    if ps == [] then [] else [Point(ps[0].x + t, ps[0].y)] + Shift(ps[1..], t)
  }

  lemma {:induction false} MeansOfShifted(ps: seq<Point>, t: real)
    requires ps != []
    ensures MeanX(Shift(ps, t)) == MeanX(ps) + t && MeanY(Shift(ps, t)) == MeanY(ps)
  {
    hide Sum, Times;
    var xs, n := Sum(ps, X()), |ps| as real;
    assert Sum(Shift(ps, t), X()) == xs + Times(t, n) by {
      forall p: Point ensures X()(Point(p.x + t, p.y)) == Plus(X(), t, One())(p) { TimesZero(t); }
      SumShifted(ps, t, X(), Plus(X(), t, One()));
      SumPlus(ps, X(), t, One());
      SumOne(ps);
    }
    assert Sum(Shift(ps, t), Y()) == Sum(ps, Y()) by { SumShifted(ps, t, Y(), Y()); }
    MeanShifts(xs, t, n);
  }

  lemma {:induction false} CentredShifts(ps: seq<Point>, t: real, mx: real, my: real)
    ensures Sum(Shift(ps, t), Cross(mx + t, my)) == Sum(ps, Cross(mx, my))
    ensures Sum(Shift(ps, t), SquareX(mx + t)) == Sum(ps, SquareX(mx))
  {
    hide Sq, Times;
    if ps != [] {
      CentredShifts(ps[1..], t, mx, my);
      assert Shift(ps, t)[1..] == Shift(ps[1..], t);
      assert ps[0].x + t - (mx + t) == ps[0].x - mx;
    }
  }

  /** MAIN: Sentinel's slope is 60 times the planner's, whatever time origin each of
      them counts its seconds from. */
  lemma {:induction false} SentinelSlopeIsPlannerSlope(ps: seq<Point>, t: real)
    requires |ps| >= 2
    ensures SlopePerMin(Shift(ps, t)) == Some(Fit(ps).slope * 60.0)
  {
    hide Sum, MeanX, MeanY, Cross, SquareX;
    MeansOfShifted(ps, t);
    CentredShifts(ps, t, MeanX(ps), MeanY(ps));
  }

  lemma {:induction false} SumRemove(ps: seq<Point>, i: nat, f: Point -> real)
    requires i < |ps|
    ensures Sum(ps, f) == f(ps[i]) + Sum(ps[..i] + ps[i + 1..], f)
  {
    if i == 0 {
      assert ps[..0] + ps[1..] == ps[1..];
    } else {
      SumRemove(ps[1..], i - 1, f);
      var rest := ps[..i] + ps[i + 1..];
      assert rest[1..] == ps[1..][..i - 1] + ps[1..][i..];
    }
  }

  lemma WithoutOne(s: seq<Point>, i: nat)
    requires i < |s|
    ensures multiset(s[..i] + s[i + 1..]) == multiset(s) - multiset{s[i]}
  {
    assert s == s[..i] + ([s[i]] + s[i + 1..]);
  }

  lemma PermutationTail(ps: seq<Point>, qs: seq<Point>) returns (i: nat)
    requires ps != [] && multiset(ps) == multiset(qs)
    ensures i < |qs| && qs[i] == ps[0] && multiset(ps[1..]) == multiset(qs[..i] + qs[i + 1..])
  {
    i := PlaceOf(qs, ps[0]) by { assert ps[0] in multiset(ps); }
    WithoutOne(qs, i);
    WithoutOne(ps, 0);
    assert ps[..0] + ps[1..] == ps[1..];
  }

  lemma PlaceOf(s: seq<Point>, p: Point) returns (i: nat)
    requires p in multiset(s)
    ensures i < |s| && s[i] == p
  {
    assert p in s;
    i :| 0 <= i < |s| && s[i] == p;
  }

  lemma {:induction false} SumOfPermutation(ps: seq<Point>, qs: seq<Point>, f: Point -> real)
    requires multiset(ps) == multiset(qs)
    ensures Sum(ps, f) == Sum(qs, f)
  {
    if ps == [] {
      assert |multiset(qs)| == 0;
    } else {
      var i := PermutationTail(ps, qs);
      var rest := qs[..i] + qs[i + 1..];
      SumOfPermutation(ps[1..], rest, f);
      SumRemove(qs, i, f);
    }
  }

  /** Neither slope depends on the order of the samples. */
  lemma SlopeOfPermutation(ps: seq<Point>, qs: seq<Point>)
    requires multiset(ps) == multiset(qs)
    ensures SlopePerMin(ps) == SlopePerMin(qs)
    ensures |ps| >= 2 ==> |qs| >= 2 && Fit(ps) == Fit(qs)
  {
    assert |ps| == |multiset(ps)| == |multiset(qs)| == |qs|;
    if |ps| >= 2 {
      SumOfPermutation(ps, qs, X());
      SumOfPermutation(ps, qs, Y());
      SumOfPermutation(ps, qs, Cross(MeanX(ps), MeanY(ps)));
      SumOfPermutation(ps, qs, SquareX(MeanX(ps)));
    }
  }

  /** Where the samples leave the line open, it is flat: through a single sample, or
      through the mean of samples that all have one x. */
  lemma {:induction false} FlatWhenOpen(ps: seq<Point>)
    requires ps != [] && forall i :: 0 <= i < |ps| ==> ps[i].x == ps[0].x
    ensures Fit(ps).slope == 0.0
    ensures |ps| == 1 ==> Fit(ps).intercept == ps[0].y
    ensures Fit(ps).intercept * |ps| as real == Sum(ps, Y())
    ensures SlopePerMin(ps) == if |ps| == 1 then None else Some(0.0)
  {
    if |ps| == 1 {
      assert ps[1..] == [];
      assert Sum(ps, Y()) == ps[0].y;
    } else {
      SameX(ps, ps[0].x);
      MeanOfSame(ps, ps[0].x);
      ZeroSpread(ps, ps[0].x);
      hide Sum;
      TimesZero(MeanX(ps));
      assert Fit(ps) == Line(MeanY(ps), 0.0);
    }
  }

  lemma {:induction false} SameX(ps: seq<Point>, x: real)
    requires forall i :: 0 <= i < |ps| ==> ps[i].x == x
    ensures Sum(ps, X()) == x * |ps| as real
  {
    if ps != [] {
      assert forall i :: 0 <= i < |ps| - 1 ==> ps[1..][i] == ps[i + 1];
      SameX(ps[1..], x);
    }
  }

  lemma {:induction false} MeanOfSame(ps: seq<Point>, x: real)
    requires ps != [] && Sum(ps, X()) == x * |ps| as real
    ensures MeanX(ps) == x
  {
    hide Sum;
  }

  lemma {:induction false} ZeroSpread(ps: seq<Point>, x: real)
    requires forall i :: 0 <= i < |ps| ==> ps[i].x == x
    ensures Sum(ps, SquareX(x)) == 0.0
  {
    TimesZero(0.0);
    if ps != [] {
      assert forall i :: 0 <= i < |ps| - 1 ==> ps[1..][i] == ps[i + 1];
      ZeroSpread(ps[1..], x);
    }
  }

  // ----- the projection -----

  datatype ForecastPoint = ForecastPoint(at: real, value: real, lower: real, upper: real)

  const SECONDS_PER_DAY := 86400.0

  /** The samples as the planner sees them: seconds since the first one. */
  function Offsets(history: seq<Point>): (ps: seq<Point>)
    requires history != []
  {
    Shift(history, -history[0].x)
  }

  function Variance(ps: seq<Point>): (v: real)
    requires ps != []
  {
    if |ps| < 2 then 0.0
    else Sum(ps, SquaredResidual(Fit(ps))) / (if |ps| <= 3 then 1.0 else (|ps| - 2) as real)
  }

  /** The square root of the variance. */
  predicate IsStd(std: real, ps: seq<Point>)
    requires ps != []
  {
    std >= 0.0 && Sq(std) == Variance(ps)
  }

  lemma StdIsUnique(s: real, t: real, ps: seq<Point>)
    requires ps != [] && IsStd(s, ps) && IsStd(t, ps)
    ensures s == t
  {
    if s < t { SquaresGrow(s, t); } else if t < s { SquaresGrow(t, s); }
  }

  lemma SquaresGrow(s: real, t: real)
    requires 0.0 <= s < t
    ensures Sq(s) < Sq(t)
  {
    assert t * t - s * s == (t - s) * (t + s);
    ProductPositive(t - s, t + s);
  }

  /** The variance: the squared error of the fit over the number of samples less two, or
      over one when there are two or three samples; zero for a single one. */
  lemma {:induction false} VarianceMeans(ps: seq<Point>)
    requires ps != []
    ensures |ps| == 1 ==> Variance(ps) == 0.0
    ensures 2 <= |ps| <= 3 ==> Variance(ps) == Sum(ps, SquaredResidual(Fit(ps)))
    ensures |ps| > 3 ==> Variance(ps) * (|ps| - 2) as real == Sum(ps, SquaredResidual(Fit(ps)))
  {
    hide Sum, Fit;
  }

  /** The envelope has no width exactly when the samples lie on the fitted line. */
  lemma NoSpreadIff(std: real, ps: seq<Point>)
    requires |ps| >= 2 && IsStd(std, ps)
    ensures std == 0.0 <==> forall i :: 0 <= i < |ps| ==> ps[i].y == Value(Fit(ps), ps[i].x)
  {
    hide Value, Sq, Fit, Times;
    ErrorOfPassingLine(ps, Fit(ps));
    SquareNonNegative(std);
    TimesZero(0.0);
  }

  function At(history: seq<Point>, day: nat, residualStd: real): (p: ForecastPoint)
    requires history != []
  {
    var fit, at := Fit(Offsets(history)), history[|history| - 1].x + day as real * SECONDS_PER_DAY;
    var yhat := Value(fit, at - history[0].x);
    ForecastPoint(at, yhat, yhat - residualStd, yhat + residualStd)
  }

  /** The day loop of `_linear_fallback`; `residualStd` is the square root it takes. */
  method Project(history: seq<Point>, horizonDays: nat, residualStd: real) returns (points: seq<ForecastPoint>)
    requires history != [] ==> IsStd(residualStd, Offsets(history))
    ensures history == [] ==> points == []
    ensures history != [] ==> |points| == horizonDays
    ensures history != [] ==> forall d :: 0 <= d < horizonDays ==> points[d] == At(history, d + 1, residualStd)
    ensures history != [] ==> forall d :: 0 <= d < horizonDays ==>
              && points[d].at == history[|history| - 1].x + 86400.0 * (d + 1) as real
              && points[d].value == Value(Fit(Offsets(history)), points[d].at - history[0].x)
              && points[d].lower == points[d].value - residualStd
              && points[d].upper == points[d].value + residualStd
  {
    points := [];
    if history == [] { return; }
    var t0, lastTs, fit := history[0].x, history[|history| - 1].x, Fit(Offsets(history));
    for day := 1 to horizonDays + 1
      invariant |points| == day - 1
      invariant forall d :: 0 <= d < day - 1 ==> points[d] == At(history, d + 1, residualStd)
    {
      var ts := lastTs + day as real * SECONDS_PER_DAY;
      var yhat := Value(fit, ts - t0);
      points := points + [ForecastPoint(ts, yhat, yhat - residualStd, yhat + residualStd)];
    }
  }

  lemma ShiftedLine(l: Line, t0: real, x: real)
    ensures Value(Line(Value(l, t0), l.slope), x - t0) == Value(l, x)
  {
    hide Times;
    Distribute(l.slope, t0, x - t0);
  }

  /** MAIN: a history that lies on a line is continued along that line, in absolute
      time, on every projected day, and without an envelope. */
  lemma LinearHistoryContinued(history: seq<Point>, l: Line, day: nat, residualStd: real)
    requires |history| >= 2 && (exists i :: 0 <= i < |history| && history[i].x != history[0].x)
    requires forall i :: 0 <= i < |history| ==> history[i].y == Value(l, history[i].x)
    requires IsStd(residualStd, Offsets(history))
    ensures var p := At(history, day, residualStd); p.lower == p.value == p.upper == Value(l, p.at)
  {
    hide Value, Fit, IsStd;
    var t0, ps := history[0].x, Offsets(history);
    var shifted := Line(Value(l, t0), l.slope);
    forall i | 0 <= i < |ps| ensures ps[i].y == Value(shifted, ps[i].x) {
      ShiftedLine(l, t0, history[i].x);
    }
    var i :| 0 <= i < |history| && history[i].x != history[0].x;
    assert ps[i].x != ps[0].x;
    LinearHistoryRecovered(ps, shifted);
    NoSpreadIff(residualStd, ps);
    ShiftedLine(l, t0, At(history, day, residualStd).at);
  }
}
