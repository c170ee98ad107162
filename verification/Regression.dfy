/** Least-squares linear regression over the reals. */
module Regression {
  import opened Numbers
  import opened Options

  datatype RawPoint = RawPoint(x: Number, y: Number)

  datatype Point = Point(x: real, y: real)

  datatype LinearFit = LinearFit(slope: real, intercept: real, r2: real)

  predicate IsFinitePoint(p: RawPoint) {
    p.x.Finite? && p.y.Finite?
  }

  function FinitePoints(ps: seq<RawPoint>): seq<Point>
    decreases |ps|
  {
    if ps == [] then []
    else
      var (front, p) := (FinitePoints(ps[..|ps| - 1]), ps[|ps| - 1]);
      if IsFinitePoint(p) then front + [Point(p.x.value, p.y.value)] else front
  }

  /** The places before `n` where both coordinates are finite. */
  function FiniteBefore(points: seq<RawPoint>, n: nat): set<nat>
    requires n <= |points|
  {
    set i: nat | i < n && points[i].x.Finite? && points[i].y.Finite?
  }

  lemma {:induction false} FiniteCount(points: seq<RawPoint>, n: nat)
    requires n <= |points|
    ensures |FinitePoints(points[..n])| == |FiniteBefore(points, n)|
  {
    if n == 0 {
      assert FiniteBefore(points, 0) == {};
    } else {
      FiniteCount(points, n - 1);
      assert points[..n][..n - 1] == points[..n - 1];
      assert FiniteBefore(points, n)
          == FiniteBefore(points, n - 1) + if IsFinitePoint(points[n - 1]) then {n - 1} else {};
    }
  }

  lemma {:induction false} FinitePrefix(points: seq<RawPoint>, n: nat)
    requires n <= |points|
    ensures FinitePoints(points[..n]) <= FinitePoints(points)
    decreases |points|
  {
    if n == |points| {
      assert points[..n] == points;
    } else {
      var front := points[..|points| - 1];
      FinitePrefix(front, n);
      assert front[..n] == points[..n];
    }
  }

  /** The fit is over the points with two finite coordinates, x and y as they are given, in the given order. */
  lemma FiniteAt(points: seq<RawPoint>, i: nat)
    requires i < |points| && points[i].x.Finite? && points[i].y.Finite?
    ensures var k := |FiniteBefore(points, i)|;
      k < |FinitePoints(points)| && FinitePoints(points)[k] == Point(points[i].x.value, points[i].y.value)
    ensures |FinitePoints(points)| == |FiniteBefore(points, |points|)|
  {
    FiniteCount(points, i);
    FiniteCount(points, |points|);
    FinitePrefix(points, i + 1);
    assert points[..|points|] == points && points[..i + 1][..i] == points[..i];
  }

  /** Each of the points comes from one of those given. */
  lemma {:induction false} FiniteFrom(points: seq<RawPoint>, k: nat) returns (i: nat)
    requires k < |FinitePoints(points)|
    ensures i < |points| && points[i].x.Finite? && points[i].y.Finite?
    ensures FinitePoints(points)[k] == Point(points[i].x.value, points[i].y.value)
    decreases |points|
  {
    var front := points[..|points| - 1];
    if k < |FinitePoints(front)| { i := FiniteFrom(front, k); } else { i := |points| - 1; }
  }

  // ---------------------------------------------------------------- inner products

  /** The sum of the pairwise products. */
  function Dot(xs: seq<real>, ys: seq<real>): real
    requires |xs| == |ys|
    decreases |xs|
  {
    if xs == [] then 0.0 else Dot(xs[..|xs| - 1], ys[..|ys| - 1]) + xs[|xs| - 1] * ys[|ys| - 1]
  }

  lemma DotPrefix(xs: seq<real>, ys: seq<real>, i: nat)
    requires |xs| == |ys| && i < |xs|
    ensures Dot(xs[..i + 1], ys[..i + 1]) == Dot(xs[..i], ys[..i]) + xs[i] * ys[i]
  {
    assert xs[..i + 1][..i] == xs[..i] && ys[..i + 1][..i] == ys[..i];
  }

  function Constant(k: real, n: nat): seq<real> {
    seq(n, i => k)
  }

  function Total(xs: seq<real>): real {
    Dot(xs, Constant(1.0, |xs|))
  }

  ghost predicate IsCombination(cs: seq<real>, k: real, xs: seq<real>, ys: seq<real>) {
    |cs| == |xs| == |ys| && forall i | 0 <= i < |cs| :: cs[i] == k * xs[i] + ys[i]
  }

  lemma SameProduct(n: real, a: real, b: real, p: real)
    requires n != 0.0 && n * a == p && n * b == p
    ensures a == b
  {
    assert n * (a - b) == 0.0;
  }

  lemma SquareZeroIff(d: real)
    ensures d * d >= 0.0 && (d * d == 0.0 <==> d == 0.0)
  {
    if d != 0.0 {
      assert d * d / d == d;
    }
  }

  lemma CombinedTerm(c: real, k: real, x: real, y: real, z: real, sc: real, sx: real, sy: real)
    requires c == k * x + y && sc == k * sx + sy
    ensures sc + c * z == k * (sx + x * z) + (sy + y * z)
  {
    assert c * z == k * (x * z) + y * z;
  }

  lemma {:induction false} DotLinear(cs: seq<real>, k: real, xs: seq<real>, ys: seq<real>, zs: seq<real>)
    requires IsCombination(cs, k, xs, ys) && |zs| == |cs|
    ensures Dot(cs, zs) == k * Dot(xs, zs) + Dot(ys, zs)
    decreases |cs|
  {
    if cs != [] {
      var n := |cs| - 1;
      DotLinear(cs[..n], k, xs[..n], ys[..n], zs[..n]);
      CombinedTerm(cs[n], k, xs[n], ys[n], zs[n], Dot(cs[..n], zs[..n]), Dot(xs[..n], zs[..n]), Dot(ys[..n], zs[..n]));
    }
  }

  lemma {:induction false} DotSymmetric(xs: seq<real>, ys: seq<real>)
    requires |xs| == |ys|
    ensures Dot(xs, ys) == Dot(ys, xs)
    decreases |xs|
  {
    if xs != [] { DotSymmetric(xs[..|xs| - 1], ys[..|ys| - 1]); }
  }

  lemma {:induction false} TotalOfOnes(n: nat)
    ensures Dot(Constant(1.0, n), Constant(1.0, n)) == n as real
  {
    if n != 0 {
      assert Constant(1.0, n)[..n - 1] == Constant(1.0, n - 1);
      TotalOfOnes(n - 1);
    }
  }

  /** A vector times itself is never negative, and zero only for the zero vector. */
  lemma {:induction false} SelfDot(xs: seq<real>)
    ensures Dot(xs, xs) >= 0.0
    ensures Dot(xs, xs) == 0.0 <==> forall i | 0 <= i < |xs| :: xs[i] == 0.0
    decreases |xs|
  {
    if xs != [] {
      SelfDot(xs[..|xs| - 1]);
      SquareZeroIff(xs[|xs| - 1]);
      assert forall i | 0 <= i < |xs| - 1 :: xs[..|xs| - 1][i] == xs[i];
    }
  }

  lemma {:induction false} DotOfConstant(k: real, zs: seq<real>)
    ensures Dot(Constant(k, |zs|), zs) == k * Total(zs)
    decreases |zs|
  {
    if zs != [] {
      var n := |zs| - 1;
      DotOfConstant(k, zs[..n]);
      assert Constant(k, |zs|)[..n] == Constant(k, n) && Constant(1.0, |zs|)[..n] == Constant(1.0, n);
      assert k * (Total(zs[..n]) + zs[n]) == k * Total(zs[..n]) + k * zs[n];
    }
  }

  lemma TotalOfConstant(k: real, n: nat)
    ensures Total(Constant(k, n)) == n as real * k
  {
    DotOfConstant(k, Constant(1.0, n));
    TotalOfOnes(n);
  }

  // ---------------------------------------------------------------- vectors of a point set

  function Xs(ps: seq<Point>): seq<real> {
    seq(|ps|, i requires 0 <= i < |ps| => ps[i].x)
  }

  function Ys(ps: seq<Point>): seq<real> {
    seq(|ps|, i requires 0 <= i < |ps| => ps[i].y)
  }

  function Deviations(xs: seq<real>, mean: real): seq<real> {
    seq(|xs|, i requires 0 <= i < |xs| => xs[i] - mean)
  }

  /** How far each point lies above the line a * x + b. */
  function ResidualVector(ps: seq<Point>, a: real, b: real): seq<real> {
    seq(|ps|, i requires 0 <= i < |ps| => ps[i].y - (a * ps[i].x + b))
  }

  /** The sum of squared residuals of the line a * x + b. */
  function Residuals(ps: seq<Point>, a: real, b: real): real {
    Dot(ResidualVector(ps, a, b), ResidualVector(ps, a, b))
  }

  /** Each point adds the square of how far it lies above the line. */
  lemma ResidualsNext(ps: seq<Point>, p: Point, a: real, b: real)
    ensures Residuals([], a, b) == 0.0
    ensures Residuals(ps + [p], a, b) == Residuals(ps, a, b) + (p.y - (a * p.x + b)) * (p.y - (a * p.x + b))
  {
    var rs, was := ResidualVector(ps + [p], a, b), ResidualVector(ps, a, b);
    forall i | 0 <= i < |ps| ensures rs[i] == was[i] { assert (ps + [p])[i] == ps[i]; }
    assert rs[..|ps|] == was && rs[|ps|] == p.y - (a * p.x + b);
  }

  predicate AllXEqual(ps: seq<Point>) {
    forall i, j | 0 <= i < |ps| && 0 <= j < |ps| :: ps[i].x == ps[j].x
  }

  ghost predicate IsMean(mean: real, xs: seq<real>) {
    |xs| as real * mean == Total(xs)
  }

  lemma MeanOfConstant(k: real, n: nat, mean: real)
    requires n > 0 && IsMean(mean, Constant(k, n))
    ensures mean == k
  {
    TotalOfConstant(k, n);
    SameProduct(n as real, mean, k, n as real * k);
  }

  lemma DeviationsCancel(xs: seq<real>, mean: real)
    requires IsMean(mean, xs)
    ensures Total(Deviations(xs, mean)) == 0.0
  {
    var one := Constant(1.0, |xs|);
    DotLinear(Deviations(xs, mean), -mean, one, xs, one);
    TotalOfOnes(|xs|);
  }

  /** The spread of x around its mean is zero exactly for vertical data. */
  lemma VerticalIff(ps: seq<Point>, mx: real)
    requires |ps| > 0 && IsMean(mx, Xs(ps))
    ensures Dot(Deviations(Xs(ps), mx), Deviations(Xs(ps), mx)) == 0.0 <==> AllXEqual(ps)
  {
    var xs := Xs(ps);
    var dx := Deviations(xs, mx);
    SelfDot(dx);
    if AllXEqual(ps) {
      assert xs == Constant(xs[0], |ps|);
      MeanOfConstant(xs[0], |ps|, mx);
    } else {
      var i, j :| 0 <= i < |ps| && 0 <= j < |ps| && ps[i].x != ps[j].x;
      assert dx[i] != 0.0 || dx[j] != 0.0;
    }
  }

  // ---------------------------------------------------------------- the normal equations

  /** A line through the mean point whose slope is the ratio of the two spreads. */
  ghost predicate Fitted(ps: seq<Point>, mx: real, my: real, slope: real, intercept: real) {
    && IsMean(mx, Xs(ps)) && IsMean(my, Ys(ps))
    && slope * Dot(Deviations(Xs(ps), mx), Deviations(Xs(ps), mx))
       == Dot(Deviations(Xs(ps), mx), Deviations(Ys(ps), my))
    && intercept == my - slope * mx
  }

  lemma CentredResidual(x: real, y: real, mx: real, my: real, a: real, b: real)
    requires b == my - a * mx
    ensures y - (a * x + b) == -a * (x - mx) + (y - my)
  {
  }

  lemma CentredResiduals(ps: seq<Point>, mx: real, my: real, a: real, b: real)
    requires b == my - a * mx
    ensures IsCombination(ResidualVector(ps, a, b), -a, Deviations(Xs(ps), mx), Deviations(Ys(ps), my))
  {
    var rs, dx, dy := ResidualVector(ps, a, b), Deviations(Xs(ps), mx), Deviations(Ys(ps), my);
    forall i | 0 <= i < |rs| ensures rs[i] == -a * dx[i] + dy[i] {
      CentredResidual(ps[i].x, ps[i].y, mx, my, a, b);
    }
  }

  /** The residuals of the fitted line sum to zero. */
  lemma ResidualsCancel(ps: seq<Point>, mx: real, my: real, slope: real, intercept: real)
    requires Fitted(ps, mx, my, slope, intercept)
    ensures Total(ResidualVector(ps, slope, intercept)) == 0.0
  {
    CentredResiduals(ps, mx, my, slope, intercept);
    DeviationsCancel(Xs(ps), mx);
    DeviationsCancel(Ys(ps), my);
    DotLinear(ResidualVector(ps, slope, intercept), -slope, Deviations(Xs(ps), mx), Deviations(Ys(ps), my),
              Constant(1.0, |ps|));
  }

  lemma NegatedSlope(slope: real, sxx: real, sxy: real)
    requires slope * sxx == sxy
    ensures -slope * sxx + sxy == 0.0
  {
  }

  lemma DeviationsOrthogonal(ps: seq<Point>, mx: real, my: real, slope: real, intercept: real)
    requires Fitted(ps, mx, my, slope, intercept)
    ensures Dot(Deviations(Xs(ps), mx), ResidualVector(ps, slope, intercept)) == 0.0
  {
    var rs, dx, dy := ResidualVector(ps, slope, intercept), Deviations(Xs(ps), mx), Deviations(Ys(ps), my);
    CentredResiduals(ps, mx, my, slope, intercept);
    NegatedSlope(slope, Dot(dx, dx), Dot(dx, dy));
    DotSymmetric(dx, dy);
    DotLinear(rs, -slope, dx, dy, dx);
    DotSymmetric(dx, rs);
  }

  /** The residuals of the fitted line weighted by x sum to zero as well. */
  lemma ResidualsOrthogonal(ps: seq<Point>, mx: real, my: real, slope: real, intercept: real)
    requires Fitted(ps, mx, my, slope, intercept)
    ensures Dot(Xs(ps), ResidualVector(ps, slope, intercept)) == 0.0
  {
    var rs, one := ResidualVector(ps, slope, intercept), Constant(1.0, |ps|);
    DeviationsOrthogonal(ps, mx, my, slope, intercept);
    ResidualsCancel(ps, mx, my, slope, intercept);
    DotSymmetric(one, rs);
    DotLinear(Xs(ps), mx, one, Deviations(Xs(ps), mx), rs);
  }

  // ---------------------------------------------------------------- optimality

  /** The heights u * x + v at the points. */
  function Heights(ps: seq<Point>, u: real, v: real): seq<real> {
    seq(|ps|, i requires 0 <= i < |ps| => u * ps[i].x + v)
  }

  lemma SquareOfSum(rs': seq<real>, ws: seq<real>, rs: seq<real>)
    requires IsCombination(rs', 1.0, ws, rs)
    ensures Dot(rs', rs') == Dot(rs, rs) + 2.0 * Dot(ws, rs) + Dot(ws, ws)
  {
    DotLinear(rs', 1.0, ws, rs, rs');
    DotSymmetric(ws, rs');
    DotLinear(rs', 1.0, ws, rs, ws);
    DotSymmetric(rs, rs');
    DotLinear(rs', 1.0, ws, rs, rs);
    DotSymmetric(rs, ws);
  }

  lemma ShiftedResidual(x: real, y: real, s: real, i: real, a: real, b: real)
    ensures y - (a * x + b) == (s - a) * x + (i - b) + (y - (s * x + i))
  {
  }

  lemma ShiftedResiduals(ps: seq<Point>, s: real, i: real, a: real, b: real)
    ensures IsCombination(ResidualVector(ps, a, b), 1.0, Heights(ps, s - a, i - b), ResidualVector(ps, s, i))
  {
    var ws, rs, rs' := Heights(ps, s - a, i - b), ResidualVector(ps, s, i), ResidualVector(ps, a, b);
    forall k | 0 <= k < |ps| ensures rs'[k] == 1.0 * ws[k] + rs[k] {
      ShiftedResidual(ps[k].x, ps[k].y, s, i, a, b);
    }
  }

  lemma HeightsOrthogonal(ps: seq<Point>, u: real, v: real, rs: seq<real>)
    requires |rs| == |ps| && Total(rs) == 0.0 && Dot(Xs(ps), rs) == 0.0
    ensures Dot(Heights(ps, u, v), rs) == 0.0
  {
    DotLinear(Heights(ps, u, v), u, Xs(ps), Constant(v, |ps|), rs);
    DotOfConstant(v, rs);
  }

  /** A line leaves what the fitted line leaves, plus the squared distances between the two. */
  lemma ExcessIsGap(ps: seq<Point>, mx: real, my: real, slope: real, intercept: real, a: real, b: real)
    requires Fitted(ps, mx, my, slope, intercept)
    ensures var ws := Heights(ps, slope - a, intercept - b);
            Residuals(ps, a, b) == Residuals(ps, slope, intercept) + Dot(ws, ws)
  {
    var ws, rs := Heights(ps, slope - a, intercept - b), ResidualVector(ps, slope, intercept);
    assert Dot(ws, rs) == 0.0 by {
      ResidualsCancel(ps, mx, my, slope, intercept);
      ResidualsOrthogonal(ps, mx, my, slope, intercept);
      HeightsOrthogonal(ps, slope - a, intercept - b, rs);
    }
    ShiftedResiduals(ps, slope, intercept, a, b);
    SquareOfSum(ResidualVector(ps, a, b), ws, rs);
  }

  /** Two lines that agree on two different x are the same. */
  lemma SameLine(x: real, x': real, u: real, v: real)
    requires x != x' && u * x + v == 0.0 && u * x' + v == 0.0
    ensures u == 0.0 && v == 0.0
  {
    SameProduct(x - x', u, 0.0, 0.0);
  }

  /** Two different lines differ at some point, unless the points lie above one another. */
  lemma GapPositive(ps: seq<Point>, u: real, v: real)
    requires !AllXEqual(ps) && (u != 0.0 || v != 0.0)
    ensures Dot(Heights(ps, u, v), Heights(ps, u, v)) > 0.0
  {
    var ws := Heights(ps, u, v);
    SelfDot(ws);
    var i, j :| 0 <= i < |ps| && 0 <= j < |ps| && ps[i].x != ps[j].x;
    if ws[i] == 0.0 && ws[j] == 0.0 {
      SameLine(ps[i].x, ps[j].x, u, v);
      assert false;
    }
  }

  /** No line has a smaller sum of squared residuals than the fitted one, and no other line has the same. */
  lemma FitIsUniqueOptimum(ps: seq<Point>, mx: real, my: real, slope: real, intercept: real, a: real, b: real)
    requires Fitted(ps, mx, my, slope, intercept)
    ensures Residuals(ps, slope, intercept) <= Residuals(ps, a, b)
    ensures !AllXEqual(ps) && (a != slope || b != intercept) ==> Residuals(ps, slope, intercept) < Residuals(ps, a, b)
  {
    ExcessIsGap(ps, mx, my, slope, intercept, a, b);
    SelfDot(Heights(ps, slope - a, intercept - b));
    if !AllXEqual(ps) && (a != slope || b != intercept) {
      GapPositive(ps, slope - a, intercept - b);
    }
  }

  /** The fitted line never leaves more than the total variance, which is what the flat line leaves. */
  lemma FitWithinVariance(ps: seq<Point>, mx: real, my: real, slope: real, intercept: real)
    requires Fitted(ps, mx, my, slope, intercept)
    ensures 0.0 <= Residuals(ps, slope, intercept) <= Dot(Deviations(Ys(ps), my), Deviations(Ys(ps), my))
  {
    SelfDot(ResidualVector(ps, slope, intercept));
    FitIsUniqueOptimum(ps, mx, my, slope, intercept, 0.0, my);
    assert ResidualVector(ps, 0.0, my) == Deviations(Ys(ps), my);
  }

  /** The mean value. */
  function Mean(xs: seq<real>): real
    requires |xs| > 0
  {
    Total(xs) / |xs| as real
  }

  lemma MeanIs(mean: real, xs: seq<real>)
    requires |xs| > 0 && IsMean(mean, xs)
    ensures mean == Mean(xs)
  {
  }

  /** The sum of squared distances from the mean. */
  function Variation(xs: seq<real>): real
    requires |xs| > 0
  {
    Dot(Deviations(xs, Mean(xs)), Deviations(xs, Mean(xs)))
  }

  lemma FlatLineShifts(ps: seq<Point>, mean: real, b: real)
    ensures IsCombination(ResidualVector(ps, 0.0, b), 1.0, Constant(mean - b, |ps|), Deviations(Ys(ps), mean))
  {
  }

  /** The variation is what the best flat line leaves, the one through the mean. */
  lemma VariationIsBestFlat(ps: seq<Point>, b: real)
    requires |ps| > 0
    ensures Variation(Ys(ps)) <= Residuals(ps, 0.0, b)
    ensures Variation(Ys(ps)) == Residuals(ps, 0.0, Mean(Ys(ps)))
  {
    var mean := Mean(Ys(ps));
    var shift, dy := Constant(mean - b, |ps|), Deviations(Ys(ps), mean);
    DeviationsCancel(Ys(ps), mean);
    FlatLineShifts(ps, mean, b);
    SquareOfSum(ResidualVector(ps, 0.0, b), shift, dy);
    DotOfConstant(mean - b, dy);
    SelfDot(shift);
    assert ResidualVector(ps, 0.0, mean) == dy;
  }

  lemma ShareInUnit(part: real, whole: real)
    requires 0.0 <= part <= whole && whole > 0.0
    ensures 0.0 <= part / whole <= 1.0
    ensures part / whole * whole == part
  {
  }

  // ---------------------------------------------------------------- the algorithm

  method Means(ps: seq<Point>) returns (mx: real, my: real)
    requires |ps| > 0
    ensures IsMean(mx, Xs(ps)) && IsMean(my, Ys(ps))
  {
    ghost var xs, ys, one := Xs(ps), Ys(ps), Constant(1.0, |ps|);
    var sumX, sumY := 0.0, 0.0;
    for i := 0 to |ps|
      invariant sumX == Dot(xs[..i], one[..i]) && sumY == Dot(ys[..i], one[..i])
    {
      DotPrefix(xs, one, i);
      DotPrefix(ys, one, i);
      sumX, sumY := sumX + ps[i].x, sumY + ps[i].y;
    }
    assert xs[..|ps|] == xs && ys[..|ps|] == ys && one[..|ps|] == one;
    mx, my := sumX / |ps| as real, sumY / |ps| as real;
  }

  /** The three sums of products over the first `i` deviations. */
  ghost predicate Summed(dxs: seq<real>, dys: seq<real>, i: nat, sxx: real, sxy: real, syy: real) {
    && i <= |dxs| == |dys|
    && sxx == Dot(dxs[..i], dxs[..i]) && sxy == Dot(dxs[..i], dys[..i]) && syy == Dot(dys[..i], dys[..i])
  }

  lemma SummedNext(dxs: seq<real>, dys: seq<real>, i: nat, sxx: real, sxy: real, syy: real, dx: real, dy: real)
    requires Summed(dxs, dys, i, sxx, sxy, syy) && i < |dxs| && dx == dxs[i] && dy == dys[i]
    ensures Summed(dxs, dys, i + 1, sxx + dx * dx, sxy + dx * dy, syy + dy * dy)
  {
    DotPrefix(dxs, dxs, i);
    DotPrefix(dxs, dys, i);
    DotPrefix(dys, dys, i);
  }

  method Spreads(ps: seq<Point>, mx: real, my: real) returns (sxx: real, sxy: real, syy: real)
    ensures var (dxs, dys) := (Deviations(Xs(ps), mx), Deviations(Ys(ps), my));
            sxx == Dot(dxs, dxs) && sxy == Dot(dxs, dys) && syy == Dot(dys, dys)
  {
    ghost var dxs, dys := Deviations(Xs(ps), mx), Deviations(Ys(ps), my);
    sxx, sxy, syy := 0.0, 0.0, 0.0;
    for i := 0 to |ps|
      invariant Summed(dxs, dys, i, sxx, sxy, syy)
    {
      var dx, dy := ps[i].x - mx, ps[i].y - my;
      SummedNext(dxs, dys, i, sxx, sxy, syy, dx, dy);
      sxx, sxy, syy := sxx + dx * dx, sxy + dx * dy, syy + dy * dy;
    }
    assert dxs[..|ps|] == dxs && dys[..|ps|] == dys;
  }

  method SumResiduals(ps: seq<Point>, slope: real, intercept: real) returns (ssRes: real)
    ensures ssRes == Residuals(ps, slope, intercept)
  {
    ghost var rs := ResidualVector(ps, slope, intercept);
    ssRes := 0.0;
    for i := 0 to |ps|
      invariant ssRes == Dot(rs[..i], rs[..i])
    {
      DotPrefix(rs, rs, i);
      var predicted := slope * ps[i].x + intercept;
      var residual := ps[i].y - predicted;
      assert residual == rs[i];
      ssRes := ssRes + residual * residual;
    }
    assert rs[..|ps|] == rs;
  }

  /** A fit is the least-squares optimum: no other line leaves as small a sum of squared residuals. */
  ghost predicate IsOptimum(ps: seq<Point>, slope: real, intercept: real) {
    forall a, b | a != slope || b != intercept :: Residuals(ps, slope, intercept) < Residuals(ps, a, b)
  }

  /** All finite points lie on the line, there are at least three of them, and not all above one another. */
  ghost predicate LieOn(points: seq<RawPoint>, s: real, c: real) {
    && |FiniteBefore(points, |points|)| >= 3
    && (forall i <- FiniteBefore(points, |points|) :: points[i].y.value == s * points[i].x.value + c)
    && exists i, j | i in FiniteBefore(points, |points|) && j in FiniteBefore(points, |points|) ::
         points[i].x.value != points[j].x.value
  }

  lemma ZeroVector(xs: seq<real>)
    requires forall i | 0 <= i < |xs| :: xs[i] == 0.0
    ensures Dot(xs, xs) == 0.0
  {
    SelfDot(xs);
  }

  lemma LineLeavesNothing(points: seq<RawPoint>, s: real, c: real)
    requires LieOn(points, s, c)
    ensures Residuals(FinitePoints(points), s, c) == 0.0
  {
    var ps := FinitePoints(points);
    forall k | 0 <= k < |ps| ensures ResidualVector(ps, s, c)[k] == 0.0 {
      var i := FiniteFrom(points, k);
      assert i in FiniteBefore(points, |points|);
    }
    ZeroVector(ResidualVector(ps, s, c));
  }

  lemma LineIsFitted(points: seq<RawPoint>, s: real, c: real)
    requires LieOn(points, s, c)
    ensures |FinitePoints(points)| >= 3 && !AllXEqual(FinitePoints(points))
  {
    var all := FiniteBefore(points, |points|);
    var i, j :| i in all && j in all && points[i].x.value != points[j].x.value;
    FiniteAt(points, i);
    FiniteAt(points, j);
  }

  /** A fit that is optimal and explains all variation is the line itself, if there is one. */
  lemma LineIsFound(points: seq<RawPoint>, fit: LinearFit, s: real, c: real)
    requires LieOn(points, s, c) && IsOptimum(FinitePoints(points), fit.slope, fit.intercept)
    requires |FinitePoints(points)| >= 3
    requires var ps := FinitePoints(points);
      && (1.0 - fit.r2) * Variation(Ys(ps)) == Residuals(ps, fit.slope, fit.intercept)
      && (Variation(Ys(ps)) == 0.0 ==> fit.r2 == 1.0)
    ensures fit == LinearFit(s, c, 1.0)
  {
    var ps := FinitePoints(points);
    LineLeavesNothing(points, s, c);
    SelfDot(ResidualVector(ps, fit.slope, fit.intercept));
    assert fit.slope != s || fit.intercept != c ==>
        Residuals(ps, fit.slope, fit.intercept) < Residuals(ps, s, c);
    if fit.r2 != 1.0 { SameProduct(1.0 - fit.r2, Variation(Ys(ps)), 0.0, 0.0); }
  }

  /** The line through at least three points, unless they lie above one another. */
  method FitLine(ps: seq<Point>) returns (fit: Option<LinearFit>)
    requires |ps| >= 3
    ensures fit.None? <==> AllXEqual(ps)
    ensures fit.Some? ==> IsOptimum(ps, fit.value.slope, fit.value.intercept)
    ensures fit.Some? ==> 0.0 <= fit.value.r2 <= 1.0
    ensures fit.Some? ==>
      (1.0 - fit.value.r2) * Variation(Ys(ps)) == Residuals(ps, fit.value.slope, fit.value.intercept)
    ensures fit.Some? && Variation(Ys(ps)) == 0.0 ==> fit.value.r2 == 1.0
  {
    var mx, my := Means(ps);
    var sxx, sxy, syy := Spreads(ps, mx, my);
    MeanIs(my, Ys(ps));
    VerticalIff(ps, mx);
    if sxx == 0.0 { return None; }
    var slope := sxy / sxx;
    var intercept := my - slope * mx;
    var ssRes := SumResiduals(ps, slope, intercept);
    FitWithinVariance(ps, mx, my, slope, intercept);
    var r2 := 1.0;
    if syy != 0.0 {
      ShareInUnit(ssRes, syy);
      r2 := 1.0 - ssRes / syy;
    }
    forall a, b | a != slope || b != intercept
      ensures Residuals(ps, slope, intercept) < Residuals(ps, a, b)
    {
      FitIsUniqueOptimum(ps, mx, my, slope, intercept, a, b);
    }
    return Some(LinearFit(slope, intercept, r2));
  }

  method LinearRegression(points: seq<RawPoint>) returns (fit: Option<LinearFit>)
    ensures fit.None? <==> |FinitePoints(points)| < 3 || AllXEqual(FinitePoints(points))
    ensures forall s, c | LieOn(points, s, c) :: fit == Some(LinearFit(s, c, 1.0))
    ensures fit.Some? ==> IsOptimum(FinitePoints(points), fit.value.slope, fit.value.intercept)
    ensures fit.Some? ==> 0.0 <= fit.value.r2 <= 1.0
    ensures fit.Some? ==>
      var ps := FinitePoints(points);
      (1.0 - fit.value.r2) * Variation(Ys(ps)) == Residuals(ps, fit.value.slope, fit.value.intercept)
    ensures fit.Some? && Variation(Ys(FinitePoints(points))) == 0.0 ==> fit.value.r2 == 1.0
  {
    var ps := FinitePoints(points);
    forall s, c | LieOn(points, s, c) ensures |ps| >= 3 && !AllXEqual(ps) { LineIsFitted(points, s, c); }
    if |ps| < 3 { return None; }
    fit := FitLine(ps);
    forall s, c | LieOn(points, s, c) ensures fit == Some(LinearFit(s, c, 1.0)) {
      LineIsFound(points, fit.value, s, c);
    }
  }
}
