/** The module-level kernel of bezier-canvas/js/index.mjs: interpolation
    between two points, the three-level De Casteljau construction the page
    draws, the factored Bernstein form of one axis, the curve point built on
    it, and the hit test that picks the control point under the pointer. */
module CanvasDemo {
  import opened Wrappers
  import opened BezierMath

  /** `calculateInterpolatedPoint(a, b, t)`: `lerp` on each axis. */
  function InterpolatedPoint(a: Point, b: Point, t: real): (r: Point)
    ensures t == 0.0 ==> r == a
    ensures t == 1.0 ==> r == b
    ensures a == b ==> r == a
  {
    Point(Lerp(a.x, b.x, t), Lerp(a.y, b.y, t))
  }

  /** For t in [0, 1] the interpolated point lies between its end points on
      each axis. */
  lemma {:induction false} InterpolatedPointBetween(a: Point, b: Point, t: real)
    requires 0.0 <= t <= 1.0
    ensures var r := InterpolatedPoint(a, b, t);
      (a.x <= r.x <= b.x || b.x <= r.x <= a.x) && (a.y <= r.y <= b.y || b.y <= r.y <= a.y)
  {
    LerpBetween(a.x, b.x, t);
    LerpBetween(a.y, b.y, t);
  }

  lemma {:induction false} LerpBetween(a: real, b: real, t: real)
    requires 0.0 <= t <= 1.0
    ensures a <= Lerp(a, b, t) <= b || b <= Lerp(a, b, t) <= a
  {
    var u := b - a;
    ProductNonNegative(t, if a <= b then u else -u);
    ProductNonNegative(1.0 - t, if a <= b then u else -u);
    assert (1.0 - t) * u == u - t * u;
    assert Lerp(a, b, t) == a + t * u;
  }

  lemma ProductNonNegative(x: real, y: real)
    requires 0.0 <= x && 0.0 <= y
    ensures 0.0 <= x * y
  {
  }

  /** Interpolation commutes with translation. */
  lemma InterpolatedPointTranslates(a: Point, b: Point, p: Point, t: real)
    ensures InterpolatedPoint(Minus(a, p), Minus(b, p), t) == Minus(InterpolatedPoint(a, b, t), p)
  {
  }

  /** The points of the construction in `drawCubicBezierCurvePointDeCasteljau`:
      three first-level points, two second-level points, and the final point
      the page draws in cyan. */
  datatype Construction = Construction(ab: Point, bc: Point, cd: Point, abc: Point, bcd: Point, abcd: Point)

  function DeCasteljauConstruction(a: Point, b: Point, c: Point, d: Point, t: real): (r: Construction)
    ensures t == 0.0 ==> r.ab == a && r.abc == a && r.abcd == a
    ensures t == 1.0 ==> r.cd == d && r.bcd == d && r.abcd == d
  {
    var bc := InterpolatedPoint(b, c, t);
    var ab := InterpolatedPoint(a, b, t);
    var cd := InterpolatedPoint(c, d, t);
    var abc := InterpolatedPoint(ab, bc, t);
    var bcd := InterpolatedPoint(bc, cd, t);
    Construction(ab, bc, cd, abc, bcd, InterpolatedPoint(abc, bcd, t))
  }

  /** The weights of `cubicLerp` in index.mjs, in the factored form
      `(1 - t)^3`, `3 (1 - t)^2 t`, `3 (1 - t) t^2`, `t^3`. */
  function FactoredBernstein(t: real): Weights
  {
    var s := OneMinus(t);
    Weights(s * s * s, 3.0 * (s * s) * t, 3.0 * s * (t * t), t * t * t)
  }

  /** `cubicLerp(a, b, c, d, t)` of index.mjs: each factored weight times
      its control value. */
  function FactoredCubicLerp(a: real, b: real, c: real, d: real, t: real): CubicTerms
  {
    Scale(FactoredBernstein(t), a, b, c, d)
  }

  /** Each weight times its control value, and the sum of the four. */
  function Scale(w: Weights, a: real, b: real, c: real, d: real): CubicTerms
  {
    var aMonomial := w.a * a;
    var bMonomial := w.b * b;
    var cMonomial := w.c * c;
    var dMonomial := w.d * d;
    CubicTerms(aMonomial + bMonomial + cMonomial + dMonomial, aMonomial, bMonomial, cMonomial, dMonomial)
  }

  /** The factored weights are the expanded weights of
      bezier-canvas/js/modules/math.mjs, at every real t. */
  lemma {:induction false} FactoredWeightsAgree(t: real)
    ensures FactoredBernstein(t) == BernsteinWeights(t)
  {
    WeightsFactor(t);
  }

  /** Weight times value and value times weight give the same monomials. */
  lemma ScaleIsWeigh(w: Weights, a: real, b: real, c: real, d: real)
    ensures Scale(w, a, b, c, d) == Weigh(a, b, c, d, w)
  {
  }

  /** The factored form and the expanded form of bezier-canvas/js/modules/math.mjs
      agree monomial by monomial. */
  lemma {:induction false} FactoredMatchesExpanded(a: real, b: real, c: real, d: real, t: real)
    ensures FactoredCubicLerp(a, b, c, d, t) == CubicLerp(a, b, c, d, t)
  {
    FactoredWeightsAgree(t);
    ScaleIsWeigh(BernsteinWeights(t), a, b, c, d);
  }

  /** `calculateCubicBezierCurvePoint(a, b, c, d, t)` of index.mjs: the two
      totals, without the monomials. */
  function FactoredCurvePoint(a: Point, b: Point, c: Point, d: Point, t: real): (r: Point)
    ensures t == 0.0 ==> r == a
    ensures t == 1.0 ==> r == d
  {
    FactoredMatchesExpanded(a.x, b.x, c.x, d.x, t);
    FactoredMatchesExpanded(a.y, b.y, c.y, d.y, t);
    CubicLerpAtEnds(a.x, b.x, c.x, d.x);
    CubicLerpAtEnds(a.y, b.y, c.y, d.y);
    Point(FactoredCubicLerp(a.x, b.x, c.x, d.x, t).total, FactoredCubicLerp(a.y, b.y, c.y, d.y, t).total)
  }

  /** The point the construction draws is the curve point of both closed
      forms, for every t. */
  lemma {:induction false} ConstructionMatchesCurvePoint(a: Point, b: Point, c: Point, d: Point, t: real)
    ensures DeCasteljauConstruction(a, b, c, d, t).abcd == FactoredCurvePoint(a, b, c, d, t)
    ensures FactoredCurvePoint(a, b, c, d, t) == Location(CubicBezierCurvePoint(a, b, c, d, t))
  {
    FactoredMatchesExpanded(a.x, b.x, c.x, d.x, t);
    FactoredMatchesExpanded(a.y, b.y, c.y, d.y, t);
    DeCasteljauMatchesBernstein(a.x, b.x, c.x, d.x, t);
    DeCasteljauMatchesBernstein(a.y, b.y, c.y, d.y, t);
  }

  // ---------------------------------------------------------------------
  // findPointColiding

  /** `Math.sqrt(xDiff ** 2 + yDiff ** 2) > 20` is false: the point is at
      distance at most 20 from `place`, compared on squares. */
  predicate WithinReach(point: Point, place: Point)
  {
    var xDiff := place.x - point.x;
    var yDiff := place.y - point.y;
    xDiff * xDiff + yDiff * yDiff <= 400.0
  }

  /** `findPointColiding(points, place)`: the first point, in array order,
      within reach of `place`, or undefined when there is none. */
  method FindPointColliding(points: seq<Point>, place: Point) returns (r: Option<Point>)
    ensures r.None? <==> forall i :: 0 <= i < |points| ==> !WithinReach(points[i], place)
    ensures r.Some? ==>
      exists i :: 0 <= i < |points| && points[i] == r.value && WithinReach(points[i], place) &&
                  forall j :: 0 <= j < i ==> !WithinReach(points[j], place)
  {
    var i := 0;
    while i < |points|
      invariant 0 <= i <= |points|
      invariant forall j :: 0 <= j < i ==> !WithinReach(points[j], place)
    {
      var point := points[i];
      if !WithinReach(point, place) {
        i := i + 1;
        continue;
      }
      return Some(point);
    }
    return None;
  }
}
