/** The cubic-Bezier kernel of bezier-canvas/js/modules/math.mjs: linear
    interpolation, the expanded Bernstein form of one axis, the curve point
    with its four per-control-point contributions, the point-arithmetic
    helper with its division-by-zero policy, and the centroid helper. */
module BezierMath {
  import opened Wrappers

  datatype Point = Point(x: real, y: real)

  function Plus(a: Point, b: Point): Point { Point(a.x + b.x, a.y + b.y) }

  function Minus(a: Point, b: Point): Point { Point(a.x - b.x, a.y - b.y) }

  function Times(a: Point, b: Point): Point { Point(a.x * b.x, a.y * b.y) }

  // ---------------------------------------------------------------------
  // lerp and the cubic Bernstein form

  /** `lerp(a, b, t)`: the point at parameter t on the line from a to b. */
  function Lerp(a: real, b: real, t: real): (r: real)
    ensures t == 0.0 ==> r == a
    ensures t == 1.0 ==> r == b
    ensures a == b ==> r == a
  {
    a + t * (b - a)
  }

  /** The weight `1 - t` of the start point. */
  function OneMinus(t: real): real { 1.0 - t }

  /** The four cubic Bernstein basis polynomials, in the expanded form
      `cubicLerp` multiplies the control coordinates by. */
  datatype Weights = Weights(a: real, b: real, c: real, d: real)

  function BernsteinWeights(t: real): Weights
  {
    Weights(-(t * t * t) + 3.0 * t * t - 3.0 * t + 1.0,
            3.0 * t * t * t - 6.0 * t * t + 3.0 * t,
            -3.0 * t * t * t + 3.0 * t * t,
            t * t * t)
  }

  /** All the weight is on a at t = 0 and on d at t = 1. */
  lemma WeightsAtEnds()
    ensures BernsteinWeights(0.0) == Weights(1.0, 0.0, 0.0, 0.0)
    ensures BernsteinWeights(1.0) == Weights(0.0, 0.0, 0.0, 1.0)
  {
  }

  /** The weights form a partition of unity at every real t, also outside [0, 1]. */
  lemma WeightsSumToOne(t: real)
    ensures var w := BernsteinWeights(t); w.a + w.b + w.c + w.d == 1.0
  {
  }

  /** The result of `cubicLerp`: the total and its four monomials. */
  datatype CubicTerms = CubicTerms(total: real, aMonomial: real, bMonomial: real, cMonomial: real, dMonomial: real)

  /** `cubicLerp(a, b, c, d, t)`: one axis of the cubic Bezier curve in
      expanded Bernstein form. */
  function CubicLerp(a: real, b: real, c: real, d: real, t: real): CubicTerms
  {
    Weigh(a, b, c, d, BernsteinWeights(t))
  }

  /** Each control value times its weight, and the sum of the four. */
  function Weigh(a: real, b: real, c: real, d: real, w: Weights): CubicTerms
  {
    var aMonomial := a * w.a;
    var bMonomial := b * w.b;
    var cMonomial := c * w.c;
    var dMonomial := d * w.d;
    CubicTerms(aMonomial + bMonomial + cMonomial + dMonomial, aMonomial, bMonomial, cMonomial, dMonomial)
  }

  /** At t = 0 the total is a, all of it from the a monomial; at t = 1 it is
      d, all of it from the d monomial. */
  lemma CubicLerpAtEnds(a: real, b: real, c: real, d: real)
    ensures CubicLerp(a, b, c, d, 0.0).total == a && CubicLerp(a, b, c, d, 0.0).aMonomial == a
    ensures CubicLerp(a, b, c, d, 1.0).total == d && CubicLerp(a, b, c, d, 1.0).dMonomial == d
  {
    WeightsAtEnds();
  }

  /** A curve whose four control coordinates coincide is that coordinate,
      for every t: a consequence of the weights summing to one. */
  lemma ConstantCurve(a: real, t: real)
    ensures CubicLerp(a, a, a, a, t).total == a
  {
    var w := BernsteinWeights(t);
    WeightsSumToOne(t);
    calc {
      CubicLerp(a, a, a, a, t).total;
      a * w.a + a * w.b + a * w.c + a * w.d;
      a * (w.a + w.b + w.c + w.d);
    }
  }

  /** The three levels of `lerp` over four scalars (De Casteljau). */
  function DeCasteljau(a: real, b: real, c: real, d: real, t: real): real
  {
    var ab := Lerp(a, b, t);
    var bc := Lerp(b, c, t);
    var cd := Lerp(c, d, t);
    Lerp(Lerp(ab, bc, t), Lerp(bc, cd, t), t)
  }

  /** The expanded weights are the factored Bernstein polynomials
      `(1 - t)^3`, `3 (1 - t)^2 t`, `3 (1 - t) t^2` and `t^3`. */
  lemma {:induction false} WeightsFactor(t: real)
    ensures var s, w := OneMinus(t), BernsteinWeights(t);
      w == Weights(s * s * s, 3.0 * (s * s) * t, 3.0 * s * (t * t), t * t * t)
  {
    var s := OneMinus(t);
    var t2, t3 := t * t, t * t * t;
    assert s * s == 1.0 - 2.0 * t + t2;
    assert s * s * s == (1.0 - 2.0 * t + t2) * s;
    assert (1.0 - 2.0 * t + t2) * s == 1.0 - 3.0 * t + 3.0 * t2 - t3;
    assert (s * s) * t == t - 2.0 * t2 + t3;
    assert s * t2 == t2 - t3;
  }

  /** `lerp(x, y, t)` is the affine combination `(1 - t) x + t y`. */
  lemma LerpIsAffine(x: real, y: real, t: real)
    ensures Lerp(x, y, t) == OneMinus(t) * x + t * y
  {
  }

  /** Three levels of affine combination with weights 1 - t and t, as a polynomial. */
  lemma ThreeLevels(a: real, b: real, c: real, d: real, t: real)
    ensures var s := OneMinus(t);
      s * (s * (s * a + t * b) + t * (s * b + t * c)) + t * (s * (s * b + t * c) + t * (s * c + t * d))
      == Weigh(a, b, c, d, Weights(s * s * s, 3.0 * (s * s) * t, 3.0 * s * (t * t), t * t * t)).total
  {
    NestedCombination(OneMinus(t), t, a, b, c, d);
  }

  /** The same identity for any two weights s and t. */
  lemma NestedCombination(s: real, t: real, a: real, b: real, c: real, d: real)
    ensures s * (s * (s * a + t * b) + t * (s * b + t * c)) + t * (s * (s * b + t * c) + t * (s * c + t * d))
            == Weigh(a, b, c, d, Weights(s * s * s, 3.0 * (s * s) * t, 3.0 * s * (t * t), t * t * t)).total
  {
  }

  /** The three levels of `lerp` as nested affine combinations. */
  lemma {:induction false} DeCasteljauIsNested(a: real, b: real, c: real, d: real, t: real)
    ensures var s := OneMinus(t);
      DeCasteljau(a, b, c, d, t)
      == s * (s * (s * a + t * b) + t * (s * b + t * c)) + t * (s * (s * b + t * c) + t * (s * c + t * d))
  {
    var ab, bc, cd := Lerp(a, b, t), Lerp(b, c, t), Lerp(c, d, t);
    LerpIsAffine(a, b, t);
    LerpIsAffine(b, c, t);
    LerpIsAffine(c, d, t);
    var abc, bcd := Lerp(ab, bc, t), Lerp(bc, cd, t);
    LerpIsAffine(ab, bc, t);
    LerpIsAffine(bc, cd, t);
    LerpIsAffine(abc, bcd, t);
  }

  /** `cubicLerp` with the weights in factored form. */
  lemma {:induction false} ExpandedIsFactored(a: real, b: real, c: real, d: real, t: real)
    ensures var s := OneMinus(t);
      CubicLerp(a, b, c, d, t) == Weigh(a, b, c, d, Weights(s * s * s, 3.0 * (s * s) * t, 3.0 * s * (t * t), t * t * t))
  {
    WeightsFactor(t);
  }

  /** De Casteljau's construction and the Bernstein form agree for every t. */
  lemma {:induction false} DeCasteljauMatchesBernstein(a: real, b: real, c: real, d: real, t: real)
    ensures DeCasteljau(a, b, c, d, t) == CubicLerp(a, b, c, d, t).total
  {
    DeCasteljauIsNested(a, b, c, d, t);
    ThreeLevels(a, b, c, d, t);
    ExpandedIsFactored(a, b, c, d, t);
  }

  // ---------------------------------------------------------------------
  // calculateCubicBezierCurvePoint

  /** The per-control-point contributions, each a 2D vector. */
  datatype MonomialSum = MonomialSum(a: Point, b: Point, c: Point, d: Point)

  datatype CurvePoint = CurvePoint(x: real, y: real, monomialSum: MonomialSum)

  function Location(r: CurvePoint): Point { Point(r.x, r.y) }

  function Contributions(m: MonomialSum): Point
  {
    Plus(Plus(Plus(m.a, m.b), m.c), m.d)
  }

  /** `calculateCubicBezierCurvePoint(a, b, c, d, t)`: each axis by
      `cubicLerp` on that axis alone, together with the four monomial
      vectors. */
  function CubicBezierCurvePoint(a: Point, b: Point, c: Point, d: Point, t: real): (r: CurvePoint)
    ensures Contributions(r.monomialSum) == Location(r)
    ensures t == 0.0 ==> Location(r) == a
    ensures t == 1.0 ==> Location(r) == d
  {
    CubicLerpAtEnds(a.x, b.x, c.x, d.x);
    CubicLerpAtEnds(a.y, b.y, c.y, d.y);
    var x := CubicLerp(a.x, b.x, c.x, d.x, t);
    var y := CubicLerp(a.y, b.y, c.y, d.y, t);
    CurvePoint(x.total, y.total,
               MonomialSum(Point(x.aMonomial, y.aMonomial),
                           Point(x.bMonomial, y.bMonomial),
                           Point(x.cMonomial, y.cMonomial),
                           Point(x.dMonomial, y.dMonomial)))
  }

  /** The x coordinate of the curve point depends on the x coordinates of the
      control points only, and the y coordinate on the y coordinates only. */
  lemma AxesAreIndependent(a: Point, b: Point, c: Point, d: Point,
                           a': Point, b': Point, c': Point, d': Point, t: real)
    ensures a.x == a'.x && b.x == b'.x && c.x == c'.x && d.x == d'.x ==>
              CubicBezierCurvePoint(a, b, c, d, t).x == CubicBezierCurvePoint(a', b', c', d', t).x
    ensures a.y == a'.y && b.y == b'.y && c.y == c'.y && d.y == d'.y ==>
              CubicBezierCurvePoint(a, b, c, d, t).y == CubicBezierCurvePoint(a', b', c', d', t).y
  {
  }

  /** Shifting the four values of an affine combination shifts its value. */
  lemma WeighShifted(a: real, b: real, c: real, d: real, p: real, w: Weights)
    requires w.a + w.b + w.c + w.d == 1.0
    ensures Weigh(a - p, b - p, c - p, d - p, w).total == Weigh(a, b, c, d, w).total - p
  {
    assert (a - p) * w.a + (b - p) * w.b + (c - p) * w.c + (d - p) * w.d
           == a * w.a + b * w.b + c * w.c + d * w.d - p * (w.a + w.b + w.c + w.d);
  }

  /** Translation invariance of one axis: shifting a, b, c, d by -p shifts the total by -p. */
  lemma {:induction false} CubicLerpTranslates(a: real, b: real, c: real, d: real, p: real, t: real)
    ensures CubicLerp(a - p, b - p, c - p, d - p, t).total == CubicLerp(a, b, c, d, t).total - p
  {
    WeightsSumToOne(t);
    WeighShifted(a, b, c, d, p, BernsteinWeights(t));
  }

  /** Translation invariance: shifting all four control points by -p shifts
      the curve point by -p (the centroid re-centring of the caller). */
  lemma {:induction false} CurvePointTranslates(a: Point, b: Point, c: Point, d: Point, p: Point, t: real)
    ensures Location(CubicBezierCurvePoint(Minus(a, p), Minus(b, p), Minus(c, p), Minus(d, p), t))
            == Minus(Location(CubicBezierCurvePoint(a, b, c, d, t)), p)
  {
    CubicLerpTranslates(a.x, b.x, c.x, d.x, p.x, t);
    CubicLerpTranslates(a.y, b.y, c.y, d.y, p.y, t);
  }

  // ---------------------------------------------------------------------
  // operateOnPoints

  /** An argument of `operateOnPoints`: a number is broadcast to both axes. */
  datatype Operand = Scalar(n: real) | Vector(p: Point)

  /** The JavaScript values a result component can hold: a number, or the
      division-by-zero policy value copied in unchanged. */
  datatype JsValue = Number(n: real) | Text(s: string) | Undefined

  /** The options object `{ divisionByZeroValue }`. */
  datatype DivisionOptions = DivisionOptions(divisionByZeroValue: JsValue)

  /** What `operateOnPoints` does: return `{x, y}`, throw, or fall off the
      end of the `switch` (undefined). */
  datatype OperateResult = Returned(x: JsValue, y: JsValue) | Thrown(message: string) | NoResult

  const DivisionError := "division by zero cannot be performed on operateOnPoints"

  function Broadcast(o: Operand): Point
  {
    match o
    case Scalar(n) => Point(n, n)
    case Vector(p) => p
  }

  function FromPoint(p: Point): OperateResult
  {
    Returned(Number(p.x), Number(p.y))
  }

  /** The operation actually performed: the default parameter is 'sum'. */
  function OperationName(operation: Option<string>): string
  {
    match operation
    case None => "sum"
    case Some(name) => name
  }

  /** The policy actually used: an omitted options object means 'error'; an
      options object without the key leaves the policy undefined. */
  function DivisionByZeroValue(options: Option<DivisionOptions>): JsValue
  {
    match options
    case None => Text("error")
    case Some(o) => o.divisionByZeroValue
  }

  /** Division as written: it throws only when b.x is nonzero and b.y is
      zero under 'error'; in every other case a zero denominator component
      is replaced by the policy value itself. */
  function DivideAsWritten(na: Point, nb: Point, policy: JsValue): OperateResult
  {
    if nb.x != 0.0 && nb.y == 0.0 then
      if policy == Text("error") then Thrown(DivisionError) else FromPoint(na)
    else
      Returned(if nb.x == 0.0 then policy else Number(na.x / nb.x),
               if nb.y == 0.0 then policy else Number(na.y / nb.y))
  }

  /** `operateOnPoints(a, b, operation, options)`. */
  function OperateOnPoints(a: Operand, b: Operand, operation: Option<string>, options: Option<DivisionOptions>): (r: OperateResult)
    ensures var na, nb := Broadcast(a), Broadcast(b);
      match OperationName(operation)
      case "sum" => r == FromPoint(Point(na.x + nb.x, na.y + nb.y))
      case "sub" => r == FromPoint(Point(na.x - nb.x, na.y - nb.y))
      case "mult" => r == FromPoint(Times(na, nb))
      case "div" =>
        (nb.x != 0.0 && nb.y != 0.0 ==> r == FromPoint(Point(na.x / nb.x, na.y / nb.y))) &&
        (nb.x != 0.0 && nb.y == 0.0 ==>
           r == if DivisionByZeroValue(options) == Text("error") then Thrown(DivisionError) else FromPoint(na)) &&
        (nb.x == 0.0 ==> r.Returned? && r.x == DivisionByZeroValue(options) &&
                         r.y == if nb.y == 0.0 then DivisionByZeroValue(options) else Number(na.y / nb.y))
      case _ => r == NoResult
  {
    var na := Broadcast(a);
    var nb := Broadcast(b);
    match OperationName(operation)
    case "sum" => FromPoint(Point(na.x + nb.x, na.y + nb.y))
    case "sub" => FromPoint(Point(na.x - nb.x, na.y - nb.y))
    case "mult" => FromPoint(Times(na, nb))
    case "div" => DivideAsWritten(na, nb, DivisionByZeroValue(options))
    case _ => NoResult
  }

  /** 'sub' undoes 'sum': (a + b) - b is a again. */
  lemma SubUndoesSum(a: Point, b: Operand)
    ensures OperateOnPoints(Vector(a), b, Some("sum"), None) == FromPoint(Plus(a, Broadcast(b)))
    ensures OperateOnPoints(Vector(Plus(a, Broadcast(b))), b, Some("sub"), None) == FromPoint(a)
  {
  }

  /** 'div' undoes 'mult' when neither component of b is zero. */
  lemma DivUndoesMult(a: Point, b: Operand, options: Option<DivisionOptions>)
    requires Broadcast(b).x != 0.0 && Broadcast(b).y != 0.0
    ensures var nb := Broadcast(b);
      OperateOnPoints(Vector(Times(a, nb)), b, Some("div"), options) == FromPoint(a)
  {
    var nb := Broadcast(b);
    var na := Times(a, nb);
    TimesThenDivide(a, nb);
    assert DivideAsWritten(na, nb, DivisionByZeroValue(options)) == FromPoint(a);
  }

  lemma TimesThenDivide(a: Point, b: Point)
    requires b.x != 0.0 && b.y != 0.0
    ensures Times(a, b).x / b.x == a.x
    ensures Times(a, b).y / b.y == a.y
  {
    var u, v := a.x * b.x, a.y * b.y;
    assert u / b.x == a.x;
    assert v / b.y == a.y;
  }

  /** The re-centring the caller performs is `Minus`. */
  lemma SubIsMinus(a: Point, p: Point)
    ensures OperateOnPoints(Vector(a), Vector(p), Some("sub"), None) == FromPoint(Minus(a, p))
  {
  }

  /** A case the 'error' policy lets through: the x denominator is zero, yet
      the call returns the tag 'error' as the x component instead of throwing. */
  lemma ErrorPolicyReturnsTag()
    ensures OperateOnPoints(Vector(Point(1.0, 1.0)), Vector(Point(0.0, 2.0)), Some("div"), None)
            == Returned(Text("error"), Number(0.5))
  {
  }

  /** Division with the 'error' policy applied to every zero denominator
      component; any other policy behaves as written. */
  function DivideChecked(a: Operand, b: Operand, options: Option<DivisionOptions>): (r: OperateResult)
    ensures var na, nb := Broadcast(a), Broadcast(b);
      DivisionByZeroValue(options) == Text("error") ==>
        (r.Thrown? <==> nb.x == 0.0 || nb.y == 0.0) &&
        (!r.Thrown? ==> r == FromPoint(Point(na.x / nb.x, na.y / nb.y)))
    ensures DivisionByZeroValue(options) != Text("error") ==>
              r == OperateOnPoints(a, b, Some("div"), options)
  {
    var na, nb := Broadcast(a), Broadcast(b);
    if DivisionByZeroValue(options) == Text("error") && (nb.x == 0.0 || nb.y == 0.0) then
      Thrown(DivisionError)
    else
      DivideAsWritten(na, nb, DivisionByZeroValue(options))
  }

  // ---------------------------------------------------------------------
  // calculateTheClosestPointToNPoints

  function SumX(s: seq<Point>): real
  {
    if s == [] then 0.0 else SumX(s[..|s| - 1]) + s[|s| - 1].x
  }

  function SumY(s: seq<Point>): real
  {
    if s == [] then 0.0 else SumY(s[..|s| - 1]) + s[|s| - 1].y
  }

  /** The componentwise mean; the origin for no points. */
  function Centroid(s: seq<Point>): Point
  {
    if s == [] then Point(0.0, 0.0)
    else Point(SumX(s) / |s| as real, SumY(s) / |s| as real)
  }

  /** Every point moved by -p. */
  function Recentred(s: seq<Point>, p: Point): (r: seq<Point>)
    ensures |r| == |s|
  {
    seq(|s|, i requires 0 <= i < |s| => Minus(s[i], p))
  }

  /** `calculateTheClosestPointToNPoints(...points)`: a fold that adds
      `cur / totalPoints` into an accumulator starting at the origin. */
  method ClosestPointToNPoints(points: seq<Point>) returns (acc: Point)
    ensures acc == Centroid(points)
  {
    var totalPoints := |points| as real;
    acc := Point(0.0, 0.0);
    var i := 0;
    while i < |points|
      invariant 0 <= i <= |points|
      invariant i == 0 ==> acc == Point(0.0, 0.0)
      invariant 0 < i ==> acc == Point(SumX(points[..i]) / totalPoints, SumY(points[..i]) / totalPoints)
    {
      var cur := points[i];
      SumsStep(points, i);
      DivideSum(SumX(points[..i]), cur.x, totalPoints);
      DivideSum(SumY(points[..i]), cur.y, totalPoints);
      acc := acc.(x := acc.x + cur.x / totalPoints);
      acc := acc.(y := acc.y + cur.y / totalPoints);
      i := i + 1;
    }
    assert points[..i] == points;
  }

  /** Extending a prefix by one point adds that point to the sums. */
  lemma SumsStep(s: seq<Point>, i: nat)
    requires i < |s|
    ensures SumX(s[..i + 1]) == SumX(s[..i]) + s[i].x
    ensures SumY(s[..i + 1]) == SumY(s[..i]) + s[i].y
  {
    assert s[..i + 1][..i] == s[..i];
  }

  /** Division distributes over a sum. */
  lemma DivideSum(u: real, v: real, n: real)
    requires n != 0.0
    ensures (u + v) / n == u / n + v / n
  {
  }

  lemma {:induction false} SumsOfRecentred(s: seq<Point>, p: Point)
    ensures SumX(Recentred(s, p)) == SumX(s) - |s| as real * p.x
    ensures SumY(Recentred(s, p)) == SumY(s) - |s| as real * p.y
  {
    if s != [] {
      var n := |s| - 1;
      assert Recentred(s, p)[..n] == Recentred(s[..n], p);
      SumsOfRecentred(s[..n], p);
    }
  }

  /** Moving the points by their own centroid puts the new centroid at the
      origin: the re-centred control points are balanced around (0, 0). */
  lemma {:induction false} RecentredCentroidIsOrigin(s: seq<Point>)
    ensures Centroid(Recentred(s, Centroid(s))) == Point(0.0, 0.0)
  {
    var c := Centroid(s);
    SumsOfRecentred(s, c);
    if s != [] {
      var n := |s| as real;
      assert SumX(s) - n * (SumX(s) / n) == 0.0;
      assert SumY(s) - n * (SumY(s) / n) == 0.0;
    }
  }
}
