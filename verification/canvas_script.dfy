/** The earlier page script bezier-canvas/js/index.js: the value
    `drawInterpolatedPoint` returns, the construction in `draw` (De Casteljau
    on the control points taken in the order D, A, B, C), and the interval
    callback that moves `range` back and forth between 0 and 100. */
module CanvasScript {
  import opened BezierMath
  import opened Animation
  import CanvasDemo

  /** `drawInterpolatedPoint(ctx, a, b, t, { hide })`: whether the point is
      drawn depends on `hide`; the point returned does not. */
  function DrawInterpolatedPoint(a: Point, b: Point, t: real, hidden: bool): (r: Point)
    ensures r == CanvasDemo.InterpolatedPoint(a, b, t)
    ensures t == 0.0 ==> r == a
    ensures t == 1.0 ==> r == b
  {
    var interpolatedX := Lerp(a.x, b.x, t);
    var interpolatedY := Lerp(a.y, b.y, t);
    Point(interpolatedX, interpolatedY)
  }

  /** The points `draw` computes: `AB`, `BC`, `AD` (from D towards A), `ABC`,
      `ABD` (from AD towards AB), and the final point (from ABD towards ABC). */
  datatype ScriptConstruction = ScriptConstruction(ab: Point, bc: Point, ad: Point, abc: Point, abd: Point, abcd: Point)

  function DrawConstruction(a: Point, b: Point, c: Point, d: Point, t: real, hidden: bool): (r: ScriptConstruction)
    ensures t == 0.0 ==> r.ad == d && r.abd == d && r.abcd == d
    ensures t == 1.0 ==> r.bc == c && r.abc == c && r.abcd == c
  {
    var ab := DrawInterpolatedPoint(a, b, t, hidden);
    var bc := DrawInterpolatedPoint(b, c, t, hidden);
    var ad := DrawInterpolatedPoint(d, a, t, hidden);
    var abc := DrawInterpolatedPoint(ab, bc, t, hidden);
    var abd := DrawInterpolatedPoint(ad, ab, t, hidden);
    ScriptConstruction(ab, bc, ad, abc, abd, DrawInterpolatedPoint(abd, abc, t, false))
  }

  /** The final point is the cubic Bezier curve point with control points
      D, A, B, C, for every t and either setting of `hide`. */
  lemma {:induction false} ScriptConstructionIsCurveDABC(a: Point, b: Point, c: Point, d: Point, t: real, hidden: bool)
    ensures DrawConstruction(a, b, c, d, t, hidden).abcd == Location(CubicBezierCurvePoint(d, a, b, c, t))
  {
    var r := DrawConstruction(a, b, c, d, t, hidden);
    var m := CanvasDemo.DeCasteljauConstruction(d, a, b, c, t);
    assert r.ad == m.ab && r.ab == m.bc && r.bc == m.cd;
    assert r.abd == m.abc && r.abc == m.bcd;
    CanvasDemo.ConstructionMatchesCurvePoint(d, a, b, c, t);
  }

  // ---------------------------------------------------------------------
  // The interval callback

  /** The module globals `range`, `going` and `step` of the script. */
  class IntervalAnimation {
    var range: real
    var going: bool
    var step: real

    function State(): Oscillator
      reads this
    {
      Oscillator(range, going, step)
    }

    /** `range` stays a whole number in [0, 100], strictly inside on the
        side it is moving towards. */
    ghost predicate Valid()
      reads this
    {
      PingPong(State(), 100.0)
    }

    /** `let range = 0; let going = true; let step = 1;` */
    constructor()
      ensures State() == Rest && Valid()
    {
      range := 0.0;
      going := true;
      step := 1.0;
    }

    /** One run of the `setInterval` callback: move `range`, update `going`,
        and hand `range / 100` to `draw`. */
    method Tick() returns (t: real)
      requires Valid()
      modifies this
      ensures State() == Advance(old(State()), 100.0)
      ensures range - old(range) == (if old(going) then 1.0 else -1.0)
      ensures going != old(going) <==> range == (if old(going) then 100.0 else 0.0)
      ensures t == range / 100.0
      ensures Valid() && 0.0 <= range <= 100.0 && 0.0 <= t <= 1.0
    {
      AdvanceKeepsPingPong(State(), 100.0);
      TurnsExactlyAtBounds(State(), 100.0);
      range := range + (step * (if going then 1.0 else -1.0));
      if going {
        going := range != 100.0;
      } else {
        going := range == 0.0;
      }
      t := range / 100.0;
    }
  }

  /** 200 ticks after the start the callback's state is the starting one. */
  lemma ScriptCycleIs200Ticks()
    ensures Run(Rest, 100.0, 200) == Rest
  {
    assert (2.0 * 100.0).Floor == 200;
    ReturnsToRest(100.0);
  }
}
