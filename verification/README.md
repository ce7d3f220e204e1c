# bezier-canvas, modelled in Dafny

This project models the computational core of the `bezier-canvas` page. The page animates a point along a cubic Bezier curve with four draggable control points. The model covers:

- **The curve kernel** (`BezierMath`, from `modules/math.mjs`).
  - `lerp`.
  - `cubicLerp`, the expanded Bernstein form of one axis, which returns the total and the four monomials.
  - `calculateCubicBezierCurvePoint`, the curve point with its four per-control-point vectors.
  - `operateOnPoints`, with its division-by-zero policy.
  - `calculateTheClosestPointToNPoints`, the centroid fold.
- **The page scripts.**
  - `CanvasDemo` models `index.mjs`: the interpolated point, the De Casteljau construction, the factored `cubicLerp`, and the hit test `findPointColiding`.
  - `index.js` holds word-for-word copies of `lerp` (lines 11-13) and `findPointColiding` (lines 126-138); they are the same functions and are covered by `BezierMath.Lerp` and `CanvasDemo.FindPointColliding`.
  - `CanvasScript` models the older `index.js`. Its construction takes the control points in the order D, A, B, C. It also has the interval callback that moves `range` between 0 and 100.
- **The animation controllers.** `Animation` holds the oscillator step the three animation sources share. The two revisions of the controller class are:
  - `SceneControl` (`modules/SceneController.mjs`). It resets when `configs.animation` is replaced and scales the manual slider by 1/100.
  - `LegacySceneControl` (`modules/sceneController.mjs`). It takes a snapshot of the settings on each type change.
- **`FunctionStore`** (`modules/MathFunctionStore.mjs`). A memo table of `fn(...params, value)`:
  - It is pre-filled over a `{min, max, step}` sweep.
  - It is cleared when the fingerprint of `(params, rangeOptions)` changes.
  - It is filled on demand when a lookup misses.
- **`LogOnce`** (`modules/utils.mjs`). The closure of `makeLogValueOnce`, which logs a value only when its fingerprint is not remembered. The `'single'` mode remembers only the last fingerprint.

The model's conventions:

- Numbers are `real`. The oscillator's `===` tests behave as the code intends only for whole turning points, so the ping-pong results assume a positive whole `maxRange`. The slider table of the page gives 25 to 200.
- A thrown exception becomes an `Outcome`, `Result` or `OperateResult` value.
- The identity of the `configs.animation` object is a `version` number.
- The cached function's `fn.length` is the `arity` field.
- The console is the `output` sequence of the logger.

## Model

| member | source | states |
|---|---|---|
| BezierMath.Lerp | bezier-canvas/js/modules/math.mjs:134-136 | `lerp` is the start at t = 0, the end at t = 1, and constant when both ends agree |
| BezierMath.WeightsAtEnds | bezier-canvas/js/modules/math.mjs:88-91 | the four weight polynomials are (1,0,0,0) at t = 0 and (0,0,0,1) at t = 1 |
| BezierMath.WeightsSumToOne | bezier-canvas/js/modules/math.mjs:88-91 | the four weights sum to 1 for every real t, also outside [0, 1] |
| BezierMath.WeightsFactor | bezier-canvas/js/modules/math.mjs:88-91 | the expanded weight polynomials are `(1-t)^3`, `3(1-t)^2 t`, `3(1-t) t^2` and `t^3` for every real t |
| BezierMath.ExpandedIsFactored | bezier-canvas/js/modules/math.mjs:87-96 | each monomial of `cubicLerp` is its control value times the factored Bernstein weight, and the total is the sum of the four monomials |
| BezierMath.CubicLerpAtEnds | bezier-canvas/js/modules/math.mjs:87-96 | the total is a at t = 0, all of it from the a monomial, and d at t = 1, all of it from the d monomial |
| BezierMath.ConstantCurve | bezier-canvas/js/modules/math.mjs:87-96 | `cubicLerp(a, a, a, a, t).total` is a for every t |
| BezierMath.LerpIsAffine | bezier-canvas/js/modules/math.mjs:134-136 | `lerp(x, y, t)` is the affine combination `(1 - t) x + t y` |
| BezierMath.DeCasteljauIsNested | bezier-canvas/js/modules/math.mjs:134-136 | three levels of `lerp` over a, b, c, d are the nested affine combination with weights 1 - t and t |
| BezierMath.DeCasteljauMatchesBernstein | bezier-canvas/js/modules/math.mjs:87-96 | three levels of `lerp` over a, b, c, d equal the `cubicLerp` total for every t |
| BezierMath.CubicBezierCurvePoint | bezier-canvas/js/modules/math.mjs:107-132 | the four `monomialSum` vectors add up to (x, y); the point is a at t = 0 and d at t = 1 |
| BezierMath.AxesAreIndependent | bezier-canvas/js/modules/math.mjs:107-109 | x depends only on the control points' x coordinates, y only on their y coordinates |
| BezierMath.WeighShifted | bezier-canvas/js/modules/math.mjs:87-96 | with weights summing to 1, moving the four control values by -p moves the weighted total by -p |
| BezierMath.CubicLerpTranslates | bezier-canvas/js/modules/math.mjs:87-96 | shifting a, b, c, d by -p shifts the total by -p |
| BezierMath.CurvePointTranslates | bezier-canvas/js/modules/math.mjs:107-132 | the curve of the four points moved by -p is the original curve point moved by -p |
| BezierMath.OperateOnPoints | bezier-canvas/js/modules/math.mjs:39-75 | numbers are broadcast; 'sum' is the default; 'sum', 'sub' and 'mult' act componentwise; 'div' throws, returns a unchanged, or puts the policy value into each zero-denominator component, as the guard decides; an unknown operation returns undefined |
| BezierMath.SubUndoesSum | bezier-canvas/js/modules/math.mjs:43-52 | 'sum' gives a + b, and 'sub' of b takes it back to a |
| BezierMath.DivUndoesMult | bezier-canvas/js/modules/math.mjs:53-69 | with no zero component in b, 'div' by b undoes 'mult' by b under any policy |
| BezierMath.SubIsMinus | bezier-canvas/js/modules/math.mjs:48-52 | 'sub' of two points is the componentwise difference, which the re-centring uses |
| BezierMath.ErrorPolicyReturnsTag | bezier-canvas/js/modules/math.mjs:58-69 | under the default 'error' policy, (1,1) 'div' (0,2) returns `{x: 'error', y: 0.5}` instead of throwing |
| BezierMath.DivideChecked | bezier-canvas/js/modules/math.mjs:58-69 | under 'error' it throws exactly when some denominator component is zero, and otherwise divides both; other policies behave as written |
| BezierMath.ClosestPointToNPoints | bezier-canvas/js/modules/math.mjs:9-17 | the fold returns the componentwise mean of the points, and (0, 0) for none |
| BezierMath.RecentredCentroidIsOrigin | bezier-canvas/js/modules/math.mjs:9-17 | the points moved by their own centroid have their centroid at the origin |
| Animation.TurnsExactlyAtBounds | bezier-canvas/js/modules/SceneController.mjs:33-38 | one tick moves the displacement by +step while going and -step otherwise; `going` changes exactly when it reaches maxRange going up or 0 going down |
| Animation.RestIsPingPong | bezier-canvas/js/modules/SceneController.mjs:11-18 | the reset state (0, going, step 1) satisfies the ping-pong invariant |
| Animation.FractionInUnitInterval | bezier-canvas/js/modules/SceneController.mjs:39 | a displacement in [0, maxRange] gives t = displacement / maxRange in [0, 1] |
| Animation.AdvanceKeepsPingPong | bezier-canvas/js/modules/SceneController.mjs:32-39 | for a positive whole maxRange, a tick keeps 0 <= displacement <= maxRange, and the returned t is in [0, 1] |
| Animation.RunFromRest | bezier-canvas/js/modules/SceneController.mjs:32-39 | from a reset, tick k (k <= 2 maxRange) is at displacement k on the way up and 2 maxRange - k on the way down |
| Animation.ReturnsToRest | bezier-canvas/js/modules/SceneController.mjs:32-39 | after 2 maxRange ticks the oscillator is back in its reset state |
| FunctionStore.KeyInRange | bezier-canvas/js/modules/MathFunctionStore.mjs:62-66 | the k-th loop value `min + k*step` is at most `max` exactly when the loop body runs at least k + 1 times |
| FunctionStore.RangeKeysAscend | bezier-canvas/js/modules/MathFunctionStore.mjs:62-66 | with a positive step the sweep starts at `min` when `min <= max`, visits keys in strictly increasing order (none twice), and stops at the first key above `max` |
| FunctionStore.RangeKeysAreTheGrid | bezier-canvas/js/modules/MathFunctionStore.mjs:62-66 | every `min + k*step <= max` is visited, and every visited key lies in [min, max] |
| FunctionStore.MathFunctionStore.constructor | bezier-canvas/js/modules/MathFunctionStore.mjs:18-25 | a new store has an empty table and nothing configured |
| FunctionStore.MathFunctionStore.SetConfigs | bezier-canvas/js/modules/MathFunctionStore.mjs:35-51 | the table is kept iff the fingerprint is unchanged and is cleared otherwise; the function and params are recorded before the arity check; a wrong arity fails without setting the range or generating; otherwise every key of the range is stored |
| FunctionStore.MathFunctionStore.SetNewResult | bezier-canvas/js/modules/MathFunctionStore.mjs:57-60 | key v gets `fn(...params, v)` and every other entry is unchanged |
| FunctionStore.MathFunctionStore.GenerateResults | bezier-canvas/js/modules/MathFunctionStore.mjs:62-66 | the old table is extended by `fn(...params, key)` for every key of the sweep; without a range it fails and changes nothing |
| FunctionStore.MathFunctionStore.ResetStore | bezier-canvas/js/modules/MathFunctionStore.mjs:68-72 | the table is empty and no other field changes |
| FunctionStore.MathFunctionStore.RetrieveResult | bezier-canvas/js/modules/MathFunctionStore.mjs:78-85 | a stored truthy value is returned with nothing recomputed; otherwise `fn(...params, v)` is stored and returned; without a function it fails; the returned value is what the function gives when the table was consistent |
| FunctionStore.MathFunctionStore.RetrieveAllResults | bezier-canvas/js/modules/MathFunctionStore.mjs:90-92 | every stored entry appears exactly once, with its value, in strictly ascending key order; the table is not modified |
| CanvasDemo.InterpolatedPoint | bezier-canvas/js/index.mjs:49-54 | componentwise `lerp`: a at t = 0, b at t = 1 |
| CanvasDemo.LerpBetween | bezier-canvas/js/index.mjs:16-18 | for t in [0, 1], `lerp(a, b, t)` lies between a and b |
| CanvasDemo.InterpolatedPointBetween | bezier-canvas/js/index.mjs:49-54 | for t in [0, 1] the interpolated point lies between the two points on each axis |
| CanvasDemo.InterpolatedPointTranslates | bezier-canvas/js/index.mjs:49-54 | interpolation commutes with moving both points by -p |
| CanvasDemo.DeCasteljauConstruction | bezier-canvas/js/index.mjs:185-221 | the first, second and third levels of the construction start at A when t = 0 and end at D when t = 1 |
| CanvasDemo.FactoredWeightsAgree | bezier-canvas/js/index.mjs:242-245 | the factored weights `(1-t)^3`, `3(1-t)^2 t`, `3(1-t) t^2` and `t^3` are the expanded polynomials of the math module at every real t |
| CanvasDemo.FactoredMatchesExpanded | bezier-canvas/js/index.mjs:241-247 | the factored `cubicLerp` equals the expanded one, monomial by monomial, for all inputs |
| CanvasDemo.FactoredCurvePoint | bezier-canvas/js/index.mjs:258-262 | the curve point of index.mjs is A at t = 0 and D at t = 1 |
| CanvasDemo.ConstructionMatchesCurvePoint | bezier-canvas/js/index.mjs:185-221 | the point the construction draws equals `calculateCubicBezierCurvePoint(A, B, C, D, t)` of both files for every t |
| CanvasDemo.FindPointColliding | bezier-canvas/js/index.mjs:142-154 | undefined exactly when no point is within distance 20; otherwise the first such point in array order |
| CanvasScript.DrawInterpolatedPoint | bezier-canvas/js/index.js:47-55 | the returned point is the componentwise `lerp` whatever `hide` is |
| CanvasScript.DrawConstruction | bezier-canvas/js/index.js:195-222 | the construction on (D, A, B, C) ends at D when t = 0 and at C when t = 1 |
| CanvasScript.ScriptConstructionIsCurveDABC | bezier-canvas/js/index.js:195-222 | its final point is the cubic Bezier point with control points D, A, B, C for every t |
| CanvasScript.IntervalAnimation.constructor | bezier-canvas/js/index.js:238-240 | range 0, going, step 1 |
| CanvasScript.IntervalAnimation.Tick | bezier-canvas/js/index.js:241-249 | range moves by exactly ±1; going flips exactly at 100 going up and at 0 going down; range stays in [0, 100] and `range/100` in [0, 1] |
| CanvasScript.ScriptCycleIs200Ticks | bezier-canvas/js/index.js:241-247 | after 200 ticks the callback is back at its starting state |
| SceneControl.SceneController.constructor | bezier-canvas/js/modules/SceneController.mjs:6-9 | records the current animation object and starts from displacement 0, going, step 1 |
| SceneControl.SceneController.ChangeModeIfNecessary | bezier-canvas/js/modules/SceneController.mjs:11-18 | resets iff the animation object was replaced, and keeps displacement and going otherwise |
| SceneControl.SceneController.GetAnimationDisplacement | bezier-canvas/js/modules/SceneController.mjs:23-45 | 'man' gives displacement / 100 without advancing; 'auto' ticks with the current speed's maxRange and gives displacement / maxRange, in [0, 1] for a positive whole maxRange; any other type gives 0 |
| SceneControl.ManualParameter | bezier-canvas/js/modules/SceneController.mjs:27-29 | the manual parameter times 100 is the slider value, and it is in [0, 1] for a slider in [0, 100] |
| SceneControl.RangesForConfiguration | bezier-canvas/js/modules/SceneController.mjs:47-63 | {0, 100, 1} for 'man', {0, maxRange, 1} for 'auto' with the oscillator's maxRange, undefined otherwise |
| SceneControl.RangesCoverOscillation | bezier-canvas/js/modules/SceneController.mjs:55-61 | every displacement the automatic oscillator can reach is a key of the sweep it configures |
| SceneControl.RangesCoverManual | bezier-canvas/js/modules/SceneController.mjs:49-54 | every whole manual slider value 0..100 is a key of the manual sweep |
| LegacySceneControl.LegacySceneController.constructor | bezier-canvas/js/modules/sceneController.mjs:6-10 | records the type, snapshots the animation and starts from rest |
| LegacySceneControl.LegacySceneController.ChangeModeIfNecessary | bezier-canvas/js/modules/sceneController.mjs:15-22 | a new snapshot and a reset exactly when the snapshot's type differs from the type passed |
| LegacySceneControl.LegacySceneController.GetAnimationDisplacement | bezier-canvas/js/modules/sceneController.mjs:27-49 | 'man' returns the slider value unscaled; 'auto' ticks against the snapshot's maxRange, with t in [0, 1] for a positive whole maxRange; any other type gives 0 |
| LegacySceneControl.ManualParameterLeavesUnitInterval | bezier-canvas/js/modules/sceneController.mjs:31-33 | a half-way manual slider gives the curve parameter 50 |
| LegacySceneControl.SpeedChangeNotPickedUp | bezier-canvas/js/modules/sceneController.mjs:15-22 | a speed change within 'auto' keeps the old snapshot: maxRange stays 125 where the new speed gives 25 |
| LogOnce.LogValueOnce.constructor | bezier-canvas/js/modules/utils.mjs:45-46 | with no argument the mode is 'single'; nothing is remembered or logged |
| LogOnce.LogValueOnce.Log | bezier-canvas/js/modules/utils.mjs:47-59 | logs iff the fingerprint is not remembered, and then remembers it; 'single' remembers only that one, so it logs iff the value differs from the last logged; other modes log each distinct value once over any call sequence |

## Left out

- Floating point: every number is a `real`, so rounding, `NaN` and `Infinity` are not modelled. The expanded and factored `cubicLerp` agree exactly here; in doubles they may differ in the last bits.
- Drawing and the browser:
  - Canvas drawing (`drawPoint`, `drawLine`, the grid and axes, `bezierCurveTo`).
  - The DOM, slider wiring and mouse handlers, and `getActualMousePlacement`.
  - `setInterval` and `requestAnimationFrame` scheduling. One callback run is one call of `Tick` or `GetAnimationDisplacement`.
- `findPointColiding` compares squared distances with 400 instead of taking `Math.sqrt`. `calculateDistanceBetweenPoints` and `drawLine` of the math module are not part of this model.
- The points are values. Dragging mutates the shared point objects, so the aliasing between `allPoints` and `draggingPoint` is not captured.
- `index.mjs` keeps the result of `drawInterpolatedPoint` in `ABCDInterpolatedPoint_3`, but that function returns undefined there. `CanvasDemo.DeCasteljauConstruction` gives the point it draws.
- SceneControl.RangesCoverOscillation: states coverage of the displacement range by the sweep keys, not that lookups hit the pre-filled table; `modules/drawBernsteinVectors.mjs` fills the store with the keys as the curve parameter (lines 34-41) and looks it up at `displacement / maxRange` (line 101), which that file's model would have to relate.
- The unused `drawBernsteinVectors` stub of `index.mjs` and `modules/drawBernsteinVectors.mjs` are not part of this model.
- `configs.mjs` is not part of this model. Its slider values arrive as strings, and JavaScript converts them when they meet arithmetic. The model receives numbers.
- An animation type of `undefined` is not modelled. `Mode.Unknown` stands for any other string.
- `JSON.stringify` fingerprints are structural equality. The store compares `(params, rangeOptions)`; the logger compares the value itself.
- FunctionStore.MathFunctionStore.SetConfigs: requires that the sweep ends (`step > 0` or `min > max`) whenever the arity check passes, because the `for` loop of `generateResults` never ends otherwise.
- FunctionStore.MathFunctionStore.SetConfigs: promises the table is consistent with the new function only after a reset or when the function is unchanged. The fingerprint omits `fn`, so a new function with the same params and range keeps the old entries outside the sweep.
- FunctionStore.CachedFunction: the cached function is total and never throws. Calling it with the wrong number of arguments is not modelled beyond the arity check.
- FunctionStore.MathFunctionStore: JavaScript truthiness of a stored result is the store's `truthy` parameter.
- SceneControl.SceneController.GetAnimationDisplacement: requires that one object identity (`version`) always carries the same settings. The page's mode handler (`configs.mjs:81-82`) first writes `configs.animation.type` in place and then, in the same synchronous handler, replaces `configs.animation` with a new object. No animation frame runs between the two, so every `getAnimationDisplacement()` call sees either the old object unchanged or the new one.
- SceneControl.SceneController.GetAnimationDisplacement and LegacySceneControl.LegacySceneController.GetAnimationDisplacement: require a nonzero maxRange in 'auto' mode (speed 2.25 would divide by zero).
- LogOnce.LogValueOnce.Log: the console is the `output` sequence, and the logged values are not formatted.
- `ai-self-driving-car/main.js` is not part of this model.

## Findings

| source | as written | input that shows it | evidently intended | confidence | as-written member | corrected member |
|---|---|---|---|---|---|---|
| bezier-canvas/js/modules/math.mjs:59-69 | the 'error' policy throws only when `b.x` is nonzero and `b.y` is zero; a zero `b.x` puts the string 'error' into the result | `operateOnPoints({x:1,y:1}, {x:0,y:2}, 'div')` returns `{x:'error', y:0.5}` | under 'error', throw whenever a denominator component is zero | medium, not executed | BezierMath.ErrorPolicyReturnsTag | BezierMath.DivideChecked |
| bezier-canvas/js/modules/sceneController.mjs:31-33 | 'man' returns the slider value 0..100 as the curve parameter | slider at 50 gives t = 50, a point far off the curve | t = displacement / 100, as the later revision computes | high, not executed | LegacySceneControl.ManualParameterLeavesUnitInterval | SceneControl.ManualParameter |
| bezier-canvas/js/modules/sceneController.mjs:15-22 | the snapshot is renewed only on a type change, so a speed change within 'auto' is ignored | speed 1 then 2 in 'auto': the turning point stays 125 instead of 25 | restart with the new settings whenever the animation object is replaced, as the later revision does | medium, not executed | LegacySceneControl.SpeedChangeNotPickedUp | SceneControl.SceneController.GetAnimationDisplacement |
