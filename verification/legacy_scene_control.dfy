/** The older revision of the animation controller,
    bezier-canvas/js/modules/sceneController.mjs: it keeps a copy of the
    animation settings taken when the animation type last changed, and takes
    the type to use as an argument on every call. */
module LegacySceneControl {
  import opened Animation

  class LegacySceneController {
    /** `this.type`: the animation type at construction. */
    const kind: Mode
    /** `animationCache`: a copy of `configs.animation` taken at the last reset. */
    var animationCache: AnimationConfig
    var displacement: real
    var going: bool
    var step: real

    function State(): Oscillator
      reads this
    {
      Oscillator(displacement, going, step)
    }

    /** While the snapshot is automatic with a positive whole turning point,
        the oscillator is in its ping-pong range. */
    ghost predicate Valid()
      reads this
    {
      var maxRange := MaxRange(animationCache.speed);
      animationCache.mode == Auto && 0.0 < maxRange && IsWhole(maxRange) ==>
        PingPong(State(), maxRange)
    }

    /** `new SceneController(configs)`: record the type, and reset, since
        there is no snapshot yet. */
    constructor(animation: AnimationConfig)
      ensures kind == animation.mode && animationCache == animation && State() == Rest && Valid()
    {
      kind := animation.mode;
      animationCache := animation;
      displacement := 0.0;
      going := true;
      step := 1.0;
    }

    /** `getAnimationDisplacement(type)` with `configs.animation` being
        `animation`. Manual mode returns the slider value as it is, and
        automatic mode turns at the bound of the snapshot's speed. */
    method GetAnimationDisplacement(mode: Mode, animation: AnimationConfig) returns (t: real)
      requires Valid()
      requires mode == Auto ==> MaxRange(Snapshot(animationCache, mode, animation).speed) != 0.0
      modifies this`animationCache, this`displacement, this`going, this`step
      ensures Valid()
      ensures animationCache == Snapshot(old(animationCache), mode, animation)
      ensures var start := if old(animationCache.mode) != mode then Rest else old(State());
        match mode
        case Man => State() == start && t == ManualParameterAsWritten(animation)
        case Auto => State() == Advance(start, MaxRange(animationCache.speed)) &&
                     t == Fraction(State(), MaxRange(animationCache.speed))
        case Unknown => State() == start && t == 0.0
      ensures mode == Auto && animationCache.mode == Auto &&
              0.0 < MaxRange(animationCache.speed) && IsWhole(MaxRange(animationCache.speed)) ==>
        0.0 <= t <= 1.0
    {
      ChangeModeIfNecessary(mode, animation);
      t := 0.0;
      match mode {
        case Man =>
          t := ManualParameterAsWritten(animation);
        case Auto =>
          var maxRange := MaxRange(animationCache.speed);
          if animationCache.mode == Auto && 0.0 < maxRange && IsWhole(maxRange) {
            AdvanceKeepsPingPong(State(), maxRange);
          }
          displacement := displacement + (step * (if going then 1.0 else -1.0));
          if going {
            going := displacement != maxRange;
          } else {
            going := displacement == 0.0;
          }
          t := displacement / maxRange;
        case Unknown =>
      }
    }

    /** `#changeModeIfNecessary(type)`: take a new snapshot and restart from
        rest when the snapshot's type is not `mode`. */
    method ChangeModeIfNecessary(mode: Mode, animation: AnimationConfig)
      requires Valid()
      modifies this`animationCache, this`displacement, this`going, this`step
      ensures Valid()
      ensures animationCache == Snapshot(old(animationCache), mode, animation)
      ensures State() == if old(animationCache.mode) != mode then Rest else old(State())
    {
      if animationCache.mode != mode {
        animationCache := animation;
        displacement := 0.0;
        going := true;
        step := 1.0;
        if animation.mode == Auto && 0.0 < MaxRange(animation.speed) {
          RestIsPingPong(MaxRange(animation.speed));
        }
      }
    }
  }

  /** The snapshot a call with type `mode` works with: a copy of the current
      animation when the cached type differs, the old copy otherwise. */
  function Snapshot(cache: AnimationConfig, mode: Mode, animation: AnimationConfig): AnimationConfig
  {
    if cache.mode != mode then animation else cache
  }

  /** The manual-mode parameter of this revision: the slider value itself. */
  function ManualParameterAsWritten(animation: AnimationConfig): real
  {
    animation.displacement
  }

  /** A half-way manual slider (50 of 0..100) gives the curve parameter 50,
      far outside [0, 1], where the current revision gives 0.5. */
  lemma ManualParameterLeavesUnitInterval()
    ensures var animation := AnimationConfig(0, Man, 1.0, 50.0);
      ManualParameterAsWritten(animation) == 50.0 && ManualParameterAsWritten(animation) > 1.0
  {
  }

  /** Moving the speed slider from 1 to 2 while in automatic mode replaces
      `configs.animation`, but the type is unchanged, so the snapshot, and
      with it the turning point 125, is kept instead of becoming 25. */
  lemma SpeedChangeNotPickedUp()
    ensures var cache, animation := AnimationConfig(0, Auto, 1.0, 50.0), AnimationConfig(1, Auto, 2.0, 50.0);
      MaxRange(Snapshot(cache, Auto, animation).speed) == 125.0 && MaxRange(animation.speed) == 25.0
  {
  }
}
