/** The current revision of the animation controller,
    bezier-canvas/js/modules/SceneController.mjs: it keeps a reference to
    the `configs.animation` object it last saw and restarts the oscillator
    whenever the page has replaced that object. */
module SceneControl {
  import opened Wrappers
  import opened Animation
  import opened FunctionStore

  class SceneController {
    /** `animationConfigsReference`: the animation object last seen. */
    var animationReference: AnimationConfig
    var displacement: real
    var going: bool
    var step: real

    function State(): Oscillator
      reads this
    {
      Oscillator(displacement, going, step)
    }

    /** While the referenced animation is automatic with a positive whole
        turning point, the oscillator is in its ping-pong range. */
    ghost predicate Valid()
      reads this
    {
      var maxRange := MaxRange(animationReference.speed);
      animationReference.mode == Auto && 0.0 < maxRange && IsWhole(maxRange) ==>
        PingPong(State(), maxRange)
    }

    /** `new SceneController(configs)`: record the current animation object
        and start from rest. */
    constructor(animation: AnimationConfig)
      ensures animationReference == animation && State() == Rest && Valid()
    {
      animationReference := animation;
      displacement := 0.0;
      going := true;
      step := 1.0;
    }

    /** `getAnimationDisplacement()` with `configs.animation` being
        `animation`. The reset compares object identity, which is the
        `version`. The mode handler writes `type` into the current object
        and replaces the object in the same synchronous handler, so no call
        sees changed contents under an old identity. */
    method GetAnimationDisplacement(animation: AnimationConfig) returns (t: real)
      requires Valid()
      requires animation.version == animationReference.version ==> animation == animationReference
      requires animation.mode == Auto ==> MaxRange(animation.speed) != 0.0
      modifies this
      ensures Valid()
      ensures animationReference == animation
      ensures var start := if old(animationReference.version) != animation.version then Rest else old(State());
        match animation.mode
        case Man => State() == start && t == ManualParameter(animation)
        case Auto => State() == Advance(start, MaxRange(animation.speed)) &&
                     t == Fraction(State(), MaxRange(animation.speed))
        case Unknown => State() == start && t == 0.0
      ensures animation.mode == Auto && 0.0 < MaxRange(animation.speed) && IsWhole(MaxRange(animation.speed)) ==>
        0.0 <= t <= 1.0
    {
      ChangeModeIfNecessary(animation);
      t := 0.0;
      match animation.mode {
        case Man =>
          t := ManualParameter(animation);
        case Auto =>
          var maxRange := MaxRange(animation.speed);
          if 0.0 < maxRange && IsWhole(maxRange) {
            AdvanceKeepsPingPong(State(), maxRange);
          }
          displacement := displacement + (step * (if going then 1.0 else -1.0));
          if going {
            going := displacement != maxRange;
          } else {
            going := displacement == 0.0;
          }
          t := displacement / maxRange;
        case Unknown =>
      }
    }

    /** `#changeModeIfNecessary()`: restart from rest when the page has
        replaced the animation object, and keep everything otherwise. */
    method ChangeModeIfNecessary(animation: AnimationConfig)
      requires Valid()
      requires animation.version == animationReference.version ==> animation == animationReference
      modifies this
      ensures Valid() && animationReference == animation
      ensures State() == if old(animationReference.version) != animation.version then Rest else old(State())
    {
      if animationReference.version != animation.version {
        animationReference := animation;
        displacement := 0.0;
        going := true;
        step := 1.0;
        if animation.mode == Auto && 0.0 < MaxRange(animation.speed) {
          RestIsPingPong(MaxRange(animation.speed));
        }
      }
    }
  }

  /** The manual-mode parameter: the slider value 0..100 as a fraction. */
  function ManualParameter(animation: AnimationConfig): (t: real)
    ensures t * 100.0 == animation.displacement
    ensures 0.0 <= animation.displacement <= 100.0 ==> 0.0 <= t <= 1.0
  {
    animation.displacement / 100.0
  }

  /** `getRangesForConfiguration()`: the sweep the function store is filled
      over; no range for any other mode. */
  function RangesForConfiguration(animation: AnimationConfig): (r: Option<RangeOptions>)
    ensures r.Some? <==> animation.mode != Unknown
    ensures r.Some? ==> r.value.min == 0.0 && r.value.step == 1.0
    ensures animation.mode == Man ==> r == Some(RangeOptions(0.0, 100.0, 1.0))
    ensures animation.mode == Auto ==> r.value.max == MaxRange(animation.speed)
  {
    match animation.mode
    case Man => Some(RangeOptions(0.0, 100.0, 1.0))
    case Auto => Some(RangeOptions(0.0, MaxRange(animation.speed), 1.0))
    case Unknown => None
  }

  /** Every displacement the automatic oscillator can reach is one of the
      keys of the sweep `getRangesForConfiguration()` configures. This is
      coverage of the displacement range only, not a cache-hit guarantee:
      `drawBernsteinVectors.mjs` fills the store with these keys as the
      curve parameter but looks it up at `displacement / maxRange`. */
  lemma {:induction false} RangesCoverOscillation(animation: AnimationConfig, s: Oscillator)
    requires animation.mode == Auto
    requires 0.0 < MaxRange(animation.speed) && IsWhole(MaxRange(animation.speed))
    requires PingPong(s, MaxRange(animation.speed))
    ensures s.displacement in RangeKeys(RangesForConfiguration(animation).value)
  {
    var ro := RangesForConfiguration(animation).value;
    var k := s.displacement.Floor;
    assert Key(ro, k) == s.displacement;
    KeyInRange(ro, k);
    assert RangeKeys(ro)[k] == s.displacement;
  }

  /** Every whole manual displacement 0..100 is a precomputed key. */
  lemma {:induction false} RangesCoverManual(animation: AnimationConfig, k: nat)
    requires animation.mode == Man && k <= 100
    ensures k as real in RangeKeys(RangesForConfiguration(animation).value)
  {
    var ro := RangesForConfiguration(animation).value;
    KeyInRange(ro, k);
    assert RangeKeys(ro)[k] == k as real;
  }
}
