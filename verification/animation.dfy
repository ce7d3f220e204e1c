/** The animation parameter shared by both scene controllers and by the
    interval callback of bezier-canvas/js/index.js: a displacement that moves
    by `step` while `going`, turns back at `maxRange` and again at 0. */
module Animation {

  /** `configs.animation.type`: 'man', 'auto', or any other string. */
  datatype Mode = Man | Auto | Unknown

  /** A `configs.animation` object. The object's identity, which the current
      controller compares by reference, is the `version`: the slider
      handlers replace the object on every change, so two readings with the
      same version are the same object. */
  datatype AnimationConfig = AnimationConfig(version: nat, mode: Mode, speed: real, displacement: real)

  /** `100 * (2.25 - speed)`: the turning point of the automatic animation. */
  function MaxRange(speed: real): real
  {
    100.0 * (2.25 - speed)
  }

  /** The fields `displacement`, `going` and `step` of a controller. */
  datatype Oscillator = Oscillator(displacement: real, going: bool, step: real)

  /** The state every reset writes. */
  const Rest := Oscillator(0.0, true, 1.0)

  predicate IsWhole(r: real)
  {
    r.Floor as real == r
  }

  /** One automatic tick: move by `step` in the current direction, then
      compare with the bound of that direction using `===`. */
  function Advance(s: Oscillator, maxRange: real): Oscillator
  {
    var displacement := s.displacement + s.step * (if s.going then 1.0 else -1.0);
    var going := if s.going then displacement != maxRange else displacement == 0.0;
    Oscillator(displacement, going, s.step)
  }

  /** `going` changes exactly when the new displacement hits the bound of
      the direction it was moving in: `maxRange` going up, 0 going down. */
  lemma TurnsExactlyAtBounds(s: Oscillator, maxRange: real)
    ensures var r := Advance(s, maxRange);
      (r.going != s.going <==> r.displacement == (if s.going then maxRange else 0.0)) &&
      r.displacement - s.displacement == (if s.going then s.step else -s.step) &&
      r.step == s.step
  {
  }

  /** The ping-pong invariant: a whole displacement in [0, maxRange] that is
      strictly inside the range on the side it is moving towards. */
  ghost predicate PingPong(s: Oscillator, maxRange: real)
  {
    && s.step == 1.0
    && IsWhole(s.displacement)
    && 0.0 <= s.displacement <= maxRange
    && (s.going ==> s.displacement < maxRange)
    && (!s.going ==> 0.0 < s.displacement)
  }

  /** The animation parameter `displacement / maxRange`. */
  function Fraction(s: Oscillator, maxRange: real): real
    requires maxRange != 0.0
  {
    s.displacement / maxRange
  }

  lemma RestIsPingPong(maxRange: real)
    requires 0.0 < maxRange
    ensures PingPong(Rest, maxRange)
  {
  }

  lemma {:induction false} FractionInUnitInterval(s: Oscillator, maxRange: real)
    requires 0.0 < maxRange && 0.0 <= s.displacement <= maxRange
    ensures 0.0 <= Fraction(s, maxRange) <= 1.0
  {
    var q := s.displacement / maxRange;
    assert q * maxRange == s.displacement;
    if q > 1.0 {
      assert q * maxRange > maxRange;
    }
  }

  /** For a positive whole `maxRange`, one tick keeps the invariant, so the
      displacement stays in [0, maxRange] and the parameter in [0, 1]. */
  lemma {:induction false} AdvanceKeepsPingPong(s: Oscillator, maxRange: real)
    requires 0.0 < maxRange && IsWhole(maxRange)
    requires PingPong(s, maxRange)
    ensures PingPong(Advance(s, maxRange), maxRange)
    ensures 0.0 <= Fraction(Advance(s, maxRange), maxRange) <= 1.0
  {
    var r := Advance(s, maxRange);
    var d, m := s.displacement.Floor, maxRange.Floor;
    if s.going {
      assert d < m;
      assert r.displacement == (d + 1) as real;
    } else {
      assert 0 < d;
      assert r.displacement == (d - 1) as real;
    }
    FractionInUnitInterval(r, maxRange);
  }

  /** `k` ticks from `s`. */
  function Run(s: Oscillator, maxRange: real, k: nat): Oscillator
  {
    if k == 0 then s else Advance(Run(s, maxRange, k - 1), maxRange)
  }

  /** From a reset, the displacement climbs 1 per tick up to `maxRange`,
      then descends back to 0, where it turns up again. */
  lemma {:induction false} RunFromRest(maxRange: real, k: nat)
    requires 0.0 < maxRange && IsWhole(maxRange)
    requires k as real <= 2.0 * maxRange
    ensures Run(Rest, maxRange, k) ==
      if k as real <= maxRange then Oscillator(k as real, k as real < maxRange, 1.0)
      else Oscillator(2.0 * maxRange - k as real, k as real == 2.0 * maxRange, 1.0)
  {
    if k > 0 {
      var m := maxRange.Floor;
      assert maxRange == m as real;
      RunFromRest(maxRange, k - 1);
      var prev := Run(Rest, maxRange, k - 1);
      assert Run(Rest, maxRange, k) == Advance(prev, maxRange);
      if k - 1 < m {
        assert prev == Oscillator((k - 1) as real, true, 1.0);
      } else if k - 1 == m {
        assert prev == Oscillator(maxRange, false, 1.0);
      } else {
        assert prev == Oscillator((2 * m - k + 1) as real, false, 1.0);
      }
    }
  }

  /** The oscillation is periodic: after 2 * maxRange ticks it is back at rest. */
  lemma ReturnsToRest(maxRange: real)
    requires 0.0 < maxRange && IsWhole(maxRange)
    ensures Run(Rest, maxRange, (2.0 * maxRange).Floor) == Rest
  {
    var m := maxRange.Floor;
    assert (2.0 * maxRange).Floor == 2 * m;
    RunFromRest(maxRange, 2 * m);
  }
}
