/** The restitution and friction laws shared by every conditional constraint:
    the effective coefficient of restitution (COR) as a function of impact
    speed, and the effective coefficient of friction (COF) as a function of
    slip speed. Both are piecewise-linear in the speed. */
module ConditionalConstraint {

  /** The law's calibration parameters are admissible: 0 <= minCOR <= 1 and
      0 <= captureSpeed <= minCORSpeed. */
  predicate ValidRestitution(minCOR: real, captureSpeed: real, minCORSpeed: real) {
    0.0 <= minCOR <= 1.0 && 0.0 <= captureSpeed <= minCORSpeed
  }

  /** Slope of the linear piece of the COR law (defined only for a positive
      minCORSpeed). */
  function Slope(minCOR: real, minCORSpeed: real): real
    requires minCORSpeed > 0.0
  {
    (1.0 - minCOR) / minCORSpeed
  }

  /** Effective COR for the given impact speed: zero at or below the capture
      speed, minCOR at or above minCORSpeed, and 1 - slope*impactSpeed in
      between. The result is a proper COR, and above the capture speed it
      never drops below minCOR. */
  function CalcEffectiveCOR(minCOR: real, captureSpeed: real, minCORSpeed: real,
                            impactSpeed: real): (cor: real)
    requires ValidRestitution(minCOR, captureSpeed, minCORSpeed)
    requires impactSpeed >= 0.0
    ensures 0.0 <= cor <= 1.0
    ensures impactSpeed > captureSpeed ==> minCOR <= cor
  {
    if impactSpeed <= captureSpeed then 0.0
    else if impactSpeed >= minCORSpeed then minCOR
    else
      LinearPieceBounds(minCOR, minCORSpeed, impactSpeed);
      1.0 - Slope(minCOR, minCORSpeed) * impactSpeed
  }

  /** Scaling by a nonnegative factor keeps the order. */
  lemma ScaleMonotone(k: real, a: real, b: real)
    requires k >= 0.0 && a <= b
    ensures k * a <= k * b
  {
    var d := b - a;
    assert k * b == k * a + k * d;
    assert k * d >= 0.0;
  }

  /** Scaling by a positive factor keeps the strict order. */
  lemma ScaleStrict(k: real, a: real, b: real)
    requires k > 0.0 && a < b
    ensures k * a < k * b
  {
    var d := b - a;
    assert k * b == k * a + k * d;
    assert k * d > 0.0;
  }

  /** On the open interval (0, minCORSpeed) the linear piece lies between
      minCOR and 1, strictly so when minCOR < 1. */
  lemma LinearPieceBounds(minCOR: real, minCORSpeed: real, s: real)
    requires 0.0 <= minCOR <= 1.0
    requires 0.0 < s < minCORSpeed
    ensures minCOR <= 1.0 - Slope(minCOR, minCORSpeed) * s <= 1.0
    ensures minCOR < 1.0 ==> minCOR < 1.0 - Slope(minCOR, minCORSpeed) * s < 1.0
  {
    var k := Slope(minCOR, minCORSpeed);
    assert k * minCORSpeed == 1.0 - minCOR;
    assert k >= 0.0;
    ScaleMonotone(k, 0.0, s);
    ScaleMonotone(k, s, minCORSpeed);
    if minCOR < 1.0 {
      assert k > 0.0;
      ScaleStrict(k, 0.0, s);
      ScaleStrict(k, s, minCORSpeed);
    }
  }

  /** At or below the capture speed the contact does not bounce. */
  lemma CORZeroAtOrBelowCapture(minCOR: real, captureSpeed: real, minCORSpeed: real,
                                impactSpeed: real)
    requires ValidRestitution(minCOR, captureSpeed, minCORSpeed)
    requires 0.0 <= impactSpeed <= captureSpeed
    ensures CalcEffectiveCOR(minCOR, captureSpeed, minCORSpeed, impactSpeed) == 0.0
  {
  }

  /** Above the capture speed, at or beyond minCORSpeed, the COR is minCOR. */
  lemma CORIsMinAtHighSpeed(minCOR: real, captureSpeed: real, minCORSpeed: real,
                            impactSpeed: real)
    requires ValidRestitution(minCOR, captureSpeed, minCORSpeed)
    requires impactSpeed > captureSpeed && impactSpeed >= minCORSpeed
    ensures CalcEffectiveCOR(minCOR, captureSpeed, minCORSpeed, impactSpeed) == minCOR
  {
  }

  /** Strictly between the capture speed and minCORSpeed the COR follows the
      line from 1 at speed 0 to minCOR at minCORSpeed, and lies strictly
      between minCOR and 1 (or is exactly 1 when minCOR is 1). */
  lemma CORLinearBetween(minCOR: real, captureSpeed: real, minCORSpeed: real,
                         impactSpeed: real)
    requires ValidRestitution(minCOR, captureSpeed, minCORSpeed)
    requires captureSpeed < impactSpeed < minCORSpeed
    ensures minCORSpeed > 0.0
    ensures CalcEffectiveCOR(minCOR, captureSpeed, minCORSpeed, impactSpeed) * minCORSpeed
            == minCORSpeed - (1.0 - minCOR) * impactSpeed
    ensures minCOR < 1.0 ==>
              minCOR < CalcEffectiveCOR(minCOR, captureSpeed, minCORSpeed, impactSpeed) < 1.0
    ensures minCOR == 1.0 ==> CalcEffectiveCOR(minCOR, captureSpeed, minCORSpeed, impactSpeed) == 1.0
  {
    var k := Slope(minCOR, minCORSpeed);
    assert k * minCORSpeed == 1.0 - minCOR;
    calc {
      (1.0 - k * impactSpeed) * minCORSpeed;
      minCORSpeed - (k * minCORSpeed) * impactSpeed;
      minCORSpeed - (1.0 - minCOR) * impactSpeed;
    }
    LinearPieceBounds(minCOR, minCORSpeed, impactSpeed);
  }

  /** Above the capture speed the COR never increases with impact speed. */
  lemma {:induction false} CORNonIncreasingAboveCapture(minCOR: real, captureSpeed: real,
                                                        minCORSpeed: real, s1: real, s2: real)
    requires ValidRestitution(minCOR, captureSpeed, minCORSpeed)
    requires captureSpeed < s1 <= s2
    ensures CalcEffectiveCOR(minCOR, captureSpeed, minCORSpeed, s2)
            <= CalcEffectiveCOR(minCOR, captureSpeed, minCORSpeed, s1)
  {
    if s2 >= minCORSpeed {
      // s2 sits on the floor minCOR, which nothing above capture goes below
      CORIsMinAtHighSpeed(minCOR, captureSpeed, minCORSpeed, s2);
      assert minCOR <= CalcEffectiveCOR(minCOR, captureSpeed, minCORSpeed, s1);
    } else {
      // both speeds on the linear piece 1 - k*s, with a nonnegative slope k
      var k := Slope(minCOR, minCORSpeed);
      assert k >= 0.0;
      ScaleMonotone(k, s1, s2);
      assert CalcEffectiveCOR(minCOR, captureSpeed, minCORSpeed, s1) == 1.0 - k * s1;
      assert CalcEffectiveCOR(minCOR, captureSpeed, minCORSpeed, s2) == 1.0 - k * s2;
    }
  }

  /** The COR is not monotone across the capture speed: any speed above it
      with a nonzero COR bounces more than the capture speed itself. */
  lemma CORJumpsUpPastCapture(minCOR: real, captureSpeed: real, minCORSpeed: real, s: real)
    requires ValidRestitution(minCOR, captureSpeed, minCORSpeed)
    requires captureSpeed < s
    requires minCOR > 0.0 || s < minCORSpeed
    ensures CalcEffectiveCOR(minCOR, captureSpeed, minCORSpeed, captureSpeed)
            < CalcEffectiveCOR(minCOR, captureSpeed, minCORSpeed, s)
  {
    if s < minCORSpeed {
      LinearPieceBounds(minCOR, minCORSpeed, s);
      var k := Slope(minCOR, minCORSpeed);
      assert k * minCORSpeed == 1.0 - minCOR;
      assert k * s < k * minCORSpeed || k == 0.0;
    }
  }

  /** When captureSpeed < minCORSpeed the COR is discontinuous at the capture
      speed: it is 0 there, while just above it the COR is within
      slope*(s - captureSpeed) below the positive height 1 - slope*captureSpeed.
      So the right-hand limit is that height, never 0 (not even when the
      capture speed is 0). */
  lemma CORRightLimitAtCapture(minCOR: real, captureSpeed: real, minCORSpeed: real, s: real)
    requires ValidRestitution(minCOR, captureSpeed, minCORSpeed)
    requires captureSpeed < s < minCORSpeed
    ensures CalcEffectiveCOR(minCOR, captureSpeed, minCORSpeed, captureSpeed) == 0.0
    ensures 0.0 < 1.0 - Slope(minCOR, minCORSpeed) * captureSpeed
    ensures 1.0 - Slope(minCOR, minCORSpeed) * captureSpeed
              - Slope(minCOR, minCORSpeed) * (s - captureSpeed)
            == CalcEffectiveCOR(minCOR, captureSpeed, minCORSpeed, s)
    ensures CalcEffectiveCOR(minCOR, captureSpeed, minCORSpeed, s)
            <= 1.0 - Slope(minCOR, minCORSpeed) * captureSpeed
  {
    var k := Slope(minCOR, minCORSpeed);
    var kc, kM := k * captureSpeed, k * minCORSpeed;
    assert kM == 1.0 - minCOR;
    assert k >= 0.0;
    assert kc <= k * s;
    if k > 0.0 {
      assert kc < kM;
    } else {
      assert kc == 0.0;
    }
    assert 0.0 < 1.0 - kc;
    assert kc == Slope(minCOR, minCORSpeed) * captureSpeed;
  }


  /** When the capture speed equals minCORSpeed there is no linear piece:
      the COR is 0 up to that speed and minCOR beyond it, so the law is
      continuous there exactly when minCOR is 0. */
  lemma CORStepWhenCaptureIsMinCORSpeed(minCOR: real, speed: real, s: real)
    requires ValidRestitution(minCOR, speed, speed)
    requires s >= 0.0
    ensures CalcEffectiveCOR(minCOR, speed, speed, s) == if s <= speed then 0.0 else minCOR
  {
  }

  /** The COR at minCORSpeed is minCOR unless the capture speed reaches
      minCORSpeed, in which case the contact is captured (COR 0). */
  lemma CORAtMinCORSpeed(minCOR: real, captureSpeed: real, minCORSpeed: real)
    requires ValidRestitution(minCOR, captureSpeed, minCORSpeed)
    ensures CalcEffectiveCOR(minCOR, captureSpeed, minCORSpeed, minCORSpeed)
            == if captureSpeed < minCORSpeed then minCOR else 0.0
  {
  }

  /** Worked values of the COR law. */
  lemma CORExamples()
    ensures CalcEffectiveCOR(0.5, 0.0, 2.0, 0.0) == 0.0
    ensures CalcEffectiveCOR(0.5, 0.0, 2.0, 2.0) == 0.5
    ensures CalcEffectiveCOR(0.5, 0.0, 2.0, 1.0) == 0.75
  {
  }

  /** The friction law's parameters are admissible: all coefficients
      nonnegative and the static one at least the dynamic one. */
  predicate ValidFriction(muStatic: real, muDynamic: real, muViscous: real) {
    muStatic >= 0.0 && muDynamic >= 0.0 && muViscous >= 0.0 && muStatic >= muDynamic
  }

  /** Effective COF for the given slip speed: the viscous contribution
      muViscous*slipSpeed plus the static coefficient at or below the
      transition speed and the dynamic coefficient above it. It is never
      below the dynamic coefficient, and never below the viscous part. */
  function CalcEffectiveCOF(muStatic: real, muDynamic: real, muViscous: real,
                            transitionSpeed: real, slipSpeed: real): (mu: real)
    requires ValidFriction(muStatic, muDynamic, muViscous)
    requires transitionSpeed >= 0.0 && slipSpeed >= 0.0
    ensures mu >= muDynamic >= 0.0
    ensures mu >= muViscous * slipSpeed
  {
    var viscous := muViscous * slipSpeed;
    viscous + (if slipSpeed <= transitionSpeed then muStatic else muDynamic)
  }

  /** The static branch is never below the dynamic one: raising the
      transition speed (so that a slip speed counts as rolling rather than
      sliding) never lowers the COF. */
  lemma COFStaticNotBelowDynamic(muStatic: real, muDynamic: real, muViscous: real,
                                 t1: real, t2: real, slipSpeed: real)
    requires ValidFriction(muStatic, muDynamic, muViscous)
    requires 0.0 <= t1 <= t2 && slipSpeed >= 0.0
    ensures CalcEffectiveCOF(muStatic, muDynamic, muViscous, t1, slipSpeed)
            <= CalcEffectiveCOF(muStatic, muDynamic, muViscous, t2, slipSpeed)
  {
  }

  /** Within one regime (both speeds rolling, or both sliding) the COF grows
      with slip speed only through the viscous term. */
  lemma COFMonotoneWithinRegime(muStatic: real, muDynamic: real, muViscous: real,
                                transitionSpeed: real, s1: real, s2: real)
    requires ValidFriction(muStatic, muDynamic, muViscous)
    requires transitionSpeed >= 0.0 && 0.0 <= s1 <= s2
    requires (s2 <= transitionSpeed) || (transitionSpeed < s1)
    ensures CalcEffectiveCOF(muStatic, muDynamic, muViscous, transitionSpeed, s2)
            - CalcEffectiveCOF(muStatic, muDynamic, muViscous, transitionSpeed, s1)
            == muViscous * (s2 - s1) >= 0.0
  {
    assert muViscous * s2 - muViscous * s1 == muViscous * (s2 - s1);
    assert s2 - s1 >= 0.0;
  }

  /** At the transition speed the COF drops abruptly by muStatic - muDynamic
      (up to the viscous change). */
  lemma COFDropAtTransition(muStatic: real, muDynamic: real, muViscous: real,
                            transitionSpeed: real, s: real)
    requires ValidFriction(muStatic, muDynamic, muViscous)
    requires 0.0 <= transitionSpeed < s
    ensures CalcEffectiveCOF(muStatic, muDynamic, muViscous, transitionSpeed, transitionSpeed)
            - CalcEffectiveCOF(muStatic, muDynamic, muViscous, transitionSpeed, s)
            == (muStatic - muDynamic) - muViscous * (s - transitionSpeed)
  {
    assert muViscous * s - muViscous * transitionSpeed == muViscous * (s - transitionSpeed);
  }

  /** Worked values of the COF law. */
  lemma COFExamples()
    ensures CalcEffectiveCOF(0.8, 0.3, 0.01, 0.1, 0.05) == 0.8005
    ensures CalcEffectiveCOF(0.8, 0.3, 0.01, 0.1, 0.2) == 0.302
  {
  }
}
