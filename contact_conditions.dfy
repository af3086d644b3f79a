/** The inequality and complementarity conditions that a unilateral contact
    and a bounded speed constraint must satisfy, as stated in the contracts of
    the conditional-constraint classes. Errors and multipliers are exact reals
    here; the simulator enforces the zeroes only up to a tolerance. */
module ContactConditions {

  /** The conditions enforced on a unilateral contact with the given sign
      convention, position/velocity/acceleration errors and multiplier
      lam: the position error is on the valid side, the velocity error is
      too while touching, and while touching at rest the acceleration error is
      valid, the multiplier never produces an attractive force, and only one
      of them is nonzero. */
  predicate ContactConditionsHold(sign: real, perr: real, verr: real, aerr: real, lam: real) {
    && sign * perr >= 0.0
    && (perr == 0.0 ==> sign * verr >= 0.0)
    && (perr == 0.0 && verr == 0.0 ==>
          sign * aerr >= 0.0 && -sign * lam >= 0.0 && aerr * lam == 0.0)
  }

  /** In the default convention (sign 1) perr is a signed distance: perr,
      verr, aerr >= 0 are the good directions and the multiplier is <= 0. */
  lemma PositiveConvention(perr: real, verr: real, aerr: real, lam: real)
    ensures ContactConditionsHold(1.0, perr, verr, aerr, lam) <==>
              (perr >= 0.0 && (perr == 0.0 ==> verr >= 0.0) &&
               (perr == 0.0 && verr == 0.0 ==> aerr >= 0.0 && lam <= 0.0 && aerr * lam == 0.0))
  {
  }

  /** In the opposite convention (sign -1) the good directions are
      perr, verr, aerr <= 0 and the multiplier is >= 0. */
  lemma NegativeConvention(perr: real, verr: real, aerr: real, lam: real)
    ensures ContactConditionsHold(-1.0, perr, verr, aerr, lam) <==>
              (perr <= 0.0 && (perr == 0.0 ==> verr <= 0.0) &&
               (perr == 0.0 && verr == 0.0 ==> aerr <= 0.0 && lam >= 0.0 && aerr * lam == 0.0))
  {
  }

  /** Negating the sign convention is the same as negating every error and
      the multiplier: the two conventions describe mirror-image contacts. */
  lemma FlipSignConvention(sign: real, perr: real, verr: real, aerr: real, lam: real)
    requires sign == 1.0 || sign == -1.0
    ensures ContactConditionsHold(-sign, perr, verr, aerr, lam) <==>
            ContactConditionsHold(sign, -perr, -verr, -aerr, -lam)
  {
    assert -sign * perr == sign * -perr;
    assert -sign * verr == sign * -verr;
    assert -sign * aerr == sign * -aerr;
    assert -(-sign) * lam == -sign * -lam;
    assert aerr * lam == (-aerr) * (-lam);
  }

  /** Complementarity: while the contact is touching at rest, a nonzero
      multiplier means zero acceleration error and vice versa, and the
      contact force (opposite to the multiplier) points to the valid side. */
  lemma ActiveContactComplementarity(sign: real, aerr: real, lam: real)
    requires sign == 1.0 || sign == -1.0
    requires ContactConditionsHold(sign, 0.0, 0.0, aerr, lam)
    ensures lam != 0.0 ==> aerr == 0.0
    ensures aerr != 0.0 ==> lam == 0.0
    ensures sign * -lam >= 0.0
  {
  }

  /** The conditions enforced on a bounded speed constraint with bounds
      (lower, upper) on the applied force -lam: either the constraint holds
      (verr = 0) with the force in range, or it slips forwards with the force
      at the lower bound, or backwards with the force at the upper bound. */
  predicate BoundedSpeedConditionsHold(lower: real, upper: real, lam: real, verr: real) {
    || (lower <= -lam <= upper && verr == 0.0)
    || (verr > 0.0 && -lam == lower)
    || (verr < 0.0 && -lam == upper)
  }

  /** The three regimes of a bounded speed constraint exclude each other:
      the sign of verr alone tells which one is in force. */
  lemma BoundedSpeedRegimeBySign(lower: real, upper: real, lam: real, verr: real)
    requires BoundedSpeedConditionsHold(lower, upper, lam, verr)
    ensures verr == 0.0 ==> lower <= -lam <= upper
    ensures verr > 0.0 ==> -lam == lower
    ensures verr < 0.0 ==> -lam == upper
  {
  }

  /** Whatever the regime, the applied force stays within the bounds. */
  lemma BoundedSpeedForceInRange(lower: real, upper: real, lam: real, verr: real)
    requires lower <= upper
    requires BoundedSpeedConditionsHold(lower, upper, lam, verr)
    ensures lower <= -lam <= upper
  {
  }

  /** With symmetric bounds (lower = -upper) the constraint is a restriction
      on the magnitude of the multiplier, like friction with a known normal
      force. */
  lemma SymmetricBoundsLimitMagnitude(upper: real, lam: real, verr: real)
    requires upper >= 0.0
    requires BoundedSpeedConditionsHold(-upper, upper, lam, verr)
    ensures -upper <= lam <= upper
  {
  }

  /** When the bounds straddle zero the constraint never does positive work:
      either it holds (verr = 0, workless) or its force opposes the slip,
      strictly so when neither bound is zero. */
  lemma BoundedSpeedIsDissipative(lower: real, upper: real, lam: real, verr: real)
    requires lower <= 0.0 <= upper
    requires BoundedSpeedConditionsHold(lower, upper, lam, verr)
    ensures -lam * verr <= 0.0
    ensures lower < 0.0 < upper && verr != 0.0 ==> -lam * verr < 0.0
  {
    if verr > 0.0 {
      assert -lam == lower;
      assert -lam <= 0.0;
    } else if verr < 0.0 {
      assert -lam == upper;
      assert -lam >= 0.0;
    }
  }
}
