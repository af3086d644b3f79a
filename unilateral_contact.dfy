/** Unilateral contacts: one-sided constraints (joint stops and point/sphere
    on plane contacts) that each wrap one underlying constraint primitive.
    The contact object holds only immutable calibration and its sign
    convention; whether it is enabled lives in the simulation State, as the
    wrapped primitive's disabled flag. */
module UnilateralContacts {
  import opened Wrappers
  import CC = ConditionalConstraint

  /** Identity of an underlying constraint primitive in the simulation. */
  type ConstraintIndex = nat
  /** A multiplier handle assigned by the simulation; None is "invalid". */
  type MultiplierIndex = Option<nat>
  /** Index of a contact among the system's unilateral contacts. */
  type UnilateralContactIndex = nat
  /** The multiplier handles of the x- and y-direction friction constraints. */
  type FrictionMultipliers = (MultiplierIndex, MultiplierIndex)

  /** A sign convention: 1 or -1. */
  type Sign = s: real | s == 1.0 || s == -1.0 witness 1.0

  datatype Vec2 = Vec2(x: real, y: real)

  /** Static, dynamic and viscous friction coefficients of a contact. */
  datatype FrictionCoefficients = FrictionCoefficients(muStatic: real, muDynamic: real, muViscous: real)
  {
    predicate Valid() { CC.ValidFriction(muStatic, muDynamic, muViscous) }
  }

  /** The concrete kinds of contact, each with the primitive it wraps and its
      own coefficients. */
  datatype ContactVariant =
    | HardStopUpper(upper: ConstraintIndex, minCOR: real)
    | HardStopLower(lower: ConstraintIndex, minCOR: real)
    | PointPlaneFrictionlessContact(ptInPlane: ConstraintIndex, minCOR: real)
    | PointPlaneContact(ptInPlane: ConstraintIndex, minCOR: real, friction: FrictionCoefficients)
    | SpherePlaneContact(sphereOnPlane: ConstraintIndex, minCOR: real, friction: FrictionCoefficients)
  {
    /** The primitive whose disabled flag stands for this contact's state. */
    function Primitive(): ConstraintIndex {
      match this
      case HardStopUpper(p, _) => p
      case HardStopLower(p, _) => p
      case PointPlaneFrictionlessContact(p, _) => p
      case PointPlaneContact(p, _, _) => p
      case SpherePlaneContact(p, _, _) => p
    }

    predicate IsHardStop() { HardStopUpper? || HardStopLower? }

    /** Number of constraint equations of the wrapped primitive: a constant
        coordinate and a plain point-in-plane have one (the normal
        direction); the stiction and sphere primitives add the two
        tangential directions before it. */
    function ErrorCount(): nat {
      match this
      case HardStopUpper(_, _) => 1                  // a constant coordinate
      case HardStopLower(_, _) => 1                  // a constant coordinate
      case PointPlaneFrictionlessContact(_, _) => 1  // a point in a plane
      case PointPlaneContact(_, _, _) => 3           // a point on a plane, with stiction
      case SpherePlaneContact(_, _, _) => 3          // a sphere on a plane
    }
  }

  /** The externally owned simulation state, reduced to what contacts touch:
      the disabled flag of every registered constraint primitive. */
  class State {
    var disabled: map<ConstraintIndex, bool>

    constructor (disabled: map<ConstraintIndex, bool>)
      ensures this.disabled == disabled
    {
      this.disabled := disabled;
    }

    predicate IsDisabled(ix: ConstraintIndex)
      reads this
      requires ix in disabled
    {
      disabled[ix]
    }

    /** The primitive's own enable/disable: set its flag, leave every other
        primitive alone. */
    method SetDisabled(ix: ConstraintIndex, flag: bool)
      requires ix in disabled
      modifies this
      ensures disabled == old(disabled)[ix := flag]
    {
      disabled := disabled[ix := flag];
    }
  }

  class UnilateralContact {
    /** Fixed at construction. */
    const sign: Sign
    const variant: ContactVariant
    var myIx: Option<UnilateralContactIndex>

    /** A contact with the given sign convention, which must be 1 or -1 and
        is 1 (the default convention) unless given; its own index is not yet
        assigned. */
    constructor (variant: ContactVariant, sign: int := 1)
      requires sign == 1 || sign == -1
      ensures this.sign == sign as real && this.variant == variant
      ensures myIx == None
    {
      this.sign := sign as real;
      this.variant := variant;
      myIx := None;
    }

    /** The sign convention given at construction, always 1 or -1. */
    function GetSignConvention(): (s: real)
      ensures s == 1.0 || s == -1.0
    {
      sign
    }

    method SetMyIndex(cx: UnilateralContactIndex)
      modifies this`myIx
      ensures GetMyIndex() == Some(cx)
    {
      myIx := Some(cx);
    }

    function GetMyIndex(): Option<UnilateralContactIndex>
      reads this`myIx
    {
      myIx
    }

    /** The contact is registered in the state: its primitive has a flag. */
    predicate Registered(state: State)
      reads state
    {
      variant.Primitive() in state.disabled
    }

    predicate IsEnabled(state: State)
      reads state
      requires Registered(state)
    {
      !state.IsDisabled(variant.Primitive())
    }

    /** Enable the contact if it was disabled; report whether anything
        changed. Only this contact's primitive flag is touched. */
    method Enable(state: State) returns (changed: bool)
      requires Registered(state)
      modifies state
      ensures state.disabled == old(state.disabled)[variant.Primitive() := false]
      ensures Registered(state) && IsEnabled(state)
      ensures changed == !old(IsEnabled(state))
    {
      var p := variant.Primitive();
      if !state.IsDisabled(p) {
        return false;
      }
      state.SetDisabled(p, false);
      return true;
    }

    /** Disable the contact if it was enabled; report whether anything
        changed. Only this contact's primitive flag is touched. */
    method Disable(state: State) returns (changed: bool)
      requires Registered(state)
      modifies state
      ensures state.disabled == old(state.disabled)[variant.Primitive() := true]
      ensures Registered(state) && !IsEnabled(state)
      ensures changed == old(IsEnabled(state))
    {
      var p := variant.Primitive();
      if state.IsDisabled(p) {
        return false;
      }
      state.SetDisabled(p, true);
      return true;
    }

    /** Given the contact's position error and a tolerance, is it close
        enough to be treated as touching? */
    predicate IsProximal(perr: real, ptol: real) {
      sign * perr <= ptol
    }

    /** The normal-direction component of the wrapped primitive's velocity
        (or acceleration) errors; for every plane contact it is the last
        equation of the primitive. */
    function NormalError(errs: seq<real>): (e: real)
      requires !variant.IsHardStop()
      requires |errs| == variant.ErrorCount()
      ensures e == errs[|errs| - 1]
    {
      if variant.PointPlaneFrictionlessContact? then errs[0] else errs[2]
    }

    predicate HasFriction() {
      variant.PointPlaneContact? || variant.SpherePlaneContact?
    }

    /** The tangential slip velocity, absent for a contact without
        friction. */
    function GetSlipVelocity(verrs: seq<real>): (v: Option<Vec2>)
      requires |verrs| == variant.ErrorCount()
      ensures v.Some? <==> HasFriction()
      ensures v.Some? ==> [v.value.x, v.value.y, NormalError(verrs)] == verrs
    {
      if HasFriction() then Some(Vec2(verrs[0], verrs[1])) else None
    }

    /** Effective COR of this contact: the shared law applied to its own
        minCOR and the given default speed thresholds. */
    function CalcEffectiveCOR(defaultCaptureSpeed: real, defaultMinCORSpeed: real,
                              impactSpeed: real): (cor: real)
      requires CC.ValidRestitution(variant.minCOR, defaultCaptureSpeed, defaultMinCORSpeed)
      requires impactSpeed >= 0.0
      ensures 0.0 <= cor <= 1.0
      ensures impactSpeed <= defaultCaptureSpeed ==> cor == 0.0
      ensures impactSpeed > defaultCaptureSpeed ==> variant.minCOR <= cor
    {
      CC.CalcEffectiveCOR(variant.minCOR, defaultCaptureSpeed, defaultMinCORSpeed, impactSpeed)
    }

    /** Effective COF of this contact: absent without friction, otherwise the
        shared law applied to its own coefficients. */
    function CalcEffectiveCOF(defaultTransitionSpeed: real, slipSpeed: real): (mu: Option<real>)
      requires HasFriction() ==>
                 variant.friction.Valid() && defaultTransitionSpeed >= 0.0 && slipSpeed >= 0.0
      ensures mu.Some? <==> HasFriction()
      ensures mu.Some? ==> mu.value >= variant.friction.muDynamic
    {
      if HasFriction() then
        var f := variant.friction;
        Some(CC.CalcEffectiveCOF(f.muStatic, f.muDynamic, f.muViscous, defaultTransitionSpeed, slipSpeed))
      else None
    }

    /** Multiplier handles of the x and y friction constraints: what the
        primitive reports for a friction contact, both invalid otherwise. */
    function GetFrictionMultiplierIndices(reported: FrictionMultipliers): (ix: FrictionMultipliers)
      ensures !HasFriction() ==> ix.0 == None && ix.1 == None
      ensures HasFriction() ==> ix == reported
    {
      if HasFriction() then reported else (None, None)
    }
  }

  /** Proximity is monotone in the tolerance: a looser tolerance never makes
      a proximal contact distant. */
  lemma IsProximalMonotone(c: UnilateralContact, perr: real, t1: real, t2: real)
    requires t1 <= t2
    ensures c.IsProximal(perr, t1) ==> c.IsProximal(perr, t2)
  {
  }

  /** With sign 1 the contact is proximal when perr is at most the
      tolerance; with sign -1 when -perr is. A contact already on the
      violating side is proximal for every nonnegative tolerance. */
  lemma IsProximalBySign(c: UnilateralContact, perr: real, ptol: real)
    ensures c.sign == 1.0 ==> (c.IsProximal(perr, ptol) <==> perr <= ptol)
    ensures c.sign == -1.0 ==> (c.IsProximal(perr, ptol) <==> -perr <= ptol)
    ensures c.sign * perr < 0.0 && ptol >= 0.0 ==> c.IsProximal(perr, ptol)
  {
  }

  /** Exactly the point-plane and sphere-plane contacts have friction, and
      they are exactly the ones whose primitive has tangential equations. */
  lemma FrictionIffTangentialEquations(c: UnilateralContact)
    ensures c.HasFriction() <==> c.variant.ErrorCount() == 3
    ensures c.HasFriction() ==> !c.variant.IsHardStop()
  {
  }

  /** A contact's COR settles at its own minCOR once the impact speed
      reaches minCORSpeed, provided the capture speed is below it. */
  lemma ContactCORAtMinCORSpeed(c: UnilateralContact, captureSpeed: real, minCORSpeed: real)
    requires CC.ValidRestitution(c.variant.minCOR, captureSpeed, minCORSpeed)
    requires captureSpeed < minCORSpeed
    ensures c.CalcEffectiveCOR(captureSpeed, minCORSpeed, minCORSpeed) == c.variant.minCOR
  {
    CC.CORAtMinCORSpeed(c.variant.minCOR, captureSpeed, minCORSpeed);
  }

  /** While rolling (slip speed at most the transition speed) a friction
      contact's COF is its own mu_s plus the viscous part. */
  lemma {:induction false} FrictionContactRolling(c: UnilateralContact, transitionSpeed: real, s: real)
    requires c.HasFriction() && c.variant.friction.Valid()
    requires 0.0 <= s <= transitionSpeed
    ensures c.CalcEffectiveCOF(transitionSpeed, s)
            == Some(c.variant.friction.muStatic + c.variant.friction.muViscous * s)
  {
    var f := c.variant.friction;
    CC.COFMonotoneWithinRegime(f.muStatic, f.muDynamic, f.muViscous, transitionSpeed, 0.0, s);
    assert CC.CalcEffectiveCOF(f.muStatic, f.muDynamic, f.muViscous, transitionSpeed, 0.0) == f.muStatic;
    assert f.muViscous * (s - 0.0) == f.muViscous * s;
    // the same products, read through the contact's own coefficients
    assert f.muStatic == c.variant.friction.muStatic;
    assert f.muViscous * s == c.variant.friction.muViscous * s;
  }

  /** While slipping (slip speed above the transition speed) a friction
      contact's COF is its own mu_d plus the viscous part. */
  lemma {:induction false} FrictionContactSliding(c: UnilateralContact, transitionSpeed: real, s: real)
    requires c.HasFriction() && c.variant.friction.Valid()
    requires 0.0 <= transitionSpeed < s
    ensures c.CalcEffectiveCOF(transitionSpeed, s)
            == Some(c.variant.friction.muDynamic + c.variant.friction.muViscous * s)
  {
    var f := c.variant.friction;
    var mu := CC.CalcEffectiveCOF(f.muStatic, f.muDynamic, f.muViscous, transitionSpeed, s);
    CC.COFDropAtTransition(f.muStatic, f.muDynamic, f.muViscous, transitionSpeed, s);
    FrictionContactRolling(c, transitionSpeed, transitionSpeed);
    assert f.muViscous * s - f.muViscous * transitionSpeed == f.muViscous * (s - transitionSpeed);
    assert mu == f.muDynamic + f.muViscous * s;
    assert c.CalcEffectiveCOF(transitionSpeed, s) == Some(mu);
    // the same products, read through the contact's own coefficients
    assert mu == c.variant.friction.muDynamic + c.variant.friction.muViscous * s;
  }

  /** When the slip speed passes the transition speed, a friction contact's
      COF drops by its own mu_s - mu_d, less the viscous gain. */
  lemma {:induction false} FrictionContactDropAtTransition(c: UnilateralContact, transitionSpeed: real,
                                                           s: real)
    requires c.HasFriction() && c.variant.friction.Valid()
    requires 0.0 <= transitionSpeed < s
    ensures c.CalcEffectiveCOF(transitionSpeed, transitionSpeed).value
            - c.CalcEffectiveCOF(transitionSpeed, s).value
            == (c.variant.friction.muStatic - c.variant.friction.muDynamic)
               - c.variant.friction.muViscous * (s - transitionSpeed)
  {
    var f := c.variant.friction;
    CC.COFDropAtTransition(f.muStatic, f.muDynamic, f.muViscous, transitionSpeed, s);
    assert c.CalcEffectiveCOF(transitionSpeed, transitionSpeed).value
           == CC.CalcEffectiveCOF(f.muStatic, f.muDynamic, f.muViscous, transitionSpeed, transitionSpeed);
    assert c.CalcEffectiveCOF(transitionSpeed, s).value
           == CC.CalcEffectiveCOF(f.muStatic, f.muDynamic, f.muViscous, transitionSpeed, s);
  }

  /** Enable and disable are idempotent and report each real change: from a
      disabled contact, disable reports false, enable true, enable again
      false and disable true; every other primitive is left as it was. */
  method EnableDisableCycle(c: UnilateralContact, state: State)
      returns (d1: bool, e1: bool, e2: bool, d2: bool)
    requires c.Registered(state) && !c.IsEnabled(state)
    modifies state
    ensures !d1 && e1 && !e2 && d2
    ensures state.disabled == old(state.disabled)
  {
    d1 := c.Disable(state);
    e1 := c.Enable(state);
    e2 := c.Enable(state);
    d2 := c.Disable(state);
    assert state.disabled == old(state.disabled)[c.variant.Primitive() := true];
  }
}
