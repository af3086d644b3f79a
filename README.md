# Conditional constraints and placement bookkeeping (Simbody)

This project models two parts of Simbody in Dafny.

**Conditional constraints.** This is the layer through which Simbody treats one-sided contacts.
- The restitution law gives the effective coefficient of restitution (COR) from the impact speed.
- The friction law gives the effective coefficient of friction (COF) from the slip speed.
- The unilateral contact contract covers a sign convention of ±1 and the enable/disable lifecycle. The enabled bit is kept in the simulation `State`.
- The contract also covers the proximity test and the capability defaults for contacts without friction.
- There are five concrete contacts:
  - `HardStopUpper` and `HardStopLower`, which limit a generalized coordinate;
  - `PointPlaneFrictionlessContact`;
  - `PointPlaneContact` and `SpherePlaneContact`, which carry friction.
- The inequality and complementarity conditions stated for unilateral contacts and bounded speed constraints are Dafny predicates, with lemmas about them.

**Placement bookkeeping.** This comes from the placement-expression modelling layer:
- the operator name tables;
- the handle, owner and value-slot fields of a placement representation;
- when a placement is realizable;
- cloning a representation into a new handle;
- the valid-flag value cache entry;
- constancy and dependency of frame expressions.

Files and modules:
- `wrappers.dfy`: `Wrappers`, the `Option` type. `None` stands for the source's NaN and invalid-index sentinels.
- `restitution.dfy`: `ConditionalConstraint`, the COR and COF laws over `real`.
- `contact_conditions.dfy`: `ContactConditions`, the sign-convention and bounded-speed conditions.
- `unilateral_contact.dfy`: `UnilateralContacts`, which holds:
  - `State`, a class mapping each constraint primitive to its disabled flag;
  - `UnilateralContact`, a class with a `const` sign, a `const` variant (one datatype constructor per concrete contact class, dispatched by `match`) and the mutable own index.
- `placement_ops.dfy`: `PlacementOps`, the `getOpName` tables.
- `placements.dfy`: `Placements`, which holds `PlacementRep`, `PlacementValueRep` and the constancy and dependency functions over placement kinds.

Inputs that stand for code outside this model:
- the contact's position error `perr`;
- the wrapped primitive's error components;
- the multiplier handles a primitive reports;
- the feature dependency relation `Feature::dependsOn`.

Shape of the restitution law, as the code computes it (Simbody/include/simbody/internal/ConditionalConstraint.h:54-58):
- It is 0 at or below the capture speed (:54, `CORZeroAtOrBelowCapture`) and `minCOR` at or beyond `minCORSpeed` above the capture speed (:55, `CORIsMinAtHighSpeed`). At `minCORSpeed` itself it is `minCOR` when `captureSpeed < minCORSpeed` and 0 when the two are equal (`CORAtMinCORSpeed`).
- Above the capture speed it never rises (`CORNonIncreasingAboveCapture`).
- It jumps at the capture speed whenever `captureSpeed < minCORSpeed`, a capture speed of 0 included: just above it the value tends to `1 - slope*captureSpeed > 0` (`CORRightLimitAtCapture`), and every faster impact with a nonzero COR bounces more than one at the capture speed (`CORJumpsUpPastCapture`).
- When `captureSpeed == minCORSpeed` it is a step from 0 to `minCOR` (`CORStepWhenCaptureIsMinCORSpeed`).
- So it is not monotone on `[0, minCORSpeed]` exactly when `captureSpeed < minCORSpeed` and `minCOR < 1`: it jumps up at the capture speed and then falls along the linear piece, whose values lie strictly between `minCOR` and 1 (`CORLinearBetween`). With `minCOR == 1` the linear piece is flat at 1, and with `captureSpeed == minCORSpeed` there is no linear piece; in both cases the law is a single step up.
- This is the shape the doc comment at :41-45 gives: zero at or below the capture speed, `minCOR` at or above `minCORSpeed`, linear in between.

## Model

| member | source | states |
|---|---|---|
| ConditionalConstraint.CalcEffectiveCOR | Simbody/include/simbody/internal/ConditionalConstraint.h:47-59 | under the asserted preconditions the COR lies in [0,1] and, above the capture speed, never below minCOR |
| ConditionalConstraint.CORZeroAtOrBelowCapture | Simbody/include/simbody/internal/ConditionalConstraint.h:54 | at or below the capture speed the COR is 0 |
| ConditionalConstraint.CORIsMinAtHighSpeed | Simbody/include/simbody/internal/ConditionalConstraint.h:55 | above the capture speed and at or beyond minCORSpeed the COR is exactly minCOR |
| ConditionalConstraint.CORLinearBetween | Simbody/include/simbody/internal/ConditionalConstraint.h:56-58 | strictly between the capture speed and minCORSpeed, minCORSpeed is positive (no division by zero), COR*minCORSpeed = minCORSpeed - (1-minCOR)*impactSpeed, and the COR is strictly between minCOR and 1 (exactly 1 when minCOR is 1) |
| ConditionalConstraint.LinearPieceBounds | Simbody/include/simbody/internal/ConditionalConstraint.h:57-58 | the line 1 - slope*s stays within [minCOR,1] on (0, minCORSpeed), strictly inside when minCOR < 1 |
| ConditionalConstraint.CORNonIncreasingAboveCapture | Simbody/include/simbody/internal/ConditionalConstraint.h:54-58 | for speeds above the capture speed, a higher impact speed never gives a higher COR |
| ConditionalConstraint.CORJumpsUpPastCapture | Simbody/include/simbody/internal/ConditionalConstraint.h:54-58 | the COR is not monotone across the capture speed: every faster impact with a nonzero COR bounces more than one at the capture speed |
| ConditionalConstraint.CORRightLimitAtCapture | Simbody/include/simbody/internal/ConditionalConstraint.h:41-58 | when captureSpeed < minCORSpeed the COR is 0 at the capture speed, but just above it lies within slope*(s-captureSpeed) below the positive height 1 - slope*captureSpeed: a jump |
| ConditionalConstraint.CORStepWhenCaptureIsMinCORSpeed | Simbody/include/simbody/internal/ConditionalConstraint.h:54-55 | with captureSpeed == minCORSpeed the law is a step from 0 to minCOR |
| ConditionalConstraint.CORAtMinCORSpeed | Simbody/include/simbody/internal/ConditionalConstraint.h:54-55 | at minCORSpeed the COR is minCOR unless the capture speed reaches minCORSpeed, when it is 0 |
| ConditionalConstraint.CORExamples | Simbody/include/simbody/internal/ConditionalConstraint.h:47-59 | (0.5,0,2,0) = 0, (0.5,0,2,2) = 0.5, (0.5,0,2,1) = 0.75 |
| ConditionalConstraint.CalcEffectiveCOF | Simbody/include/simbody/internal/ConditionalConstraint.h:66-74 | under the asserted preconditions the COF is at least mu_d >= 0 and at least the viscous part mu_v*slipSpeed |
| ConditionalConstraint.COFStaticNotBelowDynamic | Simbody/include/simbody/internal/ConditionalConstraint.h:73 | the static branch is never below the dynamic one: raising the transition speed never lowers the COF |
| ConditionalConstraint.COFMonotoneWithinRegime | Simbody/include/simbody/internal/ConditionalConstraint.h:72-73 | within one regime the COF changes with slip speed exactly by mu_v times the change, never decreasing |
| ConditionalConstraint.COFDropAtTransition | Simbody/include/simbody/internal/ConditionalConstraint.h:61-73 | crossing the transition speed the COF drops by mu_s - mu_d less the viscous gain |
| ConditionalConstraint.COFExamples | Simbody/include/simbody/internal/ConditionalConstraint.h:66-74 | (0.8,0.3,0.01,0.1,0.05) = 0.8005 and (0.8,0.3,0.01,0.1,0.2) = 0.302 |
| ContactConditions.PositiveConvention | Simbody/include/simbody/internal/ConditionalConstraint.h:100-108 | with sign 1 the conditions read perr >= 0, verr >= 0 while touching, aerr >= 0 and lambda <= 0 with aerr*lambda = 0 while touching at rest |
| ContactConditions.NegativeConvention | Simbody/include/simbody/internal/ConditionalConstraint.h:108-110 | with sign -1 the conditions read perr, verr, aerr <= 0 and lambda >= 0 |
| ContactConditions.FlipSignConvention | Simbody/include/simbody/internal/ConditionalConstraint.h:111-116 | negating the sign convention is the same as negating perr, verr, aerr and lambda |
| ContactConditions.ActiveContactComplementarity | Simbody/include/simbody/internal/ConditionalConstraint.h:114-115 | touching at rest, a nonzero multiplier forces zero acceleration error and vice versa, and the force is never attractive |
| ContactConditions.BoundedSpeedRegimeBySign | Simbody/include/simbody/internal/ConditionalConstraint.h:257-262 | the sign of verr decides the regime: 0 means force in [lower,upper], positive means force at lower, negative means force at upper |
| ContactConditions.BoundedSpeedForceInRange | Simbody/include/simbody/internal/ConditionalConstraint.h:251-262 | in every regime the applied force -lambda stays within [lower,upper] |
| ContactConditions.SymmetricBoundsLimitMagnitude | Simbody/include/simbody/internal/ConditionalConstraint.h:264-266 | with lower = -upper the conditions bound the magnitude of lambda by upper |
| ContactConditions.BoundedSpeedIsDissipative | Simbody/include/simbody/internal/ConditionalConstraint.h:268-270 | with bounds straddling zero the force times slip velocity is never positive, and strictly negative while slipping when both bounds are nonzero |
| UnilateralContacts.UnilateralContact.constructor | Simbody/include/simbody/internal/ConditionalConstraint.h:125-126 | the sign must be 1 or -1, defaults to 1 (the default convention of :101) and is stored as a real; the own index starts unassigned |
| UnilateralContacts.UnilateralContact.GetSignConvention | Simbody/include/simbody/internal/ConditionalConstraint.h:130-131 | the reported convention is always 1 or -1 (the field is constant, so it never changes) |
| UnilateralContacts.UnilateralContact.SetMyIndex | Simbody/include/simbody/internal/ConditionalConstraint.h:222-223 | after setting, GetMyIndex returns the given index |
| UnilateralContacts.UnilateralContact.GetMyIndex | Simbody/include/simbody/internal/ConditionalConstraint.h:223 | the index last set by SetMyIndex, unassigned for a new contact (their rows) |
| UnilateralContacts.UnilateralContact.IsEnabled | Simbody/include/simbody/internal/ConditionalConstraint.h:353-354 | (same body in all five variants, also :411-412, :468-470, :540-542, :632-634) enabled exactly when the wrapped primitive is not disabled in the state; Enable and Disable set it and report its old value |
| UnilateralContacts.UnilateralContact.Enable | Simbody/include/simbody/internal/ConditionalConstraint.h:350-352 | (same body in all five variants, also :408-410, :462-466, :534-538, :626-630) reports true iff the contact was disabled; afterwards it is enabled and only its primitive's flag has changed |
| UnilateralContacts.UnilateralContact.Disable | Simbody/include/simbody/internal/ConditionalConstraint.h:405-407 | (same body in all five variants, also :347-349, :456-460, :528-532, :620-624) reports true iff the contact was enabled; afterwards it is disabled and only its primitive's flag has changed |
| UnilateralContacts.EnableDisableCycle | Simbody/include/simbody/internal/ConditionalConstraint.h:133-142 | from a disabled contact: disable reports false, enable true, a second enable false, disable true, and the state ends as it began |
| UnilateralContacts.UnilateralContact.IsProximal | Simbody/include/simbody/internal/ConditionalConstraint.h:175-176 | the default proximity test sign*perr <= ptol; IsProximalMonotone and IsProximalBySign state what it means |
| UnilateralContacts.IsProximalMonotone | Simbody/include/simbody/internal/ConditionalConstraint.h:175-176 | proximity (sign*perr <= ptol) is monotone in the tolerance |
| UnilateralContacts.IsProximalBySign | Simbody/include/simbody/internal/ConditionalConstraint.h:171-176 | with sign 1 proximal iff perr <= ptol, with sign -1 iff -perr <= ptol; a violating contact is proximal for every nonnegative tolerance |
| UnilateralContacts.UnilateralContact.NormalError | Simbody/include/simbody/internal/ConditionalConstraint.h:553-556 | (also :481-484, :645-648) a plane contact's verr/aerr is the last (normal) equation of its primitive: the only one for the frictionless contact, component 2 for the friction contacts |
| UnilateralContacts.UnilateralContact.HasFriction | Simbody/include/simbody/internal/ConditionalConstraint.h:187 | (overridden at :569-570, :661-662) true for the point-plane and sphere-plane contacts only; FrictionIffTangentialEquations relates it to the primitives' equation counts |
| UnilateralContacts.UnilateralContact.GetSlipVelocity | Simbody/include/simbody/internal/ConditionalConstraint.h:572-575 | (also :201-202, :664-667) present iff the contact has friction; then (slip.x, slip.y, normal verr) are exactly the primitive's three velocity errors |
| UnilateralContacts.FrictionIffTangentialEquations | Simbody/include/simbody/internal/ConditionalConstraint.h:569-570 | (also :187, :661-662) exactly the point-plane and sphere-plane contacts have friction, which are those whose primitive has three equations; no hard stop has friction |
| UnilateralContacts.UnilateralContact.CalcEffectiveCOR | Simbody/include/simbody/internal/ConditionalConstraint.h:366-374 | (same in every variant) the COR is in [0,1], 0 at or below the default capture speed, and at least the contact's own minCOR above it |
| UnilateralContacts.UnilateralContact.CalcEffectiveCOF | Simbody/include/simbody/internal/ConditionalConstraint.h:577-583 | (also :196-199, :669-675) absent (the NaN sentinel) iff the contact has no friction; otherwise at least the contact's own mu_d |
| UnilateralContacts.ContactCORAtMinCORSpeed | Simbody/include/simbody/internal/ConditionalConstraint.h:366-374 | (same in every variant, e.g. :651-659) a contact hit at minCORSpeed, with the capture speed below it, rebounds with exactly its own minCOR |
| UnilateralContacts.FrictionContactRolling | Simbody/include/simbody/internal/ConditionalConstraint.h:577-583 | (also :669-675) while the slip speed is at most the transition speed, a friction contact's COF is its own mu_s + mu_v*slip |
| UnilateralContacts.FrictionContactSliding | Simbody/include/simbody/internal/ConditionalConstraint.h:577-583 | (also :669-675) above the transition speed, a friction contact's COF is its own mu_d + mu_v*slip |
| UnilateralContacts.FrictionContactDropAtTransition | Simbody/include/simbody/internal/ConditionalConstraint.h:577-583 | (also :669-675) past the transition speed a friction contact's COF drops by its own mu_s - mu_d, less the viscous gain mu_v*(slip - transition) |
| UnilateralContacts.UnilateralContact.GetFrictionMultiplierIndices | Simbody/include/simbody/internal/ConditionalConstraint.h:204-211 | without friction both handles are invalid; with friction they are what the primitive reports |
| PlacementOps.RealOpBaseNameInjective | MultibodyModeling/PlacementRep.h:127-153 | distinct Real operators have distinct base names |
| PlacementOps.Vec3OpBaseNameInjective | MultibodyModeling/PlacementRep.h:177-192 | distinct Vec3 operators have distinct base names |
| PlacementOps.StationOpBaseNameInjective | MultibodyModeling/PlacementRep.h:213-222 | distinct Station operators have distinct base names |
| PlacementOps.DirectionOpBaseNameInjective | MultibodyModeling/PlacementRep.h:256-264 | distinct Direction operators have distinct base names |
| PlacementOps.GetOpName | MultibodyModeling/PlacementRep.h:127-264 | the four name tables: every name has at least nine characters; OpNameIsBasePlusSuffix, OpNameTagsClass and OpNameInjective state its shape, class tag and injectivity |
| PlacementOps.OpNameIsBasePlusSuffix | MultibodyModeling/PlacementRep.h:152 | (also :191, :221, :263) every name is the base name (at least three characters) followed by the class suffix |
| PlacementOps.OpNameTagsClass | MultibodyModeling/PlacementRep.h:127-264 | the last six characters of a name identify which of the four operator classes produced it |
| PlacementOps.OpNameInjective | MultibodyModeling/PlacementRep.h:127-264 | distinct operators report distinct names, within a class and across classes |
| PlacementOps.RealOpNameExample | MultibodyModeling/PlacementRep.h:141-152 | the Real table names Add "add<Real>" |
| PlacementOps.Vec3OpNameExample | MultibodyModeling/PlacementRep.h:185-191 | the Vec3 table names StationDifference "stationSub<Vec3>" |
| PlacementOps.StationOpNameExample | MultibodyModeling/PlacementRep.h:216-221 | the Station table names RecastVec3 "recastVec3<Station>" |
| PlacementOps.DirectionOpNameExample | MultibodyModeling/PlacementRep.h:260-263 | the Direction table names Normalize "normalize<Direction>" |
| Placements.MakeFeatureReference | MultibodyModeling/PlacementRep.h:398-407 | a reference to f is indexed iff its index is not -1, and unindexed by default |
| Placements.IsConstant | MultibodyModeling/PlacementRep.h:1377-1382 | constancy of each kind: constants are (:604, :763), a feature reference never is (:413, :646-647), an expression when all its arguments are (:376), a frame when both parts are; ConstantIffNoFeature characterises it |
| Placements.DependsOn | MultibodyModeling/PlacementRep.h:413-417 | dependency of each kind: constants on nothing (:502), a feature reference on what its feature depends on, an expression or frame on what any part depends on (:379, :1380-1382); ConstantDependsOnNothing relates it to IsConstant |
| Placements.ConstantIffNoFeature | MultibodyModeling/PlacementRep.h:413 | a placement is constant exactly when no feature reference occurs anywhere in it, by structural induction |
| Placements.ConstantDependsOnNothing | MultibodyModeling/PlacementRep.h:497-502 | a constant placement depends on no feature (constants keep the default dependsOn, expressions combine their arguments) |
| Placements.FrameWithFeatureNotConstant | MultibodyModeling/PlacementRep.h:1377-1382 | a frame whose orientation or origin refers to a feature anywhere, however deeply nested, is never constant |
| Placements.PlacementRep.constructor | MultibodyModeling/PlacementRep.h:437 | a new representation has no handle, no owner, no value slot and index in owner -1 |
| Placements.PlacementRep.AssignValueSlot | MultibodyModeling/PlacementRep.h:440-441 | afterwards the representation has that value slot and is realizable, whatever its expression |
| Placements.RealizableOnlyWithSlot | MultibodyModeling/PlacementRep.h:455 | a placement that refers to a feature anywhere is realizable exactly when it has a value slot; one that refers to none is always realizable |
| Placements.PlacementRep.SetMyHandle | MultibodyModeling/PlacementRep.h:511-512 | afterwards the handle is the given placement |
| Placements.PlacementRep.SetOwner | MultibodyModeling/PlacementRep.h:516-519 | afterwards the representation has that owner and index in owner |
| Placements.PlacementRep.Copy | MultibodyModeling/PlacementRep.h:521-525 | the concrete clone (declared at :494) is a member-wise copy: kind, handle, owner, index in owner and value slot are copied verbatim |
| Placements.PlacementRep.CloneUnownedWithNewHandle | MultibodyModeling/PlacementRep.h:521-529 | the handle gets a fresh copy whose handle is that handle, with no owner and index -1; kind and value slot are copied, so realizability is unchanged |
| Placements.PlacementValueRep.constructor | MultibodyModeling/PlacementRep.h:1414 | a new entry is invalid, with no handle, no owner and index -1 |
| Placements.PlacementValueRep.WithValue | MultibodyModeling/PlacementRep.h:1455 | an entry built with a value holds it but is still invalid |
| Placements.PlacementValueRep.SetValid | MultibodyModeling/PlacementRep.h:1430-1431 | sets the valid flag and nothing else (the stored value is untouched) |
| Placements.PlacementValueRep.SetValue | MultibodyModeling/PlacementRep.h:1467-1468 | afterwards the entry holds v and is valid |
| Placements.PlacementValueRep.SetOwner | MultibodyModeling/PlacementRep.h:1438-1441 | afterwards the entry has that owner and index in owner |
| Placements.PlacementValueRep.SetMyHandle | MultibodyModeling/PlacementRep.h:1433-1434 | afterwards the handle is the given value handle |
| Placements.PlacementValueRep.Copy | MultibodyModeling/PlacementRep.h:1415 | (also :1460) the concrete clone is a bitwise copy: validity, value, handle, owner and index in owner are copied verbatim |
| Placements.PlacementValueRep.CloneUnownedWithNewHandle | MultibodyModeling/PlacementRep.h:1421-1428 | the handle gets a fresh copy owned by no feature, index -1, handle set, value and validity copied |
| Placements.ValueEntryLifecycle | MultibodyModeling/PlacementRep.h:1430-1468 | new entry invalid, setValue validates it with that value, setValid(false) invalidates it keeping the value |

## Left out

- Every variant's `getPerr`, the hard stops' `getVerr`/`getAerr`, and every variant's `whereToDisplay` and `getContactMultiplierIndex` are not part of this model. Neither are the variants' constructors. These are declared in the header but defined in implementation files. Position errors, the primitive's error components and its friction multiplier handles are inputs instead. The plane contacts' own `getVerr`/`getAerr` (:483-484, :555-556, :647-648) are modelled by `NormalError`.
- The variants' geometry (mobilized bodies, coordinate limits, plane frame and height, follower point, sphere radius) is not represented. It is only used by the left-out `getPerr` and `whereToDisplay`.
- The sign each variant's constructor fixes is a construction parameter. The doc comments say -1 for the upper stop and +1 for the lower stop.
- NormalError: hard stops are excluded, because their `getVerr`/`getAerr` bodies are not part of this model.
- GetFrictionMultiplierIndices: for the friction contacts it returns what the primitive reports. The doc comment at ConditionalConstraint.h:204-206 promises invalid handles while the contact is disabled, and the primitive's handles are distinct and valid while it is enabled. Neither promise is stated. The function takes no `State`, and the friction variants' bodies are in implementation files that are not part of this model.
- `getPositionInfo` and `setInstanceParameter` are not modelled. They are placeholder methods that return NaN or do nothing.
- `UnilateralSpeedConstraint` and `StateLimitedFriction` are not modelled. They have no behaviour beyond signatures. `BoundedSpeedConstraint::calcEffectiveBounds` is abstract, so the bounds are inputs to `BoundedSpeedConditionsHold`.
- Floating point is modelled as exact `real`: no rounding, no NaN propagation. NaN sentinels become `None`. The contact conditions are stated exactly, while the simulator enforces them only up to a tolerance.
- Enable and Disable require the contact's primitive to be registered in the state, that is, to have a disabled flag. This is an assumption of the model: the state's bookkeeping of constraint flags is not part of this model.
- From the placement layer, the following are not modelled: the `apply` stubs; `realize`; `checkArgs`; `toString`; the `generic*` and `castTo*` operators; `repairValueReference` and the feature-reference repair walks; `findAncestorFeature`; `isLimitedToSubtree`; the placement type tables; direction normalisation; the downcast macros. They depend on the feature tree and numeric types outside this model.
- Expression constancy and dependency follow the doc comments at MultibodyModeling/PlacementRep.h:376 and :379, because their definitions are outside this model.
- The "UNKNOWN OP" default of each name table cannot be reached with a well-formed operator kind, so it is not modelled. The Orientation and Frame name tables (a single `NoneYet` entry each) are not modelled either.
- Placements.PlacementRep.IsRealizable, HasValueSlot, HasHandle, HasOwner and GetIndexInOwner (MultibodyModeling/PlacementRep.h:441, :455, :512, :517-519), and Placements.PlacementValueRep.IsValid, GetValue, HasHandle, HasOwner and GetIndexInOwner (:1430, :1434, :1439-1441, :1467), are plain accessors with no contract of their own. Their meaning is stated by the contracts that use them: `RealizableOnlyWithSlot`, `AssignValueSlot`, `SetOwner`, `SetValid`, `SetValue`, `WithValue`, `ValueEntryLifecycle` and the `CloneUnownedWithNewHandle` pair. `getOwner`, `getMyHandle` and `updMyHandle` read the same fields and are not modelled separately.
- Value slots and owning features are opaque identities. The representation's handle and a value entry's handle are object references, as in the source.
