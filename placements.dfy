/** The bookkeeping of placement representations: every placement
    representation knows the handle it belongs to, the feature (if any) that
    owns it and its position in that owner's list, and the cache slot (if
    any) that holds its value. Whether it can be realized depends on that
    slot and on whether its expression is constant. */
module Placements {
  import opened Wrappers

  /** Identity of a feature in the feature tree. */
  type FeatureId = nat
  /** Identity of a value cache entry. */
  type SlotId = nat
  /** The features' own dependency relation: whether the first feature
      depends on the second. */
  type FeatureDependency = (FeatureId, FeatureId) -> bool

  /** A reference to (an element of) the placement of some feature; index -1
      means the whole placement. */
  datatype FeatureReference = FeatureReference(feature: FeatureId, index: int)
  {
    predicate IsIndexed() { index != -1 }
  }

  /** A reference to feature f, unindexed unless an index is given. */
  function MakeFeatureReference(f: FeatureId, index: int := -1): (r: FeatureReference)
    ensures r.feature == f
    ensures r.IsIndexed() <==> index != -1
  {
    FeatureReference(f, index)
  }

  /** The concrete kinds of placement representation, as far as constancy
      and dependency are concerned. */
  datatype PlacementKind =
      /** A literal value (Real, Vec3, Station, Direction, Orientation). */
    | ConstantRep
      /** The value of a feature's placement. */
    | FeatureRep(ref: FeatureReference)
      /** An operator applied to argument placements. */
    | ExprRep(args: seq<PlacementKind>)
      /** A frame built from an orientation and an origin station. */
    | FrameExprRep(orientation: PlacementKind, origin: PlacementKind)

  /** Whether the placement's value is known without consulting any
      feature: constants are, feature references are never counted on to
      be, expressions are when all their arguments are, frame expressions
      when both parts are. */
  predicate IsConstant(k: PlacementKind) {
    match k
    case ConstantRep => true
    case FeatureRep(_) => false
    case ExprRep(args) => forall a <- args :: IsConstant(a)
    case FrameExprRep(o, s) => IsConstant(o) && IsConstant(s)
  }

  /** Whether the placement depends on feature f, given the features'
      own dependency relation: constants depend on nothing, a feature
      reference on what its feature depends on, an expression on what any
      argument depends on, a frame on what either part depends on. */
  predicate DependsOn(k: PlacementKind, f: FeatureId, featureDependsOn: FeatureDependency) {
    match k
    case ConstantRep => false
    case FeatureRep(r) => featureDependsOn(r.feature, f)
    case ExprRep(args) => exists a <- args :: DependsOn(a, f, featureDependsOn)
    case FrameExprRep(o, s) => DependsOn(o, f, featureDependsOn) || DependsOn(s, f, featureDependsOn)
  }

  /** A constant placement depends on no feature at all. */
  lemma {:induction false} ConstantDependsOnNothing(k: PlacementKind, f: FeatureId,
                                                    featureDependsOn: FeatureDependency)
    requires IsConstant(k)
    ensures !DependsOn(k, f, featureDependsOn)
  {
    match k
    case ConstantRep =>
    case FeatureRep(_) =>
    case ExprRep(args) =>
      forall a | a in args
        ensures !DependsOn(a, f, featureDependsOn)
      {
        ConstantDependsOnNothing(a, f, featureDependsOn);
      }
    case FrameExprRep(o, s) =>
      ConstantDependsOnNothing(o, f, featureDependsOn);
      ConstantDependsOnNothing(s, f, featureDependsOn);
  }

  /** Whether a feature reference occurs anywhere in the placement, however
      deeply nested in expression arguments or frame parts. */
  predicate MentionsFeature(k: PlacementKind) {
    match k
    case ConstantRep => false
    case FeatureRep(_) => true
    case ExprRep(args) => exists a <- args :: MentionsFeature(a)
    case FrameExprRep(o, s) => MentionsFeature(o) || MentionsFeature(s)
  }

  /** A placement counts as constant exactly when no feature reference
      occurs in it: a single reference anywhere makes the whole expression
      non-constant, because a reference is never counted on to be constant. */
  lemma {:induction false} ConstantIffNoFeature(k: PlacementKind)
    ensures IsConstant(k) <==> !MentionsFeature(k)
  {
    match k
    case ConstantRep =>
    case FeatureRep(_) =>
    case ExprRep(args) =>
      forall a | a in args
        ensures IsConstant(a) <==> !MentionsFeature(a)
      {
        ConstantIffNoFeature(a);
      }
    case FrameExprRep(o, s) =>
      ConstantIffNoFeature(o);
      ConstantIffNoFeature(s);
  }

  /** A frame whose orientation or origin refers to a feature anywhere is
      never constant. */
  lemma {:induction false} FrameWithFeatureNotConstant(o: PlacementKind, s: PlacementKind)
    requires MentionsFeature(o) || MentionsFeature(s)
    ensures !IsConstant(FrameExprRep(o, s))
  {
    ConstantIffNoFeature(o);
    ConstantIffNoFeature(s);
  }

  /** The handle object through which clients see a placement; it owns its
      representation. */
  class Placement {
    var rep: PlacementRep?

    constructor ()
      ensures rep == null
    {
      rep := null;
    }
  }

  class PlacementRep {
    var myHandle: Placement?
    var owner: Option<FeatureId>
    var indexInOwner: int
    var valueSlot: Option<SlotId>
    const kind: PlacementKind

    /** A fresh representation: no handle, no owner, no value slot. */
    constructor (kind: PlacementKind)
      ensures this.kind == kind
      ensures myHandle == null && owner == None && indexInOwner == -1 && valueSlot == None
    {
      this.kind := kind;
      myHandle := null;
      owner := None;
      indexInOwner := -1;
      valueSlot := None;
    }

    /** A field-by-field copy of other (the copy keeps every reference
        verbatim). */
    constructor Copy(other: PlacementRep)
      ensures kind == other.kind && myHandle == other.myHandle && owner == other.owner
      ensures indexInOwner == other.indexInOwner && valueSlot == other.valueSlot
    {
      kind := other.kind;
      myHandle := other.myHandle;
      owner := other.owner;
      indexInOwner := other.indexInOwner;
      valueSlot := other.valueSlot;
    }

    method AssignValueSlot(slot: SlotId)
      modifies this`valueSlot
      ensures valueSlot == Some(slot) && HasValueSlot()
      ensures IsRealizable()
    {
      valueSlot := Some(slot);
    }

    predicate HasValueSlot()
      reads this`valueSlot
    {
      valueSlot.Some?
    }

    /** A placement can be realized when it has somewhere to put its value or
        does not need one: constants always can, anything else only once a
        value slot is assigned. */
    predicate IsRealizable()
      reads this`valueSlot
    {
      HasValueSlot() || IsConstant(kind)
    }

    method SetMyHandle(p: Placement)
      modifies this`myHandle
      ensures myHandle == p
    {
      myHandle := p;
    }

    predicate HasHandle()
      reads this`myHandle
    {
      myHandle != null
    }

    method SetOwner(f: FeatureId, index: int)
      modifies this`owner, this`indexInOwner
      ensures HasOwner() && owner == Some(f) && GetIndexInOwner() == index
    {
      owner := Some(f);
      indexInOwner := index;
    }

    predicate HasOwner()
      reads this`owner
    {
      owner.Some?
    }

    function GetIndexInOwner(): int
      reads this`owner, this`indexInOwner
      requires HasOwner()
    {
      indexInOwner
    }

    /** Install in handle p a copy of this representation that belongs to p
        and to no feature; everything else, the value slot included, is
        copied unchanged. */
    method CloneUnownedWithNewHandle(p: Placement)
      modifies p
      ensures p.rep != null && fresh(p.rep)
      ensures p.rep.myHandle == p && p.rep.owner == None && p.rep.indexInOwner == -1
      ensures p.rep.kind == kind && p.rep.valueSlot == valueSlot
      ensures p.rep.IsRealizable() == IsRealizable()
    {
      var pr := new PlacementRep.Copy(this);
      pr.myHandle := p;
      pr.owner := None;
      pr.indexInOwner := -1;
      p.rep := pr;
    }
  }

  /** The handle object through which clients see a cached placement
      value. */
  class PlacementValue<T(0)> {
    var rep: PlacementValueRep?<T>

    constructor ()
      ensures rep == null
    {
      rep := null;
    }
  }

  /** A cache entry for a placement's value, with a flag saying whether the
      stored value is meaningful. */
  class PlacementValueRep<T(0)> {
    var valid: bool
    var myHandle: PlacementValue?<T>
    var owner: Option<FeatureId>
    var indexInOwner: int
    var value: T

    /** An invalid entry holding a default value. */
    constructor ()
      ensures !valid && myHandle == null && owner == None && indexInOwner == -1
    {
      valid := false;
      myHandle := null;
      owner := None;
      indexInOwner := -1;
    }

    /** An entry holding v, but still marked invalid. */
    constructor WithValue(v: T)
      ensures !valid && value == v
      ensures myHandle == null && owner == None && indexInOwner == -1
    {
      valid := false;
      myHandle := null;
      owner := None;
      indexInOwner := -1;
      value := v;
    }

    /** A field-by-field copy of other. */
    constructor Copy(other: PlacementValueRep<T>)
      ensures valid == other.valid && value == other.value && myHandle == other.myHandle
      ensures owner == other.owner && indexInOwner == other.indexInOwner
    {
      valid := other.valid;
      myHandle := other.myHandle;
      owner := other.owner;
      indexInOwner := other.indexInOwner;
      value := other.value;
    }

    predicate IsValid()
      reads this`valid
    {
      valid
    }

    /** Mark the stored value meaningful or not, without touching it. */
    method SetValid(v: bool)
      modifies this`valid
      ensures IsValid() == v
    {
      valid := v;
    }

    function GetValue(): T
      reads this`value
    {
      value
    }

    /** Store v and mark it meaningful. */
    method SetValue(v: T)
      modifies this`value, this`valid
      ensures GetValue() == v && IsValid()
    {
      value := v;
      SetValid(true);
    }

    method SetMyHandle(p: PlacementValue<T>)
      modifies this`myHandle
      ensures myHandle == p
    {
      myHandle := p;
    }

    predicate HasHandle()
      reads this`myHandle
    {
      myHandle != null
    }

    method SetOwner(f: FeatureId, index: int)
      modifies this`owner, this`indexInOwner
      ensures HasOwner() && owner == Some(f) && GetIndexInOwner() == index
    {
      owner := Some(f);
      indexInOwner := index;
    }

    predicate HasOwner()
      reads this`owner
    {
      owner.Some?
    }

    function GetIndexInOwner(): int
      reads this`owner, this`indexInOwner
      requires HasOwner()
    {
      indexInOwner
    }

    /** Install in handle p a copy of this entry that belongs to p and to no
        feature; its value and validity are copied unchanged. */
    method CloneUnownedWithNewHandle(p: PlacementValue<T>)
      modifies p
      ensures p.rep != null && fresh(p.rep)
      ensures p.rep.myHandle == p && p.rep.owner == None && p.rep.indexInOwner == -1
      ensures p.rep.value == value && p.rep.valid == valid
    {
      var pr := new PlacementValueRep.Copy(this);
      pr.myHandle := p;
      pr.owner := None;
      pr.indexInOwner := -1;
      p.rep := pr;
    }
  }

  /** A placement that refers to a feature anywhere can be realized only
      once it has a value slot; one that refers to none always can. */
  lemma RealizableOnlyWithSlot(r: PlacementRep)
    ensures MentionsFeature(r.kind) ==> (r.IsRealizable() <==> r.HasValueSlot())
    ensures !MentionsFeature(r.kind) ==> r.IsRealizable()
  {
    ConstantIffNoFeature(r.kind);
  }

  /** The life of a cache entry: new entries are invalid, storing a value
      validates it, and invalidating keeps the stored value. */
  method ValueEntryLifecycle<T(0)>(v: T) returns (entry: PlacementValueRep<T>)
    ensures fresh(entry)
    ensures !entry.IsValid() && entry.GetValue() == v
  {
    entry := new PlacementValueRep();
    assert !entry.IsValid();
    entry.SetValue(v);
    assert entry.IsValid() && entry.GetValue() == v;
    entry.SetValid(false);
  }
}
