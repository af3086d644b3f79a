/** The operators that build placement expressions, and the names they
    report: the operator's base name followed by the result class in angle
    brackets, such as "add<Real>" or "normalize<Direction>". */
module PlacementOps {

  datatype RealOpKind =
    | Negate | Abs | Sqrt | Exp | Log | Sin | Cos | Asin | Acos | VectorLength  // unary
    | Add | Subtract | Multiply | Divide | DotProduct2 | DotProduct3           // binary
    | PointDistance | AngleBetweenVectors

  datatype Vec3OpKind =
    | RecastStation | RecastDirection | Negate                                // unary
    | Add | Subtract | StationDifference                                       // binary
    | ScalarMultiply | ScalarDivide | CrossProduct

  datatype StationOpKind = RecastVec3 | Add | Subtract

  datatype DirectionOpKind = Negate | Normalize

  /** An operator together with the class of result it produces. */
  datatype PlacementOp =
    | RealOps(realKind: RealOpKind)
    | Vec3Ops(vec3Kind: Vec3OpKind)
    | StationOps(stationKind: StationOpKind)
    | DirectionOps(directionKind: DirectionOpKind)

  function RealOpBaseName(k: RealOpKind): string {
    match k
    case Negate => "negate"
    case Abs => "abs"
    case Sqrt => "sqrt"
    case Exp => "exp"
    case Log => "log"
    case Sin => "sin"
    case Cos => "cos"
    case Asin => "asin"
    case Acos => "acos"
    case VectorLength => "length"
    case Add => "add"
    case Subtract => "sub"
    case Multiply => "mul"
    case Divide => "dvd"
    case DotProduct3 => "dot3"
    case DotProduct2 => "dot2"
    case PointDistance => "distance"
    case AngleBetweenVectors => "angle"
  }

  function Vec3OpBaseName(k: Vec3OpKind): string {
    match k
    case RecastStation => "recastStation"
    case RecastDirection => "recastDirection"
    case Negate => "negate"
    case Add => "add"
    case Subtract => "sub"
    case StationDifference => "stationSub"
    case ScalarMultiply => "scalarMul"
    case ScalarDivide => "scalarDvd"
    case CrossProduct => "cross"
  }

  function StationOpBaseName(k: StationOpKind): string {
    match k
    case RecastVec3 => "recastVec3"
    case Add => "add"
    case Subtract => "sub"
  }

  function DirectionOpBaseName(k: DirectionOpKind): string {
    match k
    case Negate => "negate"
    case Normalize => "normalize"
  }

  /** The operator's name without its class suffix. */
  function BaseName(op: PlacementOp): string {
    match op
    case RealOps(k) => RealOpBaseName(k)
    case Vec3Ops(k) => Vec3OpBaseName(k)
    case StationOps(k) => StationOpBaseName(k)
    case DirectionOps(k) => DirectionOpBaseName(k)
  }

  /** The class suffix: the result type in angle brackets. */
  function ClassSuffix(op: PlacementOp): string {
    match op
    case RealOps(_) => "<Real>"
    case Vec3Ops(_) => "<Vec3>"
    case StationOps(_) => "<Station>"
    case DirectionOps(_) => "<Direction>"
  }

  /** The name an operator reports. */
  function GetOpName(op: PlacementOp): (name: string)
    ensures |name| >= 9
  {
    match op
    case RealOps(k) => RealOpBaseName(k) + "<Real>"
    case Vec3Ops(k) => Vec3OpBaseName(k) + "<Vec3>"
    case StationOps(k) => StationOpBaseName(k) + "<Station>"
    case DirectionOps(k) => DirectionOpBaseName(k) + "<Direction>"
  }

  /** The last six characters of a name; enough to tell the four result
      classes apart ("<Real>", "<Vec3>", "ation>", "ction>"). */
  function ClassTag(name: string): string
    requires |name| >= 6
  {
    name[|name| - 6..]
  }

  /** Every name is the operator's base name followed by its class suffix,
      and the base name is never empty. */
  lemma OpNameIsBasePlusSuffix(op: PlacementOp)
    ensures GetOpName(op) == BaseName(op) + ClassSuffix(op)
    ensures |BaseName(op)| >= 3
  {
  }

  /** The class of an operator can be read off the end of its name. */
  lemma {:induction false} OpNameTagsClass(op: PlacementOp)
    ensures ClassTag(GetOpName(op)) == ClassTag(ClassSuffix(op))
    ensures op.RealOps? <==> ClassTag(GetOpName(op)) == "<Real>"
    ensures op.Vec3Ops? <==> ClassTag(GetOpName(op)) == "<Vec3>"
    ensures op.StationOps? <==> ClassTag(GetOpName(op)) == "ation>"
    ensures op.DirectionOps? <==> ClassTag(GetOpName(op)) == "ction>"
  {
    OpNameIsBasePlusSuffix(op);
    var b, s := BaseName(op), ClassSuffix(op);
    SuffixOfConcat(b, s, 6);
  }

  /** The last n characters of b + s are those of s, when s has at least n. */
  lemma SuffixOfConcat(b: string, s: string, n: nat)
    requires n <= |s|
    ensures (b + s)[|b + s| - n..] == s[|s| - n..]
  {
    assert (b + s)[|b|..] == s;
  }

  /** Cancelling a common suffix. */
  lemma CancelSuffix(b1: string, b2: string, s: string)
    requires b1 + s == b2 + s
    ensures b1 == b2
  {
    assert |b1| == |b2|;
    assert b1 == (b1 + s)[..|b1|];
    assert b2 == (b2 + s)[..|b2|];
  }

  lemma RealOpBaseNameInjective(a: RealOpKind, b: RealOpKind)
    ensures RealOpBaseName(a) == RealOpBaseName(b) ==> a == b
  {
  }

  lemma Vec3OpBaseNameInjective(a: Vec3OpKind, b: Vec3OpKind)
    ensures Vec3OpBaseName(a) == Vec3OpBaseName(b) ==> a == b
  {
  }

  lemma StationOpBaseNameInjective(a: StationOpKind, b: StationOpKind)
    ensures StationOpBaseName(a) == StationOpBaseName(b) ==> a == b
  {
  }

  lemma DirectionOpBaseNameInjective(a: DirectionOpKind, b: DirectionOpKind)
    ensures DirectionOpBaseName(a) == DirectionOpBaseName(b) ==> a == b
  {
  }

  /** Distinct operators report distinct names, within a result class and
      across classes. */
  lemma {:induction false} OpNameInjective(a: PlacementOp, b: PlacementOp)
    ensures GetOpName(a) == GetOpName(b) ==> a == b
  {
    if GetOpName(a) == GetOpName(b) {
      OpNameTagsClass(a);
      OpNameTagsClass(b);
      OpNameIsBasePlusSuffix(a);
      OpNameIsBasePlusSuffix(b);
      CancelSuffix(BaseName(a), BaseName(b), ClassSuffix(a));
      match a
      case RealOps(k) => RealOpBaseNameInjective(k, b.realKind);
      case Vec3Ops(k) => Vec3OpBaseNameInjective(k, b.vec3Kind);
      case StationOps(k) => StationOpBaseNameInjective(k, b.stationKind);
      case DirectionOps(k) => DirectionOpBaseNameInjective(k, b.directionKind);
    }
  }

  /** A worked name from the Real table. */
  lemma RealOpNameExample()
    ensures GetOpName(RealOps(RealOpKind.Add)) == "add<Real>"
  {
  }

  /** A worked name from the Vec3 table. */
  lemma Vec3OpNameExample()
    ensures GetOpName(Vec3Ops(Vec3OpKind.StationDifference)) == "stationSub<Vec3>"
  {
  }

  /** A worked name from the Station table. */
  lemma StationOpNameExample()
    ensures GetOpName(StationOps(StationOpKind.RecastVec3)) == "recastVec3<Station>"
  {
  }

  /** A worked name from the Direction table. */
  lemma DirectionOpNameExample()
    ensures GetOpName(DirectionOps(DirectionOpKind.Normalize)) == "normalize<Direction>"
  {
  }
}
