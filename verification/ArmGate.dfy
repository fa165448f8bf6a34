/** The host-side arm gate (pibot/arm/safety.py): range, homing and e-stop checks, then clamping. */
module ArmGate {
  import opened Wrappers
  import opened Bounds
  import opened Trajectory
  import Text

  datatype JointLimit = JointLimit(minDeg: real, maxDeg: real, maxDps: real)

  const SERVO_MIN: real := 0.0
  const SERVO_MAX: real := 180.0

  datatype Request =
    | JPos(joint: int, deg: real)
    | JMove(joint: int, deg: real, dps: real)
    | JVel(joint: int, dps: real)
    | JStop(joint: int)
    | Grip(deg: real)
    | Tool(on: bool)
    | Home(joint: int)

  function CheckJoint(limits: seq<JointLimit>, joint: int): Option<string> {
    if 0 <= joint < |limits| then None
    else Some("joint " + Text.Decimal(joint) + " out of range [0," + Text.Decimal(|limits|) + ")")
  }

  const LATCHED := "estop latched"

  function NotHomed(joint: int): string { "joint " + Text.Decimal(joint) + " not homed" }

  /** The range check comes first, then the latch. */
  function GuardMotion(limits: seq<JointLimit>, joint: int, estopped: bool): Option<string> {
    match CheckJoint(limits, joint)
    case Some(reason) => Some(reason)
    case None => if estopped then Some(LATCHED) else None
  }

  /** The verdict on a single-joint or end-effector request: the request as it may be sent. */
  function Check(limits: seq<JointLimit>, r: Request, estopped: bool, homed: set<int>): Result<Request, string> {
    match r
    case JPos(joint, deg) =>
      (match GuardMotion(limits, joint, estopped)
       case Some(reason) => Failure(reason)
       case None =>
         if joint !in homed then Failure(NotHomed(joint))
         else Success(JPos(joint, Bound(deg, limits[joint].minDeg, limits[joint].maxDeg))))
    case JMove(joint, deg, dps) =>
      (match GuardMotion(limits, joint, estopped)
       case Some(reason) => Failure(reason)
       case None =>
         if joint !in homed then Failure(NotHomed(joint))
         else Success(JMove(joint, Bound(deg, limits[joint].minDeg, limits[joint].maxDeg),
                            Bound(dps, 0.0, limits[joint].maxDps))))
    case JVel(joint, dps) =>
      (match GuardMotion(limits, joint, estopped)
       case Some(reason) => Failure(reason)
       case None => Success(JVel(joint, Bound(dps, -limits[joint].maxDps, limits[joint].maxDps))))
    case JStop(joint) =>
      (match CheckJoint(limits, joint)
       case Some(reason) => Failure(reason)
       case None => Success(r))
    case Grip(deg) => if estopped then Failure(LATCHED) else Success(Grip(Bound(deg, SERVO_MIN, SERVO_MAX)))
    case Tool(on) => if estopped then Failure(LATCHED) else Success(r)
    case Home(joint) =>
      (match GuardMotion(limits, joint, estopped)
       case Some(reason) => Failure(reason)
       case None => Success(r))
  }

  predicate Sane(limits: seq<JointLimit>) {
    forall l :: l in limits ==> l.minDeg <= l.maxDeg && l.maxDps >= 0.0
  }

  predicate Safe(limits: seq<JointLimit>, r: Request) {
    match r
    case JPos(joint, deg) => 0 <= joint < |limits| && limits[joint].minDeg <= deg <= limits[joint].maxDeg
    case JMove(joint, deg, dps) =>
      && 0 <= joint < |limits| && limits[joint].minDeg <= deg <= limits[joint].maxDeg
      && 0.0 <= dps <= limits[joint].maxDps
    case JVel(joint, dps) => 0 <= joint < |limits| && -limits[joint].maxDps <= dps <= limits[joint].maxDps
    case JStop(joint) => 0 <= joint < |limits|
    case Grip(deg) => SERVO_MIN <= deg <= SERVO_MAX
    case Tool(on) => true
    case Home(joint) => 0 <= joint < |limits|
  }

  /** Each number goes to the nearest value of its range; joint and kind of request stay. */
  predicate Adjusted(limits: seq<JointLimit>, r: Request, v: Request) {
    match r
    case JPos(j, deg) =>
      v.JPos? && v.joint == j && 0 <= j < |limits| && Nearest(deg, limits[j].minDeg, limits[j].maxDeg, v.deg)
    case JMove(j, deg, dps) =>
      && v.JMove? && v.joint == j && 0 <= j < |limits|
      && Nearest(deg, limits[j].minDeg, limits[j].maxDeg, v.deg) && Nearest(dps, 0.0, limits[j].maxDps, v.dps)
    case JVel(j, dps) =>
      v.JVel? && v.joint == j && 0 <= j < |limits| && Nearest(dps, -limits[j].maxDps, limits[j].maxDps, v.dps)
    case Grip(deg) => v.Grip? && Nearest(deg, 0.0, 180.0, v.deg)
    case _ => v == r
  }

  /** The joint exists, and nothing is latched unless it is a stop; absolute moves need a homed joint. */
  predicate Admissible(limits: seq<JointLimit>, r: Request, estopped: bool, homed: set<int>) {
    match r
    case JPos(j, _) => 0 <= j < |limits| && !estopped && j in homed
    case JMove(j, _, _) => 0 <= j < |limits| && !estopped && j in homed
    case JVel(j, _) => 0 <= j < |limits| && !estopped
    case JStop(j) => 0 <= j < |limits|
    case Home(j) => 0 <= j < |limits| && !estopped
    case _ => !estopped
  }

  /** While the latch is set, only stopping a joint gets through; whatever gets through addresses a
      configured joint, within its limits, and absolute moves only homed joints. A request that was
      already safe passes unchanged. */
  lemma GateIsSafe(limits: seq<JointLimit>, r: Request, estopped: bool, homed: set<int>)
    requires Sane(limits)
    ensures var v := Check(limits, r, estopped, homed);
            && (v.Success? ==> Safe(limits, v.value))
            && (v.Success? && estopped ==> r.JStop?)
            && (v.Success? && (r.JPos? || r.JMove?) ==> r.joint in homed)
            && (v.Success? && Safe(limits, r) ==> v.value == r)
            && (v.Success? ==> Adjusted(limits, r, v.value))
            && (v.Success? <==> Admissible(limits, r, estopped, homed))
  {
    match r
    case JPos(joint, deg) => if 0 <= joint < |limits| { assert limits[joint] in limits; }
    case JMove(joint, deg, dps) => if 0 <= joint < |limits| { assert limits[joint] in limits; }
    case JVel(joint, dps) => if 0 <= joint < |limits| { assert limits[joint] in limits; }
    case _ =>
  }

  // ----- synchronized moves -----

  /** Why a joint may not take part, checked in this order. */
  function Problem(limits: seq<JointLimit>, joint: int, current: Angles, homed: set<int>): Option<string> {
    match CheckJoint(limits, joint)
    case Some(reason) => Some(reason)
    case None =>
      if joint !in homed then Some(NotHomed(joint))
      else if joint !in current.deg then Some("no telemetry for joint " + Text.Decimal(joint))
      else None
  }

  function Clamped(limits: seq<JointLimit>, joint: int, deg: real): real {
    if 0 <= joint < |limits| then Bound(deg, limits[joint].minDeg, limits[joint].maxDeg) else deg
  }

  /** The problem of the first joint that has one, in the order of the request. */
  function FirstProblem(limits: seq<JointLimit>, order: seq<int>, current: Angles, homed: set<int>): Option<string> {
    if |order| == 0 then None
    else
      match FirstProblem(limits, order[..|order| - 1], current, homed)
      case Some(reason) => Some(reason)
      case None => Problem(limits, order[|order| - 1], current, homed)
  }

  function ClampAll(limits: seq<JointLimit>, targets: Angles): Angles {
    Angles(targets.order, map j | j in targets.deg :: Clamped(limits, j, targets.deg[j]))
  }

  /** The verdict on a synchronized move: the clamped targets, or the reason for refusing. */
  function Gated(limits: seq<JointLimit>, targets: Angles, current: Angles, seconds: real, estopped: bool,
                 homed: set<int>): Result<Angles, string> {
    if estopped then Failure(LATCHED)
    else if seconds <= 0.0 then Failure("seconds must be positive")
    else
      match FirstProblem(limits, targets.order, current, homed)
      case Some(reason) => Failure(reason)
      case None => Success(ClampAll(limits, targets))
  }

  method Move(limits: seq<JointLimit>, targets: Angles, current: Angles, seconds: real, estopped: bool,
              homed: set<int>)
    returns (r: Result<Angles, string>)
    ensures r == Gated(limits, targets, current, seconds, estopped, homed)
  {
    if estopped {
      return Failure(LATCHED);
    }
    if seconds <= 0.0 {
      return Failure("seconds must be positive");
    }
    var clamped: map<int, real> := map[];
    var order := targets.order;
    for i := 0 to |order|
      invariant FirstProblem(limits, order[..i], current, homed).None?
      invariant forall j :: j in clamped <==> j in order[..i]
      invariant forall j :: j in clamped ==> j in targets.deg && clamped[j] == Clamped(limits, j, targets.deg[j])
    {
      var joint := order[i];
      assert joint in order && order[..i + 1] == order[..i] + [joint];
      var problem := Problem(limits, joint, current, homed);
      NextProblem(limits, order, current, homed, i);
      if problem.Some? {
        ProblemStays(limits, order, current, homed, i + 1);
        return Failure(problem.value);
      }
      clamped := clamped[joint := Clamped(limits, joint, targets.deg[joint])];
    }
    assert order[..|order|] == order;
    AllClamped(limits, targets, clamped);
    r := Success(Angles(order, clamped));
  }

  lemma AllClamped(limits: seq<JointLimit>, targets: Angles, clamped: map<int, real>)
    requires forall j :: j in clamped <==> j in targets.order
    requires forall j :: j in clamped ==> j in targets.deg && clamped[j] == Clamped(limits, j, targets.deg[j])
    ensures clamped == ClampAll(limits, targets).deg
  {
    forall j
      ensures j in clamped <==> j in targets.deg
    {
      assert j in targets.order <==> j in targets.deg;
    }
  }

  lemma NextProblem(limits: seq<JointLimit>, order: seq<int>, current: Angles, homed: set<int>, i: nat)
    requires i < |order| && FirstProblem(limits, order[..i], current, homed).None?
    ensures FirstProblem(limits, order[..i + 1], current, homed) == Problem(limits, order[i], current, homed)
  {
    assert order[..i + 1][..i] == order[..i];
  }

  lemma {:induction false} ProblemStays(
    limits: seq<JointLimit>, order: seq<int>, current: Angles, homed: set<int>, i: nat)
    requires i <= |order| && FirstProblem(limits, order[..i], current, homed).Some?
    ensures FirstProblem(limits, order, current, homed) == FirstProblem(limits, order[..i], current, homed)
    decreases |order|
  {
    if i < |order| {
      assert order[..|order| - 1][..i] == order[..i];
      ProblemStays(limits, order[..|order| - 1], current, homed, i);
    } else {
      assert order[..i] == order;
    }
  }

  lemma {:induction false} NoProblemIff(limits: seq<JointLimit>, order: seq<int>, current: Angles, homed: set<int>)
    ensures FirstProblem(limits, order, current, homed).None?
       <==> forall j :: j in order ==> Problem(limits, j, current, homed).None?
  {
    if |order| == 0 {
    } else {
      NoProblemIff(limits, order[..|order| - 1], current, homed);
      assert order == order[..|order| - 1] + [order[|order| - 1]];
    }
  }

  /** A synchronized move is accepted exactly when nothing is latched, the time is positive and every
      joint is configured, homed and has telemetry; then every target is inside its joint's limits. */
  lemma MoveIsSafe(limits: seq<JointLimit>, targets: Angles, current: Angles, seconds: real, estopped: bool,
                   homed: set<int>)
    requires Sane(limits)
    ensures var r := Gated(limits, targets, current, seconds, estopped, homed);
            && (r.Success? <==>
                  && !estopped && seconds > 0.0
                  && forall j :: j in targets.deg ==> 0 <= j < |limits| && j in homed && j in current.deg)
            && (r.Success? ==>
                  r.value.deg.Keys == targets.deg.Keys
                  && r.value.order == targets.order
                  && forall j :: j in targets.deg ==>
                       && limits[j].minDeg <= r.value.deg[j] <= limits[j].maxDeg
                       && Nearest(targets.deg[j], limits[j].minDeg, limits[j].maxDeg, r.value.deg[j]))
  {
    NoProblemIff(limits, targets.order, current, homed);
    var r := Gated(limits, targets, current, seconds, estopped, homed);
    if r.Success? {
      forall j | j in targets.deg
        ensures 0 <= j < |limits| && j in homed && j in current.deg
        ensures limits[j].minDeg <= r.value.deg[j] <= limits[j].maxDeg
        ensures Nearest(targets.deg[j], limits[j].minDeg, limits[j].maxDeg, r.value.deg[j])
      {
        assert j in targets.order;
        assert Problem(limits, j, current, homed).None?;
        assert limits[j] in limits;
      }
    }
  }
}
