/** The abortable program runner and the events that interleave with it (agent/app.py).

    Events may fall wherever a coroutine awaits, before each segment of the worker thread that plays a
    trajectory, and between any two program steps. A run request is taken as one step. */
module ProgramRunner {
  import opened Wrappers
  import opened Programs
  import opened Trajectory
  import opened Bounds
  import Manager = ArmManager
  import ArmGate

  /** A recorded pose; `cartesian` is whether it has a Cartesian target. */
  datatype Pose = Pose(joints: Angles, cartesian: bool)

  /** What does not change while programs run. `solve` stands for the Cartesian interpolation. */
  datatype Setup = Setup(
    limits: seq<ArmGate.JointLimit>,
    joints: seq<Manager.JointRef>,
    poses: map<string, Pose>,
    solve: (Pose, Angles, real) -> Option<seq<Frame>>)

  const RATE: real := 20.0
  const ACCEL: real := 0.25
  const WAIT_TICK: real := 0.05

  datatype RunState = NotRun | Running | Stopped | Completed | Failed

  datatype Status = Status(state: RunState, current: nat, total: nat)

  /** Where the runner is: between runs, reading the poses, about to look at step `idx` (counted from
      one), or inside a step. */
  datatype Phase =
    | Idle
    | Loading
    | Top(idx: nat)
    | Solving(idx: nat, pose: Pose, seconds: real)
    | Playing(idx: nat, frames: seq<Frame>, segment: nat, goal: Angles)
    | Waiting(idx: nat, remaining: real)
    | Sending(idx: nat)

  /** What the runner has set in motion. A segment is given `dt` seconds, which the playback then sleeps. */
  datatype Start =
    | RunStart
    | StepStart(idx: nat)
    | SegmentStart(idx: nat, segment: nat, dt: real, motions: seq<Manager.Motion>)
    | GripStart(deg: real)
    | ToolStart(on: bool)

  datatype State = State(
    estopped: bool, abort: bool, homed: set<int>, positions: Angles,
    phase: Phase, steps: seq<ProgramStep>, status: Status, starts: seq<Start>)

  datatype Event =
    | Estop
    | ClearEstop
    | StopRequest
    | RunRequest(program: Option<Program>)
    | Tick
    | Drained(positions: Angles)
    | Homed(joint: int)

  predicate Aborted(s: State) { s.abort || s.estopped }

  /** dict.update */
  function Merge(a: Angles, b: Angles): Angles {
    var order := a.order + NewKeys(a, b.order);
    MergeIsOk(a, b);
    Angles(order, a.deg + b.deg)
  }

  function NewKeys(a: Angles, order: seq<int>): seq<int> {
    if |order| == 0 then []
    else (if order[0] in a.deg then [] else [order[0]]) + NewKeys(a, order[1..])
  }

  lemma {:induction false} NewKeysExact(a: Angles, order: seq<int>)
    ensures forall j :: j in NewKeys(a, order) <==> j in order && j !in a.deg
  {
    if |order| == 0 {
    } else {
      NewKeysExact(a, order[1..]);
      assert order == [order[0]] + order[1..];
    }
  }

  lemma {:induction false} NewKeysDistinct(a: Angles, order: seq<int>)
    requires forall i, k :: 0 <= i < k < |order| ==> order[i] != order[k]
    ensures forall i, k :: 0 <= i < k < |NewKeys(a, order)| ==> NewKeys(a, order)[i] != NewKeys(a, order)[k]
  {
    if |order| == 0 {
    } else {
      var rest := order[1..];
      NewKeysDistinct(a, rest);
      NewKeysExact(a, rest);
      assert order[0] !in rest;
    }
  }

  lemma MergeIsOk(a: Angles, b: Angles)
    ensures Angles_.Angles(a.order + NewKeys(a, b.order), a.deg + b.deg).Ok()
  {
    NewKeysExact(a, b.order);
    NewKeysDistinct(a, b.order);
    var order, added := a.order + NewKeys(a, b.order), NewKeys(a, b.order);
    forall i, k | 0 <= i < k < |order|
      ensures order[i] != order[k]
    {
      if i < |a.order| <= k {
        assert order[k] in added && order[i] in a.order;
      } else if |a.order| <= i {
        assert added[i - |a.order|] != added[k - |a.order|];
      }
    }
    forall j
      ensures j in order <==> j in a.deg + b.deg
    {
      assert j in order <==> j in a.order || j in added;
    }
  }

  // ----- the runner's steps -----

  function Finish(s: State, status: Status): State { s.(phase := Idle, abort := false, status := status) }

  function Fail(s: State): State { Finish(s, s.status.(state := Failed)) }

  function Next(s: State, idx: nat): State { s.(phase := Top(idx + 1)) }

  function Began(s: State, start: Start): State { s.(starts := s.starts + [start]) }

  function BeginMoveJ(u: Setup, s: State, idx: nat, pose: Pose, seconds: real): State {
    match ArmGate.Gated(u.limits, pose.joints, s.positions, seconds, s.estopped, s.homed)
    case Failure(_) => Fail(s)
    case Success(targets) =>
      if s.positions.deg.Keys != targets.deg.Keys || seconds <= 0.0 then Fail(s)
      else s.(phase := Playing(idx, Ramp(s.positions, targets, seconds, RATE, ACCEL), 1, targets))
  }

  function BeginStep(u: Setup, s: State, idx: nat, step: ProgramStep): State {
    if step.kind == "moveJ" || step.kind == "moveL" then
      if step.pose.None? || step.seconds.None? || step.pose.value !in u.poses then Fail(s)
      else if step.kind == "moveJ" then BeginMoveJ(u, s, idx, u.poses[step.pose.value], step.seconds.value)
      else if !u.poses[step.pose.value].cartesian then Fail(s)
      else s.(phase := Solving(idx, u.poses[step.pose.value], step.seconds.value))
    else if step.kind == "wait" then
      if step.seconds.None? then Fail(s)
      else if step.seconds.value > 0.0 then s.(phase := Waiting(idx, step.seconds.value))
      else Next(s, idx)
    else if step.kind == "grip" then
      if step.deg.None? then Fail(s)
      else
        match ArmGate.Check(u.limits, ArmGate.Grip(step.deg.value), s.estopped, s.homed)
        case Success(Grip(deg)) => Began(s, GripStart(deg)).(phase := Sending(idx))
        case _ => Fail(s)
    else if step.kind == "tool" then
      match ArmGate.Check(u.limits, ArmGate.Tool(step.on == Some(true)), s.estopped, s.homed)
      case Success(Tool(on)) => Began(s, ToolStart(on)).(phase := Sending(idx))
      case _ => Fail(s)
    else Fail(s)
  }

  function Starting(s: State, idx: nat): State {
    Began(s.(status := Status(Running, idx, |s.steps|)), StepStart(idx))
  }

  function AtTop(u: Setup, s: State, idx: nat): State {
    var total := |s.steps|;
    if idx == 0 || idx > total then Finish(s, Status(Completed, total, total))
    else if Aborted(s) then Finish(s, Status(Stopped, if idx > 1 then idx - 1 else 1, total))
    else BeginStep(u, Starting(s, idx), idx, s.steps[idx - 1])
  }

  function AfterSolving(u: Setup, s: State, idx: nat, pose: Pose, seconds: real): State {
    match u.solve(pose, s.positions, seconds)
    case None => Fail(s)
    case Some(frames) =>
      if |frames| == 0 then Fail(s)
      else
        var goal := frames[|frames| - 1].targets;
        match ArmGate.Gated(u.limits, goal, s.positions, seconds, s.estopped, s.homed)
        case Failure(_) => Fail(s)
        case Success(_) => if Aborted(s) then Next(s, idx) else s.(phase := Playing(idx, frames, 1, goal))
  }

  function PlaySegment(u: Setup, s: State, idx: nat, frames: seq<Frame>, k: nat, goal: Angles): State {
    if Aborted(s) then Next(s, idx)
    else if k >= |frames| then Next(s.(positions := Merge(s.positions, goal)), idx)
    else if k == 0 || frames[k].dt <= 0.0 then Fail(s)
    else
      var order := frames[k].targets.order;
      var (motions, verdict) := Manager.Segment(u.joints, frames[k - 1].targets, frames[k], |order|);
      var t := Began(s, SegmentStart(idx, k, frames[k].dt, motions));
      if verdict != Manager.Going then Fail(t) else t.(phase := Playing(idx, frames, k + 1, goal))
  }

  function AfterWait(s: State, idx: nat, remaining: real): State {
    var left := remaining - (if remaining < WAIT_TICK then remaining else WAIT_TICK);
    if left > 0.0 && !Aborted(s) then s.(phase := Waiting(idx, left)) else Next(s, idx)
  }

  /** The runner, or its worker thread, takes its next step. */
  function Resume(u: Setup, s: State): State {
    match s.phase
    case Idle => s
    case Loading => s.(phase := Top(1), status := Status(Running, 0, |s.steps|))
    case Top(idx) => AtTop(u, s, idx)
    case Solving(idx, pose, seconds) => AfterSolving(u, s, idx, pose, seconds)
    case Playing(idx, frames, k, goal) => PlaySegment(u, s, idx, frames, k, goal)
    case Waiting(idx, remaining) => AfterWait(s, idx, remaining)
    case Sending(idx) => Next(s, idx)
  }

  function Accept(s: State, p: Program): State {
    var steps := ExpandAll(p.steps);
    Began(s, RunStart).(abort := false, phase := Loading, steps := steps, status := Status(Running, 0, |steps|))
  }

  function Step(u: Setup, s: State, e: Event): State {
    match e
    case Estop => s.(estopped := true, abort := true)
    case ClearEstop => s.(estopped := false)
    case StopRequest => s.(abort := true)
    case RunRequest(program) =>
      if s.phase != Idle || program.None? then s else Accept(s, program.value)
    case Tick => Resume(u, s)
    case Drained(positions) => s.(positions := Merge(s.positions, positions))
    case Homed(joint) => s.(homed := s.homed + {joint})
  }

  ghost function StateOf(a: ArmAgent): State
    reads a
  {
    State(a.estopped, a.abort, a.homed, a.positions, a.phase, a.steps, a.status, a.starts)
  }

  /** The agent's arm state, whose fields the handlers and the runner update. */
  class ArmAgent {
    const setup: Setup
    var estopped: bool
    var abort: bool
    var homed: set<int>
    var positions: Angles
    var phase: Phase
    var steps: seq<ProgramStep>
    var status: Status
    var starts: seq<Start>

    constructor (setup: Setup)
      ensures this.setup == setup
      ensures StateOf(this) == State(false, false, {}, Angles([], map[]), Idle, [], Status(NotRun, 0, 0), [])
    {
      this.setup := setup;
      estopped, abort, homed, positions := false, false, {}, Angles([], map[]);
      phase, steps, status, starts := Idle, [], Status(NotRun, 0, 0), [];
    }

    /** The latch is set before the boards are told. */
    method OnEstop()
      modifies this
      ensures StateOf(this) == Step(setup, old(StateOf(this)), Estop)
    {
      estopped := true;
      abort := true;
    }

    method OnClearEstop()
      modifies this
      ensures StateOf(this) == Step(setup, old(StateOf(this)), ClearEstop)
    {
      estopped := false;
    }

    method OnStopRequest()
      modifies this
      ensures StateOf(this) == Step(setup, old(StateOf(this)), StopRequest)
    {
      abort := true;
    }

    /** False is the 409 or 404 reply. */
    method OnRunRequest(program: Option<Program>) returns (running: bool)
      modifies this
      ensures StateOf(this) == Step(setup, old(StateOf(this)), RunRequest(program))
      ensures running <==> old(phase) == Idle && program.Some?
    {
      if phase != Idle || program.None? {
        return false;
      }
      steps := ExpandAll(program.value.steps);
      status := Status(Running, 0, |steps|);
      abort := false;
      phase := Loading;
      starts := starts + [RunStart];
      running := true;
    }

    method OnDrained(drained: Angles)
      modifies this
      ensures StateOf(this) == Step(setup, old(StateOf(this)), Drained(drained))
    {
      positions := Merge(positions, drained);
    }

    method OnHomed(joint: int)
      modifies this
      ensures StateOf(this) == Step(setup, old(StateOf(this)), Homed(joint))
    {
      homed := homed + {joint};
    }

    method OnTick()
      modifies this
      ensures StateOf(this) == Step(setup, old(StateOf(this)), Tick)
    {
      match phase
      case Idle =>
      case Loading =>
        status := Status(Running, 0, |steps|);
        phase := Top(1);
      case Top(idx) =>
        RunTop(idx);
      case Solving(idx, pose, seconds) =>
        RunSolving(idx, pose, seconds);
      case Playing(idx, frames, k, goal) =>
        RunSegment(idx, frames, k, goal);
      case Waiting(idx, remaining) =>
        var tick := if remaining < WAIT_TICK then remaining else WAIT_TICK;
        var left := remaining - tick;
        if left > 0.0 && !(abort || estopped) {
          phase := Waiting(idx, left);
        } else {
          phase := Top(idx + 1);
        }
      case Sending(idx) =>
        phase := Top(idx + 1);
    }

    method Conclude(last: Status)
      modifies this
      ensures StateOf(this) == Finish(old(StateOf(this)), last)
    {
      status := last;
      phase := Idle;
      abort := false;
    }

    method RunTop(idx: nat)
      modifies this
      ensures StateOf(this) == AtTop(setup, old(StateOf(this)), idx)
    {
      if idx == 0 || idx > |steps| {
        Conclude(Status(Completed, |steps|, |steps|));
        return;
      }
      if abort || estopped {
        Conclude(Status(Stopped, if idx > 1 then idx - 1 else 1, |steps|));
        return;
      }
      status := Status(Running, idx, |steps|);
      starts := starts + [StepStart(idx)];
      Begin(idx, steps[idx - 1]);
    }

    method Begin(idx: nat, step: ProgramStep)
      modifies this
      ensures StateOf(this) == BeginStep(setup, old(StateOf(this)), idx, step)
    {
      if step.kind == "moveJ" || step.kind == "moveL" {
        if step.pose.None? || step.seconds.None? || step.pose.value !in setup.poses {
          Conclude(status.(state := Failed));
        } else if step.kind == "moveJ" {
          BeginJoints(idx, setup.poses[step.pose.value], step.seconds.value);
        } else if !setup.poses[step.pose.value].cartesian {
          Conclude(status.(state := Failed));
        } else {
          phase := Solving(idx, setup.poses[step.pose.value], step.seconds.value);
        }
      } else if step.kind == "wait" {
        if step.seconds.None? {
          Conclude(status.(state := Failed));
        } else if step.seconds.value > 0.0 {
          phase := Waiting(idx, step.seconds.value);
        } else {
          phase := Top(idx + 1);
        }
      } else if step.kind == "grip" && step.deg.Some? && !estopped {
        starts := starts + [GripStart(Bound(step.deg.value, ArmGate.SERVO_MIN, ArmGate.SERVO_MAX))];
        phase := Sending(idx);
      } else if step.kind == "tool" && !estopped {
        starts := starts + [ToolStart(step.on == Some(true))];
        phase := Sending(idx);
      } else {
        Conclude(status.(state := Failed));
      }
    }

    method BeginJoints(idx: nat, pose: Pose, seconds: real)
      modifies this
      ensures StateOf(this) == BeginMoveJ(setup, old(StateOf(this)), idx, pose, seconds)
    {
      var gated := ArmGate.Move(setup.limits, pose.joints, positions, seconds, estopped, homed);
      if gated.Failure? {
        Conclude(status.(state := Failed));
        return;
      }
      var frames := JointTrajectory(positions, gated.value, seconds, RATE, ACCEL);
      if frames.Failure? {
        Conclude(status.(state := Failed));
        return;
      }
      phase := Playing(idx, frames.value, 1, gated.value);
    }

    method RunSolving(idx: nat, pose: Pose, seconds: real)
      modifies this
      ensures StateOf(this) == AfterSolving(setup, old(StateOf(this)), idx, pose, seconds)
    {
      var solved := setup.solve(pose, positions, seconds);
      if solved.None? || |solved.value| == 0 {
        Conclude(status.(state := Failed));
        return;
      }
      var frames := solved.value;
      var goal := frames[|frames| - 1].targets;
      var gated := ArmGate.Move(setup.limits, goal, positions, seconds, estopped, homed);
      if gated.Failure? {
        Conclude(status.(state := Failed));
      } else if abort || estopped {
        phase := Top(idx + 1);
      } else {
        phase := Playing(idx, frames, 1, goal);
      }
    }

    method RunSegment(idx: nat, frames: seq<Frame>, k: nat, goal: Angles)
      modifies this
      ensures StateOf(this) == PlaySegment(setup, old(StateOf(this)), idx, frames, k, goal)
    {
      if abort || estopped {
        phase := Top(idx + 1);
      } else if k >= |frames| {
        positions := Merge(positions, goal);
        phase := Top(idx + 1);
      } else if k == 0 || frames[k].dt <= 0.0 {
        Conclude(status.(state := Failed));
      } else {
        var order := frames[k].targets.order;
        var (motions, verdict) := Manager.Segment(setup.joints, frames[k - 1].targets, frames[k], |order|);
        starts := starts + [SegmentStart(idx, k, frames[k].dt, motions)];
        if verdict != Manager.Going {
          Conclude(status.(state := Failed));
        } else {
          phase := Playing(idx, frames, k + 1, goal);
        }
      }
    }
  }
}
