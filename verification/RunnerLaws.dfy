/** What every interleaving of e-stops, clears, stop requests, telemetry and run requests with a program
    run keeps (agent/app.py:743-936). */
module RunnerLaws {
  import opened Wrappers
  import opened Programs
  import opened Trajectory
  import opened ProgramRunner
  import ArmGate
  import ProgramLaws
  import TrajectoryLaws
  import Manager = ArmManager

  function Run(u: Setup, s: State, events: seq<Event>): State
    decreases |events|
  {
    if |events| == 0 then s else Run(u, Step(u, s, events[0]), events[1..])
  }

  /** As `Run`, but only until the current run is over. */
  function UntilEnd(u: Setup, s: State, events: seq<Event>): State
    decreases |events|
  {
    if s.phase == Idle || |events| == 0 then s else UntilEnd(u, Step(u, s, events[0]), events[1..])
  }

  function Ticks(events: seq<Event>): nat {
    if |events| == 0 then 0 else (if events[0] == Tick then 1 else 0) + Ticks(events[1..])
  }

  // ----- aborting -----

  predicate Aborting(s: State) { s.phase != Idle && s.abort }

  /** How many of its own steps an aborted run still takes. */
  function Patience(phase: Phase): nat {
    match phase
    case Idle => 0
    case Top(_) => 1
    case _ => 2
  }

  lemma AbortedResume(u: Setup, s: State)
    requires Aborting(s)
    ensures var t := Resume(u, s);
            && t.starts == s.starts && (t.phase == Idle || Aborting(t))
            && (t.phase == Idle || Patience(t.phase) < Patience(s.phase))
  {
  }

  lemma AbortedStep(u: Setup, s: State, e: Event)
    requires Aborting(s)
    ensures var t := Step(u, s, e);
            && t.starts == s.starts && (t.phase == Idle || Aborting(t))
            && (if e == Tick then t.phase == Idle || Patience(t.phase) < Patience(s.phase) else t.phase == s.phase)
  {
    if e == Tick { AbortedResume(u, s); }
  }

  lemma {:induction false} AbortingEnds(u: Setup, s: State, events: seq<Event>)
    requires Aborting(s)
    ensures UntilEnd(u, s, events).starts == s.starts
    ensures Ticks(events) >= Patience(s.phase) ==> UntilEnd(u, s, events).phase == Idle
    decreases |events|
  {
    if |events| == 0 {
    } else {
      AbortedStep(u, s, events[0]);
      var t := Step(u, s, events[0]);
      if t.phase != Idle {
        AbortingEnds(u, t, events[1..]);
      }
    }
  }

  /** Once an e-stop or a stop request arrives in mid-run, that run starts no step, no trajectory segment,
      no grip and no tool send, whatever arrives afterwards (clear_estop and refused run requests
      included), and it is over after two more of its own steps. */
  lemma AbortedRunStartsNothing(u: Setup, s: State, stop: Event, events: seq<Event>)
    requires s.phase != Idle && (stop == Estop || stop == StopRequest)
    ensures var t := UntilEnd(u, Step(u, s, stop), events);
            t.starts == s.starts && (Ticks(events) >= 2 ==> t.phase == Idle)
  {
    AbortingEnds(u, Step(u, s, stop), events);
  }

  /** Anything the arm is set in motion by, a run request aside, is started by the runner itself while
      neither the latch nor the abort flag is set. */
  lemma OnlyUnabortedTicksStart(u: Setup, s: State, e: Event)
    ensures Step(u, s, e).starts != s.starts ==>
              (e == Tick && !Aborted(s)) || (e.RunRequest? && s.phase == Idle)
    ensures s.starts <= Step(u, s, e).starts
  {
    if e == Tick { LatchedResume(u, s); }
  }

  lemma LatchedResume(u: Setup, s: State)
    ensures Aborted(s) ==> Resume(u, s).starts == s.starts
    ensures s.starts <= Resume(u, s).starts
  {
  }

  /** What an aborted run reports when it comes to look at step `idx`. */
  function Verdict(total: nat, idx: nat): Status {
    if idx == 0 || idx > total then Status(Completed, total, total)
    else Status(Stopped, if idx > 1 then idx - 1 else 1, total)
  }

  /** A Cartesian move is turned down: its solver finds no frames, or the gate refuses their goal. */
  predicate MoveRefused(u: Setup, s: State) {
    s.phase.Solving?
    && match u.solve(s.phase.pose, s.positions, s.phase.seconds)
       case None => true
       case Some(frames) =>
         |frames| == 0
         || ArmGate.Gated(u.limits, frames[|frames| - 1].targets, s.positions, s.phase.seconds, s.estopped, s.homed).Failure?
  }

  lemma LatchedMoveRefused(u: Setup, s: State)
    requires s.phase.Solving? && s.estopped
    ensures MoveRefused(u, s)
  {
  }

  /** What an aborted run reports, given its state when it takes its next step. */
  function Report(u: Setup, s: State): Status {
    var total := |s.steps|;
    match s.phase
    case Idle => s.status
    case Loading => Verdict(total, 1)
    case Top(idx) => Verdict(total, idx)
    case Solving(idx, _, _) => if MoveRefused(u, s) then s.status.(state := Failed) else Verdict(total, idx + 1)
    case Playing(idx, _, _, _) => Verdict(total, idx + 1)
    case Waiting(idx, _) => Verdict(total, idx + 1)
    case Sending(idx) => Verdict(total, idx + 1)
  }

  /** The state in which the runner takes its next step. */
  function AtNextTick(u: Setup, s: State, events: seq<Event>): State
    decreases |events|
  {
    if |events| == 0 || events[0] == Tick then s else AtNextTick(u, Step(u, s, events[0]), events[1..])
  }

  /** The states differ at most in the latch, the homed joints and the cached angles. */
  predicate SameRun(s: State, t: State) {
    t == s.(estopped := t.estopped, homed := t.homed, positions := t.positions)
  }

  lemma AbortedWaits(u: Setup, s: State, e: Event)
    requires Aborting(s) && e != Tick
    ensures SameRun(s, Step(u, s, e)) && Aborting(Step(u, s, e))
  {
  }

  lemma {:induction false} AbortedUntilTick(u: Setup, s: State, events: seq<Event>)
    requires Aborting(s)
    ensures SameRun(s, AtNextTick(u, s, events))
    decreases |events|
  {
    if |events| == 0 || events[0] == Tick {
    } else {
      AbortedWaits(u, s, events[0]);
      AbortedUntilTick(u, Step(u, s, events[0]), events[1..]);
    }
  }

  /** One step of an aborted run: it is over with its report, or about to look at a step. */
  lemma AbortedTick(u: Setup, s: State)
    requires Aborting(s)
    ensures var t := Resume(u, s);
            if t.phase == Idle then t.status == Report(u, s)
            else t.phase.Top? && |t.steps| == |s.steps| && Verdict(|s.steps|, t.phase.idx) == Report(u, s)
  {
  }

  lemma {:induction false} LookingEnds(u: Setup, s: State, events: seq<Event>)
    requires Aborting(s) && s.phase.Top? && Ticks(events) >= 1
    ensures UntilEnd(u, s, events).status == Verdict(|s.steps|, s.phase.idx)
    decreases |events|
  {
    AbortedStep(u, s, events[0]);
    if events[0] == Tick {
      AbortedTick(u, s);
      assert UntilEnd(u, s, events) == UntilEnd(u, Resume(u, s), events[1..]);
    } else {
      AbortedWaits(u, s, events[0]);
      LookingEnds(u, Step(u, s, events[0]), events[1..]);
    }
  }

  lemma {:induction false} AbortingReports(u: Setup, s: State, events: seq<Event>)
    requires Aborting(s) && Ticks(events) >= 2
    ensures UntilEnd(u, s, events).status == Report(u, AtNextTick(u, s, events))
    decreases |events|
  {
    var t := Step(u, s, events[0]);
    AbortedStep(u, s, events[0]);
    if events[0] == Tick {
      AbortedTick(u, s);
      if t.phase != Idle { LookingEnds(u, t, events[1..]); }
    } else {
      AbortingReports(u, t, events[1..]);
    }
  }

  /** What a run aborted in any phase reports, for any events that follow. Between the abort and the run's
      next step only the latch, the homed joints and the cached angles can change, and they matter only
      while a Cartesian move is being solved. */
  lemma AbortedRunReports(u: Setup, s: State, stop: Event, events: seq<Event>)
    requires s.phase != Idle && (stop == Estop || stop == StopRequest) && Ticks(events) >= 2
    ensures var next := AtNextTick(u, Step(u, s, stop), events);
            && SameRun(s.(abort := true), next)
            && UntilEnd(u, Step(u, s, stop), events).status == Report(u, next)
  {
    AbortingReports(u, Step(u, s, stop), events);
    AbortedUntilTick(u, Step(u, s, stop), events);
  }

  // ----- progress -----

  /** The steps begun since the last run request, in order. */
  function Begun(starts: seq<Start>): seq<nat> {
    if |starts| == 0 then []
    else Extended(Begun(starts[..|starts| - 1]), starts[|starts| - 1])
  }

  function Extended(begun: seq<nat>, start: Start): seq<nat> {
    match start
    case RunStart => []
    case StepStart(idx) => begun + [idx]
    case _ => begun
  }

  function UpTo(n: nat): seq<nat> { seq(n, i => i + 1) }

  predicate InStep(phase: Phase) { phase.Solving? || phase.Playing? || phase.Waiting? || phase.Sending? }

  /** While a run is on, steps 1..current have been begun, each once and in order. */
  predicate Steady(s: State) {
    && (s.phase != Idle ==> s.status == Status(Running, s.status.current, |s.steps|) && |s.steps| > 0)
    && (s.phase != Idle ==> Begun(s.starts) == UpTo(s.status.current))
    && (s.phase == Loading ==> s.status.current == 0)
    && (s.phase.Top? ==> s.phase.idx == s.status.current + 1 && s.status.current <= |s.steps|)
    && (InStep(s.phase) ==> 0 < s.phase.idx == s.status.current <= |s.steps|)
    && (s.phase == Idle ==> Reported(s))
  }

  /** A finished run reports its last step and total truthfully: completed only when every step was
      begun, failed in the step begun last. A stop before the first step reports step 1. */
  predicate Reported(s: State) {
    var status, begun := s.status, Begun(s.starts);
    && status.current <= status.total && !status.state.Running?
    && (status.state == Completed ==> status.current == status.total && begun == UpTo(status.total))
    && (status.state == Failed ==> begun == UpTo(status.current))
    && (status.state == Stopped ==> begun == UpTo(status.current) || (begun == [] && status.current == 1))
  }

  predicate AcceptedProgram(e: Event) { e.RunRequest? && e.program.Some? ==> WellFormedProgram(e.program.value) }

  lemma BegunMore(starts: seq<Start>, start: Start)
    ensures Begun(starts + [start]) == Extended(Begun(starts), start)
  {
    assert (starts + [start])[..|starts|] == starts;
  }

  /** How a step may go on: still in step `idx`, done with it, or failed; nothing was begun but sends and
      segments. */
  predicate Outcome(s: State, t: State, idx: nat) {
    && t.steps == s.steps && Quiet(s.starts, t.starts)
    && (if t.phase == Idle then t.status == s.status.(state := Failed)
        else t.status == s.status && ((InStep(t.phase) && t.phase.idx == idx) || t.phase == Top(idx + 1)))
  }

  predicate Quiet(before: seq<Start>, after: seq<Start>) {
    after == before
    || (|after| > 0 && after[..|after| - 1] == before
        && !after[|after| - 1].RunStart? && !after[|after| - 1].StepStart?)
  }

  lemma MoveJOutcome(u: Setup, s: State, idx: nat, pose: Pose, seconds: real)
    ensures Outcome(s, BeginMoveJ(u, s, idx, pose, seconds), idx)
  {
  }

  lemma BeginStepOutcome(u: Setup, s: State, idx: nat, step: ProgramStep)
    ensures Outcome(s, BeginStep(u, s, idx, step), idx)
  {
    if step.kind == "moveJ" && step.pose.Some? && step.seconds.Some? && step.pose.value in u.poses {
      MoveJOutcome(u, s, idx, u.poses[step.pose.value], step.seconds.value);
    }
  }

  lemma SteadyOutcome(s: State, t: State, idx: nat)
    requires Outcome(s, t, idx) && 0 < idx <= |s.steps| && s.status == Status(Running, idx, |s.steps|)
    requires Begun(s.starts) == UpTo(idx)
    ensures Steady(t) && t.status.current == idx && t.status.total == |s.steps|
  {
  }

  predicate Starts(s: State) { s.phase.Top? && 0 < s.phase.idx <= |s.steps| && !Aborted(s) }

  lemma TopBegins(u: Setup, s: State)
    requires Starts(s)
    ensures Resume(u, s) == BeginStep(u, Starting(s, s.phase.idx), s.phase.idx, s.steps[s.phase.idx - 1])
  {
  }

  lemma TopStarts(u: Setup, s: State)
    requires Starts(s)
    ensures Outcome(Starting(s, s.phase.idx), Resume(u, s), s.phase.idx)
  {
    var idx := s.phase.idx;
    BeginStepOutcome(u, Starting(s, idx), idx, s.steps[idx - 1]);
    TopBegins(u, s);
  }

  lemma TopEnds(u: Setup, s: State)
    requires Steady(s) && s.phase.Top? && !Starts(s)
    ensures var t := Resume(u, s);
            Steady(t) && s.status.current <= t.status.current && t.status.total == s.status.total
  {
    assert UpTo(0) == [];
  }

  lemma SteadyStart(s: State, t: State)
    requires Steady(s) && Starts(s) && Outcome(Starting(s, s.phase.idx), t, s.phase.idx)
    ensures Steady(t) && s.status.current <= t.status.current && t.status.total == s.status.total
  {
    var idx := s.phase.idx;
    BegunMore(s.starts, StepStart(idx));
    assert UpTo(idx) == UpTo(idx - 1) + [idx];
    SteadyOutcome(Starting(s, idx), t, idx);
  }

  lemma InStepOutcome(u: Setup, s: State)
    requires InStep(s.phase)
    ensures Outcome(s, Resume(u, s), s.phase.idx)
  {
  }

  lemma SteadyResume(u: Setup, s: State)
    requires Steady(s)
    ensures var t := Resume(u, s);
            Steady(t) && s.status.current <= t.status.current && t.status.total == s.status.total
  {
    if Starts(s) {
      TopStarts(u, s);
      SteadyStart(s, Resume(u, s));
    } else if s.phase.Top? {
      TopEnds(u, s);
    } else if InStep(s.phase) {
      InStepOutcome(u, s);
      SteadyOutcome(s, Resume(u, s), s.phase.idx);
    }
  }

  /** Every step of every interleaving keeps the invariant, and within a run the reported step never goes
      back and the total never changes. */
  lemma SteadyStep(u: Setup, s: State, e: Event)
    requires Steady(s) && AcceptedProgram(e)
    ensures var t := Step(u, s, e);
            && Steady(t) && t.status.current <= t.status.total
            && ((e.RunRequest? && s.phase == Idle)
                || (s.status.current <= t.status.current && t.status.total == s.status.total))
  {
    match e
    case Tick => SteadyResume(u, s);
    case RunRequest(program) =>
      if s.phase == Idle && program.Some? { SteadyAccept(s, program.value); }
    case _ =>
  }

  lemma SteadyAccept(s: State, p: Program)
    requires WellFormedProgram(p)
    ensures Steady(Accept(s, p)) && Accept(s, p).status.current <= Accept(s, p).status.total
  {
    ProgramLaws.ExpandAllIsNonEmpty(p.steps);
    BegunMore(s.starts, RunStart);
    assert UpTo(0) == [];
  }

  /** Exactly which aborted runs report "completed" although they were cut short or not: those past their
      last step, and those inside it, unless that is a Cartesian move being turned down, which fails. Any
      other aborted run reports "stopped" at the step begun last, or at step 1 if there is none. */
  lemma AbortInLastStepReportsCompleted(u: Setup, s: State, stop: Event, events: seq<Event>)
    requires Steady(s) && s.phase != Idle && (stop == Estop || stop == StopRequest) && Ticks(events) >= 2
    ensures var refused := MoveRefused(u, AtNextTick(u, Step(u, s, stop), events));
            var status, begun, total := UntilEnd(u, Step(u, s, stop), events).status, s.status.current, |s.steps|;
            && (status.state == Failed <==> refused)
            && (status.state == Completed <==> begun == total && !refused)
            && (status.state == Stopped <==> begun < total && !refused)
            && status.total == total && status.current == if begun > 0 || refused then begun else 1
  {
    AbortedRunReports(u, s, stop, events);
  }

  /** An e-stop still latched when a Cartesian move has been solved fails the run, whichever step it is. */
  lemma EstopWhileSolvingFails(u: Setup, s: State, events: seq<Event>)
    requires Steady(s) && s.phase.Solving? && Ticks(events) >= 2
    requires AtNextTick(u, Step(u, s, Estop), events).estopped
    ensures UntilEnd(u, Step(u, s, Estop), events).status == Status(Failed, s.phase.idx, |s.steps|)
  {
    AbortedRunReports(u, s, Estop, events);
    LatchedMoveRefused(u, AtNextTick(u, Step(u, s, Estop), events));
  }

  const INITIAL: State := State(false, false, {}, Angles([], map[]), Idle, [], Status(NotRun, 0, 0), [])

  lemma FirstEvent(u: Setup, s: State, e: Event, later: seq<Event>)
    ensures Run(u, s, [e] + later) == Run(u, Step(u, s, e), later)
  {
    assert ([e] + later)[1..] == later;
  }

  /** An e-stop in the middle of a program's only step, a wait of one second: the run reports "completed". */
  lemma CutShortReportsCompleted(u: Setup, p: Program)
    requires p.steps == [Plain("wait").(seconds := Some(1.0))]
    ensures Run(u, INITIAL, [RunRequest(Some(p)), Tick, Tick]).phase == Waiting(1, 1.0)
    ensures Run(u, INITIAL, [RunRequest(Some(p)), Tick, Tick, Estop, Tick, Tick]).status == Status(Completed, 1, 1)
  {
    var s1 := Step(u, INITIAL, RunRequest(Some(p)));
    OnlyStep(p.steps[0]);
    assert p.steps == [p.steps[0]];
    var s2 := Step(u, s1, Tick);
    var s3 := BeginsWaiting(u, s2, p.steps[0]);
    assert s3 == Step(u, s2, Tick);
    var s4 := Step(u, s3, Estop);
    StopsWaiting(u, s4);
    var rest := [Estop, Tick, Tick];
    FirstEvent(u, s3, Estop, [Tick, Tick]);
    assert [Estop] + [Tick, Tick] == rest;
    FromStart(u, p, s3, []);
    FromStart(u, p, s3, rest);
    assert [RunRequest(Some(p)), Tick, Tick] + rest == [RunRequest(Some(p)), Tick, Tick, Estop, Tick, Tick];
    assert [RunRequest(Some(p)), Tick, Tick] + [] == [RunRequest(Some(p)), Tick, Tick];
  }

  lemma OnlyStep(step: ProgramStep)
    requires step.kind == "wait"
    ensures ExpandAll([step]) == [step]
  {
    assert [step][1..] == [];
    assert Expand(step) == [step];
  }

  /** Up to the third event. */
  lemma FromStart(u: Setup, p: Program, s: State, later: seq<Event>)
    requires s == Step(u, Step(u, Step(u, INITIAL, RunRequest(Some(p))), Tick), Tick)
    ensures Run(u, INITIAL, [RunRequest(Some(p)), Tick, Tick] + later) == Run(u, s, later)
  {
    FirstEvent(u, INITIAL, RunRequest(Some(p)), [Tick] + ([Tick] + later));
    FirstEvent(u, Step(u, INITIAL, RunRequest(Some(p))), Tick, [Tick] + later);
    FirstEvent(u, Step(u, Step(u, INITIAL, RunRequest(Some(p))), Tick), Tick, later);
    assert [RunRequest(Some(p)), Tick, Tick] + later == [RunRequest(Some(p))] + ([Tick] + ([Tick] + later));
  }

  lemma BeginsWaiting(u: Setup, s: State, step: ProgramStep) returns (t: State)
    requires s.phase == Top(1) && s.steps == [step] && !Aborted(s)
    requires step.kind == "wait" && step.seconds == Some(1.0)
    ensures t == Step(u, s, Tick) && t.phase == Waiting(1, 1.0) && t.steps == s.steps
  {
    t := Step(u, s, Tick);
  }

  lemma StopsWaiting(u: Setup, s: State)
    requires s.phase == Waiting(1, 1.0) && |s.steps| == 1 && Aborted(s)
    ensures Run(u, s, [Tick, Tick]).status == Status(Completed, 1, 1)
  {
    var t := Step(u, s, Tick);
    assert t.phase == Top(2);
    assert Step(u, t, Tick).status == Status(Completed, 1, 1);
    FirstEvent(u, s, Tick, [Tick]);
    FirstEvent(u, t, Tick, []);
    assert [Tick] + [Tick] == [Tick, Tick] && [Tick] + [] == [Tick];
  }

  lemma {:induction false} SteadyRun(u: Setup, s: State, events: seq<Event>)
    requires Steady(s) && forall e :: e in events ==> AcceptedProgram(e)
    ensures Steady(Run(u, s, events))
    decreases |events|
  {
    if |events| == 0 {
    } else {
      SteadyStep(u, s, events[0]);
      SteadyRun(u, Step(u, s, events[0]), events[1..]);
    }
  }

  /** From start-up, over any events: the runner begins steps 1, 2, 3, ... in order, each once per run,
      reports the one it is in, and never one beyond the total. */
  lemma EveryRunIsSteady(u: Setup, events: seq<Event>)
    requires forall e :: e in events ==> AcceptedProgram(e)
    ensures var t := Run(u, INITIAL, events);
            && t.status.current <= t.status.total
            && (t.phase != Idle ==> Begun(t.starts) == UpTo(t.status.current))
            && (t.status.state == Completed ==> Begun(t.starts) == UpTo(t.status.total))
  {
    SteadyRun(u, INITIAL, events);
  }

  // ----- moveJ -----

  /** A joint move starts exactly when nothing is latched, the time is positive, every joint of the pose
      is configured and homed, and the pose covers exactly the joints whose angles are cached: a pose
      that leaves out a reported joint fails the run. */
  lemma MoveJStartsIff(u: Setup, s: State, idx: nat, pose: Pose, seconds: real)
    requires ArmGate.Sane(u.limits)
    ensures var t := BeginMoveJ(u, s, idx, pose, seconds);
            && (t.phase.Playing? || t == Fail(s))
            && (t.phase.Playing? <==>
                  && !s.estopped && seconds > 0.0 && s.positions.deg.Keys == pose.joints.deg.Keys
                  && forall j :: j in pose.joints.deg ==> 0 <= j < |u.limits| && j in s.homed)
  {
    ArmGate.MoveIsSafe(u.limits, pose.joints, s.positions, seconds, s.estopped, s.homed);
  }

  predicate Within(limits: seq<ArmGate.JointLimit>, m: Manager.Motion) {
    0 <= m.joint < |limits| && limits[m.joint].minDeg <= m.deg <= limits[m.joint].maxDeg
  }

  /** A segment of a gated ramp whose motions all address joints inside their limits. */
  predicate SafeStart(limits: seq<ArmGate.JointLimit>, start: Start) {
    start.SegmentStart? && forall m :: m in start.motions ==> Within(limits, m)
  }

  predicate Inside(limits: seq<ArmGate.JointLimit>, a: Angles) {
    forall j :: j in a.deg ==> 0 <= j < |limits| && limits[j].minDeg <= a.deg[j] <= limits[j].maxDeg
  }

  predicate Covers(u: Setup, path: TrajectoryLaws.Path) {
    forall j :: j in path.goal.deg ==> Manager.Locate(u.joints, j).Some?
  }

  lemma SegmentWithin(u: Setup, path: TrajectoryLaws.Path, k: nat)
    requires path.Smooth() && 0 < k < |path.progress| && Covers(u, path)
    requires Inside(u.limits, path.start) && Inside(u.limits, path.goal)
    ensures var (motions, verdict) := TrajectoryLaws.SegmentOf(u.joints, path, k);
            verdict == Manager.Going && forall m :: m in motions ==> Within(u.limits, m)
  {
    TrajectoryLaws.SegmentOnPath(u.joints, path, k);
    var motions := TrajectoryLaws.SegmentOf(u.joints, path, k).0;
    forall m | m in motions
      ensures Within(u.limits, m)
    {
      assert TrajectoryLaws.OnPath(path, m);
    }
  }

  /** In mid-ramp along `path`. */
  ghost predicate Riding(u: Setup, s: State, path: TrajectoryLaws.Path) {
    && path.Smooth() && Covers(u, path) && Inside(u.limits, path.start) && Inside(u.limits, path.goal)
    && s.phase.Playing? && s.phase.frames == TrajectoryLaws.FramesOf(path) && 0 < s.phase.segment
  }

  lemma RideSegment(u: Setup, s: State, path: TrajectoryLaws.Path)
    requires Riding(u, s, path) && !Aborted(s) && s.phase.segment < |path.progress|
    ensures var k, frames := s.phase.segment, s.phase.frames;
            var start := SegmentStart(s.phase.idx, k, path.dts[k], TrajectoryLaws.SegmentOf(u.joints, path, k).0);
            && SafeStart(u.limits, start)
            && PlaySegment(u, s, s.phase.idx, frames, k, s.phase.goal)
               == Began(s, start).(phase := Playing(s.phase.idx, frames, k + 1, s.phase.goal))
  {
    SegmentWithin(u, path, s.phase.segment);
    assert path.Advances(s.phase.segment);
  }

  lemma RideOn(u: Setup, s: State, path: TrajectoryLaws.Path, e: Event)
    requires Riding(u, s, path)
    ensures var t := Step(u, s, e);
            && s.starts <= t.starts && |t.starts| <= |s.starts| + 1
            && (forall i :: |s.starts| <= i < |t.starts| ==> SafeStart(u.limits, t.starts[i]))
            && (if t.phase.Playing? then t.phase.idx == s.phase.idx && Riding(u, t, path)
                else t.phase == Top(s.phase.idx + 1))
  {
    if e == Tick {
      RideTick(u, s, path);
    } else {
      Bystander(u, s, e);
    }
  }

  /** Nothing but its own steps moves a run on. */
  lemma Bystander(u: Setup, s: State, e: Event)
    requires s.phase != Idle && e != Tick
    ensures Step(u, s, e).phase == s.phase && Step(u, s, e).starts == s.starts
  {
  }

  lemma RideTick(u: Setup, s: State, path: TrajectoryLaws.Path)
    requires Riding(u, s, path)
    ensures var t := Resume(u, s);
            && s.starts <= t.starts && |t.starts| <= |s.starts| + 1
            && (forall i :: |s.starts| <= i < |t.starts| ==> SafeStart(u.limits, t.starts[i]))
            && (if t.phase.Playing? then t.phase.idx == s.phase.idx && Riding(u, t, path)
                else t.phase == Top(s.phase.idx + 1))
  {
    if !Aborted(s) && s.phase.segment < |path.progress| {
      RideSegment(u, s, path);
    } else {
      RideEnds(u, s, s.phase.idx, s.phase.frames, s.phase.segment, s.phase.goal);
    }
  }

  lemma RideEnds(u: Setup, s: State, idx: nat, frames: seq<Frame>, k: nat, goal: Angles)
    requires Aborted(s) || k >= |frames|
    ensures var t := PlaySegment(u, s, idx, frames, k, goal); t.phase == Top(idx + 1) && t.starts == s.starts
  {
  }

  /** As `Run`, but only until the ramp is over. */
  function UntilRampEnds(u: Setup, s: State, events: seq<Event>): State
    decreases |events|
  {
    if !s.phase.Playing? || |events| == 0 then s else UntilRampEnds(u, Step(u, s, events[0]), events[1..])
  }

  lemma {:induction false} RideOut(u: Setup, s: State, path: TrajectoryLaws.Path, events: seq<Event>)
    requires Riding(u, s, path)
    ensures var t := UntilRampEnds(u, s, events);
            && s.starts <= t.starts && (t.phase.Playing? || t.phase == Top(s.phase.idx + 1))
            && (forall i :: |s.starts| <= i < |t.starts| ==> SafeStart(u.limits, t.starts[i]))
    decreases |events|
  {
    if |events| == 0 {
    } else {
      RideOn(u, s, path, events[0]);
      var t := Step(u, s, events[0]);
      if t.phase.Playing? {
        RideOut(u, t, path, events[1..]);
      }
    }
  }

  /** Once the gate has let a joint move start from inside the limits, then whatever happens meanwhile,
      the move never fails and everything it sends is a segment inside every joint's limits. */
  lemma MoveJStaysWithinLimits(u: Setup, s: State, idx: nat, pose: Pose, seconds: real, events: seq<Event>)
    requires ArmGate.Sane(u.limits) && Inside(u.limits, s.positions) && |u.limits| <= |u.joints|
    requires BeginMoveJ(u, s, idx, pose, seconds).phase.Playing?
    ensures var t := UntilRampEnds(u, BeginMoveJ(u, s, idx, pose, seconds), events);
            && s.starts <= t.starts && (t.phase.Playing? || t.phase == Top(idx + 1))
            && (forall i :: |s.starts| <= i < |t.starts| ==> SafeStart(u.limits, t.starts[i]))
  {
    MoveJStartsIff(u, s, idx, pose, seconds);
    ArmGate.MoveIsSafe(u.limits, pose.joints, s.positions, seconds, s.estopped, s.homed);
    var goal := ArmGate.Gated(u.limits, pose.joints, s.positions, seconds, s.estopped, s.homed).value;
    TrajectoryLaws.RampIsSmooth(s.positions, goal, seconds, RATE, ACCEL);
    RideOut(u, BeginMoveJ(u, s, idx, pose, seconds),
            TrajectoryLaws.PathOf(s.positions, goal, seconds, RATE, ACCEL), events);
  }
}
