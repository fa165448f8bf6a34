/** What each program step sets in motion, and for how long (agent/app.py:747-871). */
module RunnerEffects {
  import opened Wrappers
  import opened Programs
  import opened Trajectory
  import opened Bounds
  import opened ProgramRunner
  import opened RunnerLaws
  import ArmGate
  import TrajectoryLaws
  import Manager = ArmManager

  /** The runner is about to begin step `idx`, and nothing stops it. */
  predicate Beginning(s: State, idx: nat) {
    s.phase == Top(idx) && 1 <= idx <= |s.steps| && !s.abort && !s.estopped
  }

  // ----- beginning a run -----

  /** An accepted request begins a fresh run of the program, unrolled; an abort of an earlier run is forgotten.
      A request during a run, or for no program, changes nothing. */
  lemma RequestBeginsRun(u: Setup, s: State, p: Program)
    ensures s.phase == Idle ==>
              var t := Step(u, s, RunRequest(Some(p)));
              && t.phase == Loading && !t.abort && t.estopped == s.estopped && t.steps == ExpandAll(p.steps)
              && t.status == Status(Running, 0, |t.steps|) && t.starts == s.starts + [RunStart]
              && Resume(u, t).phase == Top(1) && Resume(u, t).starts == t.starts
    ensures s.phase != Idle ==> Step(u, s, RunRequest(Some(p))) == s
    ensures Step(u, s, RunRequest(None)) == s
  {
  }

  /** The last step done, the run is over and reports so; the flag is cleared for the next. */
  lemma RunCompletes(u: Setup, s: State)
    requires s.phase == Top(|s.steps| + 1)
    ensures var t := Resume(u, s);
            t.phase == Idle && t.status == Status(Completed, |s.steps|, |s.steps|) && t.starts == s.starts && !t.abort
  {
  }

  // ----- the steps that send one command -----

  /** A tool step switches the tool as it says; off, if it does not say. */
  lemma ToolStepSends(u: Setup, s: State, idx: nat)
    requires Beginning(s, idx) && s.steps[idx - 1].kind == "tool"
    ensures var t := Resume(u, s);
            && t.starts == s.starts + [StepStart(idx), ToolStart(s.steps[idx - 1].on == Some(true))]
            && t.phase == Sending(idx)
  {
  }

  /** A grip step sends its angle, or the nearer of 0 and 180. */
  lemma GripStepSends(u: Setup, s: State, idx: nat, deg: real)
    requires Beginning(s, idx) && s.steps[idx - 1].kind == "grip" && s.steps[idx - 1].deg == Some(deg)
    ensures var t := Resume(u, s);
            var sent := if deg < 0.0 then 0.0 else if deg > 180.0 then 180.0 else deg;
            t.starts == s.starts + [StepStart(idx), GripStart(sent)] && t.phase == Sending(idx)
  {
  }

  /** Once the command is sent, the step is over. */
  lemma SentStepEnds(u: Setup, s: State, idx: nat)
    requires s.phase == Sending(idx)
    ensures Resume(u, s) == s.(phase := Top(idx + 1))
  {
  }

  /** A step without what it needs, or of an unknown kind, fails the run and sends nothing. */
  lemma BadStepFails(u: Setup, s: State, idx: nat)
    requires Beginning(s, idx)
    requires var step := s.steps[idx - 1];
             || (step.kind == "grip" && step.deg == None) || (step.kind == "wait" && step.seconds == None)
             || ((step.kind == "moveJ" || step.kind == "moveL")
                 && (step.pose == None || step.seconds == None || step.pose.value !in u.poses))
             || (step.kind == "moveL" && step.pose.Some? && step.pose.value in u.poses && !u.poses[step.pose.value].cartesian)
             || step.kind !in {"moveJ", "moveL", "wait", "grip", "tool"}
    ensures var t := Resume(u, s);
            t.phase == Idle && t.status == Status(Failed, idx, |s.steps|) && t.starts == s.starts + [StepStart(idx)]
  {
  }

  // ----- waiting -----

  /** Nothing in it stops the run. */
  predicate Calm(events: seq<Event>) { Estop !in events && StopRequest !in events }

  lemma {:induction false} RunSplit(u: Setup, s: State, a: seq<Event>, b: seq<Event>)
    ensures Run(u, s, a + b) == Run(u, Run(u, s, a), b)
    decreases |a|
  {
    if |a| == 0 {
      assert a + b == b;
    } else {
      assert (a + b)[1..] == a[1..] + b;
      RunSplit(u, Step(u, s, a[0]), a[1..], b);
    }
  }

  lemma RunOne(u: Setup, s: State, e: Event)
    ensures Run(u, s, [e]) == Step(u, s, e)
  {
    assert [e][1..] == [];
    assert Run(u, Step(u, s, e), []) == Step(u, s, e);
  }

  lemma CalmBystander(u: Setup, s: State, e: Event)
    requires s.phase != Idle && e != Tick && e != Estop && e != StopRequest && !Aborted(s)
    ensures var t := Step(u, s, e); t.phase == s.phase && t.starts == s.starts && !Aborted(t) && t.steps == s.steps
  {
  }

  lemma CalmRest(events: seq<Event>)
    requires Calm(events) && |events| > 0
    ensures Calm(events[1..]) && events[0] != Estop && events[0] != StopRequest
  {
    assert events[0] in events;
    assert forall e :: e in events[1..] ==> e in events;
  }

  /** How long a step of the runner sleeps. */
  function SleptIn(s: State, e: Event): real {
    if e == Tick && s.phase.Waiting? then (if s.phase.remaining < 0.05 then s.phase.remaining else 0.05) else 0.0
  }

  function Slept(u: Setup, s: State, events: seq<Event>): real
    decreases |events|
  {
    if |events| == 0 then 0.0 else SleptIn(s, events[0]) + Slept(u, Step(u, s, events[0]), events[1..])
  }

  lemma {:induction false} SleptSplit(u: Setup, s: State, a: seq<Event>, b: seq<Event>)
    ensures Slept(u, s, a + b) == Slept(u, s, a) + Slept(u, Run(u, s, a), b)
    decreases |a|
  {
    if |a| == 0 {
      assert a + b == b;
    } else {
      assert (a + b)[1..] == a[1..] + b;
      SleptSplit(u, Step(u, s, a[0]), a[1..], b);
    }
  }

  /** A wait of `d` seconds, before it is over. */
  lemma {:induction false} WaitGoesOn(u: Setup, s: State, idx: nat, d: real, events: seq<Event>)
    requires s.phase == Waiting(idx, d) && !Aborted(s) && Calm(events) && Ticks(events) as real * 0.05 < d
    ensures var t := Run(u, s, events);
            t.phase == Waiting(idx, d - Ticks(events) as real * 0.05) && t.starts == s.starts && !Aborted(t)
    ensures Slept(u, s, events) == Ticks(events) as real * 0.05
    decreases |events|
  {
    if |events| == 0 {
    } else {
      CalmRest(events);
      var t := Step(u, s, events[0]);
      if events[0] == Tick {
        assert Ticks(events) == 1 + Ticks(events[1..]);
        WaitGoesOn(u, t, idx, d - 0.05, events[1..]);
      } else {
        CalmBystander(u, s, events[0]);
        WaitGoesOn(u, t, idx, d, events[1..]);
      }
    }
  }

  /** Unaborted, a wait of `d` seconds takes exactly as many of the runner's steps as it takes to sleep 0.05
      seconds each, or what is left, for `d` seconds altogether; it starts nothing. */
  lemma WaitTakes(u: Setup, s: State, idx: nat, d: real, events: seq<Event>, n: nat)
    requires s.phase == Waiting(idx, d) && !Aborted(s) && Calm(events)
    requires n > 0 && (n - 1) as real * 0.05 < d <= n as real * 0.05 && Ticks(events) == n - 1
    ensures Run(u, s, events).phase.Waiting?
    ensures var t := Run(u, s, events + [Tick]); t.phase == Top(idx + 1) && t.starts == s.starts
    ensures Slept(u, s, events + [Tick]) == d
  {
    WaitGoesOn(u, s, idx, d, events);
    var t := Run(u, s, events);
    RunSplit(u, s, events, [Tick]);
    RunOne(u, t, Tick);
    SleptSplit(u, s, events, [Tick]);
    assert [Tick][1..] == [];
    assert Slept(u, t, [Tick]) == SleptIn(t, Tick);
  }

  /** A wait step begins its wait; one of no time is over at once. */
  lemma WaitStepWaits(u: Setup, s: State, idx: nat, d: real)
    requires Beginning(s, idx) && s.steps[idx - 1].kind == "wait" && s.steps[idx - 1].seconds == Some(d)
    ensures var t := Resume(u, s);
            && t.starts == s.starts + [StepStart(idx)] && !Aborted(t)
            && t.phase == if d > 0.0 then Waiting(idx, d) else Top(idx + 1)
  {
  }

  // ----- playing frames -----

  /** Playing a frame sends each of its joints to the frame's angle, at the speed that gets it there in the
      frame's time. */
  lemma SegmentIsSent(u: Setup, s: State, idx: nat, frames: seq<Frame>, k: nat, goal: Angles)
    requires s.phase == Playing(idx, frames, k, goal) && !Aborted(s) && 0 < k < |frames| && frames[k].dt > 0.0
    requires forall j :: j in frames[k].targets.deg ==> j in frames[k - 1].targets.deg && Manager.Locate(u.joints, j).Some?
    ensures var t := Resume(u, s);
            && t.phase == Playing(idx, frames, k + 1, goal)
            && |t.starts| == |s.starts| + 1 && t.starts[..|s.starts|] == s.starts
            && var last, targets, dt := frames[k - 1].targets, frames[k].targets, frames[k].dt;
               var start := t.starts[|s.starts|];
               && start.SegmentStart? && start.idx == idx && start.segment == k && start.dt == dt
               && |start.motions| == |targets.order|
               && forall i :: 0 <= i < |targets.order| ==>
                    var j := targets.order[i];
                    && j in targets.deg && j in last.deg
                    && start.motions[i].joint == j && start.motions[i].deg == targets.deg[j]
                    && start.motions[i].dps * dt
                       == if targets.deg[j] < last.deg[j] then last.deg[j] - targets.deg[j] else targets.deg[j] - last.deg[j]
  {
    var last, frame := frames[k - 1].targets, frames[k];
    TrajectoryLaws.SegmentSends(u.joints, last, frame, |frame.targets.order|);
    var (motions, status) := Manager.Segment(u.joints, last, frame, |frame.targets.order|);
    assert Resume(u, s) == Began(s, SegmentStart(idx, k, frame.dt, motions)).(phase := Playing(idx, frames, k + 1, goal));
    forall i | 0 <= i < |motions|
      ensures var j := frame.targets.order[i];
              motions[i].dps * frame.dt == Manager.Abs(frame.targets.deg[j] - last.deg[j])
    {
      var j := frame.targets.order[i];
      TrajectoryLaws.SpeedTimesTime(last.deg[j], frame.targets.deg[j], frame.dt);
    }
  }

  /** When all frames are played, the cached angles of the goal's joints are the goal's. */
  lemma MoveIsFinished(u: Setup, s: State, idx: nat, frames: seq<Frame>, k: nat, goal: Angles)
    requires s.phase == Playing(idx, frames, k, goal) && !Aborted(s) && k >= |frames|
    ensures var t := Resume(u, s);
            && t.phase == Top(idx + 1) && t.starts == s.starts
            && t.positions.deg.Keys == s.positions.deg.Keys + goal.deg.Keys
            && forall j :: j in t.positions.deg ==>
                 t.positions.deg[j] == if j in goal.deg then goal.deg[j] else s.positions.deg[j]
  {
  }

  /** A Cartesian move has its pose solved, and then plays the solver's frames towards the last of them. */
  lemma CartesianStepSolves(u: Setup, s: State, idx: nat, name: string, seconds: real)
    requires Beginning(s, idx) && name in u.poses && u.poses[name].cartesian
    requires var step := s.steps[idx - 1];
             step.kind == "moveL" && step.pose == Some(name) && step.seconds == Some(seconds)
    ensures var t := Resume(u, s);
            t.phase == Solving(idx, u.poses[name], seconds) && t.starts == s.starts + [StepStart(idx)] && !Aborted(t)
  {
  }

  lemma SolvedFramesArePlayed(u: Setup, s: State, idx: nat, pose: Pose, seconds: real, frames: seq<Frame>)
    requires s.phase == Solving(idx, pose, seconds) && !Aborted(s) && !MoveRefused(u, s)
    requires u.solve(pose, s.positions, seconds) == Some(frames)
    ensures |frames| > 0 && Resume(u, s) == s.(phase := Playing(idx, frames, 1, frames[|frames| - 1].targets))
  {
  }

  // ----- a joint move from beginning to end -----

  /** The segments of a ramp from `k` on. */
  ghost function SegmentsOf(u: Setup, path: TrajectoryLaws.Path, idx: nat, k: nat, n: nat): (starts: seq<Start>)
    requires path.Smooth() && 0 < k && k + n <= |path.progress|
    ensures |starts| == n
    decreases n
  {
    if n == 0 then []
    else [SegmentStart(idx, k, path.dts[k], TrajectoryLaws.SegmentOf(u.joints, path, k).0)] + SegmentsOf(u, path, idx, k + 1, n - 1)
  }

  lemma RampSegment(u: Setup, s: State, path: TrajectoryLaws.Path)
    requires path.Smooth() && Covers(u, path) && !Aborted(s)
    requires s.phase.Playing? && s.phase.frames == TrajectoryLaws.FramesOf(path) && 0 < s.phase.segment < |path.progress|
    ensures var k := s.phase.segment;
            Resume(u, s)
            == Began(s, SegmentStart(s.phase.idx, k, path.dts[k], TrajectoryLaws.SegmentOf(u.joints, path, k).0))
                 .(phase := s.phase.(segment := k + 1))
  {
    TrajectoryLaws.SegmentOnPath(u.joints, path, s.phase.segment);
    assert path.Advances(s.phase.segment);
  }

  lemma OneSegment(u: Setup, s: State, path: TrajectoryLaws.Path, idx: nat, k: nat, goal: Angles) returns (first: Start)
    requires path.Smooth() && Covers(u, path) && !Aborted(s)
    requires s.phase == Playing(idx, TrajectoryLaws.FramesOf(path), k, goal) && 0 < k < |path.progress|
    ensures first == SegmentStart(idx, k, path.dts[k], TrajectoryLaws.SegmentOf(u.joints, path, k).0)
    ensures var t := Step(u, s, Tick);
            && t.phase == Playing(idx, TrajectoryLaws.FramesOf(path), k + 1, goal) && t.starts == s.starts + [first]
            && !Aborted(t)
  {
    RampSegment(u, s, path);
    first := SegmentStart(idx, k, path.dts[k], TrajectoryLaws.SegmentOf(u.joints, path, k).0);
  }

  lemma Prepended(before: seq<Start>, first: Start, rest: seq<Start>, after: seq<Start>, end: seq<Start>)
    requires after == before + [first] && end == after + rest
    ensures end == before + ([first] + rest)
  {
  }

  /** `t` is `s` after `n` more segments. */
  ghost predicate Played(u: Setup, s: State, t: State, path: TrajectoryLaws.Path, idx: nat, k: nat, n: nat, goal: Angles)
    requires path.Smooth() && 0 < k && k + n <= |path.progress|
  {
    && t.phase == Playing(idx, TrajectoryLaws.FramesOf(path), k + n, goal) && !Aborted(t)
    && t.starts == s.starts + SegmentsOf(u, path, idx, k, n)
  }

  lemma {:induction false} RampPlays(u: Setup, s: State, path: TrajectoryLaws.Path, idx: nat, k: nat, goal: Angles, events: seq<Event>)
    requires path.Smooth() && Covers(u, path) && !Aborted(s) && Calm(events)
    requires s.phase == Playing(idx, TrajectoryLaws.FramesOf(path), k, goal) && 0 < k && k + Ticks(events) <= |path.progress|
    ensures Played(u, s, Run(u, s, events), path, idx, k, Ticks(events), goal)
    decreases |events|
  {
    if |events| == 0 {
      assert s.starts + [] == s.starts;
    } else {
      CalmRest(events);
      var t, n := Step(u, s, events[0]), Ticks(events);
      if events[0] == Tick {
        var first := OneSegment(u, s, path, idx, k, goal);
        RampPlays(u, t, path, idx, k + 1, goal, events[1..]);
        PlayedBefore(u, s, t, Run(u, s, events), path, idx, k, n, goal, first);
      } else {
        CalmBystander(u, s, events[0]);
        RampPlays(u, t, path, idx, k, goal, events[1..]);
        PlayedSame(u, s, t, Run(u, s, events), path, idx, k, n, goal);
      }
    }
  }

  lemma PlayedBefore(u: Setup, s: State, t: State, end: State, path: TrajectoryLaws.Path, idx: nat, k: nat, n: nat, goal: Angles,
                     first: Start)
    requires path.Smooth() && 0 < k && k + n <= |path.progress| && n > 0
    requires Played(u, t, end, path, idx, k + 1, n - 1, goal) && t.starts == s.starts + [first]
    requires first == SegmentStart(idx, k, path.dts[k], TrajectoryLaws.SegmentOf(u.joints, path, k).0)
    ensures Played(u, s, end, path, idx, k, n, goal)
  {
    Prepended(s.starts, first, SegmentsOf(u, path, idx, k + 1, n - 1), t.starts, end.starts);
  }

  lemma PlayedSame(u: Setup, s: State, t: State, end: State, path: TrajectoryLaws.Path, idx: nat, k: nat, n: nat, goal: Angles)
    requires path.Smooth() && 0 < k && k + n <= |path.progress|
    requires Played(u, t, end, path, idx, k, n, goal) && t.starts == s.starts
    ensures Played(u, s, end, path, idx, k, n, goal)
  {
  }

  /** The time given to the segments among these. */
  function TimeOf(starts: seq<Start>): real {
    if |starts| == 0 then 0.0
    else (if starts[0].SegmentStart? then starts[0].dt else 0.0) + TimeOf(starts[1..])
  }

  lemma {:induction false} TimeOfSegments(u: Setup, path: TrajectoryLaws.Path, idx: nat, k: nat, n: nat)
    requires path.Smooth() && 0 < k && k + n <= |path.progress|
    ensures TimeOf(SegmentsOf(u, path, idx, k, n)) == TrajectoryLaws.Total(path.dts, k + n - 1) - TrajectoryLaws.Total(path.dts, k - 1)
    decreases n
  {
    if n == 0 {
    } else {
      TimeOfSegments(u, path, idx, k + 1, n - 1);
      var segments := SegmentsOf(u, path, idx, k, n);
      assert segments[1..] == SegmentsOf(u, path, idx, k + 1, n - 1);
    }
  }

  lemma {:induction false} SegmentAt(u: Setup, path: TrajectoryLaws.Path, idx: nat, k: nat, n: nat, i: nat)
    requires path.Smooth() && 0 < k && k + n <= |path.progress| && i < n
    ensures SegmentsOf(u, path, idx, k, n)[i]
         == SegmentStart(idx, k + i, path.dts[k + i], TrajectoryLaws.SegmentOf(u.joints, path, k + i).0)
    decreases n
  {
    if i == 0 {
    } else {
      SegmentAt(u, path, idx, k + 1, n - 1, i - 1);
    }
  }

  /** Every joint of the goal, and no other, is sent there. */
  ghost predicate SentTo(goal: map<int, real>, motions: seq<Manager.Motion>) {
    && (forall m :: m in motions ==> m.joint in goal && m.deg == goal[m.joint])
    && forall j :: j in goal ==> exists m :: m in motions && m.joint == j
  }

  lemma LastSegmentReaches(u: Setup, path: TrajectoryLaws.Path)
    requires path.Smooth() && Covers(u, path)
    ensures SentTo(path.goal.deg, TrajectoryLaws.SegmentOf(u.joints, path, |path.progress| - 1).0)
  {
    var n := |path.progress| - 1;
    TrajectoryLaws.LastSegmentTargets(u.joints, path);
    SentToGoal(SortedJoints(path.goal), path.goal.deg, TrajectoryLaws.SegmentOf(u.joints, path, n).0);
  }

  lemma SentToGoal(order: seq<int>, goal: map<int, real>, motions: seq<Manager.Motion>)
    requires |motions| == |order| && forall j :: j in order <==> j in goal
    requires forall i :: 0 <= i < |order| ==>
               order[i] in goal && motions[i].joint == order[i] && motions[i].deg == goal[order[i]]
    ensures SentTo(goal, motions)
  {
    forall j | j in goal
      ensures exists m :: m in motions && m.joint == j
    {
      var i :| 0 <= i < |order| && order[i] == j;
      assert motions[i] in motions;
    }
  }

  /** The gate lets the step's move through, and the ramp can begin. */
  predicate MoveJBegins(u: Setup, s: State, idx: nat, pose: Pose, seconds: real) {
    && Beginning(s, idx)
    && var step := s.steps[idx - 1];
       && step.kind == "moveJ" && step.pose.Some? && step.pose.value in u.poses && u.poses[step.pose.value] == pose
       && step.seconds == Some(seconds) && seconds > 0.0
       && s.positions.deg.Keys == pose.joints.deg.Keys
       && forall j :: j in pose.joints.deg ==> 0 <= j < |u.limits| && j in s.homed
  }

  /** `a` has the pose's joints where the limits let them go. */
  predicate AtPose(limits: seq<ArmGate.JointLimit>, pose: Pose, a: map<int, real>) {
    forall j :: j in pose.joints.deg ==>
      0 <= j < |limits| && j in a && Nearest(pose.joints.deg[j], limits[j].minDeg, limits[j].maxDeg, a[j])
  }

  lemma MoveJStart(u: Setup, s: State, idx: nat, pose: Pose, seconds: real) returns (path: TrajectoryLaws.Path)
    requires ArmGate.Sane(u.limits) && |u.limits| <= |u.joints| && MoveJBegins(u, s, idx, pose, seconds)
    ensures path.Smooth() && Covers(u, path) && AtPose(u.limits, pose, path.goal.deg)
    ensures path.goal.deg.Keys == pose.joints.deg.Keys
    ensures |path.progress| == Intervals(seconds, 20.0) + 1 && TrajectoryLaws.Total(path.dts, |path.dts| - 1) == seconds
    ensures var t := Resume(u, s);
            && t.phase == Playing(idx, TrajectoryLaws.FramesOf(path), 1, path.goal)
            && t.starts == s.starts + [StepStart(idx)] && !Aborted(t)
  {
    var t := Starting(s, idx);
    MoveJStartsIff(u, t, idx, pose, seconds);
    ArmGate.MoveIsSafe(u.limits, pose.joints, s.positions, seconds, s.estopped, s.homed);
    var goal := ArmGate.Gated(u.limits, pose.joints, s.positions, seconds, s.estopped, s.homed).value;
    path := RampPath(s.positions, goal, seconds);
    MoveJBeginning(u, s, idx, pose, seconds);
  }

  lemma RampPath(start: Angles, goal: Angles, seconds: real) returns (path: TrajectoryLaws.Path)
    requires start.deg.Keys == goal.deg.Keys && seconds > 0.0
    ensures path.Smooth() && path.goal == goal && Ramp(start, goal, seconds, RATE, ACCEL) == TrajectoryLaws.FramesOf(path)
    ensures |path.progress| == Intervals(seconds, 20.0) + 1 && TrajectoryLaws.Total(path.dts, |path.dts| - 1) == seconds
  {
    TrajectoryLaws.RampIsSmooth(start, goal, seconds, RATE, ACCEL);
    TrajectoryLaws.StepsSumToDuration(start, goal, seconds, RATE, ACCEL);
    path := TrajectoryLaws.PathOf(start, goal, seconds, RATE, ACCEL);
  }

  lemma MoveJBeginning(u: Setup, s: State, idx: nat, pose: Pose, seconds: real)
    requires MoveJBegins(u, s, idx, pose, seconds)
    ensures Resume(u, s) == BeginMoveJ(u, Starting(s, idx), idx, pose, seconds)
  {
  }

  /** Segments of step `idx`, numbered from one, each with some time. */
  predicate InTurn(segments: seq<Start>, idx: nat) {
    forall i :: 0 <= i < |segments| ==>
      segments[i].SegmentStart? && segments[i].idx == idx && segments[i].segment == i + 1 && segments[i].dt > 0.0
  }

  /** Every joint of the pose, and no other, is sent to the angle nearest to the pose's that its limits allow. */
  ghost predicate Reaches(limits: seq<ArmGate.JointLimit>, pose: Pose, motions: seq<Manager.Motion>) {
    && (forall m :: m in motions ==>
          && m.joint in pose.joints.deg && 0 <= m.joint < |limits|
          && Nearest(pose.joints.deg[m.joint], limits[m.joint].minDeg, limits[m.joint].maxDeg, m.deg))
    && forall j :: j in pose.joints.deg ==> exists m :: m in motions && m.joint == j
  }

  /** A joint move, whatever arrives meanwhile that does not abort it: after as many steps of the runner as
      there are sampling intervals it has sent that many segments, which are given the step's seconds
      altogether; the last of them sends every joint of the pose to the angle nearest to the recorded one
      that its limits allow; and at the step after that those angles are the cached positions. */
  lemma MoveJPlays(u: Setup, s: State, idx: nat, pose: Pose, seconds: real, events: seq<Event>)
    returns (segments: seq<Start>)
    requires ArmGate.Sane(u.limits) && |u.limits| <= |u.joints| && MoveJBegins(u, s, idx, pose, seconds)
    requires Calm(events) && Ticks(events) == Intervals(seconds, 20.0)
    ensures |segments| == Intervals(seconds, 20.0) && TimeOf(segments) == seconds && InTurn(segments, idx)
    ensures Reaches(u.limits, pose, segments[|segments| - 1].motions)
    ensures var t := Run(u, s, [Tick] + events + [Tick]);
            && t.phase == Top(idx + 1) && t.starts == s.starts + [StepStart(idx)] + segments
            && AtPose(u.limits, pose, t.positions.deg)
  {
    var path := MoveJStart(u, s, idx, pose, seconds);
    segments := WholeRamp(u, s, path, idx, pose, seconds, events, s.starts + [StepStart(idx)]);
  }

  lemma WholeRamp(u: Setup, s: State, path: TrajectoryLaws.Path, idx: nat, pose: Pose, seconds: real, events: seq<Event>,
                  started: seq<Start>) returns (segments: seq<Start>)
    requires path.Smooth() && Covers(u, path) && Calm(events) && Ticks(events) == |path.progress| - 1
    requires AtPose(u.limits, pose, path.goal.deg) && path.goal.deg.Keys == pose.joints.deg.Keys
    requires TrajectoryLaws.Total(path.dts, |path.dts| - 1) == seconds
    requires var s1 := Resume(u, s);
             s1.phase == Playing(idx, TrajectoryLaws.FramesOf(path), 1, path.goal) && !Aborted(s1) && s1.starts == started
    ensures |segments| == Ticks(events) && TimeOf(segments) == seconds && InTurn(segments, idx)
    ensures |segments| > 0 && Reaches(u.limits, pose, segments[|segments| - 1].motions)
    ensures var t := Run(u, s, [Tick] + events + [Tick]);
            t.phase == Top(idx + 1) && t.starts == started + segments && AtPose(u.limits, pose, t.positions.deg)
  {
    segments := SegmentsOf(u, path, idx, 1, |path.progress| - 1);
    RampLands(u, s, path, idx, pose, events);
    SegmentsAre(u, path, idx);
    SegmentsReach(u, path, idx, pose);
  }

  lemma RampLands(u: Setup, s: State, path: TrajectoryLaws.Path, idx: nat, pose: Pose, events: seq<Event>)
    requires path.Smooth() && Covers(u, path) && Calm(events) && Ticks(events) == |path.progress| - 1
    requires AtPose(u.limits, pose, path.goal.deg) && path.goal.deg.Keys == pose.joints.deg.Keys
    requires var s1 := Resume(u, s);
             s1.phase == Playing(idx, TrajectoryLaws.FramesOf(path), 1, path.goal) && !Aborted(s1)
    ensures var t := Run(u, s, [Tick] + events + [Tick]);
            && t.phase == Top(idx + 1) && AtPose(u.limits, pose, t.positions.deg)
            && t.starts == Resume(u, s).starts + SegmentsOf(u, path, idx, 1, |path.progress| - 1)
  {
    RampRuns(u, s, path, idx, events);
  }

  lemma RampRuns(u: Setup, s: State, path: TrajectoryLaws.Path, idx: nat, events: seq<Event>)
    requires path.Smooth() && Covers(u, path) && Calm(events) && Ticks(events) == |path.progress| - 1
    requires var s1 := Resume(u, s);
             s1.phase == Playing(idx, TrajectoryLaws.FramesOf(path), 1, path.goal) && !Aborted(s1)
    ensures var t := Run(u, s, [Tick] + events + [Tick]);
            && t.phase == Top(idx + 1)
            && t.starts == Resume(u, s).starts + SegmentsOf(u, path, idx, 1, |path.progress| - 1)
            && forall j :: j in path.goal.deg ==> j in t.positions.deg && t.positions.deg[j] == path.goal.deg[j]
  {
    var s1 := Resume(u, s);
    RampPlays(u, s1, path, idx, 1, path.goal, events);
    var s2 := Run(u, s1, events);
    MoveIsFinished(u, s2, idx, TrajectoryLaws.FramesOf(path), |path.progress|, path.goal);
    RunSplit(u, s, [Tick], events);
    RunSplit(u, s, [Tick] + events, [Tick]);
    RunOne(u, s, Tick);
    RunOne(u, s2, Tick);
  }

  lemma SegmentsAre(u: Setup, path: TrajectoryLaws.Path, idx: nat)
    requires path.Smooth()
    ensures var n := |path.progress| - 1;
            var segments := SegmentsOf(u, path, idx, 1, n);
            TimeOf(segments) == TrajectoryLaws.Total(path.dts, |path.dts| - 1) && InTurn(segments, idx)
  {
    var n := |path.progress| - 1;
    TimeOfSegments(u, path, idx, 1, n);
    forall i | 0 <= i < n
      ensures var e := SegmentsOf(u, path, idx, 1, n)[i]; e.SegmentStart? && e.idx == idx && e.segment == i + 1 && e.dt > 0.0
    {
      SegmentAt(u, path, idx, 1, n, i);
      assert path.Advances(i + 1);
    }
  }

  lemma SegmentsReach(u: Setup, path: TrajectoryLaws.Path, idx: nat, pose: Pose)
    requires path.Smooth() && Covers(u, path)
    requires AtPose(u.limits, pose, path.goal.deg) && path.goal.deg.Keys == pose.joints.deg.Keys
    ensures var segments := SegmentsOf(u, path, idx, 1, |path.progress| - 1);
            segments[|segments| - 1].SegmentStart? && Reaches(u.limits, pose, segments[|segments| - 1].motions)
  {
    var n := |path.progress| - 1;
    var motions := LastMotions(u, path, idx, n);
    MotionsReach(u.limits, pose, path.goal.deg, motions);
  }

  lemma LastMotions(u: Setup, path: TrajectoryLaws.Path, idx: nat, n: nat) returns (motions: seq<Manager.Motion>)
    requires path.Smooth() && Covers(u, path) && n == |path.progress| - 1
    ensures SegmentsOf(u, path, idx, 1, n)[n - 1] == SegmentStart(idx, n, path.dts[n], motions)
    ensures SentTo(path.goal.deg, motions)
  {
    SegmentAt(u, path, idx, 1, n, n - 1);
    LastSegmentReaches(u, path);
    motions := TrajectoryLaws.SegmentOf(u.joints, path, n).0;
  }

  lemma MotionsReach(limits: seq<ArmGate.JointLimit>, pose: Pose, goal: map<int, real>, motions: seq<Manager.Motion>)
    requires AtPose(limits, pose, goal) && goal.Keys == pose.joints.deg.Keys && SentTo(goal, motions)
    ensures Reaches(limits, pose, motions)
  {
  }
}
