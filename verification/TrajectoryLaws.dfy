/** What paced playback of a joint trajectory commands (pibot/arm/trajectory.py played by
    `run_trajectory` in pibot/arm/manager.py, after the gate of pibot/arm/safety.py). */
module TrajectoryLaws {
  import opened Trajectory
  import opened ArmManager
  import ArmGate

  /** A sampled ramp: the progress at each sample, the time since the one before, and a bound on how
      fast progress is made. */
  datatype Path = Path(start: Angles, goal: Angles, progress: seq<real>, dts: seq<real>, top: real) {
    ghost predicate Smooth() {
      && start.deg.Keys == goal.deg.Keys
      && |progress| == |dts| >= 2
      && progress[0] == 0.0 && progress[|progress| - 1] == 1.0
      && (forall i :: 0 <= i < |progress| ==> 0.0 <= progress[i] <= 1.0)
      && (forall i :: 0 < i < |progress| ==> Advances(i))
    }

    ghost predicate Advances(i: nat)
      requires 0 < i < |progress| == |dts|
    {
      dts[i] > 0.0 && 0.0 <= progress[i] - progress[i - 1] <= top * dts[i]
    }

    /** Where a joint is commanded at sample `i`. */
    function At(i: nat, joint: int): real
      requires start.deg.Keys == goal.deg.Keys && i < |progress| && joint in goal.deg
    {
      Blend(start.deg[joint], goal.deg[joint], progress[i])
    }

    function Distance(joint: int): (d: real)
      requires start.deg.Keys == goal.deg.Keys && joint in goal.deg
      ensures d >= 0.0
    {
      Abs(goal.deg[joint] - start.deg[joint])
    }
  }

  function FramesOf(path: Path): (frames: seq<Frame>)
    requires path.start.deg.Keys == path.goal.deg.Keys && |path.progress| == |path.dts|
    ensures |frames| == |path.progress|
  {
    seq(|path.progress|, i requires 0 <= i < |path.progress| =>
      if i == 0 then Frame(path.start, 0.0)
      else Frame(BlendAll(path.start, path.goal, path.progress[i]), path.dts[i]))
  }

  // ----- the path that joint_trajectory samples -----

  predicate Accepted(start: Angles, goal: Angles, seconds: real, rate: real, accelFraction: real) {
    start.deg.Keys == goal.deg.Keys && seconds > 0.0 && rate > 0.0 && AccelOk(accelFraction)
  }

  function Samples(times: seq<real>, curve: real -> real): (progress: seq<real>)
    ensures |progress| == |times|
  {
    seq(|times|, i requires 0 <= i < |times| => curve(times[i]))
  }

  function CurveOf(seconds: real, accelFraction: real): real -> real
    requires AccelOk(accelFraction) && seconds > 0.0
  {
    t => Progress(t, seconds, accelFraction)
  }

  function PathOf(start: Angles, goal: Angles, seconds: real, rate: real, accelFraction: real): Path
    requires Accepted(start, goal, seconds, rate, accelFraction)
  {
    PathAlong(start, goal, Times(seconds, rate), CurveOf(seconds, accelFraction), TopSpeed(seconds, accelFraction))
  }

  function PathAlong(start: Angles, goal: Angles, times: seq<real>, curve: real -> real, top: real): Path {
    Path(start, goal, Samples(times, curve),
         seq(|times|, i requires 0 <= i < |times| => if i == 0 then 0.0 else times[i] - times[i - 1]), top)
  }

  /** `joint_trajectory` returns the frames of a smooth path: progress runs from 0 to 1, never back,
      at most 1/(seconds*(1-a)) per second, and every later dt is positive. */
  lemma RampIsSmooth(start: Angles, goal: Angles, seconds: real, rate: real, accelFraction: real)
    requires Accepted(start, goal, seconds, rate, accelFraction)
    ensures var path := PathOf(start, goal, seconds, rate, accelFraction);
            path.Smooth() && Ramp(start, goal, seconds, rate, accelFraction) == FramesOf(path)
  {
    var path := PathOf(start, goal, seconds, rate, accelFraction);
    forall i | 0 <= i < |path.progress|
      ensures 0.0 <= path.progress[i] <= 1.0 && (i > 0 ==> path.Advances(i))
    {
      SampleAdvances(start, goal, seconds, rate, accelFraction, i);
    }
    PathEnds(start, goal, seconds, rate, accelFraction);
    assert Ramp(start, goal, seconds, rate, accelFraction) == FramesOf(path);
  }

  lemma PathEnds(start: Angles, goal: Angles, seconds: real, rate: real, accelFraction: real)
    requires Accepted(start, goal, seconds, rate, accelFraction)
    ensures var progress := PathOf(start, goal, seconds, rate, accelFraction).progress;
            progress[0] == 0.0 && progress[|progress| - 1] == 1.0
  {
    TimesIncrease(seconds, rate);
    ProgressIsMonotoneAndLipschitz(0.0, 0.0, seconds, accelFraction);
  }

  /** Within 0 and 1, never falling, and at most `top` times the distance. */
  ghost predicate Climbs(curve: real -> real, top: real, s: real, t: real) {
    0.0 <= curve(s) <= curve(t) <= 1.0 && curve(t) - curve(s) <= top * (t - s)
  }

  lemma CurveClimbs(seconds: real, accelFraction: real, s: real, t: real)
    requires AccelOk(accelFraction) && seconds > 0.0 && s <= t
    ensures Climbs(CurveOf(seconds, accelFraction), TopSpeed(seconds, accelFraction), s, t)
  {
    ProgressIsMonotoneAndLipschitz(s, t, seconds, accelFraction);
  }

  lemma SamplesAdvance(start: Angles, goal: Angles, times: seq<real>, curve: real -> real, top: real, i: nat)
    requires i < |times| && Climbs(curve, top, if i > 0 then times[i - 1] else times[i], times[i])
    requires i > 0 ==> times[i - 1] < times[i]
    ensures var path := PathAlong(start, goal, times, curve, top);
            0.0 <= path.progress[i] <= 1.0 && (i > 0 ==> path.Advances(i))
  {
  }

  lemma TimesAt(seconds: real, rate: real, i: nat)
    requires seconds > 0.0 && rate > 0.0 && i < |Times(seconds, rate)|
    ensures i > 0 ==> Times(seconds, rate)[i - 1] < Times(seconds, rate)[i]
  {
    TimesIncrease(seconds, rate);
  }

  lemma SampleAdvances(start: Angles, goal: Angles, seconds: real, rate: real, accelFraction: real, i: nat)
    requires Accepted(start, goal, seconds, rate, accelFraction) && i < |Times(seconds, rate)|
    ensures var path := PathOf(start, goal, seconds, rate, accelFraction);
            0.0 <= path.progress[i] <= 1.0 && (i > 0 ==> path.Advances(i))
  {
    var times := Times(seconds, rate);
    TimesAt(seconds, rate, i);
    CurveClimbs(seconds, accelFraction, if i > 0 then times[i - 1] else times[i], times[i]);
    SamplesAdvance(start, goal, times, CurveOf(seconds, accelFraction), TopSpeed(seconds, accelFraction), i);
  }

  function Total(dts: seq<real>, n: nat): real
    requires n < |dts|
  {
    if n == 0 then 0.0 else Total(dts, n - 1) + dts[n]
  }

  lemma {:induction false} TotalTelescopes(times: seq<real>, dts: seq<real>, n: nat)
    requires n < |times| == |dts|
    requires forall i :: 0 < i < |times| ==> dts[i] == times[i] - times[i - 1]
    ensures Total(dts, n) == times[n] - times[0]
  {
    if n == 0 {
    } else {
      TotalTelescopes(times, dts, n - 1);
    }
  }

  /** The time steps add up to the requested duration. */
  lemma StepsSumToDuration(start: Angles, goal: Angles, seconds: real, rate: real, accelFraction: real)
    requires Accepted(start, goal, seconds, rate, accelFraction)
    ensures var path := PathOf(start, goal, seconds, rate, accelFraction);
            Total(path.dts, |path.dts| - 1) == seconds
  {
    var times := Times(seconds, rate);
    TimesIncrease(seconds, rate);
    TotalTelescopes(times, PathOf(start, goal, seconds, rate, accelFraction).dts, |times| - 1);
  }

  // ----- one joint -----

  lemma BlendBetween(a: real, b: real, progress: real)
    requires 0.0 <= progress <= 1.0
    ensures a <= Blend(a, b, progress) <= b || b <= Blend(a, b, progress) <= a
  {
    var d := if a <= b then b - a else a - b;
    MulNonNegative(d, progress);
    MulNonNegative(d, 1.0 - progress);
    assert d * progress + d * (1.0 - progress) == d;
    assert a > b ==> (b - a) * progress == -(d * progress);
  }

  lemma BlendDistance(a: real, b: real, p: real, q: real)
    requires p <= q
    ensures Abs(Blend(a, b, q) - Blend(a, b, p)) == Abs(b - a) * (q - p)
  {
    assert Blend(a, b, q) - Blend(a, b, p) == (b - a) * (q - p);
    MulNonNegative(Abs(b - a), q - p);
  }

  /** The last target is exactly the goal. */
  lemma LastIsGoal(path: Path, joint: int)
    requires path.Smooth() && joint in path.goal.deg
    ensures FramesOf(path)[|path.progress| - 1].targets.deg[joint] == path.goal.deg[joint]
  {
    FullBlend(path.start.deg[joint], path.goal.deg[joint]);
  }

  lemma FullBlend(a: real, b: real)
    ensures Blend(a, b, 1.0) == b
  {
  }

  /** Every commanded angle lies between the start and the goal. */
  lemma AlwaysBetween(path: Path, i: nat, joint: int)
    requires path.Smooth() && i < |path.progress| && joint in path.goal.deg
    ensures var a, b := path.start.deg[joint], path.goal.deg[joint];
            a <= path.At(i, joint) <= b || b <= path.At(i, joint) <= a
  {
    BlendBetween(path.start.deg[joint], path.goal.deg[joint], path.progress[i]);
  }

  /** What segment `i` asks of a joint. */
  function SegmentSpeed(path: Path, i: nat, joint: int): real
    requires path.Smooth() && 0 < i < |path.progress| && joint in path.goal.deg
  {
    assert path.Advances(i);
    Speed(path.At(i - 1, joint), path.At(i, joint), path.dts[i])
  }

  lemma SpeedTimesTime(from: real, to: real, dt: real)
    requires dt > 0.0
    ensures Speed(from, to, dt) * dt == Abs(to - from)
  {
  }

  lemma SpeedAtMost(from: real, to: real, dt: real, limit: real)
    requires dt > 0.0 && Abs(to - from) <= limit * dt
    ensures 0.0 <= Speed(from, to, dt) <= limit
  {
    var v := Speed(from, to, dt);
    SpeedTimesTime(from, to, dt);
    if v > limit {
      MulPositive(v - limit, dt);
    }
    if v < 0.0 {
      MulPositive(-v, dt);
    }
  }

  lemma ScaledBound(d: real, v: real, dt: real, gain: real)
    requires d >= 0.0 && gain <= v * dt
    ensures d * gain <= (d * v) * dt
  {
    MulNonNegative(d, v * dt - gain);
    assert d * (v * dt - gain) == d * (v * dt) - d * gain;
    Associate(d, v, dt);
  }

  /** No segment commands a joint faster than |goal - start| times the steepest progress. */
  lemma SpeedBound(path: Path, i: nat, joint: int)
    requires path.Smooth() && 0 < i < |path.progress| && joint in path.goal.deg
    ensures 0.0 <= SegmentSpeed(path, i, joint) <= path.Distance(joint) * path.top
  {
    assert path.Advances(i);
    var x, y, dt := path.progress[i - 1], path.progress[i], path.dts[i];
    BlendDistance(path.start.deg[joint], path.goal.deg[joint], x, y);
    ScaledBound(path.Distance(joint), path.top, dt, y - x);
    SpeedAtMost(path.At(i - 1, joint), path.At(i, joint), dt, path.Distance(joint) * path.top);
  }

  /** Speed times time, segment by segment. */
  function Legs(path: Path, joint: int): (legs: seq<real>)
    requires path.Smooth() && joint in path.goal.deg
    ensures |legs| == |path.progress|
  {
    seq(|path.progress|, i requires 0 <= i < |path.progress| =>
      if i == 0 then 0.0 else SegmentSpeed(path, i, joint) * path.dts[i])
  }

  lemma LegLength(path: Path, n: nat, joint: int)
    requires path.Smooth() && 0 < n < |path.progress| && joint in path.goal.deg
    ensures Legs(path, joint)[n] == path.Distance(joint) * (path.progress[n] - path.progress[n - 1])
  {
    assert path.Advances(n);
    BlendDistance(path.start.deg[joint], path.goal.deg[joint], path.progress[n - 1], path.progress[n]);
    SpeedTimesTime(path.At(n - 1, joint), path.At(n, joint), path.dts[n]);
  }

  lemma {:induction false} LegsTelescope(legs: seq<real>, progress: seq<real>, d: real, n: nat)
    requires n < |legs| == |progress|
    requires forall i :: 0 < i < |legs| ==> legs[i] == d * (progress[i] - progress[i - 1])
    ensures Total(legs, n) == d * (progress[n] - progress[0])
  {
    if n == 0 {
    } else {
      LegsTelescope(legs, progress, d, n - 1);
      assert d * (progress[n - 1] - progress[0]) + d * (progress[n] - progress[n - 1])
          == d * (progress[n] - progress[0]);
    }
  }

  predicate Scaled(legs: seq<real>, progress: seq<real>, d: real) {
    |legs| == |progress| && forall i :: 0 < i < |legs| ==> legs[i] == d * (progress[i] - progress[i - 1])
  }

  lemma LegsAreScaled(path: Path, joint: int)
    requires path.Smooth() && joint in path.goal.deg
    ensures Scaled(Legs(path, joint), path.progress, path.Distance(joint))
  {
    forall i | 0 < i < |path.progress|
      ensures Legs(path, joint)[i] == path.Distance(joint) * (path.progress[i] - path.progress[i - 1])
    {
      LegLength(path, i, joint);
    }
  }

  lemma WholeTravel(legs: seq<real>, progress: seq<real>, d: real)
    requires Scaled(legs, progress, d) && |progress| > 0
    requires progress[0] == 0.0 && progress[|progress| - 1] == 1.0
    ensures Total(legs, |progress| - 1) == d
  {
    LegsTelescope(legs, progress, d, |progress| - 1);
  }

  /** Per joint, the commanded speeds times their durations add up to exactly |goal - start|. */
  lemma TravelIsDistance(path: Path, joint: int)
    requires path.Smooth() && joint in path.goal.deg
    ensures Total(Legs(path, joint), |path.progress| - 1) == path.Distance(joint)
  {
    LegsAreScaled(path, joint);
    WholeTravel(Legs(path, joint), path.progress, path.Distance(joint));
  }

  // ----- the whole arm -----

  lemma {:induction false} SegmentSends(joints: seq<JointRef>, last: Angles, frame: Frame, n: nat)
    requires n <= |frame.targets.order| && frame.dt > 0.0
    requires forall j :: j in frame.targets.deg ==> j in last.deg && Locate(joints, j).Some?
    ensures var (motions, status) := Segment(joints, last, frame, n);
            && status == Going && |motions| == n
            && forall k :: 0 <= k < n ==>
                 var j := frame.targets.order[k];
                 j in frame.targets.deg && j in last.deg
                 && motions[k] == Motion(j, frame.targets.deg[j], Speed(last.deg[j], frame.targets.deg[j], frame.dt))
  {
    if n == 0 {
    } else {
      assert frame.targets.order[n - 1] in frame.targets.order;
      SegmentSends(joints, last, frame, n - 1);
    }
  }

  /** The motion addresses a joint of the path, at an angle of its path and no faster than its bound. */
  predicate OnPath(path: Path, m: Motion)
    requires path.start.deg.Keys == path.goal.deg.Keys
  {
    && m.joint in path.goal.deg
    && (var a, b := path.start.deg[m.joint], path.goal.deg[m.joint]; a <= m.deg <= b || b <= m.deg <= a)
    && 0.0 <= m.dps <= path.Distance(m.joint) * path.top
  }

  lemma FrameTargets(path: Path, i: nat, joint: int)
    requires path.Smooth() && i < |path.progress| && joint in path.goal.deg
    ensures var frame := FramesOf(path)[i];
            joint in frame.targets.deg && frame.targets.deg[joint] == path.At(i, joint)
  {
    NoBlend(path.start.deg[joint], path.goal.deg[joint]);
  }

  lemma NoBlend(a: real, b: real)
    ensures Blend(a, b, 0.0) == a
  {
  }

  lemma MotionOnPath(path: Path, n: nat, joint: int, from: real, to: real, dt: real)
    requires path.Smooth() && 0 < n < |path.progress| && joint in path.goal.deg
    requires from == path.At(n - 1, joint) && to == path.At(n, joint) && dt == path.dts[n] && dt > 0.0
    ensures OnPath(path, Motion(joint, to, Speed(from, to, dt)))
  {
    AlwaysBetween(path, n, joint);
    SpeedBound(path, n, joint);
  }

  lemma FrameMotionOnPath(path: Path, n: nat, joint: int)
    requires path.Smooth() && 0 < n < |path.progress| && joint in path.goal.deg
    ensures var last, frame := FramesOf(path)[n - 1].targets, FramesOf(path)[n];
            && joint in last.deg && joint in frame.targets.deg && frame.dt > 0.0
            && OnPath(path, Motion(joint, frame.targets.deg[joint],
                                   Speed(last.deg[joint], frame.targets.deg[joint], frame.dt)))
  {
    FrameTargets(path, n - 1, joint);
    FrameTargets(path, n, joint);
    FrameTime(path, n);
    MotionOnPath(path, n, joint, path.At(n - 1, joint), path.At(n, joint), path.dts[n]);
  }

  lemma FrameTime(path: Path, n: nat)
    requires path.Smooth() && 0 < n < |path.progress|
    ensures FramesOf(path)[n].dt == path.dts[n] > 0.0
  {
    assert path.Advances(n);
  }

  function SegmentOf(joints: seq<JointRef>, path: Path, n: nat): (seq<Motion>, Status)
    requires path.Smooth() && 0 < n < |path.progress|
  {
    assert path.Advances(n);
    var frame := FramesOf(path)[n];
    Segment(joints, FramesOf(path)[n - 1].targets, frame, |frame.targets.order|)
  }

  lemma SegmentOnPath(joints: seq<JointRef>, path: Path, n: nat)
    requires path.Smooth() && 0 < n < |path.progress|
    requires forall j :: j in path.goal.deg ==> Locate(joints, j).Some?
    ensures var (motions, status) := SegmentOf(joints, path, n);
            status == Going && |motions| == |SortedJoints(path.goal)| && forall m :: m in motions ==> OnPath(path, m)
  {
    assert path.Advances(n);
    var last, frame := FramesOf(path)[n - 1].targets, FramesOf(path)[n];
    var order := SortedJoints(path.goal);
    SegmentSends(joints, last, frame, |order|);
    var motions := SegmentOf(joints, path, n).0;
    forall k | 0 <= k < |motions|
      ensures OnPath(path, motions[k])
    {
      assert order[k] in order;
      FrameMotionOnPath(path, n, order[k]);
    }
  }

  /** The motions of a segment, by joint and target. */
  lemma SegmentTargets(joints: seq<JointRef>, last: Angles, frame: Frame)
    requires frame.dt > 0.0
    requires forall j :: j in frame.targets.deg ==> j in last.deg && Locate(joints, j).Some?
    ensures var motions, order := Segment(joints, last, frame, |frame.targets.order|).0, frame.targets.order;
            && |motions| == |order|
            && forall k :: 0 <= k < |order| ==>
                 order[k] in frame.targets.deg && motions[k].joint == order[k] && motions[k].deg == frame.targets.deg[order[k]]
  {
    SegmentSends(joints, last, frame, |frame.targets.order|);
  }

  /** The last segment sends the joints to the goal, in order. */
  lemma LastSegmentTargets(joints: seq<JointRef>, path: Path)
    requires path.Smooth() && forall j :: j in path.goal.deg ==> Locate(joints, j).Some?
    ensures var motions, order := SegmentOf(joints, path, |path.progress| - 1).0, SortedJoints(path.goal);
            && |motions| == |order|
            && forall k :: 0 <= k < |order| ==>
                 order[k] in path.goal.deg && motions[k].joint == order[k] && motions[k].deg == path.goal.deg[order[k]]
  {
    var last, frame := LastFrames(joints, path);
    FrameToGoal(joints, last, frame, path.goal.deg);
  }

  lemma LastFrames(joints: seq<JointRef>, path: Path) returns (last: Angles, frame: Frame)
    requires path.Smooth()
    ensures frame.dt > 0.0 && last.deg.Keys == frame.targets.deg.Keys == path.goal.deg.Keys
    ensures frame.targets.order == SortedJoints(path.goal)
    ensures forall k :: 0 <= k < |frame.targets.order| ==>
              var j := frame.targets.order[k]; j in path.goal.deg && frame.targets.deg[j] == path.goal.deg[j]
    ensures SegmentOf(joints, path, |path.progress| - 1) == Segment(joints, last, frame, |frame.targets.order|)
  {
    LastFrameIsGoal(path);
    last, frame := FramesAround(joints, path, |path.progress| - 1);
  }

  lemma FramesAround(joints: seq<JointRef>, path: Path, n: nat) returns (last: Angles, frame: Frame)
    requires path.Smooth() && 0 < n < |path.progress|
    ensures frame == FramesOf(path)[n] && frame.dt > 0.0 && last.deg.Keys == path.goal.deg.Keys
    ensures SegmentOf(joints, path, n) == Segment(joints, last, frame, |frame.targets.order|)
  {
    FrameTime(path, n);
    FrameJoints(path, n - 1);
    last, frame := FramesOf(path)[n - 1].targets, FramesOf(path)[n];
  }

  lemma FrameJoints(path: Path, i: nat)
    requires path.Smooth() && i < |path.progress|
    ensures FramesOf(path)[i].targets.deg.Keys == path.goal.deg.Keys
  {
  }

  lemma FrameToGoal(joints: seq<JointRef>, last: Angles, frame: Frame, goal: map<int, real>)
    requires frame.dt > 0.0 && last.deg.Keys == frame.targets.deg.Keys == goal.Keys
    requires forall j :: j in goal ==> Locate(joints, j).Some?
    requires forall k :: 0 <= k < |frame.targets.order| ==>
               var j := frame.targets.order[k]; j in goal && j in frame.targets.deg && frame.targets.deg[j] == goal[j]
    ensures var motions, order := Segment(joints, last, frame, |frame.targets.order|).0, frame.targets.order;
            && |motions| == |order|
            && forall k :: 0 <= k < |order| ==>
                 order[k] in goal && motions[k].joint == order[k] && motions[k].deg == goal[order[k]]
  {
    SegmentTargets(joints, last, frame);
  }

  lemma LastFrameIsGoal(path: Path)
    requires path.Smooth()
    ensures var frame, order := FramesOf(path)[|path.progress| - 1], SortedJoints(path.goal);
            && frame.targets.order == order && frame.targets.deg.Keys == path.goal.deg.Keys
            && forall k :: 0 <= k < |order| ==>
                 order[k] in path.goal.deg && frame.targets.deg[order[k]] == path.goal.deg[order[k]]
  {
    var order := SortedJoints(path.goal);
    forall k | 0 <= k < |order|
      ensures order[k] in path.goal.deg
           && FramesOf(path)[|path.progress| - 1].targets.deg[order[k]] == path.goal.deg[order[k]]
    {
      assert order[k] in order;
      LastIsGoal(path, order[k]);
    }
  }

  /** How many motions `segments` full segments send: segments * perSegment. */
  function SentBy(segments: nat, perSegment: nat): nat {
    if segments == 0 then 0 else SentBy(segments - 1, perSegment) + perSegment
  }

  lemma {:induction false} SentByIsProduct(segments: nat, perSegment: nat)
    ensures SentBy(segments, perSegment) == segments * perSegment
  {
    if segments == 0 {
    } else {
      SentByIsProduct(segments - 1, perSegment);
      assert segments * perSegment == (segments - 1) * perSegment + perSegment;
    }
  }

  /** `n` frames into playback: no error, everything sent on the path, and if it was not aborted, one
      motion per joint and segment and the time of those segments slept. */
  ghost predicate PlayedOk(path: Path, r: Playback, n: nat)
    requires path.Smooth() && 1 <= n <= |path.progress|
  {
    && (r.status == Going || r.status == Stopped)
    && (forall m :: m in r.motions ==> OnPath(path, m))
    && (r.status == Going ==>
          r.slept == Total(path.dts, n - 1) && |r.motions| == SentBy(n - 1, |SortedJoints(path.goal)|))
  }

  lemma PlayFrameOk(joints: seq<JointRef>, path: Path, aborted: bool, r: Playback, n: nat)
    requires path.Smooth() && 1 < n <= |path.progress| && PlayedOk(path, r, n - 1)
    requires forall j :: j in path.goal.deg ==> Locate(joints, j).Some?
    ensures var q := PlayFrame(joints, FramesOf(path)[n - 2].targets, FramesOf(path)[n - 1], aborted, r);
            PlayedOk(path, q, n) && (r.status == Going && !aborted ==> q.status == Going)
  {
    if r.status == Going && !aborted {
      assert path.Advances(n - 1);
      SegmentOnPath(joints, path, n - 1);
      var motions := SegmentOf(joints, path, n - 1).0;
      assert PlayFrame(joints, FramesOf(path)[n - 2].targets, FramesOf(path)[n - 1], aborted, r)
          == Playback(r.motions + motions, r.slept + path.dts[n - 1], Going);
    }
  }

  lemma {:induction false} PlaybackSoFar(joints: seq<JointRef>, path: Path, abort: nat -> bool, n: nat)
    requires path.Smooth() && 1 <= n <= |path.progress|
    requires forall j :: j in path.goal.deg ==> Locate(joints, j).Some?
    ensures PlayedOk(path, Play(joints, FramesOf(path), abort, n), n)
    ensures (forall k :: 1 <= k < n ==> !abort(k)) ==> Play(joints, FramesOf(path), abort, n).status == Going
  {
    if n > 1 {
      PlaybackSoFar(joints, path, abort, n - 1);
      PlayFrameOk(joints, path, abort(n - 1), Play(joints, FramesOf(path), abort, n - 1), n);
    }
  }

  /** Playing what joint_trajectory returns never reaches an error branch, whenever it is aborted, and
      everything it sends is on the path; unaborted it sends one motion per joint and segment and
      takes exactly the requested time. */
  lemma PlaybackNeverFails(
    joints: seq<JointRef>, start: Angles, goal: Angles, seconds: real, rate: real, accelFraction: real,
    abort: nat -> bool)
    requires Accepted(start, goal, seconds, rate, accelFraction)
    requires forall j :: j in goal.deg ==> Locate(joints, j).Some?
    ensures var frames := Ramp(start, goal, seconds, rate, accelFraction);
            var r := Play(joints, frames, abort, |frames|);
            && (r.status == Going || r.status == Stopped)
            && (forall m :: m in r.motions ==> OnPath(PathOf(start, goal, seconds, rate, accelFraction), m))
            && ((forall k :: 1 <= k < |frames| ==> !abort(k)) ==>
                  r.status == Going && r.slept == seconds
                  && |r.motions| == SentBy(|frames| - 1, |SortedJoints(goal)|))
  {
    var path := PathOf(start, goal, seconds, rate, accelFraction);
    RampIsSmooth(start, goal, seconds, rate, accelFraction);
    StepsSumToDuration(start, goal, seconds, rate, accelFraction);
    PathGoal(start, goal, seconds, rate, accelFraction);
    PlaysPath(joints, path, goal, Ramp(start, goal, seconds, rate, accelFraction), abort, seconds);
  }

  lemma PathGoal(start: Angles, goal: Angles, seconds: real, rate: real, accelFraction: real)
    requires Accepted(start, goal, seconds, rate, accelFraction)
    ensures PathOf(start, goal, seconds, rate, accelFraction).goal == goal
  {
  }

  /** Played to the end, it is as many motions as there are intervals times joints. */
  lemma FullPlaybackCount(
    joints: seq<JointRef>, start: Angles, goal: Angles, seconds: real, rate: real, accelFraction: real,
    abort: nat -> bool, segments: nat, perSegment: nat)
    requires Accepted(start, goal, seconds, rate, accelFraction)
    requires forall j :: j in goal.deg ==> Locate(joints, j).Some?
    requires segments == Intervals(seconds, rate) && perSegment == |SortedJoints(goal)|
    requires forall k :: 1 <= k <= segments ==> !abort(k)
    ensures var frames := Ramp(start, goal, seconds, rate, accelFraction);
            |Play(joints, frames, abort, |frames|).motions| == segments * perSegment
  {
    PlaybackNeverFails(joints, start, goal, seconds, rate, accelFraction, abort);
    SentByIsProduct(segments, perSegment);
  }

  lemma PlaysPath(
    joints: seq<JointRef>, path: Path, goal: Angles, frames: seq<Frame>, abort: nat -> bool, seconds: real)
    requires path.Smooth() && frames == FramesOf(path) && goal == path.goal
    requires Total(path.dts, |path.dts| - 1) == seconds
    requires forall j :: j in goal.deg ==> Locate(joints, j).Some?
    ensures var r := Play(joints, frames, abort, |frames|);
            && (r.status == Going || r.status == Stopped)
            && (forall m :: m in r.motions ==> OnPath(path, m))
            && ((forall k :: 1 <= k < |frames| ==> !abort(k)) ==>
                  r.status == Going && r.slept == seconds
                  && |r.motions| == SentBy(|frames| - 1, |SortedJoints(goal)|))
  {
    PlaybackSoFar(joints, path, abort, |frames|);
    PlayedThrough(path, Play(joints, frames, abort, |frames|), |frames|, |SortedJoints(goal)|, seconds);
  }

  lemma PlayedThrough(path: Path, r: Playback, n: nat, perSegment: nat, seconds: real)
    requires path.Smooth() && n == |path.progress| && PlayedOk(path, r, n) && Total(path.dts, n - 1) == seconds
    requires perSegment == |SortedJoints(path.goal)|
    ensures (r.status == Going || r.status == Stopped) && forall m :: m in r.motions ==> OnPath(path, m)
    ensures r.status == Going ==> r.slept == seconds && |r.motions| == SentBy(n - 1, perSegment)
  {
  }

  /** A move accepted by the gate, sampled and played: within the joint limits if the arm is. */
  lemma GatedPlaybackWithinLimits(
    limits: seq<ArmGate.JointLimit>, joints: seq<JointRef>, start: Angles, goal: Angles, seconds: real, rate: real,
    accelFraction: real, abort: nat -> bool, m: Motion)
    requires ArmGate.Sane(limits) && Accepted(start, goal, seconds, rate, accelFraction)
    requires forall j :: j in goal.deg ==>
               && 0 <= j < |limits| && j < |joints|
               && goal.deg[j] == ArmGate.Clamped(limits, j, goal.deg[j])
               && limits[j].minDeg <= start.deg[j] <= limits[j].maxDeg
    requires var frames := Ramp(start, goal, seconds, rate, accelFraction);
             m in Play(joints, frames, abort, |frames|).motions
    ensures m.joint in goal.deg && limits[m.joint].minDeg <= m.deg <= limits[m.joint].maxDeg
  {
    PlaybackNeverFails(joints, start, goal, seconds, rate, accelFraction, abort);
    assert OnPath(PathOf(start, goal, seconds, rate, accelFraction), m);
    assert limits[m.joint] in limits;
  }
}
