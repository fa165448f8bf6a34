/** Which commands the drive gate lets through, and as what
    (agent/safety.py on top of pibot/control/safety.py). */
module DriveAcceptance {
  import opened Wrappers
  import opened DriveSafety
  import DriveLaws
  import opened Bounds
  import Codec

  // ----- the clamp -----

  predicate Whole(x: real) { x.Floor as real == x }

  /** `y` is what is left of `x` without its fraction. */
  predicate WholePart(x: real, y: real) {
    Whole(y) && if x < 0.0 then x <= y <= 0.0 && y < x + 1.0 else 0.0 <= y <= x < y + 1.0
  }

  /** The nearest value of -limit..limit, without its fraction. */
  predicate WholeNearest(x: real, limit: real, y: real) {
    if x < -limit then y == -limit else if x > limit then y == limit else WholePart(x, y)
  }

  predicate IsNumber(args: map<string, Arg>, key: string) { key in args && args[key].Num? }

  predicate NumberNear(args: map<string, Arg>, sent: map<string, Arg>, key: string, low: real, high: real) {
    IsNumber(args, key) && IsNumber(sent, key) && Nearest(args[key].r, low, high, sent[key].r)
  }

  /** Nothing but the arguments differs, and those are the clamped ones. */
  predicate ClampedTo(m: Msg, l: Limits, sent: Msg) {
    && sent.kind == m.kind && sent.seqNo == m.seqNo && sent.name == m.name
    && if m.name == "drive" then
         && sent.args.Keys == {"v", "w"}
         && NumberNear(m.args, sent.args, "v", -l.maxV, l.maxV) && NumberNear(m.args, sent.args, "w", -l.maxW, l.maxW)
       else if m.name == "servo" then
         && sent.args.Keys == {"id", "deg"} && "id" in m.args && sent.args["id"] == m.args["id"]
         && NumberNear(m.args, sent.args, "deg", l.servoMin, l.servoMax)
       else if m.name == "motor" then
         && sent.args.Keys == {"id", "pwm"} && "id" in m.args && sent.args["id"] == m.args["id"]
         && IsNumber(m.args, "pwm") && IsNumber(sent.args, "pwm")
         && WholeNearest(m.args["pwm"].r, l.maxPwm as real, sent.args["pwm"].r)
       else sent.args == m.args
  }

  /** The arguments a command must bring. */
  predicate Complete(m: Msg) {
    if m.name == "drive" then IsNumber(m.args, "v") && IsNumber(m.args, "w")
    else if m.name == "servo" then "id" in m.args && IsNumber(m.args, "deg")
    else if m.name == "motor" then "id" in m.args && IsNumber(m.args, "pwm")
    else
      match Codec.CommandArgs(m.name)
      case Some(keys) => forall k :: k in keys ==> k in m.args
      case None => true
  }

  lemma WholePartIsTruncated(x: real)
    ensures WholePart(x, Truncate(x) as real)
  {
  }

  lemma PwmIsWholeNearest(x: real, limit: int)
    requires limit >= 0
    ensures WholeNearest(x, limit as real, Truncate(Bound(x, -(limit as real), limit as real)) as real)
  {
    WholePartIsTruncated(x);
    TruncateWhole(limit);
    TruncateWhole(-limit);
  }

  /** A command is clamped exactly if it is complete; then each argument goes to the nearest value of its
      range, a motor's pwm without its fraction, and name, number and id stay as they are. */
  lemma ClampsToNearest(m: Msg, l: Limits)
    requires Sane(l) && m.kind == Codec.Command
    ensures Prepared(m, l).Some? <==> Complete(m)
    ensures Prepared(m, l).Some? ==> ClampedTo(m, l, Prepared(m, l).value)
  {
    if m.name == "motor" && IsNumber(m.args, "pwm") {
      PwmIsWholeNearest(m.args["pwm"].r, l.maxPwm);
    }
  }

  /** Exactly its own arguments, all of them in range. */
  predicate InRange(m: Msg, l: Limits) {
    if m.name == "drive" then
      && m.args.Keys == {"v", "w"} && IsNumber(m.args, "v") && IsNumber(m.args, "w")
      && -l.maxV <= m.args["v"].r <= l.maxV && -l.maxW <= m.args["w"].r <= l.maxW
    else if m.name == "servo" then
      m.args.Keys == {"id", "deg"} && IsNumber(m.args, "deg") && l.servoMin <= m.args["deg"].r <= l.servoMax
    else if m.name == "motor" then
      && m.args.Keys == {"id", "pwm"} && IsNumber(m.args, "pwm") && Whole(m.args["pwm"].r)
      && -(l.maxPwm as real) <= m.args["pwm"].r <= l.maxPwm as real
    else Complete(m)
  }

  lemma WholeIsItself(x: real, y: real)
    requires Whole(x) && WholePart(x, y)
    ensures y == x
  {
    SameInt(x.Floor, y.Floor);
  }

  lemma SameInt(i: int, k: int)
    requires i as real - 1.0 < k as real < i as real + 1.0
    ensures i == k
  {
    assert ((i - 1) as real) < (k as real) < ((i + 1) as real);
  }

  /** A command within the limits passes unchanged. */
  lemma InRangePassesUnchanged(m: Msg, l: Limits)
    requires Sane(l) && m.kind == Codec.Command && InRange(m, l)
    ensures Prepared(m, l) == Some(m)
  {
    assert Complete(m);
    ClampsToNearest(m, l);
    var sent := Prepared(m, l).value;
    if m.name == "motor" {
      WholeIsItself(m.args["pwm"].r, sent.args["pwm"].r);
    }
    assert sent.args == m.args;
  }

  // ----- what is accepted -----

  lemma OutcomeIs(c: Config, s: State, now: real, m: Msg)
    requires Sane(c.limits) && m.kind == Codec.Command
    ensures var motion := m.name in {"drive", "motor", "servo"};
            Decide(c, s, now, m)
            == if motion && s.latched then Estop
               else if motion && s.lastMotion.Some? && c.minInterval > 0.0 && now - s.lastMotion.value < c.minInterval then Rate
               else if !Complete(m) then Raised
               else Sent
  {
    ClampsToNearest(m, c.limits);
  }

  /** An accepted command puts one frame on the wire: the command, clamped, and unchanged if it is within
      the limits. Any other puts none. */
  lemma AcceptedFrame(c: Config, s: State, now: real, m: Msg)
    requires Sane(c.limits) && m.kind == Codec.Command
    ensures var wire := Step(c, s, Submit(now, m)).wire;
            if Decide(c, s, now, m) == Sent then
              && |wire| == |s.wire| + 1 && wire[..|s.wire|] == s.wire
              && wire[|s.wire|].at == now && wire[|s.wire|].origin == Client
              && ClampedTo(m, c.limits, wire[|s.wire|].msg)
              && (InRange(m, c.limits) ==> wire[|s.wire|].msg == m)
            else wire == s.wire
  {
    ClampsToNearest(m, c.limits);
    if InRange(m, c.limits) {
      InRangePassesUnchanged(m, c.limits);
    }
  }

  // ----- over runs -----

  /** The gate remembers the newest motion on the wire. */
  predicate Remembers(s: State) {
    s.lastMotion.Some? ==> exists i :: 0 <= i < |s.wire| && IsMotion(s.wire[i].msg) && s.wire[i].at == s.lastMotion.value
  }

  lemma StepRemembers(c: Config, s: State, e: Event)
    requires Remembers(s)
    ensures Remembers(Step(c, s, e))
  {
    var t := Step(c, s, e);
    if e.Submit? && Decide(c, s, e.at, e.msg) == Sent && IsMotion(e.msg) {
      DriveLaws.PreparedIsMotion(e.msg, c.limits);
      assert IsMotion(t.wire[|s.wire|].msg) && t.wire[|s.wire|].at == e.at;
    } else if s.lastMotion.Some? {
      var i :| 0 <= i < |s.wire| && IsMotion(s.wire[i].msg) && s.wire[i].at == s.lastMotion.value;
      assert t.wire[i] == s.wire[i];
    }
  }

  lemma {:induction false} RunRemembers(c: Config, start: real, events: seq<Event>)
    ensures Remembers(DriveLaws.Run(c, Initial(start), events))
    decreases |events|
  {
    if |events| == 0 {
    } else {
      var n := |events| - 1;
      RunRemembers(c, start, events[..n]);
      StepRemembers(c, DriveLaws.Run(c, Initial(start), events[..n]), events[n]);
    }
  }

  /** In every run, a complete motion command is accepted exactly if no trip came after the last resume and
      no motion frame on the wire is younger than the minimum interval. */
  lemma MotionAcceptedIff(c: Config, start: real, events: seq<Event>, now: real, m: Msg)
    requires Sane(c.limits) && c.minInterval >= 0.0 && DriveLaws.InOrder(start, events)
    requires IsMotion(m) && Complete(m)
    ensures var s := DriveLaws.Run(c, Initial(start), events);
            Decide(c, s, now, m) == Sent <==>
              && !DriveLaws.TrippedSinceResume(events)
              && forall i :: 0 <= i < |s.wire| && IsMotion(s.wire[i].msg) ==>
                   now - s.wire[i].at >= c.minInterval || c.minInterval == 0.0
  {
    OutcomeIs(c, DriveLaws.Run(c, Initial(start), events), now, m);
    DriveLaws.LatchedIffTripped(c, start, events);
    DriveLaws.RunIsSafe(c, start, events);
    RunRemembers(c, start, events);
  }

  // ----- the stops the host sends by itself -----

  function HostStops(wire: seq<Frame>): seq<Frame> {
    if |wire| == 0 then []
    else HostStops(wire[..|wire| - 1]) + (if wire[|wire| - 1].origin != Client then [wire[|wire| - 1]] else [])
  }

  lemma HostStopsSnoc(wire: seq<Frame>, f: Frame)
    ensures HostStops(wire + [f]) == HostStops(wire) + (if f.origin != Client then [f] else [])
  {
    assert (wire + [f])[..|wire|] == wire;
  }

  /** They are stop commands, numbered in turn. */
  predicate StopsNumbered(s: State) {
    && |HostStops(s.wire)| == s.stops
    && forall i :: 0 <= i < s.stops ==> HostStops(s.wire)[i].msg == Msg(Codec.Command, i % 256, "stop", map[])
  }

  /** The ticker stops only a robot that has been sent nothing for longer than the deadman window, and not one
      that was stopped last. */
  predicate StopsInTime(c: Config, start: real, wire: seq<Frame>) {
    && (|wire| > 0 && wire[0].origin == TickStop ==> wire[0].at - start > c.deadman)
    && forall i :: 0 < i < |wire| && wire[i].origin == TickStop ==>
         wire[i].at - wire[i - 1].at > c.deadman && wire[i - 1].msg.name != "stop" && wire[i - 1].msg.name != "estop"
  }

  predicate StopsFit(c: Config, start: real, s: State) {
    && StopsNumbered(s) && StopsInTime(c, start, s.wire)
    && (|s.wire| == 0 ==> s.fed == start && !s.stopped)
    && (|s.wire| > 0 ==> s.fed == s.wire[|s.wire| - 1].at && (s.stopped <==> IsStop(s.wire[|s.wire| - 1].msg)))
  }

  lemma EmitFits(c: Config, start: real, s: State, now: real, origin: Origin)
    requires StopsFit(c, start, s) && origin != Client && (origin == TickStop ==> Expired(c, s, now) && !s.stopped)
    ensures StopsFit(c, start, EmitStop(s, now, origin))
  {
    var t := EmitStop(s, now, origin);
    assert t.wire[|s.wire|] == Frame(now, HostStop(s), origin) && IsStop(HostStop(s));
    NumberedMore(s, now, origin);
    forall i | 0 < i < |t.wire| && t.wire[i].origin == TickStop
      ensures t.wire[i].at - t.wire[i - 1].at > c.deadman
      ensures t.wire[i - 1].msg.name != "stop" && t.wire[i - 1].msg.name != "estop"
    {
      assert t.wire[i - 1] == s.wire[i - 1];
      if i < |s.wire| {
        assert t.wire[i] == s.wire[i];
      }
    }
  }

  lemma NumberedMore(s: State, now: real, origin: Origin)
    requires StopsNumbered(s) && origin != Client
    ensures StopsNumbered(EmitStop(s, now, origin))
  {
    HostStopsSnoc(s.wire, Frame(now, HostStop(s), origin));
  }

  lemma AcceptFits(c: Config, start: real, s: State, now: real, m: Msg, sent: Msg)
    requires StopsFit(c, start, s)
    ensures StopsFit(c, start, Accept(s, now, m, sent))
  {
    HostStopsSnoc(s.wire, Frame(now, sent, Client));
    AppendClient(c, start, s.wire, Frame(now, sent, Client));
    assert Accept(s, now, m, sent).wire[|s.wire|] == Frame(now, sent, Client);
  }

  lemma AppendClient(c: Config, start: real, wire: seq<Frame>, f: Frame)
    requires StopsInTime(c, start, wire) && f.origin == Client
    ensures StopsInTime(c, start, wire + [f])
  {
  }

  lemma StepFits(c: Config, start: real, s: State, e: Event)
    requires StopsFit(c, start, s)
    ensures StopsFit(c, start, Step(c, s, e))
  {
    match e
    case Submit(now, m) =>
      if Decide(c, s, now, m) == Sent { AcceptFits(c, start, s, now, m, Prepared(m, c.limits).value); }
    case Tick(now) => if Expired(c, s, now) && !s.stopped { EmitFits(c, start, s, now, TickStop); }
    case Trip(now) => EmitFits(c, start, s.(latched := true), now, TripStop);
    case Resume(_) =>
  }

  /** In every run. */
  lemma {:induction false} HostStopsFit(c: Config, start: real, events: seq<Event>)
    ensures StopsFit(c, start, DriveLaws.Run(c, Initial(start), events))
    decreases |events|
  {
    if |events| == 0 {
    } else {
      var n := |events| - 1;
      HostStopsFit(c, start, events[..n]);
      StepFits(c, start, DriveLaws.Run(c, Initial(start), events[..n]), events[n]);
    }
  }
}
