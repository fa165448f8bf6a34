/** What the drive gate guarantees over every run of submit, tick, trip and resume events. */
module DriveLaws {
  import opened Wrappers
  import opened DriveSafety
  import opened Bounds
  import Codec

  function Run(c: Config, s: State, events: seq<Event>): State
    decreases |events|
  {
    if |events| == 0 then s
    else Step(c, Run(c, s, events[..|events| - 1]), events[|events| - 1])
  }

  lemma {:induction false} RunSplit(c: Config, s: State, a: seq<Event>, b: seq<Event>)
    ensures Run(c, s, a + b) == Run(c, Run(c, s, a), b)
    decreases |b|
  {
    if |b| == 0 {
      assert a + b == a;
    } else {
      assert (a + b)[..|a + b| - 1] == a + b[..|b| - 1];
      RunSplit(c, s, a, b[..|b| - 1]);
    }
  }

  predicate InOrder(start: real, events: seq<Event>) {
    && (forall i :: 0 <= i < |events| ==> start <= events[i].at)
    && forall i, j :: 0 <= i <= j < |events| ==> events[i].at <= events[j].at
  }

  lemma InOrderPrefix(start: real, events: seq<Event>)
    requires InOrder(start, events) && |events| > 0
    ensures InOrder(start, events[..|events| - 1])
  {
  }

  // ----- limits and rate -----

  lemma ClampIsWithinLimits(m: Msg, l: Limits)
    requires Sane(l) && m.kind == Codec.Command && Clamp(m, l).Some?
    ensures WithinLimits(Clamp(m, l).value, l)
  {
    if m.name == "motor" {
      var pwm := Bound(m.args["pwm"].r, -(l.maxPwm as real), l.maxPwm as real);
      assert -(l.maxPwm as real) <= Truncate(pwm) as real <= l.maxPwm as real;
    }
  }

  /** Clamping twice is clamping once: a frame that has been through the gate passes unchanged. */
  lemma ClampIdempotent(m: Msg, l: Limits)
    requires Sane(l) && Clamp(m, l).Some?
    ensures Clamp(Clamp(m, l).value, l) == Clamp(m, l)
  {
    var x := Clamp(m, l).value;
    if m.kind == Codec.Command && m.name == "motor" {
      var pwm := Bound(m.args["pwm"].r, -(l.maxPwm as real), l.maxPwm as real);
      assert -(l.maxPwm as real) <= Truncate(pwm) as real <= l.maxPwm as real;
      TruncateWhole(Truncate(pwm));
      assert x.args == map["id" := x.args["id"], "pwm" := x.args["pwm"]];
    } else if m.kind == Codec.Command && m.name == "drive" {
      assert x.args == map["v" := x.args["v"], "w" := x.args["w"]];
    } else if m.kind == Codec.Command && m.name == "servo" {
      assert x.args == map["id" := x.args["id"], "deg" := x.args["deg"]];
    }
  }

  /** All motion frames on the wire are within the limits. */
  predicate AllWithin(c: Config, wire: seq<Frame>) {
    forall i :: 0 <= i < |wire| && IsMotion(wire[i].msg) ==> WithinLimits(wire[i].msg, c.limits)
  }

  /** Any two motion frames are at least the minimum interval apart. */
  predicate Spaced(c: Config, wire: seq<Frame>) {
    forall i, j :: 0 <= i < j < |wire| && IsMotion(wire[i].msg) && IsMotion(wire[j].msg) ==>
      wire[j].at - wire[i].at >= c.minInterval
  }

  /** What the bookkeeping fields say about the wire. */
  predicate Books(s: State) {
    && (s.lastMotion.None? ==> forall i :: 0 <= i < |s.wire| ==> !IsMotion(s.wire[i].msg))
    && (s.lastMotion.Some? ==>
          && s.fed >= s.lastMotion.value
          && forall i :: 0 <= i < |s.wire| && IsMotion(s.wire[i].msg) ==> s.wire[i].at <= s.lastMotion.value)
    && (|s.wire| > 0 ==> s.fed == s.wire[|s.wire| - 1].at && s.stopped == IsStop(s.wire[|s.wire| - 1].msg))
    && (|s.wire| == 0 ==> !s.stopped)
  }

  predicate Safe(c: Config, s: State) { AllWithin(c, s.wire) && Spaced(c, s.wire) && Books(s) }

  lemma PreparedIsMotion(m: Msg, l: Limits)
    requires Prepared(m, l).Some?
    ensures IsMotion(Prepared(m, l).value) == IsMotion(m)
    ensures Prepared(m, l).value.name == m.name && Prepared(m, l).value.kind == m.kind
  {
  }

  lemma AcceptKeepsSafe(c: Config, s: State, now: real, m: Msg)
    requires Sane(c.limits) && c.minInterval >= 0.0 && Safe(c, s) && s.fed <= now
    requires Decide(c, s, now, m) == Sent
    ensures Safe(c, Accept(s, now, m, Prepared(m, c.limits).value))
  {
    PreparedIsMotion(m, c.limits);
    if IsMotion(m) {
      ClampIsWithinLimits(m, c.limits);
    }
  }

  lemma EmitKeepsSafe(c: Config, s: State, now: real, origin: Origin)
    requires Safe(c, s) && s.fed <= now
    ensures Safe(c, EmitStop(s, now, origin))
  {
  }

  lemma StepKeepsSafe(c: Config, s: State, e: Event)
    requires Sane(c.limits) && c.minInterval >= 0.0 && Safe(c, s) && s.fed <= e.at
    ensures Safe(c, Step(c, s, e)) && Step(c, s, e).fed <= e.at
  {
    match e
    case Submit(now, m) =>
      if Decide(c, s, now, m) == Sent {
        AcceptKeepsSafe(c, s, now, m);
      }
    case Tick(now) => EmitKeepsSafe(c, s, now, TickStop);
    case Trip(now) => EmitKeepsSafe(c, s.(latched := true), now, TripStop);
    case Resume(now) =>
  }

  lemma {:induction false} RunIsSafe(c: Config, start: real, events: seq<Event>)
    requires Sane(c.limits) && c.minInterval >= 0.0 && InOrder(start, events)
    ensures Safe(c, Run(c, Initial(start), events))
    ensures |events| > 0 ==> Run(c, Initial(start), events).fed <= events[|events| - 1].at
    ensures |events| == 0 ==> Run(c, Initial(start), events).fed == start
  {
    if |events| == 0 {
    } else {
      var n := |events| - 1;
      InOrderPrefix(start, events);
      RunIsSafe(c, start, events[..n]);
      StepKeepsSafe(c, Run(c, Initial(start), events[..n]), events[n]);
    }
  }

  /** Every motion frame ever sent is inside the configured limits, and any two are at least
      1/max_rate apart. */
  lemma EveryMotionFrameIsSafe(c: Config, start: real, events: seq<Event>)
    requires Sane(c.limits) && c.minInterval >= 0.0 && InOrder(start, events)
    ensures AllWithin(c, Run(c, Initial(start), events).wire)
    ensures Spaced(c, Run(c, Initial(start), events).wire)
  {
    RunIsSafe(c, start, events);
  }

  // ----- the latch -----

  lemma {:induction false} LatchedSendsNoMotion(c: Config, s: State, events: seq<Event>)
    requires s.latched && forall e :: e in events ==> !e.Resume?
    ensures var t := Run(c, s, events);
            && t.latched && s.wire <= t.wire
            && forall i :: |s.wire| <= i < |t.wire| ==> !IsMotion(t.wire[i].msg)
    decreases |events|
  {
    if |events| == 0 {
    } else {
      var n := |events| - 1;
      LatchedSendsNoMotion(c, s, events[..n]);
      assert events[n] in events;
    }
  }

  /** A trip puts a stop on the wire at once; until the next resume no motion frame follows it. */
  lemma TripHolds(c: Config, s: State, before: seq<Event>, at: real, after: seq<Event>)
    requires forall e :: e in after ==> !e.Resume?
    ensures var tripped := Run(c, s, before + [Trip(at)]);
            var t := Run(c, s, before + [Trip(at)] + after);
            var n := |Run(c, s, before).wire|;
            && |tripped.wire| == n + 1
            && tripped.wire[n].at == at && tripped.wire[n].msg.name == "stop" && tripped.wire[n].origin == TripStop
            && tripped.wire <= t.wire
            && forall i :: n <= i < |t.wire| ==> !IsMotion(t.wire[i].msg)
  {
    var tripped := Run(c, s, before + [Trip(at)]);
    assert (before + [Trip(at)])[..|before|] == before;
    RunSplit(c, s, before + [Trip(at)], after);
    LatchedSendsNoMotion(c, tripped, after);
  }

  /** Some event trips the latch and none after it resumes. */
  predicate TrippedSinceResume(events: seq<Event>) {
    exists i :: 0 <= i < |events| && TripsForGood(events, i)
  }

  predicate TripsForGood(events: seq<Event>, i: nat)
    requires i < |events|
  {
    events[i].Trip? && forall j :: i < j < |events| ==> !events[j].Resume?
  }

  lemma LastEventTrips(events: seq<Event>)
    requires |events| > 0
    ensures var last, before := events[|events| - 1], events[..|events| - 1];
            TrippedSinceResume(events) <==> last.Trip? || (!last.Resume? && TrippedSinceResume(before))
  {
    var n := |events| - 1;
    var before := events[..n];
    if TrippedSinceResume(events) && !events[n].Trip? {
      var i :| 0 <= i < |events| && TripsForGood(events, i);
      assert TripsForGood(before, i);
    }
    if events[n].Trip? {
      assert TripsForGood(events, n);
    } else if !events[n].Resume? && TrippedSinceResume(before) {
      var i :| 0 <= i < |before| && TripsForGood(before, i);
      assert forall j :: i < j < n ==> events[j] == before[j];
      assert TripsForGood(events, i);
    }
  }

  /** The latch is set exactly when a trip came after the last resume, whatever is submitted and however
      the ticker runs. */
  lemma {:induction false} LatchedIffTripped(c: Config, start: real, events: seq<Event>)
    ensures Run(c, Initial(start), events).latched <==> TrippedSinceResume(events)
  {
    if |events| == 0 {
    } else {
      LatchedIffTripped(c, start, events[..|events| - 1]);
      LastEventTrips(events);
    }
  }

  /** So a motion command is refused as stopped exactly then, and in a run without a trip never: no
      command submitted, an `estop` least of all, makes the gate refuse motion. */
  lemma OnlyTripsStopMotion(c: Config, start: real, events: seq<Event>, now: real, m: Msg)
    requires IsMotion(m)
    ensures Decide(c, Run(c, Initial(start), events), now, m) == Estop <==> TrippedSinceResume(events)
    ensures (forall e :: e in events ==> !e.Trip?) ==>
              !Run(c, Initial(start), events).latched
              && Decide(c, Run(c, Initial(start), events), now, m) != Estop
  {
    LatchedIffTripped(c, start, events);
    if TrippedSinceResume(events) {
      var i :| 0 <= i < |events| && TripsForGood(events, i);
      assert events[i] in events;
    }
  }

  /** A witness: an `estop` that arrives as an ordinary command is put on the wire but latches nothing: a drive
      command is accepted right after it. */
  lemma SubmittedEstopDoesNotLatch(c: Config, start: real)
    requires Sane(c.limits)
    ensures var drive := Msg(Codec.Command, 1, "drive", map["v" := Num(0.0), "w" := Num(0.0)]);
            var s := Run(c, Initial(start), [Submit(start, Msg(Codec.Command, 0, "estop", map[]))]);
            && |s.wire| == 1 && s.wire[0].msg.name == "estop"
            && !s.latched && Decide(c, s, start, drive) == Sent
  {
    var estop := Msg(Codec.Command, 0, "estop", map[]);
    var events := [Submit(start, estop)];
    assert events[..0] == [];
    assert Prepared(estop, c.limits) == Some(estop);
    assert Decide(c, Initial(start), start, estop) == Sent;
    var s := Run(c, Initial(start), events);
    assert s == Step(c, Run(c, Initial(start), []), events[0]);
    assert s == Accept(Initial(start), start, estop, estop);
    var drive := Msg(Codec.Command, 1, "drive", map["v" := Num(0.0), "w" := Num(0.0)]);
    assert Clamp(drive, c.limits).Some?;
    assert Prepared(drive, c.limits).Some?;
  }

  // ----- the deadman -----

  predicate Grew(c: Config, s: State, events: seq<Event>, j: nat)
    requires j < |events|
  {
    |Run(c, s, events[..j + 1]).wire| > |Run(c, s, events[..j]).wire|
  }

  /** Some tick falls in the `period` after `from`. */
  predicate TickWithin(events: seq<Event>, from: real, period: real) {
    exists k :: 0 <= k < |events| && events[k].Tick? && from < events[k].at <= from + period
  }

  /** Ticks are never more than `period` apart while the run lasts. */
  ghost predicate TicksEvery(events: seq<Event>, start: real, period: real) {
    forall from: real :: start <= from && |events| > 0 && from + period <= events[|events| - 1].at ==>
      TickWithin(events, from, period)
  }

  lemma {:induction false} QuietRunKeepsTimer(c: Config, s: State, events: seq<Event>, i: nat, k: nat)
    requires i <= k <= |events|
    requires forall j :: i <= j < k ==> !Grew(c, s, events, j)
    ensures Run(c, s, events[..k]).fed == Run(c, s, events[..i]).fed
    ensures Run(c, s, events[..k]).stopped == Run(c, s, events[..i]).stopped
    ensures Run(c, s, events[..k]).wire == Run(c, s, events[..i]).wire
    decreases k - i
  {
    if i < k {
      QuietRunKeepsTimer(c, s, events, i, k - 1);
      assert !Grew(c, s, events, k - 1);
      assert events[..k][..k - 1] == events[..k - 1];
    }
  }

  /** After a frame other than a stop goes on the wire at time t, then by t + deadman + P another
      command has been accepted or a stop is on the wire, in every run that lasts that long and whose
      ticks are at most P apart. */
  lemma DeadmanFires(c: Config, start: real, events: seq<Event>, i: nat, period: real)
    requires Sane(c.limits) && c.minInterval >= 0.0 && c.deadman >= 0.0 && period > 0.0
    requires InOrder(start, events) && TicksEvery(events, start, period)
    requires i < |events| && Grew(c, Initial(start), events, i)
    requires !IsStop(Last(Run(c, Initial(start), events[..i + 1])).msg)
    requires events[i].at + c.deadman + period <= events[|events| - 1].at
    ensures exists j :: i < j < |events| && Grew(c, Initial(start), events, j)
                        && events[j].at <= events[i].at + c.deadman + period
  {
    var s0 := Initial(start);
    var t := events[i].at;
    assert TickWithin(events, t + c.deadman, period);
    var k :| 0 <= k < |events| && events[k].Tick? && t + c.deadman < events[k].at <= t + c.deadman + period;
    assert i < k;
    if forall j :: i < j < k ==> !Grew(c, s0, events, j) {
      QuietTickStops(c, start, events, i, k);
    } else {
      var j :| i < j < k && Grew(c, s0, events, j);
    }
  }

  lemma QuietTickStops(c: Config, start: real, events: seq<Event>, i: nat, k: nat)
    requires i < k < |events| && Grew(c, Initial(start), events, i)
    requires !IsStop(Last(Run(c, Initial(start), events[..i + 1])).msg)
    requires forall j :: i < j < k ==> !Grew(c, Initial(start), events, j)
    requires events[k].Tick? && events[i].at + c.deadman < events[k].at
    ensures Grew(c, Initial(start), events, k)
  {
    QuietRunKeepsTimer(c, Initial(start), events, i + 1, k);
    GrowthFeeds(c, start, events, i);
    assert events[..k + 1][..k] == events[..k];
  }

  function Last(s: State): Frame {
    if |s.wire| > 0 then s.wire[|s.wire| - 1] else Frame(0.0, Msg(Codec.Command, 0, "stop", map[]), TickStop)
  }

  lemma GrowthFeeds(c: Config, start: real, events: seq<Event>, i: nat)
    requires i < |events| && Grew(c, Initial(start), events, i)
    ensures var s := Run(c, Initial(start), events[..i + 1]);
            s.fed == events[i].at && s.stopped == IsStop(Last(s).msg)
  {
    assert events[..i + 1][..i] == events[..i];
  }

  function TickStops(wire: seq<Frame>): nat {
    if |wire| == 0 then 0
    else TickStops(wire[..|wire| - 1]) + (if wire[|wire| - 1].origin == TickStop then 1 else 0)
  }

  function AcceptedNonStops(wire: seq<Frame>): nat {
    if |wire| == 0 then 0
    else
      var f := wire[|wire| - 1];
      AcceptedNonStops(wire[..|wire| - 1]) + (if f.origin == Client && !IsStop(f.msg) then 1 else 0)
  }

  lemma CountsSnoc(wire: seq<Frame>, f: Frame)
    ensures TickStops(wire + [f]) == TickStops(wire) + (if f.origin == TickStop then 1 else 0)
    ensures AcceptedNonStops(wire + [f])
         == AcceptedNonStops(wire) + (if f.origin == Client && !IsStop(f.msg) then 1 else 0)
  {
    assert (wire + [f])[..|wire|] == wire;
  }

  predicate NoSpam(s: State) {
    TickStops(s.wire) + (if s.stopped then 0 else 1) <= AcceptedNonStops(s.wire) + 1
  }

  lemma StepDoesNotSpam(c: Config, s: State, e: Event)
    requires NoSpam(s)
    ensures NoSpam(Step(c, s, e))
  {
    match e
    case Submit(now, m) =>
      if Decide(c, s, now, m) == Sent {
        CountsSnoc(s.wire, Frame(now, Prepared(m, c.limits).value, Client));
      }
    case Tick(now) => CountsSnoc(s.wire, Frame(now, HostStop(s), TickStop));
    case Trip(now) => CountsSnoc(s.wire, Frame(now, HostStop(s), TripStop));
    case Resume(now) =>
  }

  /** The ticker never spams: its stops outnumber the accepted non-stop commands by at most one,
      and by none while a command other than a stop is the last thing sent. */
  lemma {:induction false} TicksDoNotSpam(c: Config, start: real, events: seq<Event>)
    ensures NoSpam(Run(c, Initial(start), events))
  {
    if |events| == 0 {
    } else {
      var n := |events| - 1;
      TicksDoNotSpam(c, start, events[..n]);
      StepDoesNotSpam(c, Run(c, Initial(start), events[..n]), events[n]);
    }
  }
}
