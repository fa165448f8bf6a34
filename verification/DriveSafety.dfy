/** The gate every drive command passes before the wire: latch, clamp, rate limit, deadman
    (agent/safety.py on top of pibot/control/safety.py). Time is an argument of each step. */
module DriveSafety {
  import opened Wrappers
  import opened Bounds
  import SeqNumbers
  import Codec

  /** An argument after Python's float(): a number, or something float() refuses. */
  datatype Arg = Num(r: real) | NotANumber

  datatype Msg = Msg(kind: Codec.Kind, seqNo: int, name: string, args: map<string, Arg>)

  datatype Limits = Limits(maxV: real, maxW: real, servoMin: real, servoMax: real, maxPwm: int)

  const MOTION: set<string> := {"drive", "motor", "servo"}
  const SAFE: set<string> := {"stop", "estop", "ping"}

  predicate IsMotion(m: Msg) { m.kind == Codec.Command && m.name in MOTION }

  predicate IsStop(m: Msg) { m.name == "stop" || m.name == "estop" }

  // ----- clamping -----

  function Number(args: map<string, Arg>, key: string): Option<real> {
    if key in args && args[key].Num? then Some(args[key].r) else None
  }

  /** None is the KeyError or ValueError of a missing or non-numeric argument. */
  function Clamp(m: Msg, limits: Limits): Option<Msg> {
    if m.kind != Codec.Command then Some(m)
    else if m.name == "drive" then
      match (Number(m.args, "v"), Number(m.args, "w"))
      case (Some(v), Some(w)) =>
        Some(m.(args := map["v" := Num(Bound(v, -limits.maxV, limits.maxV)),
                            "w" := Num(Bound(w, -limits.maxW, limits.maxW))]))
      case _ => None
    else if m.name == "servo" then
      match Number(m.args, "deg")
      case Some(deg) =>
        if "id" !in m.args then None
        else Some(m.(args := map["id" := m.args["id"],
                                 "deg" := Num(Bound(deg, limits.servoMin, limits.servoMax))]))
      case None => None
    else if m.name == "motor" then
      match Number(m.args, "pwm")
      case Some(pwm) =>
        if "id" !in m.args then None
        else
          var bounded := Truncate(Bound(pwm, -(limits.maxPwm as real), limits.maxPwm as real));
          Some(m.(args := map["id" := m.args["id"], "pwm" := Num(bounded as real)]))
      case None => None
    else Some(m)
  }

  /** Encoding raises KeyError when a schema argument is missing. */
  predicate Encodable(m: Msg) {
    match m.kind
    case Ack => true
    case Nak => true
    case _ =>
      match Codec.Schema(m.kind, m.name)
      case Some(keys) => forall k :: k in keys ==> k in m.args
      case None => true
  }

  function Prepared(m: Msg, limits: Limits): Option<Msg> {
    match Clamp(m, limits)
    case Some(clamped) => if Encodable(clamped) then Some(clamped) else None
    case None => None
  }

  predicate Sane(l: Limits) { l.maxV >= 0.0 && l.maxW >= 0.0 && l.servoMin <= l.servoMax && l.maxPwm >= 0 }

  predicate WithinRange(args: map<string, Arg>, key: string, low: real, high: real) {
    key in args && args[key].Num? && low <= args[key].r <= high
  }

  /** A motion frame whose actuating arguments lie in the configured range. */
  predicate WithinLimits(m: Msg, l: Limits) {
    && (m.name == "drive" ==>
          WithinRange(m.args, "v", -l.maxV, l.maxV) && WithinRange(m.args, "w", -l.maxW, l.maxW))
    && (m.name == "servo" ==> WithinRange(m.args, "deg", l.servoMin, l.servoMax))
    && (m.name == "motor" ==> WithinRange(m.args, "pwm", -(l.maxPwm as real), l.maxPwm as real))
  }

  // ----- the state machine -----

  datatype Config = Config(limits: Limits, deadman: real, minInterval: real)

  datatype Origin = Client | TripStop | TickStop

  datatype Frame = Frame(at: real, msg: Msg, origin: Origin)

  datatype State = State(
    latched: bool, fed: real, lastMotion: Option<real>, stops: nat, stopped: bool, wire: seq<Frame>)

  datatype Outcome = Sent | Estop | Rate | Raised

  datatype Event = Submit(at: real, msg: Msg) | Tick(at: real) | Trip(at: real) | Resume(at: real)

  function Initial(now: real): State { State(false, now, None, 0, false, []) }

  predicate Allows(latched: bool, m: Msg) {
    !latched || m.kind != Codec.Command || m.name !in MOTION || m.name in SAFE
  }

  predicate RateLimited(c: Config, s: State, now: real) {
    s.lastMotion.Some? && c.minInterval > 0.0 && now - s.lastMotion.value < c.minInterval
  }

  predicate Expired(c: Config, s: State, now: real) { now - s.fed > c.deadman }

  function Decide(c: Config, s: State, now: real, m: Msg): Outcome {
    if !Allows(s.latched, m) then Estop
    else if IsMotion(m) && RateLimited(c, s, now) then Rate
    else if Prepared(m, c.limits).None? then Raised
    else Sent
  }

  function Accept(s: State, now: real, original: Msg, clamped: Msg): State {
    s.(fed := now,
       lastMotion := if IsMotion(original) then Some(now) else s.lastMotion,
       stopped := IsStop(clamped),
       wire := s.wire + [Frame(now, clamped, Client)])
  }

  function HostStop(s: State): Msg { Msg(Codec.Command, s.stops % 256, "stop", map[]) }

  function EmitStop(s: State, now: real, origin: Origin): State {
    s.(fed := now, stops := s.stops + 1, stopped := true, wire := s.wire + [Frame(now, HostStop(s), origin)])
  }

  function Step(c: Config, s: State, e: Event): State {
    match e
    case Submit(now, m) =>
      if Decide(c, s, now, m) == Sent then Accept(s, now, m, Prepared(m, c.limits).value) else s
    case Tick(now) => if Expired(c, s, now) && !s.stopped then EmitStop(s, now, TickStop) else s
    case Trip(now) => EmitStop(s.(latched := true), now, TripStop)
    case Resume(now) => s.(latched := false)
  }

  // ----- the objects that implement it -----

  class EStop {
    var latched: bool

    constructor ()
      ensures !latched
    {
      latched := false;
    }

    method Trip()
      modifies this
      ensures latched
    {
      latched := true;
    }

    method Resume()
      modifies this
      ensures !latched
    {
      latched := false;
    }
  }

  class Watchdog {
    const deadman: real
    var last: real

    constructor (deadmanMs: real, now: real)
      ensures deadman == deadmanMs / 1000.0 && last == now
    {
      deadman, last := deadmanMs / 1000.0, now;
    }

    method Feed(now: real)
      modifies this
      ensures last == now
    {
      last := now;
    }

    predicate Expired(now: real)
      reads this
    {
      now - last > deadman
    }
  }

  /** The gate's state as one value. */
  ghost function StateOf(g: AgentSafety): State
    reads g, g.estop, g.wd, g.seqs
  {
    State(g.estop.latched, g.wd.last, g.lastMotion, g.seqs.issued, g.stopped, g.wire)
  }

  class AgentSafety {
    const estop: EStop
    const wd: Watchdog
    const seqs: SeqNumbers.SeqTracker
    const config: Config
    var lastMotion: Option<real>
    var stopped: bool
    /** Everything handed to `send`, with its time. */
    var wire: seq<Frame>

    ghost predicate Valid()
      reads this, seqs, wd
    {
      seqs.Valid() && wd.deadman == config.deadman
    }

    constructor (limits: Limits, deadmanMs: real, maxRateHz: real, now: real)
      ensures Valid() && fresh(estop) && fresh(wd) && fresh(seqs)
      ensures config == Config(limits, deadmanMs / 1000.0, if maxRateHz > 0.0 then 1.0 / maxRateHz else 0.0)
      ensures StateOf(this) == Initial(now)
    {
      estop := new EStop();
      wd := new Watchdog(deadmanMs, now);
      seqs := new SeqNumbers.SeqTracker();
      config := Config(limits, deadmanMs / 1000.0, if maxRateHz > 0.0 then 1.0 / maxRateHz else 0.0);
      lastMotion, stopped, wire := None, false, [];
    }

    method Submit(m: Msg, now: real) returns (outcome: Outcome)
      requires Valid()
      modifies this, wd
      ensures Valid()
      ensures outcome == Decide(config, old(StateOf(this)), now, m)
      ensures StateOf(this) == Step(config, old(StateOf(this)), Event.Submit(now, m))
    {
      if !Allows(estop.latched, m) {
        return Estop;
      }
      var isMotion := IsMotion(m);
      if isMotion && lastMotion.Some? && config.minInterval > 0.0 && now - lastMotion.value < config.minInterval {
        return Rate;
      }
      var clamped := Clamp(m, config.limits);
      if clamped.None? || !Encodable(clamped.value) {
        return Raised;
      }
      wire := wire + [Frame(now, clamped.value, Client)];
      wd.Feed(now);
      if isMotion {
        lastMotion := Some(now);
      }
      stopped := IsStop(clamped.value);
      outcome := Sent;
    }

    method TripEstop(now: real)
      requires Valid()
      modifies this, estop, wd, seqs
      ensures Valid() && StateOf(this) == Step(config, old(StateOf(this)), Event.Trip(now))
    {
      estop.Trip();
      Emit(now, TripStop);
    }

    method Resume()
      requires Valid()
      modifies estop
      ensures Valid() && forall now :: StateOf(this) == Step(config, old(StateOf(this)), Event.Resume(now))
    {
      estop.Resume();
    }

    method Tick(now: real)
      requires Valid()
      modifies this, wd, seqs
      ensures Valid() && StateOf(this) == Step(config, old(StateOf(this)), Event.Tick(now))
    {
      if wd.Expired(now) && !stopped {
        Emit(now, TickStop);
      }
    }

    method Emit(now: real, origin: Origin)
      requires Valid()
      modifies this, wd, seqs
      ensures Valid() && StateOf(this) == EmitStop(old(StateOf(this)), now, origin)
    {
      var seqNo := seqs.Next();
      wire := wire + [Frame(now, Msg(Codec.Command, seqNo, "stop", map[]), origin)];
      stopped := true;
      wd.Feed(now);
    }
  }
}
