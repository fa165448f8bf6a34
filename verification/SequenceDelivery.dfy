/** What a played sequence puts on the wire (pibot/control/sequence.py). */
module SequenceDelivery {
  import opened DriveSafety
  import opened DriveAcceptance
  import opened Sequence
  import DriveLaws
  import SequenceLaws
  import Codec

  /** The command a step stands for. */
  function CommandOf(step: ScriptStep): Msg { Msg(Codec.Command, 0, step.cmd, step.args) }

  /** The frame an acknowledged dispatch of a step must put on the wire. */
  predicate FrameFor(c: Config, steps: seq<ScriptStep>, e: Entry, f: Frame) {
    && e.index < |steps| && f.at == e.at && f.origin == Client
    && ClampedTo(CommandOf(steps[e.index]), c.limits, f.msg)
    && (InRange(CommandOf(steps[e.index]), c.limits) ==> f.msg == CommandOf(steps[e.index]))
  }

  /** What the reply to a dispatch says about the step. */
  predicate ReplyFits(steps: seq<ScriptStep>, e: Entry) {
    && e.index < |steps|
    && var step := steps[e.index];
       match e.reply
       case Tripped => step.cmd == "estop"
       case Acked => step.cmd != "estop" && Complete(CommandOf(step))
       case Crashed => step.cmd != "estop" && !Complete(CommandOf(step))
       case _ => step.cmd in {"drive", "motor", "servo"}
  }

  lemma ReplyFitsStep(c: Config, steps: seq<ScriptStep>, now: real, s: State, index: nat, first: bool)
    requires Sane(c.limits) && index < |steps|
    ensures ReplyFits(steps, Entry(now, index, first, Answer(c, s, now, steps[index])))
  {
    OutcomeIs(c, s, now, CommandOf(steps[index]));
  }

  /** One dispatch: an acknowledged command puts its frame on the wire; an `estop` latches the gate and puts
      a stop there that is no client's; anything else puts nothing there. */
  lemma DispatchedFrames(c: Config, steps: seq<ScriptStep>, now: real, s: State, index: nat, first: bool)
    requires Sane(c.limits) && index < |steps|
    ensures var e, t := Entry(now, index, first, Answer(c, s, now, steps[index])), Dispatched(c, s, now, steps[index]);
            match e.reply
            case Acked => |t.wire| == |s.wire| + 1 && t.wire[..|s.wire|] == s.wire && FrameFor(c, steps, e, t.wire[|s.wire|])
            case Tripped =>
              && t.latched && |t.wire| == |s.wire| + 1 && t.wire[..|s.wire|] == s.wire
              && t.wire[|s.wire|].origin != Client && t.wire[|s.wire|].msg.name == "stop" && t.wire[|s.wire|].at == now
            case RejectedEstop => t == s && s.latched
            case _ => t == s
  {
    OutcomeIs(c, s, now, CommandOf(steps[index]));
    AcceptedFrame(c, s, now, CommandOf(steps[index]));
  }

  // ----- over a whole run -----

  /** The acknowledged dispatches, in order. */
  function Acknowledged(log: seq<Entry>): seq<Entry> {
    if |log| == 0 then []
    else
      var e := log[|log| - 1];
      Acknowledged(log[..|log| - 1]) + (if e.reply == Acked then [e] else [])
  }

  lemma AcknowledgedSnoc(log: seq<Entry>, e: Entry)
    ensures Acknowledged(log + [e]) == Acknowledged(log) + (if e.reply == Acked then [e] else [])
  {
    assert (log + [e])[..|log|] == log;
  }

  /** The acknowledged dispatches have their frames at these places of the wire, from `base` on and in
      order; `alone` says that no other client frame is there. */
  predicate Delivered(c: Config, steps: seq<ScriptStep>, acks: seq<Entry>, wire: seq<Frame>, base: nat, places: seq<nat>,
                      alone: bool)
  {
    && base <= |wire| && |places| == |acks|
    && (forall k :: 0 <= k < |places| ==> base <= places[k] < |wire| && FrameFor(c, steps, acks[k], wire[places[k]]))
    && (forall k, l :: 0 <= k < l < |places| ==> places[k] < places[l])
    && (alone ==> forall i :: base <= i < |wire| && wire[i].origin == Client ==> i in places)
  }

  lemma DeliveredMore(c: Config, steps: seq<ScriptStep>, acks: seq<Entry>, wire: seq<Frame>, wire': seq<Frame>, base: nat,
                      places: seq<nat>, alone: bool)
    requires Delivered(c, steps, acks, wire, base, places, alone) && wire <= wire'
    requires alone ==> forall i :: |wire| <= i < |wire'| ==> wire'[i].origin != Client
    ensures Delivered(c, steps, acks, wire', base, places, alone)
  {
  }

  lemma DeliveredOne(c: Config, steps: seq<ScriptStep>, acks: seq<Entry>, e: Entry, wire: seq<Frame>, f: Frame, base: nat,
                     places: seq<nat>, alone: bool)
    requires Delivered(c, steps, acks, wire, base, places, alone) && FrameFor(c, steps, e, f)
    ensures Delivered(c, steps, acks + [e], wire + [f], base, places + [|wire|], alone)
  {
    assert |wire| == (places + [|wire|])[|places|];
    forall i | base <= i < |wire + [f]| && (wire + [f])[i].origin == Client && alone
      ensures i in places + [|wire|]
    {
      if i < |wire| {
        assert i in places;
      }
    }
  }

  /** All of it: the frames, and every reply in the log fits its step. */
  predicate Accounted(c: Config, steps: seq<ScriptStep>, p: Progress, base: nat, places: seq<nat>, alone: bool) {
    && Delivered(c, steps, Acknowledged(p.log), p.gate.wire, base, places, alone)
    && (forall i :: 0 <= i < |p.log| ==> ReplyFits(steps, p.log[i]))
    && (p.code == Aborted ==> p.gate.latched)
  }

  lemma SendDelivers(c: Config, steps: seq<ScriptStep>, now: real, p: Progress, index: nat, first: bool, base: nat,
                     places: seq<nat>, alone: bool) returns (places': seq<nat>)
    requires Sane(c.limits) && index < |steps| && Accounted(c, steps, p, base, places, alone)
    ensures Accounted(c, steps, Send(c, steps, now, p, index, first), base, places', alone)
  {
    var e := Entry(now, index, first, Answer(c, p.gate, now, steps[index]));
    var wire, wire' := p.gate.wire, Dispatched(c, p.gate, now, steps[index]).wire;
    AcknowledgedSnoc(p.log, e);
    ReplyFitsStep(c, steps, now, p.gate, index, first);
    DispatchedFrames(c, steps, now, p.gate, index, first);
    if e.reply == Acked {
      places' := places + [|wire|];
      assert wire' == wire + [wire'[|wire|]];
      DeliveredOne(c, steps, Acknowledged(p.log), e, wire, wire'[|wire|], base, places, alone);
    } else {
      places' := places;
      DeliveredMore(c, steps, Acknowledged(p.log), wire, wire', base, places, alone);
    }
  }

  lemma {:induction false} CatchupDelivers(c: Config, steps: seq<ScriptStep>, now: real, p: Progress, base: nat,
                                           places: seq<nat>, alone: bool) returns (places': seq<nat>)
    requires Sane(c.limits) && Accounted(c, steps, p, base, places, alone)
    ensures Accounted(c, steps, Catchup(c, steps, now, p), base, places', alone)
    decreases |steps| - p.next
  {
    places' := places;
    if p.code == Running && p.next < |steps| && steps[p.next].at <= now {
      places' := SendDelivers(c, steps, now, p, p.next, true, base, places, alone);
      places' := CatchupDelivers(c, steps, now, Send(c, steps, now, p, p.next, true), base, places', alone);
    }
  }

  lemma HoldDelivers(c: Config, steps: seq<ScriptStep>, now: real, p: Progress, base: nat, places: seq<nat>, alone: bool)
    returns (places': seq<nat>)
    requires Sane(c.limits) && Accounted(c, steps, p, base, places, alone)
    ensures Accounted(c, steps, Hold(c, steps, now, p), base, places', alone)
  {
    places' := places;
    if p.code == Running && Hold(c, steps, now, p).code != Completed && Holding(steps, p) {
      places' := SendDelivers(c, steps, now, p, p.next - 1, false, base, places, alone);
    }
  }

  /** Events other than submissions put no client frame on the wire, and none takes a frame away. */
  lemma {:induction false} RunAppends(c: Config, s: State, events: seq<Event>)
    ensures s.wire <= DriveLaws.Run(c, s, events).wire
    ensures (forall e :: e in events ==> !e.Submit?) ==>
              forall i :: |s.wire| <= i < |DriveLaws.Run(c, s, events).wire| ==>
                DriveLaws.Run(c, s, events).wire[i].origin != Client
    decreases |events|
  {
    if |events| == 0 {
    } else {
      var n := |events| - 1;
      assert events[n] in events && forall e :: e in events[..n] ==> e in events;
      RunAppends(c, s, events[..n]);
    }
  }

  predicate Alone(rounds: seq<Round>) { forall r, e :: r in rounds && e in r.during ==> !e.Submit? }

  /** For every run: each acknowledged dispatch has its own frame on the wire, at its time, in order and
      carrying the step's arguments, clamped and unchanged if within the limits. If no other client submits
      anything meanwhile, no other client frame is there. */
  lemma {:induction false} EntriesReachTheWire(
    c: Config, steps: seq<ScriptStep>, rounds: seq<Round>, gate: State, n: nat) returns (places: seq<nat>)
    requires Sane(c.limits) && n <= |rounds|
    ensures var p := After(c, steps, rounds, gate, n);
            Delivered(c, steps, Acknowledged(p.log), p.gate.wire, |gate.wire|, places, Alone(rounds[..n]))
    ensures Accounted(c, steps, After(c, steps, rounds, gate, n), |gate.wire|, places, Alone(rounds[..n]))
  {
    var base := |gate.wire|;
    if n == 0 {
      places := [];
    } else {
      places := EntriesReachTheWire(c, steps, rounds, gate, n - 1);
      var p, round := After(c, steps, rounds, gate, n - 1), rounds[n - 1];
      var before, alone := Alone(rounds[..n - 1]), Alone(rounds[..n]);
      assert rounds[..n] == rounds[..n - 1] + [round];
      if p.code == Running {
        places := RoundDelivers(c, steps, round, p, base, places, before);
      }
      Fewer(c, steps, NextRound(c, steps, round, p), base, places, before && Quiet(round), alone);
    }
  }

  predicate Quiet(round: Round) { forall e :: e in round.during ==> !e.Submit? }

  lemma Fewer(c: Config, steps: seq<ScriptStep>, p: Progress, base: nat, places: seq<nat>, alone: bool, less: bool)
    requires Accounted(c, steps, p, base, places, alone) && (less ==> alone)
    ensures Accounted(c, steps, p, base, places, less)
  {
  }

  lemma RoundDelivers(c: Config, steps: seq<ScriptStep>, round: Round, p: Progress, base: nat, places: seq<nat>,
                      alone: bool) returns (places': seq<nat>)
    requires Sane(c.limits) && Accounted(c, steps, p, base, places, alone) && p.code == Running
    ensures Accounted(c, steps, NextRound(c, steps, round, p), base, places', alone && Quiet(round))
  {
    places' := CatchupDelivers(c, steps, round.now, p, base, places, alone);
    places' := HoldDelivers(c, steps, round.now, Catchup(c, steps, round.now, p), base, places', alone);
    var q := Pass(c, steps, round.now, p);
    Fewer(c, steps, q, base, places', alone, alone && Quiet(round));
    if q.code == Running {
      RunAppends(c, q.gate, round.during);
      DeliveredMore(c, steps, Acknowledged(q.log), q.gate.wire, DriveLaws.Run(c, q.gate, round.during).wire, base, places',
                    alone && Quiet(round));
    }
  }

  /** A sequence ends Failed only at a step that lacks an argument or has one that is no number; and Aborted
      only with the gate latched. */
  lemma HowItEnds(c: Config, steps: seq<ScriptStep>, rounds: seq<Round>, gate: State, n: nat)
    requires Sane(c.limits) && n <= |rounds| && SequenceLaws.Advancing(rounds)
    ensures var p := After(c, steps, rounds, gate, n);
            && (p.code == Failed ==>
                  && |p.log| > 0 && p.log[|p.log| - 1].index < |steps|
                  && !Complete(CommandOf(steps[p.log[|p.log| - 1].index])))
            && (p.code == Aborted ==> p.gate.latched)
  {
    var places := EntriesReachTheWire(c, steps, rounds, gate, n);
    SequenceLaws.PlaysInOrder(c, steps, rounds, gate, n);
    var p := After(c, steps, rounds, gate, n);
    if p.code == Failed {
      assert SequenceLaws.Decided(p.log, p.code);
      assert ReplyFits(steps, p.log[|p.log| - 1]);
    }
  }

  /** So a sequence of complete steps never ends Failed. */
  lemma CompleteStepsNeverFail(c: Config, steps: seq<ScriptStep>, rounds: seq<Round>, gate: State, n: nat)
    requires Sane(c.limits) && n <= |rounds| && SequenceLaws.Advancing(rounds)
    requires forall step :: step in steps ==> Complete(CommandOf(step))
    ensures After(c, steps, rounds, gate, n).code != Failed
  {
    HowItEnds(c, steps, rounds, gate, n);
  }
}
