/** What the scheduler guarantees about every sequence it plays. */
module SequenceLaws {
  import opened DriveSafety
  import opened Sequence
  import DriveLaws

  // ----- each step once, in order, not early, and nothing after an abort -----

  /** The steps in the order of their first dispatch. */
  function Firsts(log: seq<Entry>): seq<nat> {
    if |log| == 0 then []
    else
      var e := log[|log| - 1];
      Firsts(log[..|log| - 1]) + (if e.first then [e.index] else [])
  }

  /** A later entry repeats the step last dispatched, which is a motion. */
  predicate Repeats(steps: seq<ScriptStep>, log: seq<Entry>, i: nat)
    requires i < |log|
  {
    log[i].index < |steps| && log[i].index + 1 == |Firsts(log[..i])| && steps[log[i].index].cmd in MOTION
  }

  function Naturals(n: nat): seq<nat> { if n == 0 then [] else Naturals(n - 1) + [n - 1] }

  predicate InTime(steps: seq<ScriptStep>, log: seq<Entry>) {
    forall i :: 0 <= i < |log| ==> log[i].index < |steps| && steps[log[i].index].at <= log[i].at
  }

  predicate OnlyHolds(steps: seq<ScriptStep>, log: seq<Entry>) {
    forall i :: 0 <= i < |log| && !log[i].first ==> Repeats(steps, log, i)
  }

  predicate NothingAfterEnd(log: seq<Entry>) {
    forall i :: 0 <= i < |log| - 1 ==> CodeAfter(log[i].reply) == Running
  }

  /** The last reply decides, unless the sequence is complete. */
  predicate Decided(log: seq<Entry>, code: Code) {
    var last := if |log| == 0 then Running else CodeAfter(log[|log| - 1].reply);
    code == last || (last == Running && code == Completed)
  }

  predicate Orderly(steps: seq<ScriptStep>, p: Progress) {
    && p.next <= |steps| && Firsts(p.log) == Naturals(p.next)
    && InTime(steps, p.log) && OnlyHolds(steps, p.log) && NothingAfterEnd(p.log) && Decided(p.log, p.code)
    && (p.code == Completed ==> p.next == |steps|)
  }

  lemma FirstsSnoc(log: seq<Entry>, e: Entry)
    ensures Firsts(log + [e]) == Firsts(log) + (if e.first then [e.index] else [])
  {
    assert (log + [e])[..|log|] == log;
  }

  /** `q` is `p` with one more dispatch: of the next step, or again of the motion being held. */
  predicate Extends(steps: seq<ScriptStep>, p: Progress, q: Progress, e: Entry) {
    && q.log == p.log + [e] && q.code == CodeAfter(e.reply)
    && e.index < |steps| && steps[e.index].at <= e.at
    && if e.first then e.index == p.next && q.next == p.next + 1
       else Holding(steps, p) && e.index == p.next - 1 && q.next == p.next
  }

  lemma InTimeSnoc(steps: seq<ScriptStep>, log: seq<Entry>, e: Entry)
    requires InTime(steps, log) && e.index < |steps| && steps[e.index].at <= e.at
    ensures InTime(steps, log + [e])
  {
  }

  lemma NothingAfterEndSnoc(log: seq<Entry>, e: Entry)
    requires NothingAfterEnd(log) && Decided(log, Running)
    ensures NothingAfterEnd(log + [e]) && Decided(log + [e], CodeAfter(e.reply))
  {
  }

  lemma OnlyHoldsSnoc(steps: seq<ScriptStep>, log: seq<Entry>, e: Entry)
    requires OnlyHolds(steps, log)
    requires !e.first ==> e.index < |steps| && e.index + 1 == |Firsts(log)| && steps[e.index].cmd in MOTION
    ensures OnlyHolds(steps, log + [e])
  {
    RepeatsSnoc(steps, log, e);
    if !e.first {
      assert Repeats(steps, log + [e], |log|);
    }
  }

  lemma {:induction false} NaturalsLength(n: nat)
    ensures |Naturals(n)| == n
  {
    if n == 0 {
    } else {
      NaturalsLength(n - 1);
    }
  }

  lemma ExtendKeepsOrder(steps: seq<ScriptStep>, p: Progress, q: Progress, e: Entry)
    requires Orderly(steps, p) && p.code == Running && Extends(steps, p, q, e)
    ensures Orderly(steps, q)
  {
    NaturalsLength(p.next);
    FirstsSnoc(p.log, e);
    InTimeSnoc(steps, p.log, e);
    OnlyHoldsSnoc(steps, p.log, e);
    NothingAfterEndSnoc(p.log, e);
  }

  lemma SendKeepsOrder(c: Config, steps: seq<ScriptStep>, now: real, p: Progress, index: nat, first: bool)
    requires index < |steps| && Orderly(steps, p) && p.code == Running
    requires if first then index == p.next && steps[index].at <= now else Holding(steps, p) && index == p.next - 1
    requires !first ==> steps[index].at <= now
    ensures Orderly(steps, Send(c, steps, now, p, index, first))
  {
    ExtendKeepsOrder(steps, p, Send(c, steps, now, p, index, first),
                     Entry(now, index, first, Answer(c, p.gate, now, steps[index])));
  }

  lemma RepeatsSnoc(steps: seq<ScriptStep>, log: seq<Entry>, e: Entry)
    ensures forall i :: 0 <= i < |log| ==> Repeats(steps, log + [e], i) == Repeats(steps, log, i)
    ensures (log + [e])[..|log|] == log
  {
    forall i | 0 <= i < |log|
      ensures Repeats(steps, log + [e], i) == Repeats(steps, log, i)
    {
      assert (log + [e])[..i] == log[..i];
    }
  }

  lemma {:induction false} CatchupKeepsOrder(c: Config, steps: seq<ScriptStep>, now: real, p: Progress)
    requires Orderly(steps, p)
    ensures var q := Catchup(c, steps, now, p);
            && Orderly(steps, q) && q.next >= p.next
            && (q.code == Running ==> q.next == |steps| || steps[q.next].at > now)
    decreases |steps| - p.next
  {
    if p.code == Running && p.next < |steps| && steps[p.next].at <= now {
      SendKeepsOrder(c, steps, now, p, p.next, true);
      CatchupKeepsOrder(c, steps, now, Send(c, steps, now, p, p.next, true));
    }
  }

  /** The step held is due: it was dispatched in this round or an earlier one. */
  predicate HeldIsDue(steps: seq<ScriptStep>, now: real, p: Progress) {
    0 < p.next <= |steps| ==> steps[p.next - 1].at <= now
  }

  lemma {:induction false} CatchupKeepsDue(c: Config, steps: seq<ScriptStep>, now: real, p: Progress)
    requires HeldIsDue(steps, now, p)
    ensures HeldIsDue(steps, now, Catchup(c, steps, now, p))
    decreases |steps| - p.next
  {
    if p.code == Running && p.next < |steps| && steps[p.next].at <= now {
      CatchupKeepsDue(c, steps, now, Send(c, steps, now, p, p.next, true));
    }
  }

  predicate Advancing(rounds: seq<Round>) {
    forall i, j :: 0 <= i <= j < |rounds| ==> rounds[i].now <= rounds[j].now
  }

  /** Each step is first dispatched once, in order and never early; in between only the motion last
      dispatched is repeated; the reply that ends a sequence is the last thing it gets. */
  lemma {:induction false} PlaysInOrder(c: Config, steps: seq<ScriptStep>, rounds: seq<Round>, gate: State, n: nat)
    requires n <= |rounds| && Advancing(rounds)
    ensures Orderly(steps, After(c, steps, rounds, gate, n))
    ensures n > 0 ==> HeldIsDue(steps, rounds[n - 1].now, After(c, steps, rounds, gate, n))
    ensures n == 0 ==> After(c, steps, rounds, gate, n).next == 0
  {
    if n == 0 {
    } else {
      PlaysInOrder(c, steps, rounds, gate, n - 1);
      var p := After(c, steps, rounds, gate, n - 1);
      var now := rounds[n - 1].now;
      assert HeldIsDue(steps, now, p) by {
        if n > 1 {
          assert rounds[n - 2].now <= now;
        }
      }
      RoundKeepsOrder(c, steps, rounds[n - 1], p);
    }
  }

  lemma RoundKeepsOrder(c: Config, steps: seq<ScriptStep>, round: Round, p: Progress)
    requires Orderly(steps, p) && HeldIsDue(steps, round.now, p)
    ensures var q := NextRound(c, steps, round, p); Orderly(steps, q) && HeldIsDue(steps, round.now, q)
  {
    if p.code == Running {
      PassKeepsOrder(c, steps, round.now, p);
      var q := Pass(c, steps, round.now, p);
      OrderlyIgnoresGate(steps, q, q.(gate := DriveLaws.Run(c, q.gate, round.during)));
    }
  }

  lemma OrderlyIgnoresGate(steps: seq<ScriptStep>, p: Progress, q: Progress)
    requires Orderly(steps, p) && q == p.(gate := q.gate)
    ensures Orderly(steps, q)
  {
  }

  lemma PassKeepsOrder(c: Config, steps: seq<ScriptStep>, now: real, p: Progress)
    requires Orderly(steps, p) && HeldIsDue(steps, now, p)
    ensures Orderly(steps, Pass(c, steps, now, p)) && HeldIsDue(steps, now, Pass(c, steps, now, p))
  {
    CatchupKeepsOrder(c, steps, now, p);
    CatchupKeepsDue(c, steps, now, p);
    HoldKeepsOrder(c, steps, now, Catchup(c, steps, now, p));
  }

  lemma HoldKeepsOrder(c: Config, steps: seq<ScriptStep>, now: real, p: Progress)
    requires Orderly(steps, p) && HeldIsDue(steps, now, p)
    ensures Orderly(steps, Hold(c, steps, now, p)) && HeldIsDue(steps, now, Hold(c, steps, now, p))
  {
    if p.code == Running && p.next >= |steps| && |steps| > 0 && now >= steps[|steps| - 1].at {
      CompletingKeepsOrder(steps, now, p);
    } else if p.code == Running && Holding(steps, p) {
      HoldingKeepsOrder(c, steps, now, p);
    }
  }

  lemma CompletingKeepsOrder(steps: seq<ScriptStep>, now: real, p: Progress)
    requires Orderly(steps, p) && HeldIsDue(steps, now, p) && p.code == Running && p.next >= |steps|
    ensures Orderly(steps, p.(code := Completed)) && HeldIsDue(steps, now, p.(code := Completed))
  {
  }

  lemma HoldingKeepsOrder(c: Config, steps: seq<ScriptStep>, now: real, p: Progress)
    requires Orderly(steps, p) && HeldIsDue(steps, now, p) && p.code == Running && Holding(steps, p)
    ensures var q := Send(c, steps, now, p, p.next - 1, false); Orderly(steps, q) && HeldIsDue(steps, now, q)
  {
    SendKeepsOrder(c, steps, now, p, p.next - 1, false);
    RepeatKeepsPlace(c, steps, now, p);
  }

  lemma RepeatKeepsPlace(c: Config, steps: seq<ScriptStep>, now: real, p: Progress)
    requires Holding(steps, p)
    ensures Send(c, steps, now, p, p.next - 1, false).next == p.next
  {
  }

  // ----- what a latched e-stop does to a sequence -----

  /** The steps whose reply tells that the gate is latched, or that latch it. */
  predicate Tells(step: ScriptStep) { step.cmd == "estop" || step.cmd in MOTION }

  /** How a sequence ends whose steps from `from` on go to a latched gate. */
  function Ending(c: Config, steps: seq<ScriptStep>, from: nat): Code
    decreases |steps| - from
  {
    if from >= |steps| then Completed
    else if Tells(steps[from]) then Aborted
    else if Prepared(Command(steps[from]), c.limits).None? then Failed
    else Ending(c, steps, from + 1)
  }

  /** The motion being held is repeated in this round: no other step is due, and not all are done. */
  predicate HeldAt(steps: seq<ScriptStep>, now: real, p: Progress) {
    Holding(steps, p) && p.next < |steps| && now < steps[p.next].at
  }

  function LatchedEnding(c: Config, steps: seq<ScriptStep>, now: real, p: Progress): Code {
    if HeldAt(steps, now, p) then Aborted else Ending(c, steps, p.next)
  }

  lemma LatchedAnswer(c: Config, s: State, now: real, step: ScriptStep)
    requires s.latched
    ensures Dispatched(c, s, now, step).latched
    ensures CodeAfter(Answer(c, s, now, step))
         == if Tells(step) then Aborted
            else if Prepared(Command(step), c.limits).None? then Failed else Running
  {
  }

  /** A round in which a latched sequence goes on has dispatched only steps that tell nothing. */
  predicate GoesOn(c: Config, steps: seq<ScriptStep>, p: Progress, q: Progress) {
    && q.gate.latched && q.next <= |steps| && Ending(c, steps, q.next) == Ending(c, steps, p.next)
    && (p.next == q.next || !Holding(steps, q))
  }

  lemma {:induction false} LatchedCatchup(c: Config, steps: seq<ScriptStep>, now: real, p: Progress)
    requires p.gate.latched && p.code == Running && p.next <= |steps|
    ensures var q := Catchup(c, steps, now, p);
            && (q.code == Running ==> GoesOn(c, steps, p, q) && (q.next == |steps| || now < steps[q.next].at))
            && (q.code != Running ==> q.code == Ending(c, steps, p.next) && p.next < |steps| && steps[p.next].at <= now)
    decreases |steps| - p.next
  {
    if p.next < |steps| && steps[p.next].at <= now {
      LatchedAnswer(c, p.gate, now, steps[p.next]);
      var q := Send(c, steps, now, p, p.next, true);
      if q.code == Running {
        LatchedCatchup(c, steps, now, q);
      }
    }
  }

  lemma LatchedHold(c: Config, steps: seq<ScriptStep>, now: real, p: Progress)
    requires p.gate.latched && p.code == Running && p.next <= |steps| && HeldIsDue(steps, now, p)
    requires p.next == |steps| || now < steps[p.next].at
    ensures var q := Hold(c, steps, now, p);
            if |steps| > 0 && p.next == |steps| && now >= steps[|steps| - 1].at then q.code == Completed
            else if HeldAt(steps, now, p) then q.code == Aborted
            else q == p && !Holding(steps, p)
  {
    if Holding(steps, p) {
      LatchedAnswer(c, p.gate, now, steps[p.next - 1]);
    }
  }

  lemma LatchedPass(c: Config, steps: seq<ScriptStep>, now: real, p: Progress)
    requires p.gate.latched && p.code == Running && p.next <= |steps| && HeldIsDue(steps, now, p)
    ensures var q := Pass(c, steps, now, p);
            && (q.code != Running ==> q.code == LatchedEnding(c, steps, now, p))
            && (q.code == Running ==> GoesOn(c, steps, p, q) && !Holding(steps, q) && !HeldAt(steps, now, p))
  {
    var q := Catchup(c, steps, now, p);
    LatchedCatchup(c, steps, now, p);
    if q.code == Running {
      CatchupKeepsDue(c, steps, now, p);
      LatchedHold(c, steps, now, q);
      NothingDue(c, steps, now, p);
    }
  }

  lemma NothingDue(c: Config, steps: seq<ScriptStep>, now: real, p: Progress)
    ensures Catchup(c, steps, now, p).next >= p.next
    ensures Catchup(c, steps, now, p).next == p.next ==> Catchup(c, steps, now, p) == p
  {
    CatchupAdvances(c, steps, now, p);
  }

  lemma {:induction false} CatchupAdvances(c: Config, steps: seq<ScriptStep>, now: real, p: Progress)
    ensures var q := Catchup(c, steps, now, p); q == p || q.next > p.next
    decreases |steps| - p.next
  {
    if p.code == Running && p.next < |steps| && steps[p.next].at <= now {
      CatchupAdvances(c, steps, now, Send(c, steps, now, p, p.next, true));
    }
  }

  /** From `p` at `now`, where the gate is latched, on to `q`. */
  predicate LatchedOutcome(c: Config, steps: seq<ScriptStep>, now: real, p: Progress, q: Progress) {
    && (q.code != Running ==> q.code == LatchedEnding(c, steps, now, p))
    && (q.code == Running ==>
          && q.gate.latched && !Holding(steps, q) && !HeldAt(steps, now, p)
          && Ending(c, steps, q.next) == Ending(c, steps, p.next))
  }

  lemma OutcomesCompose(c: Config, steps: seq<ScriptStep>, now: real, later: real, p: Progress, q: Progress, r: Progress)
    requires LatchedOutcome(c, steps, now, p, q) && q.code == Running && LatchedOutcome(c, steps, later, q, r)
    ensures LatchedOutcome(c, steps, now, p, r)
  {
  }

  predicate NoResume(round: Round) { forall e :: e in round.during ==> !e.Resume? }

  lemma LatchedRound(c: Config, steps: seq<ScriptStep>, round: Round, p: Progress)
    requires p.gate.latched && p.code == Running && p.next <= |steps| && HeldIsDue(steps, round.now, p) && NoResume(round)
    ensures LatchedOutcome(c, steps, round.now, p, NextRound(c, steps, round, p))
  {
    LatchedPass(c, steps, round.now, p);
    var q := Pass(c, steps, round.now, p);
    if q.code == Running {
      DriveLaws.LatchedSendsNoMotion(c, q.gate, round.during);
    }
  }

  lemma OneMoreRound(c: Config, steps: seq<ScriptStep>, now: real, round: Round, p: Progress, q: Progress)
    requires LatchedOutcome(c, steps, now, p, q) && q.next <= |steps| && HeldIsDue(steps, round.now, q) && NoResume(round)
    ensures LatchedOutcome(c, steps, now, p, NextRound(c, steps, round, q))
  {
    if q.code == Running {
      LatchedRound(c, steps, round, q);
      OutcomesCompose(c, steps, now, round.now, p, q, NextRound(c, steps, round, q));
    }
  }

  lemma RoundBegins(c: Config, steps: seq<ScriptStep>, rounds: seq<Round>, gate: State, n: nat)
    requires n < |rounds| && Advancing(rounds)
    ensures var p := After(c, steps, rounds, gate, n); p.next <= |steps| && HeldIsDue(steps, rounds[n].now, p)
  {
    PlaysInOrder(c, steps, rounds, gate, n);
    if n > 0 {
      assert rounds[n - 1].now <= rounds[n].now;
    }
  }

  /** A gate found latched by round `n`, and not resumed: how a sequence ends from then on. Exactly if a
      motion is repeated in that round, or a motion or `estop` is still to come before a step the gate
      cannot encode, it aborts; steps of any other kind go through, and a sequence of them completes. */
  lemma {:induction false} LatchedSequenceEnds(
    c: Config, steps: seq<ScriptStep>, rounds: seq<Round>, gate: State, n: nat, m: nat)
    requires n < m <= |rounds| && Advancing(rounds) && forall i :: n <= i < m ==> NoResume(rounds[i])
    requires var p := After(c, steps, rounds, gate, n); p.code == Running && p.gate.latched
    ensures LatchedOutcome(c, steps, rounds[n].now, After(c, steps, rounds, gate, n), After(c, steps, rounds, gate, m))
    decreases m
  {
    assert NoResume(rounds[m - 1]);
    if m == n + 1 {
      AfterFirst(c, steps, rounds, gate, n);
    } else {
      LatchedSequenceEnds(c, steps, rounds, gate, n, m - 1);
      AfterAnother(c, steps, rounds, gate, After(c, steps, rounds, gate, n), rounds[n].now, m - 1);
    }
  }

  lemma AfterFirst(c: Config, steps: seq<ScriptStep>, rounds: seq<Round>, gate: State, n: nat)
    requires n < |rounds| && Advancing(rounds) && NoResume(rounds[n])
    requires var p := After(c, steps, rounds, gate, n); p.code == Running && p.gate.latched
    ensures LatchedOutcome(c, steps, rounds[n].now, After(c, steps, rounds, gate, n), After(c, steps, rounds, gate, n + 1))
  {
    RoundBegins(c, steps, rounds, gate, n);
    LatchedRound(c, steps, rounds[n], After(c, steps, rounds, gate, n));
  }

  lemma AfterAnother(
    c: Config, steps: seq<ScriptStep>, rounds: seq<Round>, gate: State, p: Progress, now: real, n: nat)
    requires n < |rounds| && Advancing(rounds) && NoResume(rounds[n])
    requires LatchedOutcome(c, steps, now, p, After(c, steps, rounds, gate, n))
    ensures LatchedOutcome(c, steps, now, p, After(c, steps, rounds, gate, n + 1))
  {
    RoundBegins(c, steps, rounds, gate, n);
    OneMoreRound(c, steps, now, rounds[n], p, After(c, steps, rounds, gate, n));
  }

  /** By the first round at or after every step's time it has ended. */
  lemma EndsInTime(c: Config, steps: seq<ScriptStep>, rounds: seq<Round>, gate: State, n: nat)
    requires 0 < n <= |rounds| && Advancing(rounds) && |steps| > 0
    requires forall s :: s in steps ==> s.at <= rounds[n - 1].now
    ensures After(c, steps, rounds, gate, n).code != Running
  {
    var p := After(c, steps, rounds, gate, n - 1);
    PlaysInOrder(c, steps, rounds, gate, n - 1);
    if p.code == Running {
      PassEnds(c, steps, rounds[n - 1].now, p);
    }
  }

  lemma PassEnds(c: Config, steps: seq<ScriptStep>, now: real, p: Progress)
    requires Orderly(steps, p) && |steps| > 0
    requires forall s :: s in steps ==> s.at <= now
    ensures Pass(c, steps, now, p).code != Running
  {
    CatchupKeepsOrder(c, steps, now, p);
    var q := Catchup(c, steps, now, p);
    assert steps[|steps| - 1] in steps;
    if q.next < |steps| {
      assert steps[q.next] in steps;
    }
  }

  /** A latched gate goes unnoticed by a sequence of pings, which completes. */
  lemma LatchGoesUnnoticed(c: Config, steps: seq<ScriptStep>, rounds: seq<Round>, gate: State)
    requires steps == [ScriptStep(0.0, "ping", map[])] && rounds == [Round(0.0, [])] && gate.latched
    ensures After(c, steps, rounds, gate, 1).code == Completed
  {
    var p := After(c, steps, rounds, gate, 0);
    LatchedSequenceEnds(c, steps, rounds, gate, 0, 1);
    EndsInTime(c, steps, rounds, gate, 1);
    assert Ending(c, steps, 1) == Completed;
    assert !Tells(steps[0]) && Prepared(Command(steps[0]), c.limits).Some?;
  }

  // ----- the deadman never expires under a held motion -----

  /** The deadman was fed no earlier than the last motion. */
  predicate FedSinceMotion(s: State) { s.lastMotion.Some? ==> s.fed >= s.lastMotion.value }

  predicate During(events: seq<Event>, low: real, high: real) {
    && (forall i :: 0 <= i < |events| ==> low <= events[i].at <= high)
    && forall i, j :: 0 <= i <= j < |events| ==> events[i].at <= events[j].at
  }

  lemma StepFeedsForward(c: Config, s: State, e: Event)
    requires FedSinceMotion(s) && s.fed <= e.at
    ensures var t := Step(c, s, e); FedSinceMotion(t) && s.fed <= t.fed <= e.at
  {
  }

  lemma {:induction false} RunFeedsForward(c: Config, s: State, events: seq<Event>, low: real, high: real)
    requires FedSinceMotion(s) && s.fed <= low <= high && During(events, low, high)
    ensures var t := DriveLaws.Run(c, s, events);
            && FedSinceMotion(t) && s.fed <= t.fed <= high
            && (if |events| == 0 then t.fed == s.fed else t.fed <= events[|events| - 1].at)
    decreases |events|
  {
    if |events| == 0 {
    } else {
      var n := |events| - 1;
      RunFeedsForward(c, s, events[..n], low, high);
      StepFeedsForward(c, DriveLaws.Run(c, s, events[..n]), events[n]);
    }
  }

  lemma {:induction false} CatchupFeedsForward(c: Config, steps: seq<ScriptStep>, now: real, p: Progress)
    requires FedSinceMotion(p.gate) && p.gate.fed <= now
    ensures var q := Catchup(c, steps, now, p); FedSinceMotion(q.gate) && q.gate.fed <= now
    decreases |steps| - p.next
  {
    if p.code == Running && p.next < |steps| && steps[p.next].at <= now {
      CatchupFeedsForward(c, steps, now, Send(c, steps, now, p, p.next, true));
    }
  }

  /** A keepalive either feeds the deadman or is turned down because a motion just did. */
  lemma HoldFeeds(c: Config, steps: seq<ScriptStep>, now: real, p: Progress)
    requires c.minInterval >= 0.0 && FedSinceMotion(p.gate) && p.gate.fed <= now && p.code == Running
    ensures var q := Hold(c, steps, now, p);
            && FedSinceMotion(q.gate) && q.gate.fed <= now
            && (q.code == Running && Holding(steps, q) ==> now - q.gate.fed <= c.minInterval)
  {
  }

  /** The rounds are at most `gap` apart and what happens in between stays in between. */
  predicate Paced(rounds: seq<Round>, gap: real) {
    forall i :: 0 <= i < |rounds| - 1 ==>
      && rounds[i].now <= rounds[i + 1].now <= rounds[i].now + gap
      && During(rounds[i].during, rounds[i].now, rounds[i + 1].now)
  }

  lemma {:induction false} GateStaysFresh(c: Config, steps: seq<ScriptStep>, rounds: seq<Round>, gate: State, n: nat, gap: real)
    requires c.minInterval >= 0.0 && Paced(rounds, gap) && n < |rounds|
    requires FedSinceMotion(gate) && (|rounds| > 0 ==> gate.fed <= rounds[0].now)
    ensures var p := After(c, steps, rounds, gate, n);
            p.code == Running ==> FedSinceMotion(p.gate) && p.gate.fed <= rounds[n].now
  {
    if n == 0 {
    } else {
      GateStaysFresh(c, steps, rounds, gate, n - 1, gap);
      var p := After(c, steps, rounds, gate, n - 1);
      var now := rounds[n - 1].now;
      if p.code == Running {
        PassFeeds(c, steps, now, p);
        var q := Pass(c, steps, now, p);
        assert Paced(rounds, gap);
        RunFeedsForward(c, q.gate, rounds[n - 1].during, now, rounds[n].now);
      }
    }
  }

  lemma PassFeeds(c: Config, steps: seq<ScriptStep>, now: real, p: Progress)
    requires c.minInterval >= 0.0 && FedSinceMotion(p.gate) && p.gate.fed <= now
    ensures var q := Pass(c, steps, now, p);
            && FedSinceMotion(q.gate) && q.gate.fed <= now
            && (q.code == Running && Holding(steps, q) ==> now - q.gate.fed <= c.minInterval)
  {
    CatchupFeedsForward(c, steps, now, p);
    var q := Catchup(c, steps, now, p);
    if q.code == Running {
      HoldFeeds(c, steps, now, q);
    }
  }

  /** While the current step is a motion, the deadman does not expire before the next round, whatever
      other clients and the ticker do meanwhile, provided the gap between rounds plus the minimum
      motion interval is at most the deadman window. So a tick in that time does nothing. */
  lemma DeadmanNeverExpires(
    c: Config, steps: seq<ScriptStep>, rounds: seq<Round>, gate: State, n: nat, gap: real, k: nat, at: real)
    requires c.minInterval >= 0.0 && Paced(rounds, gap) && n < |rounds| - 1
    requires gap + c.minInterval <= c.deadman
    requires FedSinceMotion(gate) && gate.fed <= rounds[0].now
    requires k <= |rounds[n].during| && rounds[n].now <= at <= rounds[n + 1].now
    ensures var p := After(c, steps, rounds, gate, n);
            var q := Pass(c, steps, rounds[n].now, p);
            p.code == Running && q.code == Running && Holding(steps, q) ==>
              var s := DriveLaws.Run(c, q.gate, rounds[n].during[..k]);
              !Expired(c, s, at) && Step(c, s, Tick(at)) == s
  {
    GateStaysFresh(c, steps, rounds, gate, n, gap);
    var p := After(c, steps, rounds, gate, n);
    var now := rounds[n].now;
    var q := Pass(c, steps, now, p);
    if p.code == Running && q.code == Running && Holding(steps, q) {
      PassFeeds(c, steps, now, p);
      var events := rounds[n].during[..k];
      assert During(rounds[n].during, now, rounds[n + 1].now);
      RunFeedsForward(c, q.gate, events, now, rounds[n + 1].now);
    }
  }
}
