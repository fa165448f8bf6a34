/** Routing replies back to the awaiting callers by 8-bit sequence number (agent/control.py).

    Each asyncio step between two awaits is one event. Callers are named by their submission number:
    the n-th call of `submit` uses sequence number n mod 256. */
module Controller {
  import opened Wrappers
  import Codec
  import CodecRoundTrip
  import DriveSafety
  import SeqNumbers

  /** A caller: awaiting its future, its future resolved or cancelled but the caller not yet resumed,
      or finished. A raised caller left its unawaited future in the table. */
  datatype Call =
    | Waiting
    | Answered(reply: Codec.Message)
    | Expired
    | Returned(reply: Codec.Message)
    | TimedOut
    | Rejected
    | Raised

  predicate InFlight(c: Call) { c.Waiting? || c.Answered? || c.Expired? }

  /** `acks` maps a sequence number to the submission whose future is registered under it. */
  datatype State = State(acks: map<int, nat>, calls: seq<Call>)

  /** What a reply on the link really answers. */
  datatype Source = Command(n: nat) | HostStop(k: nat)

  function Number(s: Source): int {
    match s
    case Command(n) => n % 256
    case HostStop(k) => k % 256
  }

  /** `discards` is whether a timer that fires after the reply arrived, but before its caller resumes, takes
      the reply away again: `wait_for` does so from Python 3.12 on and did not before. */
  datatype Event =
    | Submit(outcome: DriveSafety.Outcome)
    | Reply(source: Source, message: Codec.Message)
    | Timeout(n: nat, discards: bool)
    | Wake(n: nat)

  const EMPTY: State := State(map[], [])

  // ----- one step -----

  function Register(s: State, outcome: DriveSafety.Outcome): State {
    var n := |s.calls|;
    match outcome
    case Sent => State(s.acks[n % 256 := n], s.calls + [Waiting])
    case Raised => State(s.acks[n % 256 := n], s.calls + [Call.Raised])
    case _ => State(s.acks - {n % 256}, s.calls + [Rejected])
  }

  /** The caller whose future a reply with this number resolves. */
  function Resolves(s: State, number: int): Option<nat> {
    if number in s.acks && s.acks[number] < |s.calls| && s.calls[s.acks[number]].Waiting? then
      Some(s.acks[number])
    else None
  }

  function Resolve(s: State, number: int, m: Codec.Message): State {
    match Resolves(s, number)
    case Some(c) => s.(calls := s.calls[c := Answered(m)])
    case None => s
  }

  function Resume(s: State, n: nat): State
    requires n < |s.calls|
  {
    match s.calls[n]
    case Answered(m) => State(s.acks - {n % 256}, s.calls[n := Returned(m)])
    case Expired => State(s.acks - {n % 256}, s.calls[n := TimedOut])
    case _ => s
  }

  /** What the timer of a call does to it. */
  function TimeOut(c: Call, discards: bool): Call {
    if c.Waiting? || (c.Answered? && discards) then Expired else c
  }

  function Step(s: State, e: Event): State {
    match e
    case Submit(outcome) => Register(s, outcome)
    case Reply(source, m) => Resolve(s, Number(source), m)
    case Timeout(n, discards) =>
      if n < |s.calls| then s.(calls := s.calls[n := TimeOut(s.calls[n], discards)]) else s
    case Wake(n) => if n < |s.calls| then Resume(s, n) else s
  }

  /** The controller's table and callers as one value. */
  ghost function StateOf(c: TransportController): State
    reads c
  {
    State(c.acks, c.calls)
  }

  class TransportController {
    const safety: DriveSafety.AgentSafety
    const seqs: SeqNumbers.SeqTracker
    var acks: map<int, nat>
    var calls: seq<Call>
    var telemetry: seq<Codec.Message>

    ghost predicate Valid()
      reads this, seqs, safety, safety.seqs, safety.wd
    {
      && seqs.Valid() && safety.Valid() && seqs != safety.seqs
      && seqs.issued == |calls|
    }

    constructor (safety: DriveSafety.AgentSafety)
      requires safety.Valid()
      ensures Valid() && this.safety == safety && StateOf(this) == EMPTY
    {
      this.safety := safety;
      seqs := new SeqNumbers.SeqTracker();
      acks, calls, telemetry := map[], [], [];
    }

    /** Everything `submit` does before it awaits: the gate decides what becomes of the call. */
    method Submit(m: DriveSafety.Msg, now: real) returns (outcome: DriveSafety.Outcome)
      requires Valid()
      modifies this, seqs, safety, safety.wd
      ensures Valid()
      ensures var outgoing := m.(seqNo := old(|calls|) % 256);
              && outcome == DriveSafety.Decide(safety.config, old(DriveSafety.StateOf(safety)), now, outgoing)
              && DriveSafety.StateOf(safety)
                 == DriveSafety.Step(safety.config, old(DriveSafety.StateOf(safety)), DriveSafety.Submit(now, outgoing))
      ensures StateOf(this) == Step(old(StateOf(this)), Event.Submit(outcome))
    {
      var n := |calls|;
      var seqNo := seqs.Next();
      acks := acks[seqNo := n];
      outcome := safety.Submit(m.(seqNo := seqNo), now);
      match outcome
      case Sent =>
        calls := calls + [Waiting];
      case Raised =>
        calls := calls + [Call.Raised];
      case Estop =>
        acks := acks - {seqNo};
        calls := calls + [Rejected];
      case Rate =>
        acks := acks - {seqNo};
        calls := calls + [Rejected];
    }

    /** One frame read by the background reader. */
    method OnFrame(frame: string)
      modifies this
      ensures StateOf(this) == AfterFrame(old(StateOf(this)), frame)
      ensures match Codec.Decode(frame)
              case Failure(_) => telemetry == old(telemetry)
              case Success(m) => telemetry == old(telemetry) + (if m.kind == Codec.Telemetry then [m] else [])
    {
      var decoded := Codec.Decode(frame);
      if decoded.Failure? {
        return;
      }
      var m := decoded.value;
      if m.kind == Codec.Ack || m.kind == Codec.Nak {
        if m.seqNo in acks && acks[m.seqNo] < |calls| && calls[acks[m.seqNo]].Waiting? {
          calls := calls[acks[m.seqNo] := Answered(m)];
        }
      } else if m.kind == Codec.Telemetry {
        telemetry := telemetry + [m];
      }
    }

    /** The timer of `wait_for` fires. */
    method OnTimeout(n: nat, discards: bool)
      modifies this`calls
      ensures StateOf(this) == Step(old(StateOf(this)), Timeout(n, discards))
    {
      if n < |calls| && (calls[n].Waiting? || (calls[n].Answered? && discards)) {
        calls := calls[n := Expired];
      }
    }

    /** The caller resumes and its `finally` drops whatever is registered under its number. */
    method OnWake(n: nat)
      modifies this`calls, this`acks
      ensures StateOf(this) == Step(old(StateOf(this)), Wake(n))
    {
      if n < |calls| {
        match calls[n]
        case Answered(m) =>
          calls, acks := calls[n := Returned(m)], acks - {n % 256};
        case Expired =>
          calls, acks := calls[n := TimedOut], acks - {n % 256};
        case _ =>
      }
    }
  }

  // ----- runs -----

  function Run(events: seq<Event>): State
    decreases |events|
  {
    if |events| == 0 then EMPTY else Step(Run(events[..|events| - 1]), events[|events| - 1])
  }

  /** The call that last used the next number has finished before the number is used again. */
  predicate Settled(s: State) { |s.calls| >= 256 ==> !InFlight(s.calls[|s.calls| - 256]) }

  /** Numbers are never reused while their caller is in flight; replies are unrestricted. */
  predicate Unhurried(events: seq<Event>) {
    forall j :: 0 <= j < |events| && events[j].Submit? ==> Settled(Run(events[..j]))
  }

  /** Caller `c` waits, is among the last 256 submissions and used this number. */
  predicate WaitsUnder(s: State, number: int, c: nat) {
    c < |s.calls| <= c + 256 && c % 256 == number && s.calls[c].Waiting?
  }

  /** A reply to a command arrives before its number is reused; one to a host stop, while none of the last
      256 callers waits under the stop's number. */
  predicate Timely(s: State, source: Source) {
    match source
    case Command(n) => n < |s.calls| <= n + 256
    case HostStop(k) => forall c :: 0 <= c < |s.calls| ==> !WaitsUnder(s, k % 256, c)
  }

  predicate Punctual(events: seq<Event>) {
    forall j :: 0 <= j < |events| && events[j].Reply? ==> Timely(Run(events[..j]), events[j].source)
  }

  /** An older caller with the same number resumes after caller `c` was registered, and takes its entry. */
  predicate Pops(s: State, e: Event, c: nat) {
    e.Wake? && e.n < c < |s.calls| && e.n % 256 == c % 256 && (s.calls[e.n].Answered? || s.calls[e.n].Expired?)
  }

  /** That happens at some event of the run. */
  predicate Popped(events: seq<Event>, c: nat)
    decreases |events|
  {
    if |events| == 0 then false
    else
      var init := events[..|events| - 1];
      Popped(init, c) || Pops(Run(init), events[|events| - 1], c)
  }

  /** The table holds recent submissions, under their own numbers. */
  predicate Recent(s: State) {
    forall q :: q in s.acks ==> s.acks[q] < |s.calls| <= s.acks[q] + 256 && s.acks[q] % 256 == q
  }

  lemma SameResidue(a: nat, b: nat, n: nat)
    requires a % 256 == b % 256 && a < n <= a + 256 && b < n <= b + 256
    ensures a == b
  {
  }

  lemma WrapResidue(k: nat, n: nat)
    ensures k < n <= k + 256 ==> (k % 256 == n % 256 <==> n == k + 256)
  {
  }

  lemma RegisterKeepsRecent(s: State, outcome: DriveSafety.Outcome)
    requires Recent(s)
    ensures Recent(Register(s, outcome))
  {
    var n := |s.calls|;
    var t := Register(s, outcome);
    forall q | q in t.acks
      ensures t.acks[q] < |t.calls| <= t.acks[q] + 256 && t.acks[q] % 256 == q
    {
      if q != n % 256 {
        WrapResidue(s.acks[q], n);
      }
    }
  }

  /** In every run. */
  lemma {:induction false} TableIsRecent(events: seq<Event>)
    ensures Recent(Run(events))
  {
    if |events| == 0 {
    } else {
      var n := |events| - 1;
      TableIsRecent(events[..n]);
      match events[n]
      case Submit(outcome) => RegisterKeepsRecent(Run(events[..n]), outcome);
      case _ =>
    }
  }

  // ----- whom a reply resolves -----

  predicate Registered(s: State, c: nat) { c % 256 in s.acks && s.acks[c % 256] == c }

  lemma StepGrows(s: State, e: Event)
    ensures |Step(s, e).calls| == |s.calls| + if e.Submit? then 1 else 0
    ensures forall n :: 0 <= n < |s.calls| && !InFlight(s.calls[n]) ==> !InFlight(Step(s, e).calls[n])
  {
  }

  lemma {:induction false} NotPoppedBefore(events: seq<Event>, c: nat)
    requires |Run(events).calls| <= c
    ensures !Popped(events, c)
  {
    if |events| == 0 {
    } else {
      var n := |events| - 1;
      StepGrows(Run(events[..n]), events[n]);
      NotPoppedBefore(events[..n], c);
    }
  }

  /** One step leaves the entry of a recent waiting caller alone, unless it pops it. */
  lemma StepKeepsEntry(s: State, e: Event, c: nat)
    requires c < |s.calls| && |Step(s, e).calls| <= c + 256 && Step(s, e).calls[c].Waiting?
    ensures s.calls[c].Waiting?
    ensures Registered(Step(s, e), c) <==> Registered(s, c) && !Pops(s, e, c)
  {
    match e
    case Submit(_) => WrapResidue(c, |s.calls|);
    case Reply(_, _) =>
    case Timeout(_, _) =>
    case Wake(m) => if m < |s.calls| { WrapResidue(c, m); }
  }

  /** A recent caller still waiting is registered under its number exactly if no older one popped it. */
  lemma {:induction false} EntryStands(events: seq<Event>, c: nat)
    requires var s := Run(events); c < |s.calls| <= c + 256 && s.calls[c].Waiting?
    ensures Registered(Run(events), c) <==> !Popped(events, c)
  {
    var n := |events| - 1;
    var s := Run(events[..n]);
    if c < |s.calls| {
      StepKeepsEntry(s, events[n], c);
      EntryStands(events[..n], c);
    } else {
      NotPoppedBefore(events[..n], c);
    }
  }

  /** Exactly whom a reply resolves, in every run: the waiting caller among the last 256 submissions that
      used its number, unless an older caller with that number has popped its entry. */
  lemma ReplyResolvesExactly(events: seq<Event>, number: int, c: nat)
    ensures Resolves(Run(events), number) == Some(c) <==> WaitsUnder(Run(events), number, c) && !Popped(events, c)
  {
    TableIsRecent(events);
    if WaitsUnder(Run(events), number, c) {
      EntryStands(events, c);
    }
  }

  /** When caller `c` submitted, every earlier one with its number had finished. */
  lemma {:induction false} EarlierFinished(events: seq<Event>, m: nat, c: nat)
    requires Unhurried(events) && m < c < |Run(events).calls| && m % 256 == c % 256
    ensures !InFlight(Run(events).calls[m])
  {
    var n := |events| - 1;
    var s := Run(events[..n]);
    UnhurriedPrefix(events);
    StepGrows(s, events[n]);
    if c < |s.calls| {
      EarlierFinished(events[..n], m, c);
    } else {
      assert Settled(s);
      if m != c - 256 {
        SameNumberSteps(m, c);
        EarlierFinished(events[..n], m, c - 256);
      }
    }
  }

  lemma SameNumberSteps(m: nat, c: nat)
    requires m < c && m % 256 == c % 256
    ensures m <= c - 256 && m % 256 == (c - 256) % 256
  {
  }

  lemma UnhurriedPrefix(events: seq<Event>)
    requires Unhurried(events) && |events| > 0
    ensures Unhurried(events[..|events| - 1])
  {
    var n := |events| - 1;
    forall j | 0 <= j < n && events[..n][j].Submit?
      ensures Settled(Run(events[..n][..j]))
    {
      assert events[..n][..j] == events[..j];
    }
  }

  /** Numbers not reused in flight: then no entry is ever popped by another caller. */
  lemma {:induction false} NothingPopped(events: seq<Event>, c: nat)
    requires Unhurried(events)
    ensures !Popped(events, c)
  {
    if |events| == 0 {
    } else {
      var n := |events| - 1;
      UnhurriedPrefix(events);
      NothingPopped(events[..n], c);
      if Pops(Run(events[..n]), events[n], c) {
        EarlierFinished(events[..n], events[n].n, c);
      }
    }
  }

  /** The caller that event `j` of the run resolves, if any. */
  function ResolvedAt(events: seq<Event>, j: nat): Option<nat>
    requires j < |events|
  {
    if events[j].Reply? then Resolves(Run(events[..j]), Number(events[j].source)) else None
  }

  /** A timely reply resolves nobody but the caller whose command it answers, in every run. */
  lemma NothingMisrouted(events: seq<Event>, j: nat)
    requires j < |events| && events[j].Reply? && Timely(Run(events[..j]), events[j].source)
    ensures ResolvedAt(events, j).Some? ==> events[j].source == Command(ResolvedAt(events, j).value)
  {
    var s := Run(events[..j]);
    match ResolvedAt(events, j)
    case Some(c) =>
      ReplyResolvesExactly(events[..j], Number(events[j].source), c);
      if events[j].source.Command? {
        SameResidue(c, events[j].source.n, |s.calls|);
      }
    case None =>
  }

  /** And it reaches that caller exactly if it still waits and no older caller popped its entry, which none
      does where numbers are not reused in flight. */
  lemma RepliesReachTheirCallers(events: seq<Event>, j: nat, n: nat)
    requires j < |events| && events[j].Reply? && events[j].source == Command(n)
    requires Timely(Run(events[..j]), events[j].source)
    ensures ResolvedAt(events, j) == Some(n) <==> Run(events[..j]).calls[n].Waiting? && !Popped(events[..j], n)
    ensures Unhurried(events[..j]) ==> !Popped(events[..j], n)
    ensures ResolvedAt(events, j).Some? ==> ResolvedAt(events, j) == Some(n)
  {
    ReplyResolvesExactly(events[..j], n % 256, n);
    NothingMisrouted(events, j);
    if Unhurried(events[..j]) {
      NothingPopped(events[..j], n);
    }
  }

  /** Once a caller is past waiting it never waits again. */
  lemma {:induction false} NeverWaitsAgain(events: seq<Event>, i: nat, j: nat, n: nat)
    requires i <= j <= |events| && n < |Run(events[..i]).calls| && !Run(events[..i]).calls[n].Waiting?
    ensures n < |Run(events[..j]).calls| && !Run(events[..j]).calls[n].Waiting?
    decreases j - i
  {
    if i < j {
      NeverWaitsAgain(events, i, j - 1, n);
      assert events[..j][..j - 1] == events[..j - 1];
    }
  }

  /** No caller is resolved twice, in any run whatsoever. */
  lemma ResolvedOnce(events: seq<Event>, i: nat, j: nat, n: nat)
    requires i < j < |events| && ResolvedAt(events, i) == Some(n)
    ensures ResolvedAt(events, j) != Some(n)
  {
    assert events[..i + 1][..i] == events[..i];
    NeverWaitsAgain(events, i + 1, j, n);
  }

  predicate HasReply(s: State, n: nat) {
    n < |s.calls| && (s.calls[n].Answered? || s.calls[n].Returned?)
  }

  /** A caller gains a reply only by being resolved with it, and keeps it. */
  lemma StepReplies(s: State, e: Event, n: nat)
    requires HasReply(Step(s, e), n)
    ensures if HasReply(s, n) then s.calls[n].reply == Step(s, e).calls[n].reply
            else e.Reply? && Resolves(s, Number(e.source)) == Some(n) && e.message == Step(s, e).calls[n].reply
  {
  }

  lemma PunctualPrefix(events: seq<Event>)
    requires Punctual(events) && |events| > 0
    ensures Punctual(events[..|events| - 1])
  {
    var n := |events| - 1;
    forall j | 0 <= j < n && events[..n][j].Reply?
      ensures Timely(Run(events[..n][..j]), events[..n][j].source)
    {
      assert events[..n][..j] == events[..j];
    }
  }

  /** Whatever a caller gets back is the reply to its own command, if every reply is timely. */
  lemma {:induction false} AnswersAreOwn(events: seq<Event>, n: nat)
    requires Punctual(events) && HasReply(Run(events), n)
    ensures Reply(Command(n), Run(events).calls[n].reply) in events
  {
    var k := |events| - 1;
    StepReplies(Run(events[..k]), events[k], n);
    if HasReply(Run(events[..k]), n) {
      PunctualPrefix(events);
      AnswersAreOwn(events[..k], n);
    } else {
      NothingMisrouted(events, k);
      assert events[k] == Reply(Command(n), Run(events).calls[n].reply);
    }
    assert events[k] in events;
  }

  /** Exactly when acknowledging a host stop does harm: when one of the last 256 callers waits under the
      stop's number and no older one popped its entry. That caller, and nobody else, then takes the
      acknowledgement for its own. */
  lemma HostStopAckMisleadsIff(events: seq<Event>, k: nat, m: Codec.Message)
    ensures var s, t := Run(events), Run(events + [Reply(HostStop(k), m)]);
            && (t != s <==> exists c: nat :: WaitsUnder(s, k % 256, c) && !Popped(events, c))
            && forall c: nat :: WaitsUnder(s, k % 256, c) && !Popped(events, c) ==>
                 t == s.(calls := s.calls[c := Answered(m)])
  {
    var s := Run(events);
    assert (events + [Reply(HostStop(k), m)])[..|events|] == events;
    forall c: nat
      ensures Resolves(s, k % 256) == Some(c) <==> WaitsUnder(s, k % 256, c) && !Popped(events, c)
    {
      ReplyResolvesExactly(events, k % 256, c);
    }
    match Resolves(s, k % 256)
    case Some(c) =>
      assert WaitsUnder(s, k % 256, c) && !Popped(events, c);
      assert s.calls[c] != Answered(m);
    case None =>
  }

  /** Why host stops matter: they are numbered separately, so the acknowledgement of the first one
      resolves the caller of the first command, which then takes it for its own. */
  lemma HostStopAckMisleads(m: Codec.Message)
    ensures var events := [Submit(DriveSafety.Sent), Reply(HostStop(0), m), Wake(0)];
            Unhurried(events) && Run(events).calls == [Returned(m)]
  {
    var events := [Submit(DriveSafety.Sent), Reply(HostStop(0), m), Wake(0)];
    assert events[..2][..1] == events[..1] && events[..1][..0] == [];
    assert Run(events[..1]) == State(map[0 := 0], [Waiting]);
    assert Run(events[..2]) == State(map[0 := 0], [Answered(m)]);
  }

  // ----- a reply that reaches nobody -----

  /** Submissions turned down use up numbers at once. */
  function Refusals(n: nat): seq<Event> { seq(n, i => Submit(DriveSafety.Rate)) }

  lemma {:induction false} NumbersUsedUp(n: nat)
    requires n <= 255
    ensures Run([Submit(DriveSafety.Sent)] + Refusals(n)) == State(map[0 := 0], [Waiting] + seq(n, i => Rejected))
  {
    var first, events := [Submit(DriveSafety.Sent)], [Submit(DriveSafety.Sent)] + Refusals(n);
    if n == 0 {
      assert events == first && first[..0] == [];
      assert Run(first) == Step(EMPTY, first[0]);
    } else {
      NumbersUsedUp(n - 1);
      assert events[..|events| - 1] == first + Refusals(n - 1);
      assert seq(n - 1, i => Rejected) + [Rejected] == seq(n, i => Rejected);
    }
  }

  /** Caller 0 is still waiting when 255 refused submissions have brought its number round again. It then
      gives up and takes the entry of caller 256 along; the reply to that one's command is lost. */
  lemma ReplyIsLost(m: Codec.Message)
    ensures var events := [Submit(DriveSafety.Sent)] + Refusals(255) + [Submit(DriveSafety.Sent), Timeout(0, false), Wake(0)];
            && Timely(Run(events), Command(256)) && Run(events).calls[256] == Waiting
            && Run(events + [Reply(Command(256), m)]) == Run(events)
  {
    var start := [Submit(DriveSafety.Sent)] + Refusals(255);
    var e1, e2, e3 := Submit(DriveSafety.Sent), Timeout(0, false), Wake(0);
    var events := start + [e1, e2, e3];
    NumbersUsedUp(255);
    assert events[..258] == start + [e1, e2] && (start + [e1, e2])[..257] == start + [e1] && (start + [e1])[..256] == start;
    var calls := seq(255, i => Rejected);
    assert Run(start + [e1]) == State(map[0 := 256], [Waiting] + calls + [Waiting]);
    assert Run(start + [e1, e2]) == State(map[0 := 256], [Expired] + calls + [Waiting]);
    assert Run(events) == State(map[], [TimedOut] + calls + [Waiting]);
    assert (events + [Reply(Command(256), m)])[..259] == events;
  }

  // ----- frames and callers -----

  /** What one frame read by the background reader does to the table and callers. */
  function AfterFrame(s: State, frame: string): State {
    match Codec.Decode(frame)
    case Success(m) => if m.kind == Codec.Ack || m.kind == Codec.Nak then Resolve(s, m.seqNo, m) else s
    case Failure(_) => s
  }

  /** An encoded ACK or NAK has the effect of that reply's event. */
  lemma ReplyFrameResolves(s: State, number: nat, reason: string, nak: bool)
    requires number < 256 && Codec.Legible(Codec.Message(Codec.Nak, number, "", [], reason))
    ensures var m := if nak then Codec.Message(Codec.Nak, number, "", [], reason) else Codec.Message(Codec.Ack, number, "", [], "");
            && Codec.Encode(m).Some?
            && AfterFrame(s, Codec.Encode(m).value) == Step(s, Reply(Command(number), m))
  {
    var m := if nak then Codec.Message(Codec.Nak, number, "", [], reason) else Codec.Message(Codec.Ack, number, "", [], "");
    CodecRoundTrip.DecodesAsRead(m);
    ByteIsItself(number);
  }

  lemma ByteIsItself(n: nat)
    requires n < 256
    ensures n % 256 == n
  {
  }

  /** Nothing else read from the link touches a caller. */
  lemma OtherFramesResolveNothing(s: State, frame: string)
    requires Codec.Decode(frame).Failure? || Codec.Decode(frame).value.kind in {Codec.Command, Codec.Telemetry}
    ensures AfterFrame(s, frame) == s
  {
  }

  /** How a call ends: a reply is returned when the caller resumes; without one, the timer ends it; a refused
      or failing submission never waits. */
  lemma HowCallsEnd(s: State, n: nat, m: Codec.Message)
    requires n < |s.calls|
    ensures s.calls[n] == Answered(m) ==> Step(s, Wake(n)).calls[n] == Returned(m)
    ensures s.calls[n].Waiting? ==>
              Step(s, Wake(n)) == s && Step(Step(s, Timeout(n, false)), Wake(n)).calls[n] == TimedOut
    ensures s.calls[n] == Answered(m) ==> Step(Step(s, Timeout(n, false)), Wake(n)).calls[n] == Returned(m)
    ensures s.calls[n] == Answered(m) ==> Step(Step(s, Timeout(n, true)), Wake(n)).calls[n] == TimedOut
  {
  }

  lemma HowCallsBegin(s: State, outcome: DriveSafety.Outcome)
    ensures var t, n := Step(s, Submit(outcome)), |s.calls|;
            && |t.calls| == n + 1 && t.calls[..n] == s.calls
            && (outcome == DriveSafety.Sent <==> t.calls[n].Waiting?)
            && (outcome == DriveSafety.Estop || outcome == DriveSafety.Rate ==> t.calls[n].Rejected? && n % 256 !in t.acks)
            && (outcome == DriveSafety.Raised ==> t.calls[n].Raised?)
  {
  }
}
