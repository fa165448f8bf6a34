/** Scripted motion from a timed sequence (pibot/control/sequence.py), played against the drive gate.

    Times count from the start of the sequence; a round is one pass of the scheduler's loop, and
    `during` is what other clients and the ticker do to the gate while the scheduler sleeps. */
module Sequence {
  import opened Wrappers
  import opened DriveSafety
  import DriveLaws
  import Codec
  import Sorting

  datatype ScriptStep = ScriptStep(at: real, cmd: string, args: map<string, Arg>)

  /** One entry of the parsed YAML list; a field of the wrong shape raises SequenceError. */
  datatype Item = Item(at: real, cmd: string, args: map<string, Arg>) | Malformed

  method LoadSequence(data: seq<Item>) returns (steps: Option<seq<ScriptStep>>)
    ensures steps.None? <==> Malformed in data
    ensures steps.Some? ==> Sorting.SortedBy(steps.value, (s: ScriptStep) => s.at)
    ensures steps.Some? ==> |steps.value| == |data|
    ensures steps.Some? ==> multiset(steps.value) == multiset(Entries(data))
    ensures steps.Some? ==> steps.value == Sorting.Sort(AsSteps(data), (s: ScriptStep) => s.at)
  {
    var loaded: seq<ScriptStep> := [];
    for i := 0 to |data|
      invariant Malformed !in data[..i]
      invariant |loaded| == i && loaded == AsSteps(data[..i])
    {
      if data[i].Malformed? {
        return None;
      }
      assert data[..i + 1][..i] == data[..i];
      loaded := loaded + [ScriptStep(data[i].at, data[i].cmd, data[i].args)];
    }
    assert data[..|data|] == data;
    var key := (s: ScriptStep) => s.at;
    Sorting.SortIsStable(loaded, key);
    var sorted := Sorting.Sort(loaded, key);
    assert |multiset(sorted)| == |multiset(loaded)|;
    StepsAreEntries(data);
    steps := Some(sorted);
  }

  /** The items' times, commands and arguments. */
  function Entries(data: seq<Item>): seq<ScriptStep>
    requires Malformed !in data
  {
    seq(|data|, i requires 0 <= i < |data| =>
      assert data[i] in data;
      ScriptStep(data[i].at, data[i].cmd, data[i].args))
  }

  lemma {:induction false} StepsAreEntries(data: seq<Item>)
    requires Malformed !in data
    ensures AsSteps(data) == Entries(data)
  {
    if |data| == 0 {
    } else {
      var n := |data| - 1;
      assert data[n] in data;
      assert Malformed !in data[..n];
      StepsAreEntries(data[..n]);
      assert Entries(data) == Entries(data[..n]) + [ScriptStep(data[n].at, data[n].cmd, data[n].args)];
    }
  }

  function AsSteps(data: seq<Item>): seq<ScriptStep> {
    if |data| == 0 then []
    else
      var last := data[|data| - 1];
      AsSteps(data[..|data| - 1])
      + (match last
         case Item(at, cmd, args) => [ScriptStep(at, cmd, args)]
         case Malformed => [])
  }

  // ----- dispatching one step -----

  /** The client's view of a reply. A command that makes the gate raise closes the socket. */
  datatype Reply = Acked | RejectedEstop | RejectedRate | Tripped | Crashed

  datatype Code = Running | Completed | Aborted | Failed

  function Command(step: ScriptStep): Msg { Msg(Codec.Command, 0, step.cmd, step.args) }

  function ReplyTo(outcome: Outcome): Reply {
    match outcome
    case Sent => Acked
    case Estop => RejectedEstop
    case Rate => RejectedRate
    case Raised => Crashed
  }

  function Answer(c: Config, s: State, now: real, step: ScriptStep): Reply {
    if step.cmd == "estop" then Tripped else ReplyTo(Decide(c, s, now, Command(step)))
  }

  function Dispatched(c: Config, s: State, now: real, step: ScriptStep): State {
    DriveSafety.Step(c, s, if step.cmd == "estop" then Trip(now) else Submit(now, Command(step)))
  }

  function CodeAfter(reply: Reply): Code {
    if reply == RejectedEstop || reply == Tripped then Aborted
    else if reply == Crashed then Failed
    else Running
  }

  // ----- the scheduler -----

  /** A dispatch: when, which step, whether for the first time or to hold it. */
  datatype Entry = Entry(at: real, index: nat, first: bool, reply: Reply)

  datatype Progress = Progress(gate: State, next: nat, log: seq<Entry>, code: Code)

  datatype Round = Round(now: real, during: seq<Event>)

  predicate Holding(steps: seq<ScriptStep>, p: Progress) {
    0 < p.next <= |steps| && steps[p.next - 1].cmd in MOTION
  }

  function Send(c: Config, steps: seq<ScriptStep>, now: real, p: Progress, index: nat, first: bool): Progress
    requires index < |steps|
  {
    var reply := Answer(c, p.gate, now, steps[index]);
    Progress(Dispatched(c, p.gate, now, steps[index]), if first then index + 1 else p.next,
             p.log + [Entry(now, index, first, reply)], CodeAfter(reply))
  }

  /** Dispatch every step that is due. */
  function Catchup(c: Config, steps: seq<ScriptStep>, now: real, p: Progress): Progress
    decreases |steps| - p.next
  {
    if p.code == Running && p.next < |steps| && steps[p.next].at <= now then
      Catchup(c, steps, now, Send(c, steps, now, p, p.next, true))
    else p
  }

  function Hold(c: Config, steps: seq<ScriptStep>, now: real, p: Progress): Progress {
    if p.code != Running then p
    else if p.next >= |steps| && |steps| > 0 && now >= steps[|steps| - 1].at then p.(code := Completed)
    else if Holding(steps, p) then Send(c, steps, now, p, p.next - 1, false)
    else p
  }

  function Pass(c: Config, steps: seq<ScriptStep>, now: real, p: Progress): Progress {
    Hold(c, steps, now, Catchup(c, steps, now, p))
  }

  /** The progress after `n` rounds and what happened while the scheduler slept after each. */
  function After(c: Config, steps: seq<ScriptStep>, rounds: seq<Round>, gate: State, n: nat): Progress
    requires n <= |rounds|
  {
    if n == 0 then Progress(gate, 0, [], Running)
    else NextRound(c, steps, rounds[n - 1], After(c, steps, rounds, gate, n - 1))
  }

  function NextRound(c: Config, steps: seq<ScriptStep>, round: Round, p: Progress): Progress {
    if p.code != Running then p
    else
      var q := Pass(c, steps, round.now, p);
      if q.code == Running then q.(gate := DriveLaws.Run(c, q.gate, round.during)) else q
  }

  const STOP_COMMAND: Msg := Msg(Codec.Command, 0, "stop", map[])

  method Apply(agent: AgentSafety, events: seq<Event>)
    requires agent.Valid()
    modifies agent, agent.estop, agent.wd, agent.seqs
    ensures agent.Valid()
    ensures StateOf(agent) == DriveLaws.Run(agent.config, old(StateOf(agent)), events)
  {
    for i := 0 to |events|
      invariant agent.Valid()
      invariant StateOf(agent) == DriveLaws.Run(agent.config, old(StateOf(agent)), events[..i])
    {
      assert events[..i + 1][..i] == events[..i];
      match events[i]
      case Submit(now, m) => var _ := agent.Submit(m, now);
      case Tick(now) => agent.Tick(now);
      case Trip(now) => agent.TripEstop(now);
      case Resume(now) =>
        ghost var before := StateOf(agent);
        agent.Resume();
        assert StateOf(agent) == DriveSafety.Step(agent.config, before, Resume(now));
    }
    assert events[..|events|] == events;
  }

  method DispatchStep(agent: AgentSafety, step: ScriptStep, now: real) returns (reply: Reply)
    requires agent.Valid()
    modifies agent, agent.estop, agent.wd, agent.seqs
    ensures agent.Valid()
    ensures reply == Answer(agent.config, old(StateOf(agent)), now, step)
    ensures StateOf(agent) == Dispatched(agent.config, old(StateOf(agent)), now, step)
  {
    if step.cmd == "estop" {
      agent.TripEstop(now);
      return Tripped;
    }
    var outcome := agent.Submit(Command(step), now);
    reply := ReplyTo(outcome);
  }

  /** `play`. It runs through the given rounds; a sequence that outlasts them is left Running. */
  method Play(agent: AgentSafety, steps: seq<ScriptStep>, rounds: seq<Round>, finalStop: bool, ends: real)
    returns (log: seq<Entry>, code: Code)
    requires agent.Valid()
    modifies agent, agent.estop, agent.wd, agent.seqs
    ensures agent.Valid()
    ensures |steps| == 0 ==> code == Completed && log == [] && StateOf(agent) == old(StateOf(agent))
    ensures |steps| > 0 ==>
              var p := After(agent.config, steps, rounds, old(StateOf(agent)), |rounds|);
              && log == p.log && code == p.code
              && StateOf(agent)
                 == (if code == Completed && finalStop
                     then DriveSafety.Step(agent.config, p.gate, Submit(ends, STOP_COMMAND)) else p.gate)
  {
    log, code := [], Running;
    if |steps| == 0 {
      return [], Completed;
    }
    var idx: nat, r: nat := 0, 0;
    while r < |rounds| && code == Running
      invariant agent.Valid() && idx <= |steps| && r <= |rounds|
      invariant Progress(StateOf(agent), idx, log, code)
             == After(agent.config, steps, rounds, old(StateOf(agent)), r)
      decreases |rounds| - r
    {
      idx, log, code := Turn(agent, steps, rounds[r], idx, log);
      r := r + 1;
    }
    Stays(agent.config, steps, rounds, old(StateOf(agent)), r);
    if code == Completed && finalStop {
      var _ := agent.Submit(STOP_COMMAND, ends);
    }
  }

  /** One round, and what happens while the scheduler sleeps after it. */
  method Turn(agent: AgentSafety, steps: seq<ScriptStep>, round: Round, idx: nat, log: seq<Entry>)
    returns (idx': nat, log': seq<Entry>, code: Code)
    requires agent.Valid() && idx <= |steps| && |steps| > 0
    modifies agent, agent.estop, agent.wd, agent.seqs
    ensures agent.Valid() && idx' <= |steps|
    ensures Progress(StateOf(agent), idx', log', code)
         == NextRound(agent.config, steps, round, Progress(old(StateOf(agent)), idx, log, Running))
  {
    idx', log', code := PlayRound(agent, steps, round.now, idx, log);
    if code == Running {
      Apply(agent, round.during);
    }
  }

  lemma {:induction false} Stays(c: Config, steps: seq<ScriptStep>, rounds: seq<Round>, gate: State, n: nat)
    requires n <= |rounds|
    ensures After(c, steps, rounds, gate, n).code != Running ==>
              After(c, steps, rounds, gate, |rounds|) == After(c, steps, rounds, gate, n)
    decreases |rounds| - n
  {
    if n < |rounds| {
      Stays(c, steps, rounds, gate, n + 1);
    }
  }

  method PlayRound(agent: AgentSafety, steps: seq<ScriptStep>, now: real, idx: nat, log: seq<Entry>)
    returns (idx': nat, log': seq<Entry>, code: Code)
    requires agent.Valid() && idx <= |steps| && |steps| > 0
    modifies agent, agent.estop, agent.wd, agent.seqs
    ensures agent.Valid() && idx' <= |steps|
    ensures Progress(StateOf(agent), idx', log', code)
         == Pass(agent.config, steps, now, Progress(old(StateOf(agent)), idx, log, Running))
  {
    idx', log', code := idx, log, Running;
    ghost var target := Catchup(agent.config, steps, now, Progress(StateOf(agent), idx, log, Running));
    while code == Running && idx' < |steps| && steps[idx'].at <= now
      invariant agent.Valid() && idx' <= |steps|
      invariant Catchup(agent.config, steps, now, Progress(StateOf(agent), idx', log', code)) == target
      decreases |steps| - idx'
    {
      var reply := DispatchStep(agent, steps[idx'], now);
      log' := log' + [Entry(now, idx', true, reply)];
      idx' := idx' + 1;
      code := CodeAfter(reply);
    }
    if code != Running {
      return;
    }
    if idx' >= |steps| && now >= steps[|steps| - 1].at {
      code := Completed;
    } else if idx' > 0 && steps[idx' - 1].cmd in MOTION {
      var reply := DispatchStep(agent, steps[idx' - 1], now);
      log' := log' + [Entry(now, idx' - 1, false, reply)];
      code := CodeAfter(reply);
    }
  }
}
