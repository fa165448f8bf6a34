/** Programs survive their JSON form, and the flat list means what the nested loops mean. */
module ProgramLaws {
  import opened Wrappers
  import opened Bounds
  import opened Text
  import opened Programs

  // ----- round trip -----

  lemma {:induction false} StripIdempotent(s: string, chars: set<char>)
    ensures Strip(Strip(s, chars), chars) == Strip(s, chars)
    decreases |s|
  {
    var t := LStrip(s, chars);
    LStripFront(s, chars);
    RStripEnd(t, chars);
    RStripIsPrefix(t, chars);
  }

  lemma {:induction false} LStripFront(s: string, chars: set<char>)
    ensures var t := LStrip(s, chars); |t| > 0 ==> t[0] !in chars
  {
    if |s| > 0 && s[0] in chars {
      LStripFront(s[1..], chars);
    }
  }

  lemma {:induction false} RStripEnd(s: string, chars: set<char>)
    ensures var t := RStrip(s, chars); |t| > 0 ==> t[|t| - 1] !in chars
  {
    if |s| > 0 && s[|s| - 1] in chars {
      RStripEnd(s[..|s| - 1], chars);
    }
  }

  lemma SimpleReadIsWellFormed(py: Python, kind: string, fields: map<string, Json>)
    ensures (kind == "moveJ" || kind == "moveL") && MoveFromDict(py, kind, fields).Success? ==>
              WellFormed(MoveFromDict(py, kind, fields).value)
    ensures kind == "grip" && GripFromDict(py, kind, fields).Success? ==>
              WellFormed(GripFromDict(py, kind, fields).value)
    ensures kind == "tool" && ToolFromDict(kind, fields).Success? ==> WellFormed(ToolFromDict(kind, fields).value)
    ensures kind == "wait" && WaitFromDict(py, kind, fields).Success? ==>
              WellFormed(WaitFromDict(py, kind, fields).value)
  {
  }

  lemma {:induction false} StepReadIsWellFormed(py: Python, data: Json)
    ensures StepFromDict(py, data).Success? ==> WellFormed(StepFromDict(py, data).value)
    decreases data, 1
  {
    if data.JObj? {
      SimpleReadIsWellFormed(py, Strip(Str(py, Field(data.fields, "kind", JStr(""))), PY_SPACE), data.fields);
      if "steps" in data.fields && data.fields["steps"].JList? {
        StepsReadAreWellFormed(py, data.fields["steps"].items);
      }
    }
  }

  lemma {:induction false} StepsReadAreWellFormed(py: Python, items: seq<Json>)
    ensures StepsFromList(py, items).Success? ==> AllWellFormed(StepsFromList(py, items).value)
    decreases items, 0
  {
    if |items| == 0 {
    } else {
      StepReadIsWellFormed(py, items[0]);
      StepsReadAreWellFormed(py, items[1..]);
    }
  }

  lemma KindsAreTrimmed(kind: string)
    requires kind in KINDS
    ensures Strip(kind, PY_SPACE) == kind
  {
    var s := kind;
    assert 'a' <= s[0] <= 'z' && 'A' <= s[|s| - 1] <= 'z';
    StripNothing(s, PY_SPACE);
  }

  /** What as_dict stored, field by field. */
  lemma StoredFields(step: ProgramStep)
    ensures var f := StepAsDict(step).fields;
            && "kind" in f && f["kind"] == JStr(step.kind)
            && (step.pose.Some? ==> "pose" in f && f["pose"] == JStr(step.pose.value))
            && (step.seconds.Some? ==> "seconds" in f && f["seconds"] == JNum(step.seconds.value))
            && (step.deg.Some? ==> "deg" in f && f["deg"] == JNum(step.deg.value))
            && (step.on.Some? ==> "on" in f && f["on"] == JBool(step.on.value))
    ensures var f := StepAsDict(step).fields;
            && (step.count.Some? ==> "count" in f && f["count"] == JNum(step.count.value as real))
            && (step.steps != [] ==> "steps" in f && f["steps"] == JList(StepsAsList(step.steps)))
  {
    NamesDiffer();
  }

  lemma NamesDiffer()
    ensures "kind" != "pose" && "kind" != "seconds" && "kind" != "deg" && "kind" != "on" && "kind" != "count" && "kind" != "steps"
    ensures "pose" != "seconds" && "pose" != "deg" && "pose" != "on" && "pose" != "count" && "pose" != "steps"
    ensures "seconds" != "deg" && "seconds" != "on" && "seconds" != "count" && "seconds" != "steps"
    ensures "deg" != "on" && "deg" != "count" && "deg" != "steps" && "on" != "count" && "on" != "steps"
    ensures "count" != "steps"
  {
    assert |"seconds"| == 7 && |"deg"| == 3 && |"on"| == 2;
    assert "kind"[0] == 'k' && "pose"[0] == 'p' && "count"[0] == 'c' && "steps"[0] == 's';
  }

  lemma SimpleRoundTrip(py: Python, step: ProgramStep, fields: map<string, Json>)
    requires WellFormed(step) && fields == StepAsDict(step).fields
    ensures step.kind == "moveJ" || step.kind == "moveL" ==> MoveFromDict(py, step.kind, fields) == Success(step)
    ensures step.kind == "grip" ==> GripFromDict(py, step.kind, fields) == Success(step)
    ensures step.kind == "tool" ==> ToolFromDict(step.kind, fields) == Success(step)
    ensures step.kind == "wait" ==> WaitFromDict(py, step.kind, fields) == Success(step)
  {
    StoredFields(step);
  }

  lemma {:induction false} StepRoundTrip(py: Python, step: ProgramStep)
    requires WellFormed(step)
    ensures StepFromDict(py, StepAsDict(step)) == Success(step)
    decreases step, 1
  {
    KindsAreTrimmed(step.kind);
    StoredFields(step);
    if step.kind == "loop" {
      TruncateWhole(step.count.value);
      StepsRoundTrip(py, step.steps);
    } else {
      SimpleRoundTrip(py, step, StepAsDict(step).fields);
    }
  }

  lemma {:induction false} StepsRoundTrip(py: Python, steps: seq<ProgramStep>)
    requires AllWellFormed(steps)
    ensures StepsFromList(py, StepsAsList(steps)) == Success(steps)
    decreases steps, 0
  {
    if |steps| == 0 {
    } else {
      StepRoundTrip(py, steps[0]);
      StepsRoundTrip(py, steps[1..]);
      var items := StepsAsList(steps);
      assert items[0] == StepAsDict(steps[0]) && items[1..] == StepsAsList(steps[1..]);
      assert steps == [steps[0]] + steps[1..];
    }
  }

  /** A program is accepted from some JSON exactly when it is well formed, and then its own JSON form
      is read back as the same program. */
  lemma ProgramRoundTrip(py: Python, data: map<string, Json>, now: real, later: real)
    requires FromDict(py, data, now).Success?
    ensures WellFormedProgram(FromDict(py, data, now).value)
    ensures FromDict(py, AsDict(FromDict(py, data, now).value), later) == FromDict(py, data, now)
  {
    var p := FromDict(py, data, now).value;
    StepsReadAreWellFormed(py, data["steps"].items);
    StripIdempotent(Str(py, Field(data, "name", JStr(""))), PY_SPACE);
    WellFormedRoundTrip(py, p, later);
  }

  lemma WellFormedRoundTrip(py: Python, p: Program, now: real)
    requires WellFormedProgram(p)
    ensures FromDict(py, AsDict(p), now) == Success(p)
  {
    StepsRoundTrip(py, p.steps);
  }

  // ----- expansion -----

  /** The number of flat steps, computed on the nested program. */
  function Weight(step: ProgramStep): nat
    decreases step, 1
  {
    if step.kind != "loop" then 1
    else (if LoopCount(step) > 0 then LoopCount(step) else 0) * WeightAll(step.steps)
  }

  function WeightAll(steps: seq<ProgramStep>): nat
    decreases steps, 0
  {
    if |steps| == 0 then 0 else Weight(steps[0]) + WeightAll(steps[1..])
  }

  lemma {:induction false} RepeatLength<T>(s: seq<T>, n: int)
    ensures |Repeat(s, n)| == (if n > 0 then n else 0) * |s|
    ensures forall x :: x in Repeat(s, n) ==> x in s
    decreases if n > 0 then n else 0
  {
    if n <= 0 {
    } else {
      RepeatLength(s, n - 1);
      assert n * |s| == (n - 1) * |s| + |s|;
    }
  }

  /** Expansion yields no loops and has the product-and-sum length. */
  lemma {:induction false} ExpandIsFlat(step: ProgramStep)
    ensures |Expand(step)| == Weight(step)
    ensures forall x :: x in Expand(step) ==> x.kind != "loop"
    decreases step, 1
  {
    if step.kind == "loop" {
      ExpandAllIsFlat(step.steps);
      RepeatLength(ExpandAll(step.steps), LoopCount(step));
    }
  }

  lemma {:induction false} ExpandAllIsFlat(steps: seq<ProgramStep>)
    ensures |ExpandAll(steps)| == WeightAll(steps)
    ensures forall x :: x in ExpandAll(steps) ==> x.kind != "loop"
    decreases steps, 0
  {
    if |steps| == 0 {
    } else {
      ExpandIsFlat(steps[0]);
      ExpandAllIsFlat(steps[1..]);
    }
  }

  /** Every accepted program expands to at least one step. */
  lemma {:induction false} ExpandIsNonEmpty(step: ProgramStep)
    requires WellFormed(step)
    ensures |Expand(step)| > 0
    decreases step, 1
  {
    if step.kind == "loop" {
      ExpandAllIsNonEmpty(step.steps);
    }
  }

  lemma ExpandAllIsNonEmpty(steps: seq<ProgramStep>)
    requires AllWellFormed(steps) && |steps| > 0
    ensures |ExpandAll(steps)| > 0
    decreases steps, 0
  {
    ExpandIsNonEmpty(steps[0]);
  }

  /** Executing one step may fail; a failure ends the run. */
  type Effect<!S> = (S, ProgramStep) -> Option<S>

  function RunFlat<S>(effect: Effect<S>, s: S, steps: seq<ProgramStep>): Option<S>
    decreases |steps|
  {
    if |steps| == 0 then Some(s)
    else
      match effect(s, steps[0])
      case None => None
      case Some(t) => RunFlat(effect, t, steps[1..])
  }

  /** The structural meaning: a loop runs its body `count` times. */
  function RunStep<S>(effect: Effect<S>, s: S, step: ProgramStep): Option<S>
    decreases step, 2, 0
  {
    if step.kind != "loop" then effect(s, step) else RunLoop(effect, s, step, LoopCount(step))
  }

  function RunLoop<S>(effect: Effect<S>, s: S, step: ProgramStep, n: int): Option<S>
    decreases step, 1, if n > 0 then n else 0
  {
    if n <= 0 then Some(s)
    else
      match RunBody(effect, s, step.steps)
      case None => None
      case Some(t) => RunLoop(effect, t, step, n - 1)
  }

  function RunBody<S>(effect: Effect<S>, s: S, steps: seq<ProgramStep>): Option<S>
    decreases steps, 0, 0
  {
    if |steps| == 0 then Some(s)
    else
      match RunStep(effect, s, steps[0])
      case None => None
      case Some(t) => RunBody(effect, t, steps[1..])
  }

  lemma {:induction false} RunFlatSplit<S>(effect: Effect<S>, s: S, a: seq<ProgramStep>, b: seq<ProgramStep>)
    ensures RunFlat(effect, s, a + b)
         == match RunFlat(effect, s, a)
            case None => None
            case Some(t) => RunFlat(effect, t, b)
    decreases |a|
  {
    if |a| == 0 {
      assert a + b == b;
    } else {
      assert (a + b)[1..] == a[1..] + b;
      match effect(s, a[0])
      case None =>
      case Some(t) => RunFlatSplit(effect, t, a[1..], b);
    }
  }

  /** Executing the flat list is interpreting the nested loops, whatever the steps do. */
  lemma {:induction false} FlatMeansNested<S>(effect: Effect<S>, s: S, step: ProgramStep)
    ensures RunFlat(effect, s, Expand(step)) == RunStep(effect, s, step)
    decreases step, 2, 0
  {
    if step.kind == "loop" {
      FlatMeansLoop(effect, s, step, LoopCount(step));
    } else {
      match effect(s, step)
      case None =>
      case Some(t) => assert RunFlat(effect, t, [step][1..]) == Some(t);
    }
  }

  lemma {:induction false} FlatMeansLoop<S>(effect: Effect<S>, s: S, step: ProgramStep, n: int)
    ensures RunFlat(effect, s, Repeat(ExpandAll(step.steps), n)) == RunLoop(effect, s, step, n)
    decreases step, 1, if n > 0 then n else 0
  {
    if n <= 0 {
    } else {
      var body := ExpandAll(step.steps);
      RunFlatSplit(effect, s, body, Repeat(body, n - 1));
      FlatMeansBody(effect, s, step.steps);
      match RunBody(effect, s, step.steps)
      case None =>
      case Some(t) => FlatMeansLoop(effect, t, step, n - 1);
    }
  }

  lemma {:induction false} FlatMeansBody<S>(effect: Effect<S>, s: S, steps: seq<ProgramStep>)
    ensures RunFlat(effect, s, ExpandAll(steps)) == RunBody(effect, s, steps)
    decreases steps, 0, 0
  {
    if |steps| == 0 {
    } else {
      RunFlatSplit(effect, s, Expand(steps[0]), ExpandAll(steps[1..]));
      FlatMeansNested(effect, s, steps[0]);
      match RunStep(effect, s, steps[0])
      case None =>
      case Some(t) => FlatMeansBody(effect, t, steps[1..]);
    }
  }
}
