/** Arm playback programs: their JSON form, their nested loops and the flat list the runner executes
    (pibot/arm/programs.py). */
module Programs {
  import opened Wrappers
  import opened Bounds
  import opened Text

  datatype Json =
    | JNull
    | JBool(b: bool)
    | JNum(r: real)
    | JStr(s: string)
    | JList(items: seq<Json>)
    | JObj(fields: map<string, Json>)

  /** What Python itself does with values the format does not fix: str() of a non-string, and float()
      and int() of a string. */
  datatype Python = Python(render: Json -> string, toFloat: string -> Option<real>, toInt: string -> Option<int>)

  function Str(py: Python, j: Json): string { if j.JStr? then j.s else py.render(j) }

  function Float(py: Python, j: Json): Option<real> {
    match j
    case JNum(r) => Some(r)
    case JBool(b) => Some(if b then 1.0 else 0.0)
    case JStr(s) => py.toFloat(s)
    case _ => None
  }

  function Int(py: Python, j: Json): Option<int> {
    match j
    case JNum(r) => Some(Truncate(r))
    case JBool(b) => Some(if b then 1 else 0)
    case JStr(s) => py.toInt(s)
    case _ => None
  }

  function Truthy(j: Json): bool {
    match j
    case JNull => false
    case JBool(b) => b
    case JNum(r) => r != 0.0
    case JStr(s) => s != ""
    case JList(items) => items != []
    case JObj(fields) => fields != map[]
  }

  function Field(fields: map<string, Json>, key: string, default: Json): Json {
    if key in fields then fields[key] else default
  }

  datatype ProgramStep = ProgramStep(
    kind: string, pose: Option<string>, seconds: Option<real>, deg: Option<real>, on: Option<bool>,
    count: Option<int>, steps: seq<ProgramStep>)

  function Plain(kind: string): ProgramStep { ProgramStep(kind, None, None, None, None, None, []) }

  const KINDS: set<string> := {"moveJ", "moveL", "grip", "tool", "wait", "loop"}

  predicate Blank(s: string) { Strip(s, PY_SPACE) == "" }

  // ----- reading -----

  function MoveFromDict(py: Python, kind: string, fields: map<string, Json>): Result<ProgramStep, string> {
    var pose := Field(fields, "pose", JNull);
    if !pose.JStr? || Blank(pose.s) then Failure(kind + " step needs a pose name")
    else
      match Float(py, Field(fields, "seconds", JNum(2.0)))
      case None => Failure("seconds")
      case Some(seconds) =>
        if seconds <= 0.0 then Failure(kind + " step seconds must be positive")
        else Success(Plain(kind).(pose := Some(pose.s), seconds := Some(seconds)))
  }

  function GripFromDict(py: Python, kind: string, fields: map<string, Json>): Result<ProgramStep, string> {
    if "deg" !in fields then Failure("grip step needs deg")
    else
      match Float(py, fields["deg"])
      case None => Failure("deg")
      case Some(deg) => Success(Plain(kind).(deg := Some(deg)))
  }

  function ToolFromDict(kind: string, fields: map<string, Json>): Result<ProgramStep, string> {
    if "on" !in fields then Failure("tool step needs on")
    else Success(Plain(kind).(on := Some(Truthy(fields["on"]))))
  }

  function WaitFromDict(py: Python, kind: string, fields: map<string, Json>): Result<ProgramStep, string> {
    match Float(py, Field(fields, "seconds", JNum(0.0)))
    case None => Failure("seconds")
    case Some(seconds) =>
      if seconds <= 0.0 then Failure("wait step seconds must be positive")
      else Success(Plain(kind).(seconds := Some(seconds)))
  }

  function StepFromDict(py: Python, data: Json): Result<ProgramStep, string>
    decreases data, 1
  {
    if !data.JObj? then Failure("step is not a mapping")
    else
      var kind := Strip(Str(py, Field(data.fields, "kind", JStr(""))), PY_SPACE);
      if kind !in KINDS then Failure("unknown step kind")
      else if kind == "moveJ" || kind == "moveL" then MoveFromDict(py, kind, data.fields)
      else if kind == "grip" then GripFromDict(py, kind, data.fields)
      else if kind == "tool" then ToolFromDict(kind, data.fields)
      else if kind == "wait" then WaitFromDict(py, kind, data.fields)
      else
        match Int(py, Field(data.fields, "count", JNum(0.0)))
        case None => Failure("count")
        case Some(count) =>
          if count <= 0 then Failure("loop step count must be positive")
          else if "steps" !in data.fields || !data.fields["steps"].JList? || data.fields["steps"].items == [] then
            Failure("loop step needs nested steps")
          else
            match StepsFromList(py, data.fields["steps"].items)
            case Failure(e) => Failure(e)
            case Success(steps) => Success(Plain(kind).(count := Some(count), steps := steps))
  }

  function StepsFromList(py: Python, items: seq<Json>): (r: Result<seq<ProgramStep>, string>)
    ensures r.Success? ==> |r.value| == |items|
    decreases items, 0
  {
    if |items| == 0 then Success([])
    else
      match StepFromDict(py, items[0])
      case Failure(e) => Failure(e)
      case Success(first) =>
        match StepsFromList(py, items[1..])
        case Failure(e) => Failure(e)
        case Success(rest) => Success([first] + rest)
  }

  datatype Program = Program(name: string, steps: seq<ProgramStep>, created: real)

  /** `now` is the clock, the default creation time. */
  function FromDict(py: Python, data: map<string, Json>, now: real): Result<Program, string> {
    var name := Strip(Str(py, Field(data, "name", JStr(""))), PY_SPACE);
    if name == "" then Failure("program name must be non-empty")
    else if "steps" !in data || !data["steps"].JList? || data["steps"].items == [] then
      Failure("program steps must be a non-empty list")
    else
      match StepsFromList(py, data["steps"].items)
      case Failure(e) => Failure(e)
      case Success(steps) =>
        match Float(py, Field(data, "created", JNum(now)))
        case None => Failure("created")
        case Some(created) => Success(Program(name, steps, created))
  }

  // ----- writing -----

  function Put(data: map<string, Json>, key: string, value: Option<Json>): map<string, Json> {
    if value.Some? then data[key := value.value] else data
  }

  function NumOf(x: Option<real>): Option<Json> { if x.Some? then Some(JNum(x.value)) else None }

  /** The fields other than the nested steps. */
  function Scalars(step: ProgramStep): map<string, Json> {
    var d0 := map["kind" := JStr(step.kind)];
    var d1 := Put(d0, "pose", if step.pose.Some? then Some(JStr(step.pose.value)) else None);
    var d2 := Put(d1, "seconds", NumOf(step.seconds));
    var d3 := Put(d2, "deg", NumOf(step.deg));
    var d4 := Put(d3, "on", if step.on.Some? then Some(JBool(step.on.value)) else None);
    Put(d4, "count", if step.count.Some? then Some(JNum(step.count.value as real)) else None)
  }

  /** Absent fields are left out. */
  function StepAsDict(step: ProgramStep): Json
    decreases step, 1
  {
    JObj(Put(Scalars(step), "steps", if step.steps != [] then Some(JList(StepsAsList(step.steps))) else None))
  }

  method ScalarDict(step: ProgramStep) returns (data: map<string, Json>)
    ensures data == Scalars(step)
  {
    data := map["kind" := JStr(step.kind)];
    if step.pose.Some? { data := data["pose" := JStr(step.pose.value)]; }
    if step.seconds.Some? { data := data["seconds" := JNum(step.seconds.value)]; }
    if step.deg.Some? { data := data["deg" := JNum(step.deg.value)]; }
    if step.on.Some? { data := data["on" := JBool(step.on.value)]; }
    if step.count.Some? { data := data["count" := JNum(step.count.value as real)]; }
  }

  method StepDict(step: ProgramStep) returns (data: map<string, Json>)
    ensures JObj(data) == StepAsDict(step)
    decreases step
  {
    data := ScalarDict(step);
    if step.steps != [] {
      var items: seq<Json> := [];
      assert step.steps[0..] == step.steps;
      for i := 0 to |step.steps|
        invariant items + StepsAsList(step.steps[i..]) == StepsAsList(step.steps)
      {
        assert step.steps[i] in step.steps;
        var item := StepDict(step.steps[i]);
        assert step.steps[i..][0] == step.steps[i] && step.steps[i..][1..] == step.steps[i + 1..];
        items := items + [JObj(item)];
      }
      assert step.steps[|step.steps|..] == [] && items == StepsAsList(step.steps);
      data := data["steps" := JList(items)];
    }
  }

  function StepsAsList(steps: seq<ProgramStep>): (items: seq<Json>)
    ensures |items| == |steps|
    decreases steps, 0
  {
    if |steps| == 0 then [] else [StepAsDict(steps[0])] + StepsAsList(steps[1..])
  }

  function AsDict(p: Program): map<string, Json> {
    map["name" := JStr(p.name), "steps" := JList(StepsAsList(p.steps)), "created" := JNum(p.created)]
  }

  // ----- which programs are accepted -----

  /** Exactly the fields its kind calls for, and those in range. */
  predicate WellFormed(step: ProgramStep)
    decreases step, 1
  {
    if step.kind == "moveJ" || step.kind == "moveL" then
      && step.pose.Some? && !Blank(step.pose.value) && step.seconds.Some? && step.seconds.value > 0.0
      && step == Plain(step.kind).(pose := step.pose, seconds := step.seconds)
    else if step.kind == "grip" then step.deg.Some? && step == Plain(step.kind).(deg := step.deg)
    else if step.kind == "tool" then step.on.Some? && step == Plain(step.kind).(on := step.on)
    else if step.kind == "wait" then
      step.seconds.Some? && step.seconds.value > 0.0 && step == Plain(step.kind).(seconds := step.seconds)
    else
      && step.kind == "loop" && step.count.Some? && step.count.value > 0 && |step.steps| > 0
      && step == Plain(step.kind).(count := step.count, steps := step.steps)
      && AllWellFormed(step.steps)
  }

  predicate AllWellFormed(steps: seq<ProgramStep>)
    decreases steps, 0
  {
    |steps| == 0 || (WellFormed(steps[0]) && AllWellFormed(steps[1..]))
  }

  predicate WellFormedProgram(p: Program) {
    p.name != "" && Strip(p.name, PY_SPACE) == p.name && |p.steps| > 0 && AllWellFormed(p.steps)
  }

  // ----- expansion -----

  function Repeat<T>(s: seq<T>, n: int): seq<T>
    decreases if n > 0 then n else 0
  {
    if n <= 0 then [] else s + Repeat(s, n - 1)
  }

  function LoopCount(step: ProgramStep): int { if step.count.Some? then step.count.value else 0 }

  /** The flat list a step stands for: loops are unrolled. */
  function Expand(step: ProgramStep): seq<ProgramStep>
    decreases step, 1
  {
    if step.kind != "loop" then [step] else Repeat(ExpandAll(step.steps), LoopCount(step))
  }

  function ExpandAll(steps: seq<ProgramStep>): seq<ProgramStep>
    decreases steps, 0
  {
    if |steps| == 0 then [] else Expand(steps[0]) + ExpandAll(steps[1..])
  }
}
