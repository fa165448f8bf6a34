/** A reader for the TOML the writer emits, after the Keys, String, Integer, Float, Boolean, Array, Table
    and Array of Tables sections of TOML v1.0.0. */
module TomlReader {
  import opened Wrappers
  import opened Toml
  import Text

  /** What a document means. */
  datatype Doc = Leaf(value: Value) | Dict(fields: map<string, Doc>) | Docs(items: seq<Doc>)

  // ----- tables -----

  /** The table a name stands for: of an array of tables, its last element. */
  function TableOf(d: Doc): Option<map<string, Doc>> {
    match d
    case Leaf(_) => None
    case Dict(fields) => Some(fields)
    case Docs(items) => if |items| == 0 then None else TableOf(items[|items| - 1])
  }

  function Replace(d: Doc, fields: map<string, Doc>): Doc
    requires TableOf(d).Some?
  {
    match d
    case Dict(_) => Dict(fields)
    case Docs(items) => Docs(items[..|items| - 1] + [Replace(items[|items| - 1], fields)])
  }

  function Get(d: Doc, path: seq<string>): Option<map<string, Doc>>
    decreases |path|
  {
    match TableOf(d)
    case None => None
    case Some(fields) =>
      if |path| == 0 then Some(fields)
      else if path[0] !in fields then None
      else Get(fields[path[0]], path[1..])
  }

  function Put(d: Doc, path: seq<string>, fields: map<string, Doc>): Doc
    requires Get(d, path).Some?
    decreases |path|
  {
    if |path| == 0 then Replace(d, fields)
    else
      var here := TableOf(d).value;
      Replace(d, here[path[0] := Put(here[path[0]], path[1..], fields)])
  }

  datatype Op = SetKey(key: string, value: Value) | NewTable(key: string) | NewItem(key: string)

  /** Nothing may be defined twice; only an array of tables may be added to. */
  function Apply(fields: map<string, Doc>, op: Op): Option<map<string, Doc>> {
    match op
    case SetKey(key, value) => if key in fields then None else Some(fields[key := Leaf(value)])
    case NewTable(key) => if key in fields then None else Some(fields[key := Dict(map[])])
    case NewItem(key) =>
      if key !in fields then Some(fields[key := Docs([Dict(map[])])])
      else if fields[key].Docs? then Some(fields[key := Docs(fields[key].items + [Dict(map[])])])
      else None
  }

  function Edit(root: Doc, path: seq<string>, op: Op): Option<Doc> {
    match Get(root, path)
    case None => None
    case Some(fields) =>
      match Apply(fields, op)
      case None => None
      case Some(changed) => Some(Put(root, path, changed))
  }

  /** The document so far, and the table that key/value lines go into. */
  datatype Reading = Reading(root: Doc, at: seq<string>)

  function ReadLine(s: Reading, line: Line): Option<Reading> {
    match line
    case Blank => Some(s)
    case KeyValue(key, value) => Move(Edit(s.root, s.at, SetKey(key, value)), s.at)
    case Header(path) =>
      if |path| == 0 then None else Move(Edit(s.root, path[..|path| - 1], NewTable(path[|path| - 1])), path)
    case ArrayHeader(path) =>
      if |path| == 0 then None else Move(Edit(s.root, path[..|path| - 1], NewItem(path[|path| - 1])), path)
  }

  function Move(root: Option<Doc>, at: seq<string>): Option<Reading> {
    if root.None? then None else Some(Reading(root.value, at))
  }

  function ReadLines(s: Reading, lines: seq<Line>): Option<Reading>
    decreases |lines|
  {
    if |lines| == 0 then Some(s)
    else
      match ReadLine(s, lines[0])
      case None => None
      case Some(t) => ReadLines(t, lines[1..])
  }

  // ----- strings and keys -----

  function HexValue(c: char): (r: Option<nat>)
    ensures r.Some? ==> r.value < 16
  {
    if '0' <= c <= '9' then Some(c as int - '0' as int)
    else if 'a' <= c <= 'f' then Some(c as int - 'a' as int + 10)
    else if 'A' <= c <= 'F' then Some(c as int - 'A' as int + 10)
    else None
  }

  function Hex4Value(s: string): (r: Option<nat>)
    requires |s| >= 4
    ensures r.Some? ==> r.value < 0x10000
  {
    var (a, b, c, d) := (HexValue(s[0]), HexValue(s[1]), HexValue(s[2]), HexValue(s[3]));
    if a.None? || b.None? || c.None? || d.None? then None
    else Some(((a.value * 16 + b.value) * 16 + c.value) * 16 + d.value)
  }

  /** A Unicode scalar value, so no surrogate. */
  predicate IsScalarValue(n: nat) { n < 0xD800 || 0xE000 <= n < 0x110000 }

  function Unescaped(c: char): Option<char> {
    if c == '"' then Some('"')
    else if c == '\\' then Some('\\')
    else if c == 'b' then Some(BACKSPACE)
    else if c == 't' then Some('\t')
    else if c == 'n' then Some('\n')
    else if c == 'f' then Some(FORM_FEED)
    else if c == 'r' then Some('\r')
    else None
  }

  /** Control characters other than tab must be escaped. */
  predicate IsLiteral(c: char) { c == '\t' || (' ' <= c && c as int != 0x7F) }

  /** One character of a basic string, and what follows it. */
  function ParseChar(s: string): (r: Option<(char, string)>)
    requires |s| > 0
    ensures r.Some? ==> |r.value.1| < |s|
  {
    if s[0] != '\\' then if IsLiteral(s[0]) then Some((s[0], s[1..])) else None
    else if |s| < 2 then None
    else if s[1] == 'u' then
      if |s| < 6 then None
      else
        match Hex4Value(s[2..])
        case None => None
        case Some(n) => if IsScalarValue(n) then Some((n as char, s[6..])) else None
    else
      match Unescaped(s[1])
      case None => None
      case Some(c) => Some((c, s[2..]))
  }

  /** The rest of a basic string after its opening quote, and what follows its closing one. */
  function ParseString(s: string): (r: Option<(string, string)>)
    ensures r.Some? ==> |r.value.1| < |s|
    decreases |s|
  {
    if |s| == 0 then None
    else if s[0] == '"' then Some(("", s[1..]))
    else
      match ParseChar(s)
      case None => None
      case Some((c, rest)) =>
        match ParseString(rest)
        case None => None
        case Some((more, after)) => Some(([c] + more, after))
  }

  /** The longest prefix of characters satisfying `p`. */
  function Span(s: string, p: char -> bool): (n: nat)
    ensures n <= |s| && (n < |s| ==> !p(s[n])) && forall i :: 0 <= i < n ==> p(s[i])
  {
    if |s| > 0 && p(s[0]) then 1 + Span(s[1..], p) else 0
  }

  function ParseKey(s: string): (r: Option<(string, string)>)
    ensures r.Some? ==> |r.value.1| < |s|
  {
    if |s| > 0 && s[0] == '"' then ParseString(s[1..])
    else
      var n := Span(s, c => IsBare(c));
      if n == 0 then None else Some((s[..n], s[n..]))
  }

  /** A dotted key. */
  function ParsePath(s: string): Option<(seq<string>, string)>
    decreases |s|
  {
    match ParseKey(s)
    case None => None
    case Some((key, rest)) =>
      if |rest| > 0 && rest[0] == '.' then
        match ParsePath(rest[1..])
        case None => None
        case Some((keys, after)) => Some(([key] + keys, after))
      else Some(([key], rest))
  }

  // ----- values -----

  predicate IsTokenChar(c: char) { IsBare(c) || c == '+' || c == '.' }

  /** Characters no integer is written with. */
  predicate IsFloatChar(c: char) { c == '.' || c == 'e' || c == 'n' }

  function ParseToken(token: string): Option<Value> {
    if token == "true" then Some(Bool(true))
    else if token == "false" then Some(Bool(false))
    else if exists c :: c in token && IsFloatChar(c) then Some(Float(token))
    else
      match Text.PyInt(token, 10)
      case None => None
      case Some(n) => Some(Int(n))
  }

  function ParseValue(s: string): (r: Option<(Value, string)>)
    ensures r.Some? ==> |r.value.1| < |s|
    decreases |s|, 0
  {
    if |s| == 0 then None
    else if s[0] == '"' then
      match ParseString(s[1..])
      case None => None
      case Some((text, rest)) => Some((Str(text), rest))
    else if s[0] == '[' then
      if |s| > 1 && s[1] == ']' then Some((List([]), s[2..]))
      else
        match ParseItems(s[1..])
        case None => None
        case Some((items, rest)) => Some((List(items), rest))
    else
      var n := Span(s, c => IsTokenChar(c));
      if n == 0 then None
      else
        match ParseToken(s[..n])
        case None => None
        case Some(v) => Some((v, s[n..]))
  }

  /** The items of a non-empty array, up to and including its closing bracket. */
  function ParseItems(s: string): (r: Option<(seq<Value>, string)>)
    ensures r.Some? ==> |r.value.1| < |s|
    decreases |s|, 1
  {
    match ParseValue(s)
    case None => None
    case Some((v, rest)) =>
      if |rest| > 0 && rest[0] == ']' then Some(([v], rest[1..]))
      else if |rest| > 1 && rest[0] == ',' && rest[1] == ' ' then
        match ParseItems(rest[2..])
        case None => None
        case Some((items, after)) => Some(([v] + items, after))
      else None
  }

  // ----- lines -----

  function ParseHeader(s: string, close: string): Option<seq<string>> {
    match ParsePath(s)
    case None => None
    case Some((path, rest)) => if rest == close then Some(path) else None
  }

  function ParseLine(s: string): Option<Line> {
    if |s| == 0 then Some(Blank)
    else if |s| > 1 && s[0] == '[' && s[1] == '[' then
      match ParseHeader(s[2..], "]]")
      case None => None
      case Some(path) => Some(ArrayHeader(path))
    else if s[0] == '[' then
      match ParseHeader(s[1..], "]")
      case None => None
      case Some(path) => Some(Header(path))
    else
      match ParseKey(s)
      case None => None
      case Some((key, rest)) =>
        if |rest| < 3 || rest[..3] != " = " then None
        else
          match ParseValue(rest[3..])
          case None => None
          case Some((value, after)) => if after == "" then Some(KeyValue(key, value)) else None
  }

  function ParseLines(texts: seq<string>): Option<seq<Line>> {
    if |texts| == 0 then Some([])
    else
      match ParseLine(texts[0])
      case None => None
      case Some(line) =>
        match ParseLines(texts[1..])
        case None => None
        case Some(lines) => Some([line] + lines)
  }

  function Loads(text: string): Option<Doc> {
    match ParseLines(Text.Split(text, '\n'))
    case None => None
    case Some(lines) =>
      match ReadLines(Reading(Dict(map[]), []), lines)
      case None => None
      case Some(s) => Some(s.root)
  }
}
