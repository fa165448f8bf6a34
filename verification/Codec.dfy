/** The framing codec: messages to single ASCII lines and back (pibot/protocol/codec.py). */
module Codec {
  import opened Wrappers
  import opened Text
  import Crc

  datatype Kind = Command | Telemetry | Ack | Nak

  /** An argument: an int, a float kept as its numeral, or text. */
  datatype Value = Int(n: int) | Float(repr: string) | Text(text: string)

  type Args = seq<(string, Value)>

  /** `args` is a dictionary in insertion order. */
  datatype Message = Message(kind: Kind, seqNo: int, name: string, args: Args, reason: string)

  // ----- schemas -----

  function CommandArgs(name: string): Option<seq<string>> {
    if name == "drive" then Some(["v", "w"])
    else if name == "motor" then Some(["id", "pwm"])
    else if name == "servo" then Some(["id", "deg"])
    else if name == "stop" then Some([])
    else if name == "estop" then Some([])
    else if name == "ping" then Some([])
    else if name == "set" then Some(["param", "value"])
    else if name == "jpos" then Some(["id", "deg"])
    else if name == "jmove" then Some(["id", "deg", "dps"])
    else if name == "jvel" then Some(["id", "dps"])
    else if name == "jstop" then Some(["id"])
    else if name == "home" then Some(["id"])
    else if name == "enable" then Some(["on"])
    else if name == "grip" then Some(["deg"])
    else if name == "tool" then Some(["on"])
    else None
  }

  function TelemetryFields(name: string): Option<seq<string>> {
    if name == "state" then Some(["v", "w"])
    else if name == "battery" then Some(["volts"])
    else if name == "current" then Some(["amps"])
    else if name == "encoder" then Some(["left", "right"])
    else if name == "imu" then Some(["ax", "ay", "az", "gx", "gy", "gz"])
    else if name == "range" then Some(["mm"])
    else if name == "event" then Some(["code"])
    else if name == "grip" then Some(["deg", "tool"])
    else None
  }

  function Schema(kind: Kind, name: string): Option<seq<string>> {
    if kind == Command then CommandArgs(name) else TelemetryFields(name)
  }

  function Lookup(args: Args, key: string): Option<Value> {
    if |args| == 0 then None
    else if args[0].0 == key then Some(args[0].1)
    else Lookup(args[1..], key)
  }

  // ----- encoding -----

  function Format(v: Value): string {
    match v
    case Int(n) => Decimal(n)
    case Float(repr) => repr
    case Text(text) => text
  }

  function ParseToken(token: string): Value {
    match PyInt(token, 10)
    case Some(n) => Int(n)
    case None => if IsFloat(token) then Float(token) else Text(token)
  }

  /** The formatted values of `keys`; None is the KeyError of a missing argument. */
  function Select(args: Args, keys: seq<string>): (r: Option<seq<string>>)
    ensures r.Some? ==> |r.value| == |keys|
  {
    if |keys| == 0 then Some([])
    else
      match (Lookup(args, keys[0]), Select(args, keys[1..]))
      case (Some(v), Some(rest)) => Some([Format(v)] + rest)
      case _ => None
  }

  function FormatAll(args: Args): (r: seq<string>)
    ensures |r| == |args|
  {
    seq(|args|, i requires 0 <= i < |args| => Format(args[i].1))
  }

  function Fields(m: Message): Option<seq<string>> {
    match Schema(m.kind, m.name)
    case Some(keys) => Select(m.args, keys)
    case None => Some(FormatAll(m.args))
  }

  function Bytes(s: string): (b: seq<bv8>)
    ensures |b| == |s|
  {
    seq(|s|, i requires 0 <= i < |s| => (s[i] as int % 256) as bv8)
  }

  function Checksum(payload: string): (n: nat)
    ensures n < 256
  {
    Crc.Crc8(Bytes(payload)) as nat
  }

  function Marker(kind: Kind): char { if kind == Command then '>' else '<' }

  function Payload(m: Message, fields: seq<string>): string {
    Join([Decimal(m.seqNo), m.name] + fields, ',')
  }

  /** None is the KeyError of a message that lacks a schema argument. */
  function Encode(m: Message): Option<string> {
    match m.kind
    case Ack => Some("ACK " + Decimal(m.seqNo) + "\n")
    case Nak => Some("NAK " + Decimal(m.seqNo) + " " + m.reason + "\n")
    case _ =>
      match Fields(m)
      case None => None
      case Some(fields) =>
        var payload := Payload(m, fields);
        Some([Marker(m.kind)] + payload + "*" + Hex2(Checksum(payload)) + "\n")
  }

  // ----- decoding -----

  function ParseSeq(token: string): (r: Result<int, string>)
    ensures r.Success? ==> 0 <= r.value <= 255
  {
    match PyInt(token, 10)
    case None => Failure("seq")
    case Some(n) => if 0 <= n <= 255 then Success(n) else Failure("seq")
  }

  function ArgName(i: nat): string { "arg" + Decimal(i) }

  function ParseArgs(kind: Kind, name: string, tokens: seq<string>): Result<Args, string> {
    match Schema(kind, name)
    case Some(keys) =>
      if |tokens| != |keys| then Failure("arity")
      else Success(seq(|keys|, i requires 0 <= i < |keys| => (keys[i], ParseToken(tokens[i]))))
    case None => Success(seq(|tokens|, i requires 0 <= i < |tokens| => (ArgName(i), ParseToken(tokens[i]))))
  }

  function DecodePayload(kind: Kind, payload: string): Result<Message, string> {
    var parts := Split(payload, ',');
    if |parts| < 2 then Failure("fields")
    else
      match ParseSeq(parts[0])
      case Failure(e) => Failure(e)
      case Success(seqNo) =>
        match ParseArgs(kind, parts[1], parts[2..])
        case Failure(e) => Failure(e)
        case Success(args) => Success(Message(kind, seqNo, parts[1], args, ""))
  }

  function DecodeAck(rest: string): Result<Message, string> {
    match ParseSeq(Strip(rest, PY_SPACE))
    case Failure(e) => Failure(e)
    case Success(n) => Success(Message(Ack, n, "", [], ""))
  }

  function DecodeNak(rest: string): Result<Message, string> {
    var (number, reason) := match Find(rest, ' ')
      case Some(i) => (rest[..i], rest[i + 1..])
      case None => (rest, "");
    match ParseSeq(number)
    case Failure(e) => Failure(e)
    case Success(n) => Success(Message(Nak, n, "", [], reason))
  }

  function DecodeFramed(kind: Kind, text: string): Result<Message, string>
    requires |text| > 0 && text[0] == Marker(kind)
  {
    match RFind(text, '*')
    case None => Failure("frame")
    case Some(star) =>
      assert star > 0;
      match PyInt(text[star + 1..], 16)
      case None => Failure("crc")
      case Some(expected) =>
        if Checksum(text[1..star]) != expected then Failure("crc") else DecodePayload(kind, text[1..star])
  }

  function DecodeAscii(text: string): Result<Message, string> {
    if |text| == 0 then Failure("empty")
    else if "ACK " <= text then DecodeAck(text[4..])
    else if "NAK " <= text then DecodeNak(text[4..])
    else if text[0] == '>' then DecodeFramed(Command, text)
    else if text[0] == '<' then DecodeFramed(Telemetry, text)
    else Failure("marker")
  }

  function Decode(frame: string): Result<Message, string> {
    if !ValidUtf8(frame) then Failure("encoding") else DecodeAscii(Strip(frame, LINE_ENDS))
  }

  // ----- which messages the wire format can carry -----

  predicate CleanField(s: string) { ',' !in s && '\n' !in s && ValidUtf8(s) }

  /** A float's numeral reads as a float, which is always so of repr(), and a text as no number. */
  predicate KeepsItsType(v: Value) {
    match v
    case Int(_) => true
    case Float(repr) => IsFloat(repr) && PyInt(repr, 10).None?
    case Text(text) => !IsFloat(text) && PyInt(text, 10).None?
  }

  predicate CleanValue(v: Value) {
    (v.Float? ==> CleanField(v.repr)) && (v.Text? ==> CleanField(v.text))
  }

  predicate DistinctKeys(args: Args) {
    forall i, j :: 0 <= i < j < |args| ==> args[i].0 != args[j].0
  }

  /** One line can be made of the message, and its fields told apart again. */
  predicate Legible(m: Message) {
    && 0 <= m.seqNo <= 255 && DistinctKeys(m.args)
    && match m.kind
       case Ack => true
       case Nak =>
         ValidUtf8(m.reason) && '\n' !in m.reason && (m.reason != "" ==> m.reason[|m.reason| - 1] != '\r')
       case _ =>
         && CleanField(m.name)
         && match Schema(m.kind, m.name)
            case Some(keys) =>
              forall k :: k in keys ==> Lookup(m.args, k).Some? && CleanValue(Lookup(m.args, k).value)
            case None => forall v :: v in Contents(m.args) ==> CleanValue(v)
  }

  function Contents(args: Args): seq<Value> { seq(|args|, i requires 0 <= i < |args| => args[i].1) }

  /** What the fields of a framed message hold: the arguments the schema names or, without a schema, all. */
  function SentValues(m: Message): seq<Value> {
    match Schema(m.kind, m.name)
    case Some(keys) =>
      seq(|keys|, i requires 0 <= i < |keys| =>
        if Lookup(m.args, keys[i]).Some? then Lookup(m.args, keys[i]).value else Int(0))
    case None => Contents(m.args)
  }

  /** The names they are read back under. */
  function SentNames(m: Message): (names: seq<string>)
    ensures |names| == |SentValues(m)|
  {
    match Schema(m.kind, m.name)
    case Some(keys) => keys
    case None => seq(|m.args|, i requires 0 <= i < |m.args| => ArgName(i))
  }

  predicate AllKeepTypes(args: Args) { forall v :: v in Contents(args) ==> KeepsItsType(v) }

  predicate TypesKept(m: Message) { AllKeepTypes(m.args) }

  /** Each argument's name is among these, and these values stand under their own names. */
  predicate InPlace(args: Args, names: seq<string>, values: seq<Value>)
    requires |names| == |values|
  {
    && (forall i :: 0 <= i < |args| ==> args[i].0 in names)
    && forall i :: 0 <= i < |names| ==> Lookup(args, names[i]) == Some(values[i])
  }

  /** Every argument is sent, and in the place of its own name. */
  predicate NamesKept(m: Message) { InPlace(m.args, SentNames(m), SentValues(m)) }

  /** Nothing is set that this kind of message does not send. */
  predicate AllSent(m: Message) {
    match m.kind
    case Ack => m.name == "" && m.args == [] && m.reason == ""
    case Nak => m.name == "" && m.args == []
    case _ => m.reason == "" && NamesKept(m)
  }

  predicate Carriable(m: Message) { Legible(m) && AllSent(m) && TypesKept(m) }

  ghost predicate SameArgs(a: Args, b: Args) { forall k :: Lookup(a, k) == Lookup(b, k) }

  /** Two messages are the same when every field agrees, the arguments as dictionaries. */
  ghost predicate SameMessage(a: Message, b: Message) {
    && a.kind == b.kind && a.seqNo == b.seqNo && a.name == b.name && a.reason == b.reason
    && SameArgs(a.args, b.args)
  }
}
