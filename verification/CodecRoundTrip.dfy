/** When decoding undoes encoding. */
module CodecRoundTrip {
  import opened Wrappers
  import opened Text
  import opened Codec

  // ----- dictionaries -----

  lemma {:induction false} LookupFirst(args: Args, i: nat)
    requires i < |args|
    requires forall j :: 0 <= j < i ==> args[j].0 != args[i].0
    ensures Lookup(args, args[i].0) == Some(args[i].1)
  {
    if i == 0 {
    } else {
      assert args[0].0 != args[i].0;
      assert args[1..][i - 1] == args[i];
      forall j | 0 <= j < i - 1
        ensures args[1..][j].0 != args[1..][i - 1].0
      {
        assert args[1..][j] == args[j + 1];
      }
      LookupFirst(args[1..], i - 1);
    }
  }

  lemma {:induction false} LookupFound(args: Args, key: string) returns (i: nat)
    requires Lookup(args, key).Some?
    ensures i < |args| && args[i] == (key, Lookup(args, key).value)
  {
    if args[0].0 == key {
      i := 0;
    } else {
      i := LookupFound(args[1..], key);
      i := i + 1;
    }
  }

  lemma {:induction false} LookupAbsent(args: Args, key: string)
    requires forall i :: 0 <= i < |args| ==> args[i].0 != key
    ensures Lookup(args, key) == None
  {
    if |args| == 0 {
    } else {
      forall i | 0 <= i < |args[1..]|
        ensures args[1..][i].0 != key
      {
        assert args[1..][i] == args[i + 1];
      }
      LookupAbsent(args[1..], key);
    }
  }

  lemma {:induction false} SelectAt(args: Args, keys: seq<string>)
    requires forall k :: k in keys ==> Lookup(args, k).Some?
    ensures Select(args, keys).Some?
    ensures forall i :: 0 <= i < |keys| ==> Select(args, keys).value[i] == Format(Lookup(args, keys[i]).value)
  {
    if |keys| == 0 {
    } else {
      assert keys[0] in keys;
      assert forall k :: k in keys[1..] ==> k in keys;
      SelectAt(args, keys[1..]);
      forall i | 0 <= i < |keys|
        ensures Select(args, keys).value[i] == Format(Lookup(args, keys[i]).value)
      {
        if i > 0 {
          assert keys[1..][i - 1] == keys[i];
        }
      }
    }
  }

  lemma SchemaKeysDistinct(kind: Kind, name: string)
    requires Schema(kind, name).Some?
    ensures forall i, j :: 0 <= i < j < |Schema(kind, name).value| ==>
              Schema(kind, name).value[i] != Schema(kind, name).value[j]
  {
  }

  // ----- tokens -----

  /** A value reads back as itself exactly if its text is not that of another type. */
  lemma TokenParses(v: Value)
    ensures ParseToken(Format(v)) == v <==> KeepsItsType(v)
  {
    if v.Int? {
      DecimalParses(v.n);
    }
  }

  lemma DecimalIsClean(n: int)
    ensures CleanField(Decimal(n))
    ensures '\r' !in Decimal(n) && ' ' !in Decimal(n)
  {
    var s := Decimal(n);
    DigitsNumeral(if n < 0 then -n else n);
    assert forall c :: c in s ==> c == '-' || '0' <= c <= '9';
    AsciiIsUtf8(s);
  }

  lemma FormatIsClean(v: Value)
    requires CleanValue(v)
    ensures CleanField(Format(v))
  {
    if v.Int? {
      DecimalIsClean(v.n);
    }
  }

  lemma {:induction false} JoinIsClean(parts: seq<string>)
    requires |parts| > 0 && forall p :: p in parts ==> CleanField(p)
    ensures '\n' !in Join(parts, ',') && ValidUtf8(Join(parts, ','))
  {
    assert parts[0] in parts;
    if |parts| > 1 {
      assert forall p :: p in parts[1..] ==> p in parts;
      JoinIsClean(parts[1..]);
      AsciiIsUtf8(",");
      Utf8Concat(parts[0], ",");
      Utf8Concat(parts[0] + ",", Join(parts[1..], ','));
    }
  }

  /** A value as its text reads. */
  function Reread(v: Value): Value { ParseToken(Format(v)) }

  /** Named values as they are read back. */
  function Reading(names: seq<string>, values: seq<Value>): (r: Args)
    requires |names| == |values|
    ensures |r| == |names|
  {
    seq(|names|, i requires 0 <= i < |names| => (names[i], Reread(values[i])))
  }

  /** What the decoder makes of the message's line: only what is sent, each argument as its text reads. */
  function AsRead(m: Message): Message {
    match m.kind
    case Ack => Message(Ack, m.seqNo, "", [], "")
    case Nak => Message(Nak, m.seqNo, "", [], m.reason)
    case _ => Message(m.kind, m.seqNo, m.name, Reading(SentNames(m), SentValues(m)), "")
  }

  lemma RereadKeepsType(v: Value)
    ensures KeepsItsType(Reread(v))
  {
    match v
    case Int(n) => DecimalParses(n);
    case _ =>
  }

  predicate Distinct(names: seq<string>) { forall i, j :: 0 <= i < j < |names| ==> names[i] != names[j] }

  lemma ReadingAt(names: seq<string>, values: seq<Value>, key: string)
    requires |names| == |values| && Distinct(names)
    ensures forall i :: 0 <= i < |names| && names[i] == key ==>
              Lookup(Reading(names, values), key) == Some(Reread(values[i]))
    ensures key !in names ==> Lookup(Reading(names, values), key) == None
  {
    forall i | 0 <= i < |names| && names[i] == key
      ensures Lookup(Reading(names, values), key) == Some(Reread(values[i]))
    {
      LookupFirst(Reading(names, values), i);
    }
    if key !in names {
      LookupAbsent(Reading(names, values), key);
    }
  }

  lemma ValueIn(args: Args, key: string)
    requires Lookup(args, key).Some?
    ensures Lookup(args, key).value in Contents(args)
    ensures exists j :: 0 <= j < |args| && args[j] == (key, Lookup(args, key).value)
  {
    var j := LookupFound(args, key);
    assert Contents(args)[j] == Lookup(args, key).value;
  }

  lemma ReadsTheSame(names: seq<string>, values: seq<Value>, args: Args, key: string)
    requires |names| == |values| && Distinct(names)
    requires InPlace(args, names, values) && AllKeepTypes(args)
    ensures Lookup(Reading(names, values), key) == Lookup(args, key)
  {
    ReadingAt(names, values, key);
    if key in names {
      var i :| 0 <= i < |names| && names[i] == key;
      ValueIn(args, key);
      TokenParses(values[i]);
    } else {
      LookupAbsent(args, key);
    }
  }

  lemma ReadSameArgument(names: seq<string>, values: seq<Value>, args: Args, j: nat)
    requires |names| == |values| && Distinct(names) && DistinctKeys(args) && j < |args|
    requires Lookup(Reading(names, values), args[j].0) == Lookup(args, args[j].0)
    ensures args[j].0 in names && KeepsItsType(args[j].1)
  {
    LookupFirst(args, j);
    ReadingAt(names, values, args[j].0);
    var i :| 0 <= i < |names| && names[i] == args[j].0;
    RereadKeepsType(values[i]);
  }

  lemma ReadSameName(names: seq<string>, values: seq<Value>, args: Args, i: nat)
    requires |names| == |values| && Distinct(names) && i < |names|
    requires Lookup(Reading(names, values), names[i]) == Lookup(args, names[i]) && KeepsItsType(values[i])
    ensures Lookup(args, names[i]) == Some(values[i])
  {
    ReadingAt(names, values, names[i]);
    TokenParses(values[i]);
  }

  lemma ReadSameOnlyIf(names: seq<string>, values: seq<Value>, args: Args)
    requires |names| == |values| && Distinct(names) && DistinctKeys(args)
    requires forall v :: v in values ==> v in Contents(args)
    requires SameArgs(Reading(names, values), args)
    ensures InPlace(args, names, values) && AllKeepTypes(args)
  {
    forall j | 0 <= j < |args|
      ensures args[j].0 in names && KeepsItsType(args[j].1)
    {
      ReadSameArgument(names, values, args, j);
    }
    forall i | 0 <= i < |names|
      ensures Lookup(args, names[i]) == Some(values[i])
    {
      assert values[i] in values;
      ReadSameName(names, values, args, i);
    }
  }

  /** Values read back the same exactly if each stands under its own name, none is left out, and each keeps
      its type. */
  lemma ReadSameIff(names: seq<string>, values: seq<Value>, args: Args)
    requires |names| == |values| && Distinct(names) && DistinctKeys(args)
    requires forall v :: v in values ==> v in Contents(args)
    ensures SameArgs(Reading(names, values), args) <==> InPlace(args, names, values) && AllKeepTypes(args)
  {
    if InPlace(args, names, values) && AllKeepTypes(args) {
      forall k
        ensures Lookup(Reading(names, values), k) == Lookup(args, k)
      {
        ReadsTheSame(names, values, args, k);
      }
    }
    if SameArgs(Reading(names, values), args) {
      ReadSameOnlyIf(names, values, args);
    }
  }

  lemma NamesDistinct(m: Message)
    ensures Distinct(SentNames(m))
  {
    match Schema(m.kind, m.name)
    case Some(_) => SchemaKeysDistinct(m.kind, m.name);
    case None =>
      forall i, j | 0 <= i < j < |m.args|
        ensures SentNames(m)[i] != SentNames(m)[j]
      {
        ArgNamesDiffer(i, j);
      }
  }

  lemma ArgNamesDiffer(i: nat, j: nat)
    requires i != j
    ensures ArgName(i) != ArgName(j)
  {
    DecimalParses(i);
    DecimalParses(j);
    assert ArgName(i)[3..] == Decimal(i) && ArgName(j)[3..] == Decimal(j);
  }

  lemma SentIsLegible(m: Message)
    requires Legible(m) && Framed(m)
    ensures forall v :: v in SentValues(m) ==> v in Contents(m.args) && CleanValue(v)
  {
    match Schema(m.kind, m.name)
    case Some(keys) =>
      forall i | 0 <= i < |keys|
        ensures SentValues(m)[i] in Contents(m.args) && CleanValue(SentValues(m)[i])
      {
        assert keys[i] in keys;
        ValueIn(m.args, keys[i]);
      }
    case None =>
  }

  lemma ArgumentsSurviveIff(m: Message)
    requires Legible(m) && Framed(m)
    ensures SameMessage(AsRead(m), m) <==> AllSent(m) && TypesKept(m)
  {
    NamesDistinct(m);
    SentIsLegible(m);
    ReadSameIff(SentNames(m), SentValues(m), m.args);
    SameUnlessArguments(m, Reading(SentNames(m), SentValues(m)));
  }

  lemma SameUnlessArguments(m: Message, args: Args)
    requires Framed(m)
    ensures SameMessage(Message(m.kind, m.seqNo, m.name, args, ""), m) <==> m.reason == "" && SameArgs(args, m.args)
  {
  }

  // ----- fields -----

  predicate Framed(m: Message) { m.kind == Command || m.kind == Telemetry }

  /** What the decoder gets back for the formatted fields. */
  lemma FieldsParse(m: Message)
    requires Legible(m) && Framed(m)
    ensures Fields(m).Some?
    ensures forall f :: f in Fields(m).value ==> CleanField(f)
    ensures ParseArgs(m.kind, m.name, Fields(m).value) == Success(AsRead(m).args)
  {
    FieldsAreFormatted(m);
    SentIsLegible(m);
    var fields := Fields(m).value;
    forall i | 0 <= i < |fields|
      ensures CleanField(fields[i])
    {
      assert SentValues(m)[i] in SentValues(m);
      FormatIsClean(SentValues(m)[i]);
    }
    FieldsRead(m, fields);
  }

  lemma FieldsAreFormatted(m: Message)
    requires Legible(m) && Framed(m)
    ensures Fields(m).Some? && |Fields(m).value| == |SentValues(m)|
    ensures forall i :: 0 <= i < |SentValues(m)| ==> Fields(m).value[i] == Format(SentValues(m)[i])
  {
    match Schema(m.kind, m.name)
    case Some(keys) =>
      SelectAt(m.args, keys);
      assert forall i :: 0 <= i < |keys| ==> keys[i] in keys;
    case None =>
  }

  lemma FieldsRead(m: Message, fields: seq<string>)
    requires Framed(m) && |fields| == |SentValues(m)|
    requires forall i :: 0 <= i < |fields| ==> fields[i] == Format(SentValues(m)[i])
    ensures ParseArgs(m.kind, m.name, fields) == Success(AsRead(m).args)
  {
    var r := ParseArgs(m.kind, m.name, fields);
    assert r.Success? && |r.value| == |fields|;
    forall i | 0 <= i < |fields|
      ensures r.value[i] == AsRead(m).args[i]
    {
    }
    assert r.value == AsRead(m).args;
  }

  lemma PayloadDecodes(m: Message)
    requires Legible(m) && Framed(m)
    ensures Fields(m).Some?
    ensures DecodePayload(m.kind, Payload(m, Fields(m).value)) == Success(AsRead(m))
  {
    FieldsParse(m);
    var fields := Fields(m).value;
    var parts := [Decimal(m.seqNo), m.name] + fields;
    DecimalIsClean(m.seqNo);
    assert forall p :: p in parts ==> ',' !in p;
    SplitJoin(parts, ',');
    assert parts[2..] == fields;
    DecimalParses(m.seqNo);
  }

  // ----- whole lines -----

  function Line(m: Message): string
    requires Legible(m)
  {
    match m.kind
    case Ack => "ACK " + Decimal(m.seqNo)
    case Nak => "NAK " + Decimal(m.seqNo) + " " + m.reason
    case _ =>
      FieldsParse(m);
      var payload := Payload(m, Fields(m).value);
      [Marker(m.kind)] + payload + "*" + Hex2(Checksum(payload))
  }

  lemma PayloadIsClean(m: Message)
    requires Legible(m) && Framed(m)
    ensures Fields(m).Some?
    ensures var p := Payload(m, Fields(m).value); '\n' !in p && ValidUtf8(p)
  {
    FieldsParse(m);
    DecimalIsClean(m.seqNo);
    var parts := [Decimal(m.seqNo), m.name] + Fields(m).value;
    forall p | p in parts
      ensures CleanField(p)
    {
      if p !in Fields(m).value {
        assert p == Decimal(m.seqNo) || p == m.name;
      }
    }
    JoinIsClean(parts);
  }

  lemma Hex2IsPlain(n: nat)
    requires n < 256
    ensures forall c :: c in Hex2(n) ==> '0' <= c <= '9' || 'A' <= c <= 'F'
  {
  }

  lemma FramedLine(m: Message)
    requires Legible(m) && Framed(m)
    ensures var s := Line(m);
            && Encode(m) == Some(s + "\n") && |s| > 0 && '\n' !in s
            && s[|s| - 1] != '\r' && ValidUtf8(s + "\n")
  {
    PayloadIsClean(m);
    var payload := Payload(m, Fields(m).value);
    var mark, hex := [Marker(m.kind)], Hex2(Checksum(payload));
    Hex2IsPlain(Checksum(payload));
    var s := Line(m);
    assert s == mark + payload + "*" + hex;
    assert hex[1] in hex && s[|s| - 1] == hex[1];
    AsciiIsUtf8(mark);
    AsciiIsUtf8("*" + hex + "\n");
    Utf8Concat(mark, payload);
    Utf8Concat(mark + payload, "*" + hex + "\n");
    assert s + "\n" == mark + payload + ("*" + hex + "\n");
  }

  lemma AckLine(m: Message)
    requires Legible(m) && m.kind == Ack
    ensures var s := Line(m); |s| > 0 && '\n' !in s && s[|s| - 1] != '\r' && ValidUtf8(s)
  {
    DecimalIsClean(m.seqNo);
    var number := Decimal(m.seqNo);
    assert Line(m)[|Line(m)| - 1] in number;
    AsciiIsUtf8("ACK ");
    Utf8Concat("ACK ", number);
  }

  lemma NakLine(m: Message)
    requires Legible(m) && m.kind == Nak
    ensures var s := Line(m); |s| > 0 && '\n' !in s && s[|s| - 1] != '\r' && ValidUtf8(s)
  {
    DecimalIsClean(m.seqNo);
    var head := "NAK " + Decimal(m.seqNo) + " ";
    assert forall c :: c in head ==> c != '\n';
    AsciiIsUtf8("NAK ");
    Utf8Concat("NAK ", Decimal(m.seqNo));
    AsciiIsUtf8(" ");
    Utf8Concat("NAK " + Decimal(m.seqNo), " ");
    Utf8Concat(head, m.reason);
    assert Line(m) == head + m.reason;
  }

  lemma ReplyLine(m: Message)
    requires Legible(m) && !Framed(m)
    ensures var s := Line(m);
            && Encode(m) == Some(s + "\n") && |s| > 0 && '\n' !in s
            && s[|s| - 1] != '\r' && ValidUtf8(s + "\n")
  {
    if m.kind == Ack {
      AckLine(m);
    } else {
      NakLine(m);
    }
    AsciiIsUtf8("\n");
    Utf8Concat(Line(m), "\n");
  }

  /** Every carriable message becomes exactly one newline-terminated line. */
  lemma EncodesToOneLine(m: Message)
    requires Legible(m)
    ensures Encode(m).Some?
    ensures var f := Encode(m).value; |f| > 1 && f[|f| - 1] == '\n' && '\n' !in f[..|f| - 1] && ValidUtf8(f)
  {
    if Framed(m) {
      FramedLine(m);
    } else {
      ReplyLine(m);
    }
    var f := Encode(m).value;
    assert f[..|f| - 1] == Line(m);
  }

  lemma StripLine(s: string)
    requires |s| > 0 && s[0] !in LINE_ENDS && s[|s| - 1] !in LINE_ENDS
    ensures Strip(s + "\n", LINE_ENDS) == s
  {
    RStripTail(s, "\n", LINE_ENDS);
    assert (s + "\n")[0] == s[0];
  }

  lemma StripNumber(n: int)
    ensures Strip(Decimal(n), PY_SPACE) == Decimal(n)
  {
    DigitsNumeral(if n < 0 then -n else n);
    var s := Decimal(n);
    assert forall c :: c in s ==> c == '-' || '0' <= c <= '9';
    assert s[0] in s && s[|s| - 1] in s;
    NotSpace(s[0]);
    NotSpace(s[|s| - 1]);
    StripNothing(s, PY_SPACE);
  }

  lemma SeqParses(m: Message)
    requires 0 <= m.seqNo <= 255
    ensures ParseSeq(Decimal(m.seqNo)) == Success(m.seqNo)
  {
    DecimalParses(m.seqNo);
  }

  lemma AckDecodes(m: Message)
    requires Legible(m) && m.kind == Ack
    ensures DecodeAscii(Line(m)) == Success(AsRead(m))
  {
    var number := Decimal(m.seqNo);
    StripNumber(m.seqNo);
    SeqParses(m);
    assert DecodeAck(number) == Success(AsRead(m));
    AckDispatch(number);
  }

  lemma AckDispatch(rest: string)
    ensures DecodeAscii("ACK " + rest) == DecodeAck(rest)
  {
    assert ("ACK " + rest)[4..] == rest;
  }

  lemma NakDispatch(rest: string)
    ensures DecodeAscii("NAK " + rest) == DecodeNak(rest)
  {
    var s := "NAK " + rest;
    assert s[0] == 'N' && s[4..] == rest;
    assert !("ACK " <= s);
  }

  lemma NakRestDecodes(n: nat, reason: string)
    requires n <= 255
    ensures DecodeNak(Decimal(n) + [' '] + reason) == Success(Message(Nak, n, "", [], reason))
  {
    var number := Decimal(n);
    var rest := number + [' '] + reason;
    DecimalIsClean(n);
    DecimalParses(n);
    FindAt(number, ' ', reason);
    assert rest[..|number|] == number && rest[|number| + 1..] == reason;
  }

  lemma NakDecodes(m: Message)
    requires Legible(m) && m.kind == Nak
    ensures DecodeAscii(Line(m)) == Success(AsRead(m))
  {
    var rest := Decimal(m.seqNo) + [' '] + m.reason;
    NakRestDecodes(m.seqNo, m.reason);
    NakDispatch(rest);
    NakLineIs(m, rest);
  }

  lemma NakLineIs(m: Message, rest: string)
    requires Legible(m) && m.kind == Nak && rest == Decimal(m.seqNo) + [' '] + m.reason
    ensures Line(m) == "NAK " + rest
  {
  }

  lemma FramedDispatch(kind: Kind, rest: string)
    requires kind == Command || kind == Telemetry
    ensures DecodeAscii([Marker(kind)] + rest) == DecodeFramed(kind, [Marker(kind)] + rest)
  {
    var s := [Marker(kind)] + rest;
    assert s[0] == Marker(kind);
    assert !("ACK " <= s) && !("NAK " <= s);
  }

  lemma FramedParses(kind: Kind, payload: string)
    requires kind == Command || kind == Telemetry
    ensures DecodeFramed(kind, [Marker(kind)] + payload + "*" + Hex2(Checksum(payload)))
         == DecodePayload(kind, payload)
  {
    var hex := Hex2(Checksum(payload));
    var s := [Marker(kind)] + payload + "*" + hex;
    Hex2IsPlain(Checksum(payload));
    RFindAt([Marker(kind)] + payload, '*', hex);
    assert s[1..1 + |payload|] == payload && s[1 + |payload| + 1..] == hex;
    Hex2Parses(Checksum(payload));
  }

  lemma FramedDecodes(m: Message)
    requires Legible(m) && Framed(m)
    ensures DecodeAscii(Line(m)) == Success(AsRead(m))
  {
    PayloadDecodes(m);
    FramedDecodesPayload(m.kind, Payload(m, Fields(m).value));
  }

  lemma FramedDecodesPayload(kind: Kind, payload: string)
    requires kind == Command || kind == Telemetry
    ensures DecodeAscii([Marker(kind)] + payload + "*" + Hex2(Checksum(payload))) == DecodePayload(kind, payload)
  {
    FramedParses(kind, payload);
    FramedDispatch(kind, payload + "*" + Hex2(Checksum(payload)));
    Regrouped([Marker(kind)], payload, "*", Hex2(Checksum(payload)));
  }

  lemma Regrouped(a: string, b: string, c: string, d: string)
    ensures a + b + c + d == a + (b + c + d)
  {
  }

  /** Exactly what comes back for any message one line can be made of. */
  lemma DecodesAsRead(m: Message)
    requires Legible(m)
    ensures Encode(m).Some? && Decode(Encode(m).value) == Success(AsRead(m))
  {
    var s := Line(m);
    if Framed(m) {
      FramedLine(m);
      FramedDecodes(m);
      assert s[0] == Marker(m.kind);
    } else {
      ReplyLine(m);
      if m.kind == Ack {
        AckDecodes(m);
      } else {
        NakDecodes(m);
      }
      assert s[0] == 'A' || s[0] == 'N';
    }
    assert s[|s| - 1] in s;
    StripLine(s);
  }

  /** The codec's law: decode(encode(m)) is m, exactly if m sets nothing that is not sent, each argument is
      sent in the place of its own name, and no argument's text is that of another type. */
  lemma RoundTrip(m: Message)
    requires Legible(m)
    ensures Encode(m).Some? && Decode(Encode(m).value).Success?
    ensures SameMessage(Decode(Encode(m).value).value, m) <==> AllSent(m) && TypesKept(m)
  {
    DecodesAsRead(m);
    if Framed(m) {
      ArgumentsSurviveIff(m);
    } else {
      NoArguments(m);
    }
  }

  lemma NoArguments(m: Message)
    requires !Framed(m)
    ensures SameMessage(AsRead(m), m) <==> AllSent(m)
    ensures AllSent(m) ==> TypesKept(m)
  {
    if |m.args| > 0 {
      assert Lookup(m.args, m.args[0].0).Some? && Lookup([], m.args[0].0) == None;
    }
  }

  /** An argument outside the schema is dropped without an error. */
  lemma UnknownArgumentIsLost(m: Message)
    requires m == Message(Command, 0, "stop", [("x", Int(1))], "")
    ensures Encode(m).Some? && Decode(Encode(m).value) == Success(m.(args := []))
  {
    DecodesAsRead(m);
  }

  /** A text that looks like a number comes back as one. */
  lemma NumericTextIsReadAsNumber(m: Message)
    requires m == Message(Telemetry, 0, "note", [("arg0", Text("5"))], "")
    ensures Encode(m).Some? && Decode(Encode(m).value) == Success(m.(args := [("arg0", Int(5))]))
  {
    FiveIsRead();
    NoteIsSent(m);
    DecodesAsRead(m);
  }

  lemma FiveIsRead()
    ensures Reread(Text("5")) == Int(5) && CleanValue(Text("5"))
  {
    assert Decimal(5) == "5";
    DecimalParses(5);
    DecimalIsClean(5);
  }

  lemma NoteIsSent(m: Message)
    requires m.kind == Telemetry && m.name == "note" && m.reason == "" && |m.args| == 1 && m.args[0].0 == "arg0"
    requires m.seqNo == 0 && CleanValue(m.args[0].1)
    ensures Legible(m) && AsRead(m) == m.(args := [("arg0", Reread(m.args[0].1))])
  {
    AsciiIsUtf8(m.name);
    assert ArgName(0) == "arg" + "0" == "arg0";
    assert SentNames(m)[0] == ArgName(0);
    assert Contents(m.args) == [m.args[0].1];
    assert Lookup(m.args, "arg0") == Some(m.args[0].1);
  }
}
