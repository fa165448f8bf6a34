/** Host-encoded commands mean the same to the C++ parser as to the host decoder. */
module FirmwareAgreement {
  import opened Wrappers
  import opened Text
  import opened Codec
  import opened CodecRoundTrip
  import opened Firmware

  // ----- numerals -----

  lemma {:induction false} DigitPrefixSplit(a: string, b: string, acc: nat)
    requires IsDigits(a)
    ensures DigitPrefix(a + b, 10, acc) == DigitPrefix(b, 10, DigitPrefix(a, 10, acc))
    decreases |a|
  {
    if |a| == 0 {
      assert a + b == b;
    } else {
      assert a[0] in a;
      assert forall c :: c in a[1..] ==> c in a;
      assert (a + b)[1..] == a[1..] + b;
      DigitPrefixSplit(a[1..], b, acc * 10 + DigitValue(a[0]).value);
    }
  }

  lemma {:induction false} DigitPrefixReads(n: nat)
    ensures DigitPrefix(Digits(n), 10, 0) == n
  {
    DigitsNumeral(n);
    if n >= 10 {
      DigitPrefixReads(n / 10);
      DigitsNumeral(n / 10);
      DigitPrefixSplit(Digits(n / 10), [Digit(n % 10)], 0);
    }
  }

  lemma {:induction false} AfterDigitsEmpty(s: string)
    requires IsDigits(s)
    ensures AfterDigits(s) == ""
  {
    if |s| == 0 {
    } else {
      assert s[0] in s;
      assert forall c :: c in s[1..] ==> c in s;
      AfterDigitsEmpty(s[1..]);
    }
  }

  lemma NumeralShape(n: int)
    ensures var s, d := Decimal(n), Digits(if n < 0 then -n else n);
            && LStrip(s, C_SPACE) == s && Unsigned(s) == d && Negative(s) == (n < 0) && IsDigits(d)
  {
    var s, d := Decimal(n), Digits(if n < 0 then -n else n);
    DigitsNumeral(if n < 0 then -n else n);
    assert d[0] in d;
    NotSpace(s[0]);
  }

  lemma AtoiReads(n: int)
    ensures Atoi(Decimal(n)) == n
  {
    NumeralShape(n);
    DigitPrefixReads(if n < 0 then -n else n);
  }

  lemma AtofReads(n: int)
    ensures Atof(Decimal(n)) == n as real
  {
    NumeralShape(n);
    DigitPrefixReads(if n < 0 then -n else n);
    AfterDigitsEmpty(Digits(if n < 0 then -n else n));
  }

  // ----- numerals with a point -----

  /** `n` with so many zeros after it. */
  function Shifted(n: nat, zeros: nat): nat
    decreases zeros
  {
    if zeros == 0 then n else Shifted(n * 10, zeros - 1)
  }

  lemma {:induction false} ShiftedAdds(a: nat, b: nat, zeros: nat)
    ensures Shifted(a + b, zeros) == Shifted(a, zeros) + Shifted(b, zeros)
    decreases zeros
  {
    if zeros == 0 {
    } else {
      ShiftedAdds(a * 10, b * 10, zeros - 1);
      assert (a + b) * 10 == a * 10 + b * 10;
    }
  }

  lemma {:induction false} TenthsAdd(x: real, y: real, places: nat)
    ensures Tenths(x + y, places) == Tenths(x, places) + Tenths(y, places)
  {
    if places == 0 {
    } else {
      TenthsAdd(x, y, places - 1);
    }
  }

  lemma {:induction false} TenthsUndoShift(n: nat, places: nat)
    ensures Tenths(Shifted(n, places) as real, places) == n as real
    decreases places
  {
    if places == 0 {
    } else {
      TenthsUndoShift(n * 10, places - 1);
    }
  }

  /** Digits after others: the others are worth ten times as much for each of them. */
  lemma {:induction false} PrefixScales(s: string, acc: nat)
    requires IsDigits(s)
    ensures DigitPrefix(s, 10, acc) == Shifted(acc, |s|) + DigitPrefix(s, 10, 0)
    decreases |s|
  {
    if |s| == 0 {
    } else {
      assert s[0] in s;
      assert forall c :: c in s[1..] ==> c in s;
      var d := DigitValue(s[0]).value;
      assert 0 * 10 + d == d;
      PrefixScales(s[1..], acc * 10 + d);
      PrefixScales(s[1..], d);
      ShiftedAdds(acc * 10, d, |s| - 1);
    }
  }

  /** C's digits are Python's. */
  lemma {:induction false} PrefixIsNumeral(s: string)
    requires IsDigits(s) && |s| > 0
    ensures Numeral(s, 10) == Some(DigitPrefix(s, 10, 0))
  {
    var n := |s| - 1;
    assert s[n] in s && s == s[..n] + [s[n]];
    assert forall c :: c in s[..n] ==> c in s;
    if n > 0 {
      PrefixIsNumeral(s[..n]);
      DigitPrefixSplit(s[..n], [s[n]], 0);
      assert s[n - 1] in s;
    }
    assert [s[n]][1..] == "";
  }

  function PointText(negative: bool, whole: nat, fraction: string): string {
    (if negative then "-" else "") + Digits(whole) + "." + fraction
  }

  lemma {:induction false} AfterDigitsStops(a: string, b: string)
    requires IsDigits(a) && (|b| > 0 ==> !IsDigit(b[0]))
    ensures AfterDigits(a + b) == b
    decreases |a|
  {
    if |a| == 0 {
      assert a + b == b;
    } else {
      assert a[0] in a && (a + b)[1..] == a[1..] + b;
      assert forall c :: c in a[1..] ==> c in a;
      AfterDigitsStops(a[1..], b);
    }
  }

  /** atof reads a numeral with a point as the integer of all its digits, with the point moved to the left
      by as many places as stood after it. */
  lemma AtofReadsPoint(negative: bool, whole: nat, fraction: string)
    requires IsDigits(fraction)
    ensures Numeral(Digits(whole) + fraction, 10).Some?
    ensures var x := Tenths(Numeral(Digits(whole) + fraction, 10).value as real, |fraction|);
            Atof(PointText(negative, whole, fraction)) == if negative then -x else x
  {
    DigitsNumeral(whole);
    var all := AllDigits(whole, fraction);
    PointParts(Digits(whole), fraction, whole);
    PointShape(negative, whole, fraction);
    AtofAtPoint(PointText(negative, whole, fraction), fraction);
  }

  lemma AllDigits(whole: nat, fraction: string) returns (all: nat)
    requires IsDigits(fraction)
    ensures Numeral(Digits(whole) + fraction, 10) == Some(all)
    ensures Tenths(all as real, |fraction|) == whole as real + Tenths(DigitPrefix(fraction, 10, 0) as real, |fraction|)
  {
    DigitsNumeral(whole);
    PointParts(Digits(whole), fraction, whole);
    PrefixIsNumeral(Digits(whole) + fraction);
    PrefixScales(fraction, whole);
    all := DigitPrefix(fraction, 10, whole);
    TenthsAdd(Shifted(whole, |fraction|) as real, DigitPrefix(fraction, 10, 0) as real, |fraction|);
    TenthsUndoShift(whole, |fraction|);
  }

  lemma AtofAtPoint(s: string, fraction: string)
    requires LStrip(s, C_SPACE) == s && AfterDigits(Unsigned(s)) == "." + fraction && AfterDigits(fraction) == ""
    ensures var x := DigitPrefix(Unsigned(s), 10, 0) as real + Tenths(DigitPrefix(fraction, 10, 0) as real, |fraction|);
            Atof(s) == if Negative(s) then -x else x
  {
    var tail := "." + fraction;
    assert tail[1..] == fraction;
  }

  lemma PointShape(negative: bool, whole: nat, fraction: string)
    ensures var s := PointText(negative, whole, fraction);
            && LStrip(s, C_SPACE) == s && Unsigned(s) == Digits(whole) + "." + fraction && Negative(s) == negative
  {
    var s, d := PointText(negative, whole, fraction), Digits(whole);
    DigitsNumeral(whole);
    assert d[0] in d && s[0] == if negative then '-' else d[0];
    NotSpace(s[0]);
    assert s == (if negative then "-" else "") + (d + "." + fraction);
  }

  lemma PointParts(digits: string, fraction: string, whole: nat)
    requires digits == Digits(whole) && IsDigits(digits) && IsDigits(fraction)
    ensures var body := digits + "." + fraction;
            && DigitPrefix(body, 10, 0) == whole
            && AfterDigits(body) == "." + fraction && AfterDigits(fraction) == ""
    ensures DigitPrefix(digits + fraction, 10, 0) == DigitPrefix(fraction, 10, whole)
    ensures IsDigits(digits + fraction) && |digits + fraction| > 0
    ensures fraction == "" ==> DigitPrefix(fraction, 10, 0) == 0
  {
    var tail := "." + fraction;
    assert digits + "." + fraction == digits + tail;
    DigitPrefixReads(whole);
    DigitPrefixSplit(digits, tail, 0);
    DigitPrefixSplit(digits, fraction, 0);
    AfterDigitsStops(digits, tail);
    AfterDigitsEmpty(fraction);
  }

  lemma StrtolReads(n: nat)
    requires n < 256
    ensures StrtolHex(Hex2(n)) == n
  {
    var s := Hex2(n);
    assert s[0] == Digit(n / 16) && s[1] == Digit(n % 16);
    NotSpace(s[0]);
    assert LStrip(s, C_SPACE) == s;
    assert Unsigned(s) == s && !Negative(s);
    assert DigitValue(s[0]) == Some(n / 16) && DigitValue(s[1]) == Some(n % 16);
    assert s[1..] == [s[1]] && s[1..][1..] == "";
    assert DigitPrefix(s[1..], 16, n / 16) == DigitPrefix("", 16, n / 16 * 16 + n % 16);
  }

  // ----- tokens -----

  lemma {:induction false} TokensOfJoin(parts: seq<string>)
    requires |parts| > 0 && forall p :: p in parts ==> |p| > 0 && ',' !in p
    ensures Tokens(Join(parts, ',')) == parts
  {
    var s, p := Join(parts, ','), parts[0];
    assert p in parts;
    assert s[0] == p[0] && p[0] in p;
    assert SkipCommas(s) == s;
    if |parts| == 1 {
      assert Find(s, ',') == None;
      assert Tokens("") == [];
    } else {
      assert forall q :: q in parts[1..] ==> q in parts;
      TokensOfJoin(parts[1..]);
      FirstPiece(p, Join(parts[1..], ','));
      assert s == p + [','] + Join(parts[1..], ',');
    }
  }

  lemma FirstPiece(p: string, rest: string)
    requires |p| > 0 && ',' !in p
    ensures Piece(p + [','] + rest) == p && AfterPiece(p + [','] + rest) == rest
  {
    FindAt(p, ',', rest);
  }

  // ----- agreement -----

  /** A command of the schema whose arguments are all integers. */
  predicate IntegerCommand(m: Message) {
    && m.kind == Command && Carriable(m) && CommandArgs(m.name).Some?
    && forall i :: 0 <= i < |m.args| ==> m.args[i].1.Int?
  }

  /** The arguments in schema order. */
  function Values(m: Message): (r: seq<int>)
    requires IntegerCommand(m)
    ensures |r| == |CommandArgs(m.name).value|
  {
    var keys := CommandArgs(m.name).value;
    seq(|keys|, i requires 0 <= i < |keys| => IntArg(m, keys[i]))
  }

  function IntArg(m: Message, key: string): int {
    match Lookup(m.args, key)
    case Some(Int(n)) => n
    case _ => 0
  }

  lemma FieldsAreValues(m: Message)
    requires IntegerCommand(m)
    ensures Fields(m).Some? && |Fields(m).value| == |Values(m)|
    ensures forall i :: 0 <= i < |Values(m)| ==>
              Fields(m).value[i] == Decimal(Values(m)[i]) && Lookup(m.args, CommandArgs(m.name).value[i]) == Some(Int(Values(m)[i]))
  {
    var keys := CommandArgs(m.name).value;
    SelectAt(m.args, keys);
    forall i | 0 <= i < |keys|
      ensures Fields(m).value[i] == Decimal(Values(m)[i]) && Lookup(m.args, keys[i]) == Some(Int(Values(m)[i]))
    {
      assert keys[i] in keys;
      var j := LookupFound(m.args, keys[i]);
      assert m.args[j].1.Int?;
    }
  }

  lemma SchemaFits(name: string)
    requires CommandArgs(name).Some?
    ensures 0 < |name| < NAME_LEN && |CommandArgs(name).value| <= MAX_ARGS
  {
  }

  lemma PayloadTokens(m: Message)
    requires IntegerCommand(m)
    ensures Fields(m).Some?
    ensures Tokens(Payload(m, Fields(m).value)) == [Decimal(m.seqNo), m.name] + Fields(m).value
  {
    FieldsAreValues(m);
    SchemaFits(m.name);
    var parts := [Decimal(m.seqNo), m.name] + Fields(m).value;
    forall p | p in parts
      ensures |p| > 0 && ',' !in p
    {
      var i :| 0 <= i < |parts| && parts[i] == p;
      if i == 0 {
        DecimalIsClean(m.seqNo);
      } else if i > 1 {
        assert p == Fields(m).value[i - 2];
        DecimalIsClean(Values(m)[i - 2]);
      }
    }
    TokensOfJoin(parts);
  }

  /** What the firmware should make of the command. */
  function Intended(m: Message): Parsed
    requires IntegerCommand(m)
  {
    Parsed(m.seqNo, m.name, AsReals(Values(m)))
  }

  function AsReals(values: seq<int>): seq<real> {
    seq(|values|, i requires 0 <= i < |values| => values[i] as real)
  }

  lemma TokensParse(m: Message)
    requires IntegerCommand(m)
    ensures Fields(m).Some?
    ensures FromTokens([Decimal(m.seqNo), m.name] + Fields(m).value) == Success(Intended(m))
  {
    FieldsAreValues(m);
    SchemaFits(m.name);
    AtoiReads(m.seqNo);
    var fields := Fields(m).value;
    var tokens := [Decimal(m.seqNo), m.name] + fields;
    assert tokens[2..] == fields && Take(fields, MAX_ARGS) == fields;
    ArgsRead(fields, Values(m));
  }

  lemma ArgsRead(fields: seq<string>, values: seq<int>)
    requires |fields| == |values| && forall i :: 0 <= i < |values| ==> fields[i] == Decimal(values[i])
    ensures ArgValues(fields) == AsReals(values)
  {
    forall i | 0 <= i < |fields|
      ensures ArgValues(fields)[i] == values[i] as real
    {
      AtofReads(values[i]);
    }
  }

  lemma SplitLine(payload: string, field: string)
    requires '*' !in field
    ensures ParseSpec(">" + payload + "*" + field) == ParseFields(payload, field)
  {
    var s := (">" + payload) + ['*'] + field;
    RFindAt(">" + payload, '*', field);
    assert s[0] == '>';
    assert s[1..1 + |payload|] == payload && s[1 + |payload| + 1..] == field;
  }

  lemma FieldMatches(payload: string, field: string)
    requires StrtolHex(field) == Checksum(payload)
    ensures ParseFields(payload, field)
         == if |payload| >= SCRATCH then Failure("len") else FromTokens(Tokens(payload))
  {
    ByteMod(Checksum(payload));
  }

  lemma ByteMod(n: nat)
    requires n < 256
    ensures n % 256 == n
  {
  }

  lemma HexField(n: nat)
    requires n < 256
    ensures '*' !in Hex2(n) && StrtolHex(Hex2(n)) == n
  {
    Hex2IsPlain(n);
    StrtolReads(n);
  }

  lemma HostLineParses(payload: string, field: string)
    requires field == Hex2(Checksum(payload))
    ensures ParseSpec(">" + payload + "*" + field)
         == if |payload| >= SCRATCH then Failure("len") else FromTokens(Tokens(payload))
  {
    HexField(Checksum(payload));
    FieldMatches(payload, field);
    SplitLine(payload, field);
  }

  /** The parser accepts a host-encoded integer command exactly when its payload fits the scratch
      buffer, and then reads the sequence number, full name and arguments the host decoder reads. */
  lemma FirmwareAgrees(m: Message)
    requires IntegerCommand(m)
    ensures Fields(m).Some? && Encode(m) == Some(Line(m) + "\n")
    ensures ParseSpec(Line(m)) == if |Payload(m, Fields(m).value)| < SCRATCH then Success(Intended(m))
                                  else Failure("len")
    ensures var d := Decode(Line(m) + "\n");
            && d.Success? && d.value.kind == Command
            && d.value.seqNo == Intended(m).seqNo && d.value.name == Intended(m).name
            && forall i :: 0 <= i < |Values(m)| ==>
                 Lookup(d.value.args, CommandArgs(m.name).value[i]) == Some(Int(Values(m)[i]))
  {
    FramedLine(m);
    RoundTrip(m);
    FieldsAreValues(m);
    var payload := Payload(m, Fields(m).value);
    HostLineParses(payload, Hex2(Checksum(payload)));
    PayloadTokens(m);
    TokensParse(m);
  }
}
