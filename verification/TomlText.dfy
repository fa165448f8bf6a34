/** Every line the writer renders is read back as that line, unless it holds a character beyond U+FFFF
    (pibot/tomlio.py, against TOML v1.0.0). */
module TomlText {
  import opened Wrappers
  import opened Seqs
  import opened Toml
  import opened TomlReader
  import Text

  // ----- strings -----

  /** Only characters of the Basic Multilingual Plane. */
  predicate Bmp(s: string) { forall c :: c in s ==> c as int < 0x10000 }

  lemma HexDigitReads(d: nat)
    requires d < 16
    ensures HexValue(HexDigit(d)) == Some(d)
  {
  }

  lemma HexPlaces(n: nat)
    requires n < 0x10000
    ensures n / 0x1000 < 16
    ensures ((n / 0x1000 * 16 + n / 0x100 % 16) * 16 + n / 16 % 16) * 16 + n % 16 == n
  {
    assert n / 0x1000 * 16 + n / 0x100 % 16 == n / 0x100;
    assert n / 0x100 * 16 + n / 16 % 16 == n / 16;
  }

  lemma FourDigits(a: nat, b: nat, c: nat, d: nat, rest: string)
    requires a < 16 && b < 16 && c < 16 && d < 16
    ensures var s := [HexDigit(a), HexDigit(b), HexDigit(c), HexDigit(d)] + rest;
            Hex4Value(s) == Some(((a * 16 + b) * 16 + c) * 16 + d)
  {
    HexDigitReads(a);
    HexDigitReads(b);
    HexDigitReads(c);
    HexDigitReads(d);
  }

  lemma Hex4Reads(n: nat, rest: string)
    requires n < 0x10000
    ensures |Hex4(n) + rest| >= 4 && Hex4Value(Hex4(n) + rest) == Some(n)
  {
    HexPlaces(n);
    FourDigits(n / 0x1000, n / 0x100 % 16, n / 16 % 16, n % 16, rest);
  }

  lemma UnicodeEscapeReads(n: nat, rest: string)
    requires n < 0x10000
    ensures ParseChar("\\u" + Hex4(n) + rest) == if IsScalarValue(n) then Some((n as char, rest)) else None
  {
    var s := "\\u" + Hex4(n) + rest;
    assert s[2..] == Hex4(n) + rest && s[6..] == rest;
    Hex4Reads(n, rest);
  }

  lemma ShortEscapeReads(c: char, rest: string)
    requires c == '"' || c == '\\' || c == '\n' || c == '\r' || c == '\t' || c == FORM_FEED || c == BACKSPACE
    ensures ParseChar(Escape(c) + rest) == Some((c, rest))
  {
    assert (Escape(c) + rest)[2..] == rest;
  }

  /** A JSON escape is a TOML escape, except for the surrogate pairs beyond U+FFFF. */
  lemma EscapeReads(c: char, rest: string)
    ensures |Escape(c)| > 0 && Escape(c)[0] != '"'
    ensures ParseChar(Escape(c) + rest) == if c as int < 0x10000 then Some((c, rest)) else None
  {
    if c == '"' || c == '\\' || c == '\n' || c == '\r' || c == '\t' || c == FORM_FEED || c == BACKSPACE {
      ShortEscapeReads(c, rest);
    } else if ' ' <= c <= '~' {
      assert (Escape(c) + rest)[1..] == rest;
    } else if c as int < 0x10000 {
      UnicodeEscapeReads(c as int, rest);
      assert Escape(c) + rest == "\\u" + Hex4(c as int) + rest;
    } else {
      var v := c as int - 0x10000;
      SurrogateFails(0xD800 + v / 0x400, "\\u" + Hex4(0xDC00 + v % 0x400), rest);
    }
  }

  lemma SurrogateFails(high: nat, low: string, rest: string)
    requires 0xD800 <= high < 0xDC00
    ensures ParseChar("\\u" + Hex4(high) + low + rest) == None
  {
    UnicodeEscapeReads(high, low + rest);
    assert "\\u" + Hex4(high) + low + rest == "\\u" + Hex4(high) + (low + rest);
  }

  lemma {:induction false} StringReads(s: string, rest: string)
    ensures ParseString(EscapeAll(s) + "\"" + rest) == if Bmp(s) then Some((s, rest)) else None
  {
    var text := EscapeAll(s) + "\"" + rest;
    if |s| == 0 {
      assert text[1..] == rest;
    } else {
      var tail := EscapeAll(s[1..]) + "\"" + rest;
      EscapeReads(s[0], tail);
      assert text == Escape(s[0]) + tail;
      StringReads(s[1..], rest);
      assert s == [s[0]] + s[1..];
      assert Bmp(s) <==> s[0] as int < 0x10000 && Bmp(s[1..]) by {
        assert s[0] in s;
        assert forall c :: c in s <==> c == s[0] || c in s[1..];
      }
    }
  }

  lemma QuoteReads(s: string, rest: string)
    ensures |Quote(s)| > 0 && Quote(s)[0] == '"'
    ensures ParseString((Quote(s) + rest)[1..]) == if Bmp(s) then Some((s, rest)) else None
  {
    StringReads(s, rest);
    assert (Quote(s) + rest)[1..] == EscapeAll(s) + "\"" + rest;
  }

  // ----- keys -----

  lemma {:induction false} SpanStops(a: string, rest: string, p: char -> bool)
    requires (forall c :: c in a ==> p(c)) && (|rest| > 0 ==> !p(rest[0]))
    ensures Span(a + rest, p) == |a|
  {
    if |a| == 0 {
      assert a + rest == rest;
    } else {
      assert (a + rest)[1..] == a[1..] + rest;
      assert a[0] in a;
      assert forall c :: c in a[1..] ==> c in a;
      SpanStops(a[1..], rest, p);
    }
  }

  lemma KeyReads(key: string, rest: string)
    requires |rest| > 0 ==> !IsBare(rest[0])
    ensures ParseKey(FormatKey(key) + rest) == if Bmp(key) then Some((key, rest)) else None
    ensures |FormatKey(key)| > 0 && (FormatKey(key)[0] == '"' || IsBare(FormatKey(key)[0]))
  {
    if IsBareKey(key) {
      SpanStops(key, rest, c => IsBare(c));
      assert key[0] in key && (key + rest)[0] == key[0];
      assert (key + rest)[..|key|] == key && (key + rest)[|key|..] == rest;
    } else {
      QuoteReads(key, rest);
    }
  }

  predicate BmpPath(path: seq<string>) { forall key :: key in path ==> Bmp(key) }

  lemma BmpPathCons(path: seq<string>)
    requires |path| > 0
    ensures BmpPath(path) <==> Bmp(path[0]) && BmpPath(path[1..])
  {
    assert path[0] in path;
    assert forall key :: key in path <==> key == path[0] || key in path[1..];
  }

  lemma LastKeyReads(key: string, rest: string)
    requires |rest| > 0 && !IsBare(rest[0]) && rest[0] != '.'
    ensures ParsePath(FormatKey(key) + rest) == if Bmp(key) then Some(([key], rest)) else None
  {
    KeyReads(key, rest);
  }

  lemma DotReads(key: string, tail: string, keys: Option<seq<string>>, rest: string)
    requires |tail| > 0 && tail[0] == '.'
    requires ParsePath(tail[1..]) == if keys.Some? then Some((keys.value, rest)) else None
    ensures ParsePath(FormatKey(key) + tail) == if Bmp(key) && keys.Some? then Some(([key] + keys.value, rest)) else None
  {
    KeyReads(key, tail);
  }

  lemma DottedReads(key: string, more: string, keys: Option<seq<string>>, rest: string)
    requires ParsePath(more + rest) == if keys.Some? then Some((keys.value, rest)) else None
    ensures ParsePath(FormatKey(key) + "." + more + rest)
         == if Bmp(key) && keys.Some? then Some(([key] + keys.value, rest)) else None
  {
    var tail := "." + (more + rest);
    assert tail[1..] == more + rest;
    DotReads(key, tail, keys, rest);
    DotRegroup(FormatKey(key), more, rest);
  }

  lemma DotRegroup(key: string, more: string, rest: string)
    ensures key + "." + more + rest == key + ("." + (more + rest))
  {
  }

  lemma HeaderCons(path: seq<string>)
    requires |path| > 1
    ensures JoinHeader(path) == FormatKey(path[0]) + "." + JoinHeader(path[1..])
    ensures path == [path[0]] + path[1..]
  {
  }

  lemma {:induction false} PathReads(path: seq<string>, rest: string)
    requires |path| > 0 && |rest| > 0 && !IsBare(rest[0]) && rest[0] != '.'
    ensures ParsePath(JoinHeader(path) + rest) == if BmpPath(path) then Some((path, rest)) else None
  {
    BmpPathCons(path);
    if |path| == 1 {
      LastKeyReads(path[0], rest);
      assert path == [path[0]] && JoinHeader(path) == FormatKey(path[0]);
    } else {
      PathReads(path[1..], rest);
      DottedReads(path[0], JoinHeader(path[1..]), if BmpPath(path[1..]) then Some(path[1..]) else None, rest);
      HeaderCons(path);
    }
  }

  lemma HeaderStart(path: seq<string>)
    requires |path| > 0
    ensures |JoinHeader(path)| > 0 && JoinHeader(path)[0] != '['
  {
    KeyReads(path[0], "");
    assert JoinHeader(path)[0] == FormatKey(path[0])[0];
  }

  // ----- values -----

  /** What repr can give for a float: token characters, a point, exponent, "inf" or "nan" among them. */
  predicate IsRepr(s: string) {
    && |s| > 0 && s != "true" && s != "false"
    && (forall c :: c in s ==> IsTokenChar(c)) && exists c :: c in s && IsFloatChar(c)
  }

  predicate BmpValue(v: Value)
    decreases v, 1
  {
    match v
    case Str(s) => Bmp(s)
    case List(items) => BmpItems(items)
    case _ => true
  }

  predicate BmpItems(items: seq<Value>)
    decreases items, 0
  {
    |items| == 0 || (BmpValue(items[0]) && BmpItems(items[1..]))
  }

  /** The floats in a value are spelt as repr spells them. */
  predicate Spelt(v: Value)
    decreases v, 1
  {
    match v
    case Float(repr) => IsRepr(repr)
    case List(items) => AllSpelt(items)
    case Table(entries) => EntriesSpelt(entries)
    case _ => true
  }

  predicate AllSpelt(items: seq<Value>)
    decreases items, 0
  {
    |items| == 0 || (Spelt(items[0]) && AllSpelt(items[1..]))
  }

  predicate EntriesSpelt(entries: seq<Entry>)
    decreases entries, 0
  {
    |entries| == 0 || (Spelt(entries[0].value) && EntriesSpelt(entries[1..]))
  }

  predicate Ends(rest: string) { |rest| == 0 || rest[0] == ',' || rest[0] == ']' }

  lemma TokenReads(token: string, rest: string)
    requires |token| > 0 && (forall c :: c in token ==> IsTokenChar(c)) && Ends(rest)
    ensures ParseValue(token + rest)
         == match ParseToken(token) case None => None case Some(v) => Some((v, rest))
  {
    SpanStops(token, rest, c => IsTokenChar(c));
    assert token[0] in token && (token + rest)[0] == token[0];
    assert (token + rest)[..|token|] == token && (token + rest)[|token|..] == rest;
  }

  lemma IntToken(n: int)
    ensures var s := Text.Decimal(n);
            (forall c :: c in s ==> IsTokenChar(c) && !IsFloatChar(c)) && ParseToken(s) == Some(Int(n))
  {
    var s, d := Text.Decimal(n), Text.Digits(if n < 0 then -n else n);
    Text.DigitsNumeral(if n < 0 then -n else n);
    Text.DecimalParses(n);
    forall c | c in s
      ensures IsTokenChar(c) && !IsFloatChar(c)
    {
      assert c in d || c == '-';
    }
    assert 'u' in "true" by { assert "true"[2] == 'u'; }
    assert 'a' in "false" by { assert "false"[1] == 'a'; }
    assert 'u' !in s && 'a' !in s;
  }

  lemma SimpleReads(v: Value, rest: string)
    requires (v.Bool? || v.Int? || v.Float?) && Spelt(v) && Ends(rest)
    ensures ParseValue(FormatValue(v) + rest) == Some((v, rest))
  {
    match v
    case Bool(b) => TokenReads(if b then "true" else "false", rest);
    case Int(n) =>
      IntToken(n);
      TokenReads(Text.Decimal(n), rest);
    case Float(repr) => TokenReads(repr, rest);
  }

  lemma ListReads(text: string, rest: string)
    requires |text| > 0 && text[0] != ']'
    ensures ParseValue("[" + text + "]" + rest)
         == match ParseItems(text + "]" + rest) case None => None case Some((items, after)) => Some((List(items), after))
  {
    var s := "[" + text + "]" + rest;
    assert s[1..] == text + "]" + rest && s[1] == text[0];
  }

  lemma StrReads(s: string, rest: string)
    ensures ParseValue(Quote(s) + rest) == if Bmp(s) then Some((Str(s), rest)) else None
  {
    QuoteReads(s, rest);
    assert (Quote(s) + rest)[0] == '"';
  }

  lemma {:induction false} ValueReads(v: Value, rest: string)
    requires Plain(v) && Spelt(v) && Ends(rest)
    ensures ParseValue(FormatValue(v) + rest) == if BmpValue(v) then Some((v, rest)) else None
    ensures |FormatValue(v)| > 0 && FormatValue(v)[0] != ']'
    decreases v, 1
  {
    match v
    case Str(s) =>
      StrReads(s, rest);
      QuoteReads(s, rest);
    case List(items) =>
      if |items| == 0 {
        assert FormatValue(v) == "[]" && ("[]" + rest)[2..] == rest;
      } else {
        ItemsRead(items, rest);
        ListReads(FormatItems(items), rest);
        assert FormatValue(v) + rest == "[" + FormatItems(items) + "]" + rest;
      }
    case Bool(b) => SimpleReads(v, rest);
    case Int(n) =>
      SimpleReads(v, rest);
      IntToken(n);
      assert Text.Decimal(n)[0] in Text.Decimal(n);
    case Float(repr) =>
      SimpleReads(v, rest);
      assert repr[0] in repr;
  }

  lemma {:induction false} ItemsRead(items: seq<Value>, rest: string)
    requires |items| > 0 && AllPlain(items) && AllSpelt(items)
    ensures ParseItems(FormatItems(items) + "]" + rest) == if BmpItems(items) then Some((items, rest)) else None
    ensures |FormatItems(items)| > 0 && FormatItems(items)[0] != ']'
    decreases items, 0
  {
    var s := FormatItems(items) + "]" + rest;
    if |items| == 1 {
      assert s == FormatValue(items[0]) + ("]" + rest);
      ValueReads(items[0], "]" + rest);
      assert ("]" + rest)[1..] == rest;
      assert items == [items[0]];
    } else {
      var tail := ", " + FormatItems(items[1..]) + "]" + rest;
      assert s == FormatValue(items[0]) + tail;
      assert tail[2..] == FormatItems(items[1..]) + "]" + rest;
      ValueReads(items[0], tail);
      ItemsRead(items[1..], rest);
      assert items == [items[0]] + items[1..];
    }
  }

  // ----- lines -----

  predicate Emittable(line: Line) {
    match line
    case Blank => true
    case KeyValue(_, value) => Plain(value) && Spelt(value)
    case Header(path) => |path| > 0
    case ArrayHeader(path) => |path| > 0
  }

  predicate BmpLine(line: Line) {
    match line
    case Blank => true
    case KeyValue(key, value) => Bmp(key) && BmpValue(value)
    case Header(path) => BmpPath(path)
    case ArrayHeader(path) => BmpPath(path)
  }

  lemma HeaderReads(path: seq<string>)
    requires |path| > 0
    ensures ParseLine("[" + JoinHeader(path) + "]") == if BmpPath(path) then Some(Header(path)) else None
    ensures ParseLine("[[" + JoinHeader(path) + "]]") == if BmpPath(path) then Some(ArrayHeader(path)) else None
  {
    PathReads(path, "]");
    PathReads(path, "]]");
    HeaderStart(path);
    SingleBracket(JoinHeader(path));
    DoubleBracket(JoinHeader(path));
  }

  lemma SingleBracket(text: string)
    requires |text| > 0 && text[0] != '['
    ensures ParseLine("[" + text + "]")
         == match ParseHeader(text + "]", "]") case None => None case Some(path) => Some(Header(path))
  {
    var line := "[" + text + "]";
    assert line[1..] == text + "]" && line[1] == text[0];
  }

  lemma DoubleBracket(text: string)
    ensures ParseLine("[[" + text + "]]")
         == match ParseHeader(text + "]]", "]]") case None => None case Some(path) => Some(ArrayHeader(path))
  {
    var line := "[[" + text + "]]";
    assert line[2..] == text + "]]";
  }

  lemma KeyValueReads(key: string, value: Value)
    requires Plain(value) && Spelt(value)
    ensures ParseLine(FormatKey(key) + " = " + FormatValue(value))
         == if Bmp(key) && BmpValue(value) then Some(KeyValue(key, value)) else None
  {
    EqualsReads(key, FormatValue(value));
    assert FormatValue(value) + "" == FormatValue(value);
    ValueReads(value, "");
  }

  function Assigned(key: string, value: Option<(Value, string)>): Option<Line> {
    if value.Some? && value.value.1 == "" then Some(KeyValue(key, value.value.0)) else None
  }

  lemma EqualsReads(key: string, text: string)
    ensures ParseLine(FormatKey(key) + " = " + text) == if Bmp(key) then Assigned(key, ParseValue(text)) else None
  {
    var tail := " = " + text;
    KeyReads(key, tail);
    assert tail[..3] == " = " && tail[3..] == text;
    assert (FormatKey(key) + tail)[0] == FormatKey(key)[0];
    assert FormatKey(key) + " = " + text == FormatKey(key) + tail;
  }

  lemma LineReads(line: Line)
    requires Emittable(line)
    ensures ParseLine(Render(line)) == if BmpLine(line) then Some(line) else None
  {
    match line
    case Blank =>
    case KeyValue(key, value) => KeyValueReads(key, value);
    case Header(path) => HeaderReads(path);
    case ArrayHeader(path) => HeaderReads(path);
  }

  predicate AllBmp(lines: seq<Line>) { |lines| == 0 || (BmpLine(lines[0]) && AllBmp(lines[1..])) }

  predicate AllEmittable(lines: seq<Line>) { |lines| == 0 || (Emittable(lines[0]) && AllEmittable(lines[1..])) }

  lemma ParseMore(text: string, texts: seq<string>)
    ensures ParseLines([text] + texts)
         == if ParseLine(text).Some? && ParseLines(texts).Some? then Some([ParseLine(text).value] + ParseLines(texts).value)
            else None
  {
    assert ([text] + texts)[1..] == texts;
  }

  lemma NoLinesRead()
    ensures ParseLines([""]) == Some([Blank])
  {
    var texts: seq<string> := [""];
    assert texts[1..] == [];
    assert ParseLine(texts[0]) == Some(Blank);
    assert [Blank] + [] == [Blank];
  }

  lemma {:induction false} LinesRead(lines: seq<Line>)
    requires AllEmittable(lines)
    ensures ParseLines(RenderAll(lines) + [""]) == if AllBmp(lines) then Some(lines + [Blank]) else None
  {
    if |lines| == 0 {
      NoLinesRead();
      assert RenderAll(lines) + [""] == [""] && lines + [Blank] == [Blank];
    } else {
      LineReads(lines[0]);
      LinesRead(lines[1..]);
      ParseMore(Render(lines[0]), RenderAll(lines[1..]) + [""]);
      LastBlank(lines);
    }
  }

  lemma LastBlank(lines: seq<Line>)
    requires |lines| > 0
    ensures RenderAll(lines) + [""] == [Render(lines[0])] + (RenderAll(lines[1..]) + [""])
    ensures [lines[0]] + (lines[1..] + [Blank]) == lines + [Blank]
  {
    Regroup([Render(lines[0])], RenderAll(lines[1..]), [""]);
    assert lines == [lines[0]] + lines[1..];
    Regroup([lines[0]], lines[1..], [Blank]);
  }

  // ----- no line contains a line break -----

  predicate Printable(s: string) { forall c :: c in s ==> ' ' <= c <= '~' }

  lemma EscapePrintable(c: char)
    ensures Printable(Escape(c))
  {
    if ' ' <= c <= '~' || c as int < 14 {
      ShortEscapePrintable(c);
    } else if c as int < 0x10000 {
      Hex4Printable(c as int);
    } else {
      var v := c as int - 0x10000;
      SurrogatesPrintable(0xD800 + v / 0x400, 0xDC00 + v % 0x400);
    }
  }

  lemma ShortEscapePrintable(c: char)
    requires ' ' <= c <= '~' || c as int < 14
    ensures Printable(Escape(c))
  {
    Hex4Printable(c as int);
  }

  lemma SurrogatesPrintable(high: nat, low: nat)
    requires high < 0x10000 && low < 0x10000
    ensures Printable("\\u" + Hex4(high) + "\\u" + Hex4(low))
  {
    var a, b := "\\u" + Hex4(high), "\\u" + Hex4(low);
    Hex4Printable(high);
    Hex4Printable(low);
    assert "\\u" + Hex4(high) + "\\u" + Hex4(low) == a + b;
    forall c | c in a + b
      ensures ' ' <= c <= '~'
    {
      assert c in a || c in b;
    }
  }

  lemma Hex4Printable(n: nat)
    requires n < 0x10000
    ensures Printable("\\u" + Hex4(n))
  {
  }

  lemma {:induction false} EscapeAllPrintable(s: string)
    ensures Printable(EscapeAll(s))
  {
    if |s| == 0 {
    } else {
      EscapePrintable(s[0]);
      EscapeAllPrintable(s[1..]);
    }
  }

  lemma KeyPrintable(key: string)
    ensures Printable(FormatKey(key))
  {
    EscapeAllPrintable(key);
  }

  lemma {:induction false} HeaderPrintable(path: seq<string>)
    ensures Printable(JoinHeader(path))
  {
    if |path| == 0 {
    } else {
      KeyPrintable(path[0]);
      HeaderPrintable(path[1..]);
    }
  }

  lemma {:induction false} ValuePrintable(v: Value)
    requires Plain(v) && Spelt(v)
    ensures Printable(FormatValue(v))
    decreases v, 1
  {
    match v
    case Str(s) => EscapeAllPrintable(s);
    case Int(n) => IntToken(n);
    case List(items) => ItemsPrintable(items);
    case Bool(b) =>
    case Float(repr) =>
  }

  lemma {:induction false} ItemsPrintable(items: seq<Value>)
    requires AllPlain(items) && AllSpelt(items)
    ensures Printable(FormatItems(items))
    decreases items, 0
  {
    if |items| == 0 {
    } else {
      ValuePrintable(items[0]);
      ItemsPrintable(items[1..]);
    }
  }

  /** Whatever the strings hold, a rendered line is printable ASCII. */
  lemma LinePrintable(line: Line)
    requires Emittable(line)
    ensures Printable(Render(line)) && '\n' !in Render(line)
  {
    match line
    case Blank =>
    case KeyValue(key, value) =>
      KeyPrintable(key);
      ValuePrintable(value);
    case Header(path) => HeaderPrintable(path);
    case ArrayHeader(path) => HeaderPrintable(path);
  }

  lemma {:induction false} JoinWithLast(texts: seq<string>, c: char)
    requires |texts| > 0
    ensures Text.Join(texts + [""], c) == Text.Join(texts, c) + [c]
  {
    if |texts| == 1 {
      assert (texts + [""])[1..] == [""];
    } else {
      assert (texts + [""])[1..] == texts[1..] + [""];
      JoinWithLast(texts[1..], c);
    }
  }

  lemma {:induction false} NoLineBreaks(lines: seq<Line>)
    requires AllEmittable(lines)
    ensures forall t :: t in RenderAll(lines) ==> '\n' !in t
  {
    if |lines| == 0 {
    } else {
      LinePrintable(lines[0]);
      NoLineBreaks(lines[1..]);
    }
  }

  /** The writer's text, split at its line breaks, is its lines and an empty one. */
  lemma TextSplits(lines: seq<Line>)
    requires AllEmittable(lines)
    ensures var texts := RenderAll(lines);
            Text.Split(if |texts| == 0 then "" else Text.Join(texts, '\n') + "\n", '\n') == texts + [""]
  {
    var texts := RenderAll(lines);
    if |texts| > 0 {
      JoinWithLast(texts, '\n');
      NoLineBreaks(lines);
      Text.SplitJoin(texts + [""], '\n');
    }
  }
}
