/** The C++ command parser on the other end of the link (firmware/pibot_esp32/protocol.cpp). */
module Firmware {
  import opened Wrappers
  import opened Text
  import opened Codec
  import Crc

  const MAX_ARGS: nat := 4
  const NAME_LEN: nat := 12
  const SCRATCH: nat := 96

  datatype Parsed = Parsed(seqNo: int, name: string, args: seq<real>)

  // ----- what the C library calls compute on a NUL-terminated string -----

  function DigitPrefix(s: string, base: nat, acc: nat): nat {
    if |s| > 0 && DigitValue(s[0]).Some? && DigitValue(s[0]).value < base then
      DigitPrefix(s[1..], base, acc * base + DigitValue(s[0]).value)
    else acc
  }

  function Negative(s: string): bool { |s| > 0 && s[0] == '-' }

  function Atoi(s: string): int {
    var t := LStrip(s, C_SPACE);
    var n: int := DigitPrefix(Unsigned(t), 10, 0);
    if Negative(t) then -n else n
  }

  /** `x` with the point moved so many places to the left. */
  function Tenths(x: real, places: nat): real {
    if places == 0 then x else Tenths(x, places - 1) / 10.0
  }

  /** Sign, digits and an optional fraction. */
  function Atof(s: string): real {
    var t := LStrip(s, C_SPACE);
    var body := Unsigned(t);
    var whole := DigitPrefix(body, 10, 0);
    var tail := AfterDigits(body);
    var magnitude :=
      if |tail| > 0 && tail[0] == '.' then
        var digits := |tail| - 1 - |AfterDigits(tail[1..])|;
        whole as real
        + (if digits > 0 then Tenths(DigitPrefix(tail[1..], 10, 0) as real, digits) else 0.0)
      else whole as real;
    if Negative(t) then -magnitude else magnitude
  }

  function IsHexDigit(c: char): bool { DigitValue(c).Some? }

  /** strtol(s, nullptr, 16) on a 32-bit long, saturating. */
  function StrtolHex(s: string): int {
    var t := LStrip(s, C_SPACE);
    var body := Unsigned(t);
    var digits := if |body| >= 3 && body[0] == '0' && (body[1] == 'x' || body[1] == 'X') && IsHexDigit(body[2])
                  then body[2..] else body;
    var n: int := DigitPrefix(digits, 16, 0);
    if Negative(t) then (if n > 0x8000_0000 then -0x8000_0000 else -n)
    else (if n > 0x7FFF_FFFF then 0x7FFF_FFFF else n)
  }

  /** What is left of `s` at a comma-separated piece, the leading commas skipped. */
  function SkipCommas(s: string): (r: string)
    ensures |r| <= |s|
    ensures |r| > 0 ==> r[0] != ','
  {
    if |s| > 0 && s[0] == ',' then SkipCommas(s[1..]) else s
  }

  function Piece(s: string): (p: string)
    ensures p <= s
  {
    match Find(s, ',')
    case None => s
    case Some(i) => s[..i]
  }

  function AfterPiece(s: string): (r: string)
    ensures |s| > 0 ==> |r| < |s|
  {
    match Find(s, ',')
    case None => ""
    case Some(i) => s[i + 1..]
  }

  /** The successive results of strtok_r(.., ","): the non-empty pieces between commas. */
  function Tokens(s: string): seq<string>
    decreases |s|
  {
    var t := SkipCommas(s);
    if |t| == 0 then [] else [Piece(t)] + Tokens(AfterPiece(t))
  }

  function Take<T>(s: seq<T>, n: nat): seq<T> { if |s| <= n then s else s[..n] }

  function ArgValues(tokens: seq<string>): (r: seq<real>)
    ensures |r| == |tokens|
  {
    seq(|tokens|, i requires 0 <= i < |tokens| => Atof(tokens[i]))
  }

  function FromTokens(tokens: seq<string>): Result<Parsed, string> {
    if |tokens| < 2 then Failure("fields")
    else Success(Parsed(Atoi(tokens[0]), Take(tokens[1], NAME_LEN - 1), ArgValues(Take(tokens[2..], MAX_ARGS))))
  }

  function ParseFields(payload: string, field: string): Result<Parsed, string> {
    if Checksum(payload) != StrtolHex(field) % 256 then Failure("crc")
    else if |payload| >= SCRATCH then Failure("len")
    else FromTokens(Tokens(payload))
  }

  /** The parser's verdict on a line without its newline. */
  function ParseSpec(line: string): Result<Parsed, string> {
    if |line| == 0 || line[0] != '>' then Failure("marker")
    else
      match RFind(line, '*')
      case None => Failure("frame")
      case Some(star) =>
        assert star > 0;
        ParseFields(line[1..star], line[star + 1..])
  }

  // ----- the in-place tokeniser -----

  /** The C string that starts at `i`. */
  ghost function CStr(buf: seq<char>, i: nat): string
    decreases |buf| - i
  {
    if i >= |buf| || buf[i] == '\0' then "" else [buf[i]] + CStr(buf, i + 1)
  }

  lemma {:induction false} CStrLocal(a: seq<char>, b: seq<char>, i: nat)
    requires |a| == |b| && forall k :: i <= k < |a| ==> a[k] == b[k]
    ensures CStr(a, i) == CStr(b, i)
    decreases |a| - i
  {
    if i < |a| && a[i] != '\0' {
      CStrLocal(a, b, i + 1);
    }
  }

  lemma {:induction false} CStrCut(buf: seq<char>, i: nat, n: nat)
    requires i + n < |buf| && buf[i + n] == '\0'
    requires forall k :: i <= k < i + n ==> buf[k] != '\0'
    ensures CStr(buf, i) == buf[i..i + n]
    decreases n
  {
    if n == 0 {
    } else {
      CStrCut(buf, i + 1, n - 1);
      assert buf[i..i + n] == [buf[i]] + buf[i + 1..i + n];
    }
  }

  predicate Terminated(buf: seq<char>, i: nat) { exists k :: i <= k < |buf| && buf[k] == '\0' }

  method SkipDelimiters(buf: array<char>, from: nat) returns (start: nat)
    requires Terminated(buf[..], from)
    ensures from <= start < buf.Length && Terminated(buf[..], start)
    ensures CStr(buf[..], start) == SkipCommas(CStr(buf[..], from))
    ensures buf[start] != ','
  {
    start := from;
    while buf[start] == ','
      invariant from <= start && Terminated(buf[..], start)
      invariant SkipCommas(CStr(buf[..], start)) == SkipCommas(CStr(buf[..], from))
      decreases buf.Length - start
    {
      assert CStr(buf[..], start)[1..] == CStr(buf[..], start + 1);
      start := start + 1;
    }
  }

  ghost predicate NoDelimiter(buf: seq<char>, start: nat, end: nat) {
    && start <= end <= |buf|
    && forall k :: start <= k < end ==> buf[k] != ',' && buf[k] != '\0'
  }

  method TokenEnd(buf: array<char>, start: nat) returns (end: nat)
    requires Terminated(buf[..], start)
    ensures end < buf.Length && NoDelimiter(buf[..], start, end)
    ensures buf[end] == ',' || buf[end] == '\0'
    ensures Terminated(buf[..], end)
  {
    end := start;
    while buf[end] != ',' && buf[end] != '\0'
      invariant Terminated(buf[..], end) && end < buf.Length && NoDelimiter(buf[..], start, end)
      decreases buf.Length - end
    {
      end := end + 1;
    }
  }

  lemma {:induction false} CStrSplit(buf: seq<char>, start: nat, end: nat)
    requires NoDelimiter(buf, start, end)
    ensures CStr(buf, start) == buf[start..end] + CStr(buf, end)
    decreases end - start
  {
    if start < end {
      CStrSplit(buf, start + 1, end);
      assert buf[start..end] == [buf[start]] + buf[start + 1..end];
    }
  }

  lemma TokenIsPiece(buf: seq<char>, start: nat, end: nat)
    requires end < |buf| && NoDelimiter(buf, start, end) && (buf[end] == ',' || buf[end] == '\0')
    ensures Piece(CStr(buf, start)) == buf[start..end]
    ensures AfterPiece(CStr(buf, start)) == if buf[end] == ',' then CStr(buf, end + 1) else ""
  {
    CStrSplit(buf, start, end);
    var tok := buf[start..end];
    assert ',' !in tok;
    if buf[end] == ',' {
      assert CStr(buf, end) == [','] + CStr(buf, end + 1);
      assert tok + ([','] + CStr(buf, end + 1)) == tok + [','] + CStr(buf, end + 1);
      FindAt(tok, ',', CStr(buf, end + 1));
    } else {
      assert tok + "" == tok;
      assert Find(tok, ',') == None;
    }
  }

  lemma CutLocal(before: seq<char>, after: seq<char>, start: nat, end: nat)
    requires end < |before| && NoDelimiter(before, start, end) && after == before[end := '\0']
    ensures CStr(after, start) == before[start..end]
    ensures CStr(after, end + 1) == CStr(before, end + 1)
    ensures Terminated(before, end) && before[end] == ',' ==> Terminated(after, end + 1)
  {
    assert after[start..end] == before[start..end];
    CStrCut(after, start, end - start);
    CStrLocal(before, after, end + 1);
    if Terminated(before, end) && before[end] == ',' {
      var k :| end <= k < |before| && before[k] == '\0';
      assert after[k] == '\0';
    }
  }

  /** strtok_r(.., ",", &save): overwrites the comma after the token with NUL. */
  method StrTok(buf: array<char>, from: nat) returns (found: bool, start: nat, save: nat)
    requires Terminated(buf[..], from)
    modifies buf
    ensures var s := SkipCommas(old(CStr(buf[..], from)));
            && found == (|s| > 0)
            && (found ==> start < buf.Length && CStr(buf[..], start) == Piece(s))
            && CStr(buf[..], save) == (if found then AfterPiece(s) else "")
    ensures Terminated(buf[..], save)
  {
    start := SkipDelimiters(buf, from);
    if buf[start] == '\0' {
      return false, start, start;
    }
    found := true;
    save := CutToken(buf, start);
  }

  /** Ends the token at `start` with NUL and returns where the next one begins. */
  method CutToken(buf: array<char>, start: nat) returns (save: nat)
    requires Terminated(buf[..], start)
    modifies buf
    ensures start < buf.Length && Terminated(buf[..], save)
    ensures CStr(buf[..], start) == Piece(old(CStr(buf[..], start)))
    ensures CStr(buf[..], save) == AfterPiece(old(CStr(buf[..], start)))
  {
    save := TokenEnd(buf, start);
    ghost var before := buf[..];
    if buf[save] == ',' {
      CutComma(before, start, save);
      buf[save] := '\0';
      assert buf[..] == before[save := '\0'];
      save := save + 1;
    } else {
      CutEnd(before, start, save);
    }
  }

  lemma CutComma(before: seq<char>, start: nat, end: nat)
    requires end < |before| && NoDelimiter(before, start, end) && before[end] == ',' && Terminated(before, end)
    ensures var after := before[end := '\0'];
            && CStr(after, start) == Piece(CStr(before, start))
            && CStr(after, end + 1) == AfterPiece(CStr(before, start)) && Terminated(after, end + 1)
  {
    TokenIsPiece(before, start, end);
    CutLocal(before, before[end := '\0'], start, end);
  }

  lemma CutEnd(before: seq<char>, start: nat, end: nat)
    requires end < |before| && NoDelimiter(before, start, end) && before[end] == '\0'
    ensures CStr(before, start) == Piece(CStr(before, start)) && CStr(before, end) == AfterPiece(CStr(before, start))
  {
    TokenIsPiece(before, start, end);
    CStrSplit(before, start, end);
    assert CStr(before, end) == "" && before[start..end] + "" == before[start..end];
  }

  /** The next token as a string, and where to resume. */
  method NextToken(buf: array<char>, from: nat) returns (tok: Option<string>, save: nat)
    requires Terminated(buf[..], from)
    modifies buf
    ensures Terminated(buf[..], save)
    ensures tok.None? ==> old(Tokens(CStr(buf[..], from))) == []
    ensures tok.Some? ==> old(Tokens(CStr(buf[..], from))) == [tok.value] + Tokens(CStr(buf[..], save))
  {
    var found, start;
    found, start, save := StrTok(buf, from);
    if found {
      var s := ReadString(buf, start);
      tok := Some(s);
    } else {
      tok := None;
    }
  }

  /** The struct the parser fills. */
  class PibotCommand {
    var seqNo: int
    var name: string
    var args: seq<real>

    constructor ()
    {
      seqNo, name, args := 0, "", [];
    }
  }

  method ParseCommand(line: string, out: PibotCommand) returns (ok: bool, reason: string)
    requires '\0' !in line
    modifies out
    ensures ok <==> ParseSpec(line).Success?
    ensures ok ==> Parsed(out.seqNo, out.name, out.args) == ParseSpec(line).value
    ensures !ok ==> reason == ParseSpec(line).error
  {
    if |line| == 0 || line[0] != '>' {
      return false, "marker";
    }
    var found := RFind(line, '*');
    if found.None? {
      return false, "frame";
    }
    var star := found.value;
    var payload := line[1..star];
    var expected := StrtolHex(line[star + 1..]) % 256;
    var crc := Crc.FirmwareCrc8(Bytes(payload), |payload|);
    assert Bytes(payload)[..|payload|] == Bytes(payload);
    if crc as int != expected {
      return false, "crc";
    }
    if |payload| >= SCRATCH {
      return false, "len";
    }
    var buf := new char[SCRATCH](i => '\0');
    for i := 0 to |payload|
      invariant buf[..i] == payload[..i]
    {
      buf[i] := payload[i];
    }
    buf[|payload|] := '\0';
    assert forall k :: 0 <= k < |payload| ==> buf[k] == payload[k] && payload[k] in line;
    CStrCut(buf[..], 0, |payload|);
    assert CStr(buf[..], 0) == payload;
    assert buf[..][|payload|] == '\0';
    ok, reason := Tokenise(buf, out);
  }

  /** SEQ, NAME, then at most MAX_ARGS arguments; what follows is dropped. */
  method Tokenise(buf: array<char>, out: PibotCommand) returns (ok: bool, reason: string)
    requires Terminated(buf[..], 0)
    modifies buf, out
    ensures var r := FromTokens(old(Tokens(CStr(buf[..], 0))));
            && (ok <==> r.Success?)
            && (ok ==> Parsed(out.seqNo, out.name, out.args) == r.value)
            && (!ok ==> reason == r.error)
  {
    ghost var tokens := Tokens(CStr(buf[..], 0));
    out.args := [];
    var first, save := NextToken(buf, 0);
    if first.None? {
      return false, "fields";
    }
    out.seqNo := Atoi(first.value);
    ghost var later := Tokens(CStr(buf[..], save));
    assert tokens == [first.value] + later;
    var second;
    second, save := NextToken(buf, save);
    if second.None? {
      return false, "fields";
    }
    out.name := Take(second.value, NAME_LEN - 1);
    TwoTokens(tokens, first.value, later, second.value, Tokens(CStr(buf[..], save)));
    out.args := ReadArgs(buf, save);
    ok, reason := true, "";
  }

  lemma TwoTokens(tokens: seq<string>, first: string, later: seq<string>, second: string, rest: seq<string>)
    requires tokens == [first] + later && later == [second] + rest
    ensures |tokens| >= 2 && tokens[0] == first && tokens[1] == second && tokens[2..] == rest
  {
  }

  lemma ArgValuesSnoc(tokens: seq<string>, tok: string)
    ensures ArgValues(tokens + [tok]) == ArgValues(tokens) + [Atof(tok)]
  {
  }

  lemma TokensRegroup(done: seq<string>, tok: string, rest: seq<string>)
    ensures done + ([tok] + rest) == (done + [tok]) + rest
  {
  }

  method ReadArgs(buf: array<char>, from: nat) returns (args: seq<real>)
    requires Terminated(buf[..], from)
    modifies buf
    ensures args == ArgValues(Take(old(Tokens(CStr(buf[..], from))), MAX_ARGS))
  {
    ghost var all := Tokens(CStr(buf[..], from));
    ghost var done: seq<string> := [];
    args := [];
    var tok, save := NextToken(buf, from);
    while tok.Some? && |args| < MAX_ARGS
      invariant Terminated(buf[..], save)
      invariant |done| <= MAX_ARGS && args == ArgValues(done)
      invariant tok.Some? ==> all == done + ([tok.value] + Tokens(CStr(buf[..], save)))
      invariant tok.None? ==> all == done
      decreases MAX_ARGS - |args|
    {
      ArgValuesSnoc(done, tok.value);
      args := args + [Atof(tok.value)];
      TokensRegroup(done, tok.value, Tokens(CStr(buf[..], save)));
      done := done + [tok.value];
      tok, save := NextToken(buf, save);
    }
    assert Take(all, MAX_ARGS) == done;
  }

  /** The characters of the C string at `start`. */
  method ReadString(buf: array<char>, start: nat) returns (s: string)
    requires start < buf.Length
    ensures s == CStr(buf[..], start)
  {
    var i := start;
    s := "";
    while i < buf.Length && buf[i] != '\0'
      invariant start <= i <= buf.Length
      invariant s + CStr(buf[..], i) == CStr(buf[..], start)
    {
      assert CStr(buf[..], i) == [buf[i]] + CStr(buf[..], i + 1);
      s := s + [buf[i]];
      i := i + 1;
    }
    assert CStr(buf[..], i) == "";
  }
}
