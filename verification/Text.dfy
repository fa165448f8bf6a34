/** Byte strings and the few Python text operations the codecs rely on.

    A wire byte is a `char` below 256, so that ASCII constants can be written as literals. */
module Text {
  import opened Wrappers

  // ----- searching, splitting and joining -----

  function Find(s: string, c: char): (r: Option<nat>)
    ensures r.None? ==> c !in s
    ensures r.Some? ==> r.value < |s| && s[r.value] == c && c !in s[..r.value]
  {
    if |s| == 0 then None
    else if s[0] == c then Some(0)
    else
      match Find(s[1..], c)
      case None => None
      case Some(i) => assert s[..i + 1] == [s[0]] + s[1..][..i]; Some(i + 1)
  }

  function RFind(s: string, c: char): (r: Option<nat>)
    ensures r.None? ==> c !in s
    ensures r.Some? ==> r.value < |s| && s[r.value] == c && c !in s[r.value + 1..]
  {
    if |s| == 0 then None
    else if s[|s| - 1] == c then Some(|s| - 1)
    else RFind(s[..|s| - 1], c)
  }

  lemma {:induction false} RFindAt(a: string, c: char, b: string)
    requires c !in b
    ensures RFind(a + [c] + b, c) == Some(|a|)
    decreases |b|
  {
    var s := a + [c] + b;
    if |b| == 0 {
    } else {
      assert s[|s| - 1] == b[|b| - 1];
      assert s[..|s| - 1] == a + [c] + b[..|b| - 1];
      RFindAt(a, c, b[..|b| - 1]);
    }
  }

  lemma {:induction false} FindAt(a: string, c: char, b: string)
    requires c !in a
    ensures Find(a + [c] + b, c) == Some(|a|)
  {
    if |a| == 0 {
    } else {
      assert (a + [c] + b)[1..] == a[1..] + [c] + b;
      FindAt(a[1..], c, b);
    }
  }

  /** Python's `s.split(c)` for a one-character separator. */
  function Split(s: string, c: char): (parts: seq<string>)
    ensures |parts| > 0
  {
    if |s| == 0 then [""]
    else
      var rest := Split(s[1..], c);
      if s[0] == c then [""] + rest else [[s[0]] + rest[0]] + rest[1..]
  }

  function Join(parts: seq<string>, c: char): string
    requires |parts| > 0
  {
    if |parts| == 1 then parts[0] else parts[0] + [c] + Join(parts[1..], c)
  }

  lemma {:induction false} SplitPlain(s: string, c: char)
    requires c !in s
    ensures Split(s, c) == [s]
  {
    if |s| == 0 {
    } else {
      SplitPlain(s[1..], c);
      assert [s[0]] + s[1..] == s;
    }
  }

  lemma {:induction false} SplitFirst(p: string, c: char, rest: string)
    requires c !in p
    ensures Split(p + [c] + rest, c) == [p] + Split(rest, c)
  {
    var s := p + [c] + rest;
    if |p| == 0 {
      assert s[1..] == rest;
    } else {
      assert s[1..] == p[1..] + [c] + rest;
      SplitFirst(p[1..], c, rest);
      assert [p[0]] + p[1..] == p;
    }
  }

  lemma {:induction false} SplitJoin(parts: seq<string>, c: char)
    requires |parts| > 0
    requires forall p :: p in parts ==> c !in p
    ensures Split(Join(parts, c), c) == parts
  {
    if |parts| == 1 {
      SplitPlain(parts[0], c);
    } else {
      SplitFirst(parts[0], c, Join(parts[1..], c));
      SplitJoin(parts[1..], c);
    }
  }

  // ----- stripping -----

  function LStrip(s: string, chars: set<char>): string {
    if |s| > 0 && s[0] in chars then LStrip(s[1..], chars) else s
  }

  function RStrip(s: string, chars: set<char>): string {
    if |s| > 0 && s[|s| - 1] in chars then RStrip(s[..|s| - 1], chars) else s
  }

  function Strip(s: string, chars: set<char>): string {
    RStrip(LStrip(s, chars), chars)
  }

  lemma {:induction false} RStripTail(s: string, tail: string, chars: set<char>)
    requires |s| > 0 && s[|s| - 1] !in chars
    ensures RStrip(s + tail, chars) == s + RStrip(tail, chars)
    decreases |tail|
  {
    if |tail| == 0 {
      assert s + tail == s;
    } else if tail[|tail| - 1] in chars {
      assert (s + tail)[..|s + tail| - 1] == s + tail[..|tail| - 1];
      RStripTail(s, tail[..|tail| - 1], chars);
    }
  }

  /** What C's isspace and the whitespace skipping of int() accept. */
  const C_SPACE: set<char> := {9 as char, 10 as char, 11 as char, 12 as char, 13 as char, ' '}
  /** What str.strip() removes, as far as ASCII goes. */
  const PY_SPACE: set<char> := C_SPACE + {28 as char, 29 as char, 30 as char, 31 as char}
  const LINE_ENDS: set<char> := {'\r', '\n'}

  lemma StripNothing(s: string, chars: set<char>)
    requires |s| > 0 && s[0] !in chars && s[|s| - 1] !in chars
    ensures Strip(s, chars) == s
  {
  }

  lemma {:induction false} RStripIsPrefix(s: string, chars: set<char>)
    ensures RStrip(s, chars) <= s
  {
    if |s| > 0 && s[|s| - 1] in chars {
      RStripIsPrefix(s[..|s| - 1], chars);
    }
  }

  lemma NotSpace(c: char)
    requires c == '-' || '0' <= c <= '9' || 'A' <= c <= 'F'
    ensures c !in C_SPACE && c !in PY_SPACE && c !in LINE_ENDS
  {
  }

  // ----- numerals -----

  function Digit(d: nat): (c: char)
    requires d < 16
  {
    if d < 10 then ('0' as int + d) as char else ('A' as int + d - 10) as char
  }

  function DigitValue(c: char): (r: Option<nat>)
    ensures r.Some? ==> r.value < 16
  {
    if '0' <= c <= '9' then Some(c as int - '0' as int)
    else if 'A' <= c <= 'F' then Some(c as int - 'A' as int + 10)
    else if 'a' <= c <= 'f' then Some(c as int - 'a' as int + 10)
    else None
  }

  function Digits(n: nat): (s: string)
    ensures |s| > 0
  {
    if n < 10 then [Digit(n)] else Digits(n / 10) + [Digit(n % 10)]
  }

  /** Python's str() of an int. */
  function Decimal(n: int): (s: string)
    ensures |s| > 0
  {
    if n < 0 then "-" + Digits(-n) else Digits(n)
  }

  /** The "%02X" of a byte value. */
  function Hex2(n: nat): (s: string)
    requires n < 256
    ensures |s| == 2
  {
    [Digit(n / 16), Digit(n % 16)]
  }

  /** One more digit. */
  function Append(v: nat, base: nat, d: nat): nat {
    TimesNat(v, base);
    v * base + d
  }

  lemma TimesNat(a: nat, b: nat)
    ensures a * b >= 0
  {
  }

  /** Digits in `base`, single underscores allowed between two of them. */
  function Numeral(s: string, base: nat): Option<nat>
    requires 2 <= base <= 16
  {
    if |s| == 0 then None
    else
      match DigitValue(s[|s| - 1])
      case None => None
      case Some(d) =>
        if d >= base then None
        else if |s| == 1 then Some(d)
        else
          var rest := if s[|s| - 2] == '_' then s[..|s| - 2] else s[..|s| - 1];
          match Numeral(rest, base)
          case None => None
          case Some(v) => Some(Append(v, base, d))
  }

  function Unprefixed(s: string, base: nat): string {
    if base == 16 && |s| >= 2 && s[0] == '0' && (s[1] == 'x' || s[1] == 'X') then
      if |s| >= 3 && s[2] == '_' then s[3..] else s[2..]
    else s
  }

  function Unsigned(s: string): string {
    if |s| > 0 && (s[0] == '-' || s[0] == '+') then s[1..] else s
  }

  /** Python's int(token, base) on ASCII text; None is the ValueError. */
  function PyInt(token: string, base: nat): Option<int>
    requires 2 <= base <= 16
  {
    var s := Strip(token, C_SPACE);
    var negative := |s| > 0 && s[0] == '-';
    match Numeral(Unprefixed(Unsigned(s), base), base)
    case None => None
    case Some(v) => var n: int := v; Some(if negative then -n else n)
  }

  predicate IsDigit(c: char) { '0' <= c <= '9' }

  predicate IsDigits(s: string) { forall c :: c in s ==> '0' <= c <= '9' }

  /** What follows the leading digits. */
  function AfterDigits(s: string): string {
    if |s| > 0 && IsDigit(s[0]) then AfterDigits(s[1..]) else s
  }

  predicate IsExponent(s: string) {
    |s| > 1 && (s[0] == 'e' || s[0] == 'E') && Unsigned(s[1..]) != "" && IsDigits(Unsigned(s[1..]))
  }

  /** Digits with at most one point among them, and an optional exponent. */
  predicate IsDecimal(s: string) {
    var tail := AfterDigits(s);
    var fraction := if |tail| > 0 && tail[0] == '.' then tail[1..] else tail;
    var rest := if |tail| > 0 && tail[0] == '.' then AfterDigits(fraction) else tail;
    (tail != s || rest != fraction) && (rest == "" || IsExponent(rest))
  }

  function Lower(s: string): string {
    seq(|s|, i requires 0 <= i < |s| =>
      if 'A' <= s[i] <= 'Z' then (s[i] as int + 32) as char else s[i])
  }

  /** Each underscore stands between two digits. */
  predicate UnderscoresFit(s: string) {
    forall i :: 0 <= i < |s| && s[i] == '_' ==> 0 < i < |s| - 1 && IsDigit(s[i - 1]) && IsDigit(s[i + 1])
  }

  function WithoutUnderscores(s: string): string {
    if |s| == 0 then "" else (if s[0] == '_' then "" else [s[0]]) + WithoutUnderscores(s[1..])
  }

  /** Whether Python's float(token) accepts ASCII text. */
  predicate IsFloat(token: string) {
    var s := Strip(token, C_SPACE);
    var number := Unsigned(WithoutUnderscores(s));
    UnderscoresFit(s) && (IsDecimal(number) || Lower(number) in ["inf", "infinity", "nan"])
  }

  lemma {:induction false} DigitsNumeral(n: nat)
    ensures IsDigits(Digits(n))
    ensures Numeral(Digits(n), 10) == Some(n)
  {
    if n >= 10 {
      DigitsNumeral(n / 10);
      var s := Digits(n);
      assert s[..|s| - 1] == Digits(n / 10);
      assert s[|s| - 2] in Digits(n / 10);
    }
  }

  lemma DecimalParses(n: int)
    ensures PyInt(Decimal(n), 10) == Some(n)
  {
    var s := Decimal(n);
    DecimalShape(n);
    DigitsNumeral(if n < 0 then -n else n);
    NotSpace(s[0]);
    NotSpace(s[|s| - 1]);
    StripNothing(s, C_SPACE);
  }

  lemma DecimalShape(n: int)
    ensures var s, d := Decimal(n), Digits(if n < 0 then -n else n);
            && (s[0] == '-' || IsDigit(s[0])) && IsDigit(s[|s| - 1]) && (s[0] == '-' <==> n < 0)
            && Unsigned(s) == d && Unprefixed(d, 10) == d
  {
    var s, d := Decimal(n), Digits(if n < 0 then -n else n);
    DigitsNumeral(if n < 0 then -n else n);
    assert d[0] in d && d[|d| - 1] in d;
    assert s[|s| - 1] == d[|d| - 1];
  }

  lemma Hex2Parses(n: nat)
    requires n < 256
    ensures PyInt(Hex2(n), 16) == Some(n)
  {
    var s := Hex2(n);
    assert s[1] == Digit(n % 16) && s[0] == Digit(n / 16);
    NotSpace(s[0]);
    NotSpace(s[1]);
    StripNothing(s, C_SPACE);
    assert s[..1] == [Digit(n / 16)];
    assert Numeral(s[..1], 16) == Some(n / 16);
    assert Numeral(s, 16) == Some(n / 16 * 16 + n % 16);
  }

  // ----- UTF-8 (RFC 3629, section 4) -----

  predicate Trail(s: string, i: nat, low: int, high: int) {
    i < |s| && low <= s[i] as int <= high
  }

  /** The length of the well-formed character at the front of `s`, or 0. */
  function Utf8Lead(s: string): (n: nat)
    requires |s| > 0
    ensures n <= |s|
  {
    var b := s[0] as int;
    if b < 0x80 then 1
    else if 0xC2 <= b <= 0xDF && Trail(s, 1, 0x80, 0xBF) then 2
    else if 0xE0 <= b <= 0xEF
         && Trail(s, 1, if b == 0xE0 then 0xA0 else 0x80, if b == 0xED then 0x9F else 0xBF)
         && Trail(s, 2, 0x80, 0xBF) then 3
    else if 0xF0 <= b <= 0xF4
         && Trail(s, 1, if b == 0xF0 then 0x90 else 0x80, if b == 0xF4 then 0x8F else 0xBF)
         && Trail(s, 2, 0x80, 0xBF) && Trail(s, 3, 0x80, 0xBF) then 4
    else 0
  }

  predicate ValidUtf8(s: string) {
    |s| == 0 || (var n := Utf8Lead(s); n > 0 && ValidUtf8(s[n..]))
  }

  lemma {:induction false} Utf8Concat(a: string, b: string)
    requires ValidUtf8(a) && ValidUtf8(b)
    ensures ValidUtf8(a + b)
    decreases |a|
  {
    if |a| == 0 {
      assert a + b == b;
    } else {
      var n := Utf8Lead(a);
      assert Utf8Lead(a + b) == n;
      assert (a + b)[n..] == a[n..] + b;
      Utf8Concat(a[n..], b);
    }
  }

  lemma {:induction false} AsciiIsUtf8(s: string)
    requires forall c :: c in s ==> c as int < 0x80
    ensures ValidUtf8(s)
  {
    if |s| == 0 {
    } else {
      assert s[0] in s;
      assert forall c :: c in s[1..] ==> c in s;
      AsciiIsUtf8(s[1..]);
    }
  }
}
