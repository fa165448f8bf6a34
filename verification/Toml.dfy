/** The TOML writer (pibot/tomlio.py). */
module Toml {
  import opened Wrappers
  import opened Seqs
  import Text

  datatype Entry = Entry(key: string, value: Value)

  /** What a config mapping may hold. A float is the text `repr` gives it; `Other` is any type the writer
      does not know. */
  datatype Value =
    | Null
    | Bool(b: bool)
    | Int(n: int)
    | Float(repr: string)
    | Str(s: string)
    | List(items: seq<Value>)
    | Table(entries: seq<Entry>)
    | Other

  // ----- strings and keys -----

  function HexDigit(d: nat): char
    requires d < 16
  {
    if d < 10 then ('0' as int + d) as char else ('a' as int + d - 10) as char
  }

  function Hex4(n: nat): string
    requires n < 0x10000
  {
    [HexDigit(n / 0x1000), HexDigit(n / 0x100 % 16), HexDigit(n / 16 % 16), HexDigit(n % 16)]
  }

  const BACKSPACE: char := 8 as char
  const FORM_FEED: char := 12 as char

  /** JSON's escapes: everything but printable ASCII is escaped, beyond U+FFFF as a surrogate pair. */
  function Escape(c: char): string {
    if c == '"' then "\\\""
    else if c == '\\' then "\\\\"
    else if c == '\n' then "\\n"
    else if c == '\r' then "\\r"
    else if c == '\t' then "\\t"
    else if c == FORM_FEED then "\\f"
    else if c == BACKSPACE then "\\b"
    else if ' ' <= c <= '~' then [c]
    else if c as int < 0x10000 then "\\u" + Hex4(c as int)
    else
      var v := c as int - 0x10000;
      "\\u" + Hex4(0xD800 + v / 0x400) + "\\u" + Hex4(0xDC00 + v % 0x400)
  }

  function EscapeAll(s: string): string {
    if |s| == 0 then "" else Escape(s[0]) + EscapeAll(s[1..])
  }

  /** json.dumps of a string. */
  function Quote(s: string): string { "\"" + EscapeAll(s) + "\"" }

  predicate IsBare(c: char) { 'A' <= c <= 'Z' || 'a' <= c <= 'z' || '0' <= c <= '9' || c == '_' || c == '-' }

  predicate IsBareKey(key: string) { |key| > 0 && forall c :: c in key ==> IsBare(c) }

  function FormatKey(key: string): string { if IsBareKey(key) then key else Quote(key) }

  function JoinHeader(path: seq<string>): string {
    if |path| == 0 then ""
    else if |path| == 1 then FormatKey(path[0])
    else FormatKey(path[0]) + "." + JoinHeader(path[1..])
  }

  // ----- values -----

  /** The values that can stand on the right of an equals sign. */
  predicate Plain(v: Value)
    decreases v, 1
  {
    match v
    case Bool(_) => true
    case Int(_) => true
    case Float(_) => true
    case Str(_) => true
    case List(items) => AllPlain(items)
    case _ => false
  }

  predicate AllPlain(items: seq<Value>)
    decreases items, 0
  {
    |items| == 0 || (Plain(items[0]) && AllPlain(items[1..]))
  }

  function FormatValue(v: Value): string
    decreases v, 1
  {
    match v
    case Bool(b) => if b then "true" else "false"
    case Int(n) => Text.Decimal(n)
    case Float(repr) => repr
    case Str(s) => Quote(s)
    case List(items) => "[" + FormatItems(items) + "]"
    case _ => ""
  }

  function FormatItems(items: seq<Value>): string
    decreases items, 0
  {
    if |items| == 0 then ""
    else if |items| == 1 then FormatValue(items[0])
    else FormatValue(items[0]) + ", " + FormatItems(items[1..])
  }

  /** None is the TypeError of an unsupported type. */
  method RenderValue(v: Value) returns (r: Option<string>)
    ensures r == if Plain(v) then Some(FormatValue(v)) else None
    ensures r.None? <==> Offends(Spot(v, true))
    decreases v, 1
  {
    PlainMeans(v);
    match v
    case Bool(b) => r := Some(if b then "true" else "false");
    case Int(n) => r := Some(Text.Decimal(n));
    case Float(repr) => r := Some(repr);
    case Str(s) => r := Some(Quote(s));
    case List(items) =>
      var parts := RenderItems(items);
      r := if parts.None? then None else Some("[" + parts.value + "]");
    case _ => r := None;
  }

  method RenderItems(items: seq<Value>) returns (r: Option<string>)
    ensures r == if AllPlain(items) then Some(FormatItems(items)) else None
    decreases items, 0
  {
    var parts := "";
    assert items[0..] == items;
    for i := 0 to |items|
      invariant AllPlain(items) == AllPlain(items[i..])
      invariant parts + ItemsAfter(items, i) == FormatItems(items)
    {
      assert items[i..][0] == items[i] && items[i..][1..] == items[i + 1..];
      var part := RenderValue(items[i]);
      if part.None? {
        return None;
      }
      NextItem(items, i);
      ThreeParts(parts, if i > 0 then ", " else "", part.value, ItemsAfter(items, i + 1));
      parts := parts + (if i > 0 then ", " else "") + part.value;
    }
    assert items[|items|..] == [] && parts + "" == parts;
    r := Some(parts);
  }

  /** What is still missing after `i` items. */
  function ItemsAfter(items: seq<Value>, i: nat): string
    requires i <= |items|
  {
    (if 0 < i < |items| then ", " else "") + FormatItems(items[i..])
  }

  lemma NextItem(items: seq<Value>, i: nat)
    requires i < |items|
    ensures ItemsAfter(items, i) == (if i > 0 then ", " else "") + FormatValue(items[i]) + ItemsAfter(items, i + 1)
  {
    assert items[i..][0] == items[i] && items[i..][1..] == items[i + 1..];
  }

  // ----- what cannot be written -----

  /** A value in its place: as an item of an inline list, or else as the value of a key or a table. */
  datatype Spot = Spot(v: Value, listed: bool)

  /** The places inside a place. The tables of an array of tables are not items of an inline list; only the
      value of a key can be one. */
  function Inside(s: Spot): seq<Spot> {
    match s.v
    case Table(entries) => seq(|entries|, i requires 0 <= i < |entries| => Spot(entries[i].value, false))
    case List(items) =>
      var tables := !s.listed && |items| > 0 && forall item :: item in items ==> item.Table?;
      seq(|items|, i requires 0 <= i < |items| => Spot(items[i], !tables))
    case _ => []
  }

  /** The place reached by going from place to place inside. */
  function Follow(s: Spot, path: seq<nat>): Option<Spot>
    decreases |path|
  {
    if |path| == 0 then Some(s)
    else if path[0] >= |Inside(s)| then None
    else Follow(Inside(s)[path[0]], path[1..])
  }

  /** A type the writer does not know; or a None or a mapping as an item of an inline list. */
  predicate Unsupported(s: Spot) { s.v.Other? || (s.listed && (s.v.Null? || s.v.Table?)) }

  ghost predicate Offends(s: Spot) {
    exists path :: Follow(s, path).Some? && Unsupported(Follow(s, path).value)
  }

  lemma OffendsInside(s: Spot)
    ensures Offends(s) <==> Unsupported(s) || exists i :: 0 <= i < |Inside(s)| && Offends(Inside(s)[i])
  {
    if Offends(s) {
      var path :| Follow(s, path).Some? && Unsupported(Follow(s, path).value);
      if |path| > 0 {
        assert Follow(Inside(s)[path[0]], path[1..]) == Follow(s, path);
      }
    }
    if Unsupported(s) {
      assert Follow(s, []) == Some(s);
    }
    if i :| 0 <= i < |Inside(s)| && Offends(Inside(s)[i]) {
      var path :| Follow(Inside(s)[i], path).Some? && Unsupported(Follow(Inside(s)[i], path).value);
      assert ([i] + path)[1..] == path;
      assert Follow(s, [i] + path) == Follow(Inside(s)[i], path);
    }
  }

  /** A value can be put into an inline list, or on the right of an equals sign, unless it offends there. */
  lemma {:induction false} PlainMeans(v: Value)
    ensures Plain(v) <==> !Offends(Spot(v, true))
    decreases v, 1
  {
    OffendsInside(Spot(v, true));
    if v.List? {
      AllPlainMeans(v.items);
      assert forall i :: 0 <= i < |v.items| ==> Inside(Spot(v, true))[i] == Spot(v.items[i], true);
    }
  }

  lemma {:induction false} AllPlainMeans(items: seq<Value>)
    ensures AllPlain(items) <==> forall i :: 0 <= i < |items| ==> !Offends(Spot(items[i], true))
    decreases items, 0
  {
    if |items| == 0 {
    } else {
      PlainMeans(items[0]);
      AllPlainMeans(items[1..]);
      assert forall i :: 0 < i < |items| ==> items[i] == items[1..][i - 1];
    }
  }

  // ----- tables -----

  datatype Line =
    | Blank
    | KeyValue(key: string, value: Value)
    | Header(path: seq<string>)
    | ArrayHeader(path: seq<string>)

  function Render(line: Line): string {
    match line
    case Blank => ""
    case KeyValue(key, value) => FormatKey(key) + " = " + FormatValue(value)
    case Header(path) => "[" + JoinHeader(path) + "]"
    case ArrayHeader(path) => "[[" + JoinHeader(path) + "]]"
  }

  function RenderAll(lines: seq<Line>): seq<string> {
    if |lines| == 0 then [] else [Render(lines[0])] + RenderAll(lines[1..])
  }

  lemma {:induction false} RenderConcat(a: seq<Line>, b: seq<Line>)
    ensures RenderAll(a + b) == RenderAll(a) + RenderAll(b)
  {
    if |a| == 0 {
      assert a + b == b;
    } else {
      assert (a + b)[1..] == a[1..] + b;
      RenderConcat(a[1..], b);
    }
  }

  predicate IsTableArray(v: Value) { v.List? && |v.items| > 0 && forall item :: item in v.items ==> item.Table? }

  predicate IsScalar(v: Value) { !v.Null? && !v.Table? && !IsTableArray(v) }

  datatype Group = Scalars | SubTables | TableArrays

  predicate In(v: Value, group: Group) {
    match group
    case Scalars => IsScalar(v)
    case SubTables => v.Table?
    case TableArrays => IsTableArray(v)
  }

  /** The entries of one group, in order. */
  function Pick(entries: seq<Entry>, group: Group): seq<Entry> {
    if |entries| == 0 then []
    else (if In(entries[0].value, group) then [entries[0]] else []) + Pick(entries[1..], group)
  }

  lemma {:induction false} PickMembers(entries: seq<Entry>, group: Group)
    ensures forall e :: e in Pick(entries, group) <==> e in entries && In(e.value, group)
  {
    if |entries| == 0 {
    } else {
      PickMembers(entries[1..], group);
      assert forall e :: e in entries <==> e == entries[0] || e in entries[1..];
    }
  }

  function EmitScalars(entries: seq<Entry>): seq<Line> {
    if |entries| == 0 then []
    else (if IsScalar(entries[0].value) then [KeyValue(entries[0].key, entries[0].value)] else []) + EmitScalars(entries[1..])
  }

  /** The lines of a table: its scalars, its sub-tables, then its arrays of tables. */
  function Emit(t: Value, prefix: seq<string>): seq<Line>
    requires t.Table?
    decreases t, 1
  {
    EmitScalars(t.entries) + EmitTables(t.entries, prefix) + EmitArrays(t.entries, prefix)
  }

  function EmitTables(entries: seq<Entry>, prefix: seq<string>): seq<Line>
    decreases entries, 0
  {
    if |entries| == 0 then []
    else EmitSub(entries[0], prefix) + EmitTables(entries[1..], prefix)
  }

  function EmitSub(e: Entry, prefix: seq<string>): seq<Line>
    decreases e, 2
  {
    if !e.value.Table? then []
    else [Blank, Header(prefix + [e.key])] + Emit(e.value, prefix + [e.key])
  }

  function EmitArrays(entries: seq<Entry>, prefix: seq<string>): seq<Line>
    decreases entries, 0
  {
    if |entries| == 0 then []
    else
      (if IsTableArray(entries[0].value) then EmitItems(entries[0].value.items, prefix + [entries[0].key]) else [])
      + EmitArrays(entries[1..], prefix)
  }

  function EmitItems(items: seq<Value>, path: seq<string>): seq<Line>
    requires forall item :: item in items ==> item.Table?
    decreases items, 0
  {
    if |items| == 0 then []
    else [Blank, ArrayHeader(path)] + Emit(items[0], path) + EmitItems(items[1..], path)
  }

  /** Everything the table holds can be written. */
  predicate Writable(t: Value)
    requires t.Table?
    decreases t, 1
  {
    AllWritable(t.entries)
  }

  predicate AllWritable(entries: seq<Entry>)
    decreases entries, 0
  {
    |entries| == 0 || (EntryWritable(entries[0]) && AllWritable(entries[1..]))
  }

  predicate EntryWritable(e: Entry)
    decreases e, 2
  {
    if e.value.Null? then true
    else if e.value.Table? then Writable(e.value)
    else if IsTableArray(e.value) then ItemsWritable(e.value.items)
    else Plain(e.value)
  }

  predicate ItemsWritable(items: seq<Value>)
    requires forall item :: item in items ==> item.Table?
    decreases items, 0
  {
    |items| == 0 || (Writable(items[0]) && ItemsWritable(items[1..]))
  }

  lemma ScalarMeans(v: Value)
    requires IsScalar(v)
    ensures Plain(v) <==> !Offends(Spot(v, false))
  {
    PlainMeans(v);
    OffendsInside(Spot(v, true));
    OffendsInside(Spot(v, false));
    assert Inside(Spot(v, true)) == Inside(Spot(v, false));
  }

  /** A table can be written unless something in it offends. */
  lemma {:induction false} WritableIff(t: Value)
    requires t.Table?
    ensures Writable(t) <==> !Offends(Spot(t, false))
    decreases t, 1
  {
    OffendsInside(Spot(t, false));
    AllWritableIff(t.entries);
    assert forall i :: 0 <= i < |t.entries| ==> Inside(Spot(t, false))[i] == Spot(t.entries[i].value, false);
  }

  lemma {:induction false} AllWritableIff(entries: seq<Entry>)
    ensures AllWritable(entries) <==> forall i :: 0 <= i < |entries| ==> !Offends(Spot(entries[i].value, false))
    decreases entries, 0
  {
    if |entries| == 0 {
    } else {
      EntryWritableIff(entries[0]);
      AllWritableIff(entries[1..]);
      assert forall i :: 0 < i < |entries| ==> entries[i] == entries[1..][i - 1];
    }
  }

  lemma {:induction false} EntryWritableIff(e: Entry)
    ensures EntryWritable(e) <==> !Offends(Spot(e.value, false))
    decreases e, 2
  {
    OffendsInside(Spot(e.value, false));
    if e.value.Table? {
      WritableIff(e.value);
    } else if IsTableArray(e.value) {
      ItemsWritableIff(e.value.items);
      assert forall i :: 0 <= i < |e.value.items| ==> Inside(Spot(e.value, false))[i] == Spot(e.value.items[i], false);
    } else if IsScalar(e.value) {
      ScalarMeans(e.value);
    }
  }

  lemma {:induction false} ItemsWritableIff(items: seq<Value>)
    requires forall item :: item in items ==> item.Table?
    ensures ItemsWritable(items) <==> forall i :: 0 <= i < |items| ==> !Offends(Spot(items[i], false))
    decreases items, 0
  {
    if |items| == 0 {
    } else {
      WritableIff(items[0]);
      ItemsWritableIff(items[1..]);
      assert forall i :: 0 < i < |items| ==> items[i] == items[1..][i - 1];
    }
  }

  /** dumps: None is the TypeError. */
  function Dumps(t: Value): Option<string>
    requires t.Table?
  {
    if !Writable(t) then None
    else
      var texts := RenderAll(Emit(t, []));
      Some(if |texts| == 0 then "" else Text.Join(texts, '\n') + "\n")
  }

  // ----- the writer itself -----

  lemma {:induction false} PickScalars(entries: seq<Entry>)
    ensures EmitScalars(Pick(entries, Scalars)) == EmitScalars(entries)
  {
    if |entries| == 0 {
    } else {
      PickScalars(entries[1..]);
      PickOne(entries, Scalars);
    }
  }

  lemma PickOne(entries: seq<Entry>, group: Group)
    requires |entries| > 0
    ensures In(entries[0].value, group) ==>
              Pick(entries, group) == [entries[0]] + Pick(entries[1..], group)
              && Pick(entries, group)[1..] == Pick(entries[1..], group)
    ensures !In(entries[0].value, group) ==> Pick(entries, group) == Pick(entries[1..], group)
  {
  }

  lemma {:induction false} PickTables(entries: seq<Entry>, prefix: seq<string>)
    ensures EmitTables(Pick(entries, SubTables), prefix) == EmitTables(entries, prefix)
  {
    if |entries| == 0 {
    } else {
      PickTables(entries[1..], prefix);
      PickOne(entries, SubTables);
    }
  }

  lemma {:induction false} PickArrays(entries: seq<Entry>, prefix: seq<string>)
    ensures EmitArrays(Pick(entries, TableArrays), prefix) == EmitArrays(entries, prefix)
  {
    if |entries| == 0 {
    } else {
      PickArrays(entries[1..], prefix);
      PickOne(entries, TableArrays);
    }
  }

  lemma {:induction false} WritableMeans(entries: seq<Entry>)
    ensures AllWritable(entries) <==> forall e :: e in entries ==> EntryWritable(e)
  {
    if |entries| == 0 {
    } else {
      WritableMeans(entries[1..]);
      assert entries[0] in entries;
      assert forall e :: e in entries <==> e == entries[0] || e in entries[1..];
    }
  }

  lemma {:induction false} ItemsWritableMeans(items: seq<Value>)
    requires forall item :: item in items ==> item.Table?
    ensures ItemsWritable(items) <==> forall item :: item in items ==> Writable(item)
  {
    if |items| == 0 {
    } else {
      assert forall item :: item in items <==> item == items[0] || item in items[1..];
      ItemsWritableMeans(items[1..]);
      assert items[0] in items;
    }
  }

  lemma ScalarsStep(scalars: seq<Entry>, i: nat)
    requires i < |scalars| && IsScalar(scalars[i].value)
    ensures EmitScalars(scalars[i..]) == [KeyValue(scalars[i].key, scalars[i].value)] + EmitScalars(scalars[i + 1..])
  {
    assert scalars[i..][0] == scalars[i] && scalars[i..][1..] == scalars[i + 1..];
  }

  lemma TablesStep(subTables: seq<Entry>, i: nat, prefix: seq<string>)
    requires i < |subTables|
    ensures EmitTables(subTables[i..], prefix) == EmitSub(subTables[i], prefix) + EmitTables(subTables[i + 1..], prefix)
  {
    assert subTables[i..][0] == subTables[i] && subTables[i..][1..] == subTables[i + 1..];
  }

  lemma ArraysStep(arrays: seq<Entry>, i: nat, prefix: seq<string>)
    requires i < |arrays| && IsTableArray(arrays[i].value)
    ensures EmitArrays(arrays[i..], prefix)
         == EmitItems(arrays[i].value.items, prefix + [arrays[i].key]) + EmitArrays(arrays[i + 1..], prefix)
  {
    assert arrays[i..][0] == arrays[i] && arrays[i..][1..] == arrays[i + 1..];
  }

  lemma ArraysOnward(emitted: seq<Line>, arrays: seq<Entry>, i: nat, prefix: seq<string>)
    requires i < |arrays| && IsTableArray(arrays[i].value)
    ensures emitted + EmitArrays(arrays[i..], prefix)
         == emitted + EmitItems(arrays[i].value.items, prefix + [arrays[i].key]) + EmitArrays(arrays[i + 1..], prefix)
  {
    ArraysStep(arrays, i, prefix);
    Regroup(emitted, EmitItems(arrays[i].value.items, prefix + [arrays[i].key]), EmitArrays(arrays[i + 1..], prefix));
  }

  lemma ItemsStep(items: seq<Value>, i: nat, path: seq<string>)
    requires i < |items| && forall item :: item in items ==> item.Table?
    ensures EmitItems(items[i..], path)
         == [Blank, ArrayHeader(path)] + Emit(items[i], path) + EmitItems(items[i + 1..], path)
  {
    assert items[i..][0] == items[i] && items[i..][1..] == items[i + 1..];
  }

  lemma PickStep(picked: seq<Entry>, entries: seq<Entry>, i: nat, group: Group)
    requires i < |entries| && picked + Pick(entries[i..], group) == Pick(entries, group)
    ensures (if In(entries[i].value, group) then picked + [entries[i]] else picked) + Pick(entries[i + 1..], group)
         == Pick(entries, group)
  {
    assert entries[i..][0] == entries[i] && entries[i..][1..] == entries[i + 1..];
    Regroup(picked, [entries[i]], Pick(entries[i + 1..], group));
  }

  method Classify(entries: seq<Entry>) returns (scalars: seq<Entry>, subTables: seq<Entry>, tableArrays: seq<Entry>)
    ensures scalars == Pick(entries, Scalars)
    ensures subTables == Pick(entries, SubTables)
    ensures tableArrays == Pick(entries, TableArrays)
  {
    scalars, subTables, tableArrays := [], [], [];
    assert entries[0..] == entries;
    for i := 0 to |entries|
      invariant scalars + Pick(entries[i..], Scalars) == Pick(entries, Scalars)
      invariant subTables + Pick(entries[i..], SubTables) == Pick(entries, SubTables)
      invariant tableArrays + Pick(entries[i..], TableArrays) == Pick(entries, TableArrays)
    {
      var e := entries[i];
      PickStep(scalars, entries, i, Scalars);
      PickStep(subTables, entries, i, SubTables);
      PickStep(tableArrays, entries, i, TableArrays);
      if e.value.Null? {
      } else if e.value.Table? {
        subTables := subTables + [e];
      } else if IsTableArray(e.value) {
        tableArrays := tableArrays + [e];
      } else {
        scalars := scalars + [e];
      }
    }
    assert entries[|entries|..] == [];
  }

  lemma EmitByGroup(before: seq<Line>, t: Value, prefix: seq<string>)
    requires t.Table?
    ensures before + EmitScalars(Pick(t.entries, Scalars)) + EmitTables(Pick(t.entries, SubTables), prefix)
            + EmitArrays(Pick(t.entries, TableArrays), prefix)
         == before + Emit(t, prefix)
  {
    PickScalars(t.entries);
    PickTables(t.entries, prefix);
    PickArrays(t.entries, prefix);
    ThreeParts(before, EmitScalars(t.entries), EmitTables(t.entries, prefix), EmitArrays(t.entries, prefix));
  }

  lemma ThreeParts<T>(before: seq<T>, a: seq<T>, b: seq<T>, c: seq<T>)
    ensures before + a + b + c == before + (a + b + c)
  {
  }

  lemma TwoThen<T>(before: seq<T>, a: T, b: T, c: seq<T>)
    ensures before + [a] + [b] + c == before + ([a, b] + c)
  {
  }

  /** The shared list of lines; `emitted` is what they render. */
  class Output {
    var lines: seq<string>
    ghost var emitted: seq<Line>

    ghost predicate Valid()
      reads this
    {
      lines == RenderAll(emitted)
    }

    constructor ()
      ensures Valid() && emitted == []
    {
      lines := [];
      emitted := [];
    }

    method Add(text: string, ghost line: Line)
      requires Valid() && text == Render(line)
      modifies this
      ensures Valid() && emitted == old(emitted) + [line]
    {
      RenderConcat(emitted, [line]);
      lines := lines + [text];
      emitted := emitted + [line];
    }

    method AddScalars(scalars: seq<Entry>) returns (ok: bool)
      requires Valid() && forall e :: e in scalars ==> IsScalar(e.value)
      modifies this
      ensures Valid()
      ensures ok <==> forall e :: e in scalars ==> Plain(e.value)
      ensures ok ==> emitted == old(emitted) + EmitScalars(scalars)
    {
      ghost var whole := old(emitted) + EmitScalars(scalars);
      assert scalars[0..] == scalars;
      for i := 0 to |scalars|
        invariant Valid() && emitted + EmitScalars(scalars[i..]) == whole
        invariant forall k :: 0 <= k < i ==> Plain(scalars[k].value)
      {
        var e := scalars[i];
        assert e in scalars;
        ScalarsStep(scalars, i);
        Regroup(emitted, [KeyValue(e.key, e.value)], EmitScalars(scalars[i + 1..]));
        var text := RenderValue(e.value);
        if text.None? {
          return false;
        }
        Add(FormatKey(e.key) + " = " + text.value, KeyValue(e.key, e.value));
      }
      assert scalars[|scalars|..] == [];
      ok := true;
    }

    /** _emit_table; false is the TypeError. */
    method EmitTable(t: Value, prefix: seq<string>) returns (ok: bool)
      requires Valid() && t.Table?
      modifies this
      ensures Valid()
      ensures ok <==> Writable(t)
      ensures ok <==> !Offends(Spot(t, false))
      ensures ok ==> emitted == old(emitted) + Emit(t, prefix)
      decreases t, 2
    {
      WritableIff(t);
      var scalars, subTables, tableArrays := Classify(t.entries);
      WritableByGroup(t.entries);
      PickMembers(t.entries, Scalars);
      PickMembers(t.entries, SubTables);
      PickMembers(t.entries, TableArrays);
      EmitByGroup(old(emitted), t, prefix);
      ok := AddScalars(scalars);
      if !ok { return; }
      ok := AddTables(t, subTables, prefix);
      if !ok { return; }
      ok := AddArrays(t, tableArrays, prefix);
    }

    method AddTables(t: Value, subTables: seq<Entry>, prefix: seq<string>) returns (ok: bool)
      requires Valid() && t.Table? && forall e :: e in subTables ==> e in t.entries && e.value.Table?
      modifies this
      ensures Valid()
      ensures ok <==> forall e :: e in subTables ==> EntryWritable(e)
      ensures ok ==> emitted == old(emitted) + EmitTables(subTables, prefix)
      decreases t, 1
    {
      ghost var whole := old(emitted) + EmitTables(subTables, prefix);
      assert subTables[0..] == subTables;
      for i := 0 to |subTables|
        invariant Valid() && emitted + EmitTables(subTables[i..], prefix) == whole
        invariant forall k :: 0 <= k < i ==> EntryWritable(subTables[k])
      {
        var e := subTables[i];
        assert e in subTables;
        TablesStep(subTables, i, prefix);
        Regroup(emitted, EmitSub(e, prefix), EmitTables(subTables[i + 1..], prefix));
        ok := AddTable(e, prefix);
        if !ok { return; }
      }
      assert subTables[|subTables|..] == [];
      ok := true;
    }

    method AddTable(e: Entry, prefix: seq<string>) returns (ok: bool)
      requires Valid() && e.value.Table?
      modifies this
      ensures Valid()
      ensures ok <==> EntryWritable(e)
      ensures ok ==> emitted == old(emitted) + EmitSub(e, prefix)
      decreases e, 3
    {
      var header := prefix + [e.key];
      Add("", Blank);
      Add("[" + JoinHeader(header) + "]", Header(header));
      TwoThen(old(emitted), Blank, Header(header), Emit(e.value, header));
      ok := EmitTable(e.value, header);
    }

    method AddArrays(t: Value, tableArrays: seq<Entry>, prefix: seq<string>) returns (ok: bool)
      requires Valid() && t.Table? && forall e :: e in tableArrays ==> e in t.entries && IsTableArray(e.value)
      modifies this
      ensures Valid()
      ensures ok <==> forall e :: e in tableArrays ==> EntryWritable(e)
      ensures ok ==> emitted == old(emitted) + EmitArrays(tableArrays, prefix)
      decreases t, 1
    {
      ghost var whole := old(emitted) + EmitArrays(tableArrays, prefix);
      assert tableArrays[0..] == tableArrays;
      for i := 0 to |tableArrays|
        invariant Valid() && emitted + EmitArrays(tableArrays[i..], prefix) == whole
        invariant forall k :: 0 <= k < i ==> EntryWritable(tableArrays[k])
      {
        var e := tableArrays[i];
        assert e in tableArrays;
        ArraysOnward(emitted, tableArrays, i, prefix);
        ok := AddArray(e, prefix);
        if !ok { return; }
      }
      assert tableArrays[|tableArrays|..] == [];
      ok := true;
    }

    method AddArray(e: Entry, prefix: seq<string>) returns (ok: bool)
      requires Valid() && IsTableArray(e.value)
      modifies this
      ensures Valid()
      ensures ok <==> EntryWritable(e)
      ensures ok ==> emitted == old(emitted) + EmitItems(e.value.items, prefix + [e.key])
      decreases e, 3
    {
      ok := AddItems(e.value.items, prefix + [e.key]);
    }

    method AddItems(items: seq<Value>, header: seq<string>) returns (ok: bool)
      requires Valid() && forall item :: item in items ==> item.Table?
      modifies this
      ensures Valid()
      ensures ok <==> ItemsWritable(items)
      ensures ok ==> emitted == old(emitted) + EmitItems(items, header)
      decreases items, 0
    {
      ItemsWritableMeans(items);
      ghost var whole := old(emitted) + EmitItems(items, header);
      assert items[0..] == items;
      for i := 0 to |items|
        invariant Valid() && emitted + EmitItems(items[i..], header) == whole
        invariant forall k :: 0 <= k < i ==> Writable(items[k])
      {
        var item := items[i];
        assert item in items;
        ItemsStep(items, i, header);
        Regroup(emitted, [Blank, ArrayHeader(header)] + Emit(item, header), EmitItems(items[i + 1..], header));
        ok := AddItem(item, header);
        if !ok { return; }
      }
      assert items[|items|..] == [];
      ok := true;
    }

    method AddItem(item: Value, header: seq<string>) returns (ok: bool)
      requires Valid() && item.Table?
      modifies this
      ensures Valid()
      ensures ok <==> Writable(item)
      ensures ok ==> emitted == old(emitted) + ([Blank, ArrayHeader(header)] + Emit(item, header))
      decreases item, 3
    {
      Add("", Blank);
      Add("[[" + JoinHeader(header) + "]]", ArrayHeader(header));
      TwoThen(old(emitted), Blank, ArrayHeader(header), Emit(item, header));
      ok := EmitTable(item, header);
    }
  }

  lemma WritableByGroup(entries: seq<Entry>)
    ensures AllWritable(entries) <==>
              && (forall e :: e in Pick(entries, Scalars) ==> Plain(e.value))
              && (forall e :: e in Pick(entries, SubTables) ==> EntryWritable(e))
              && (forall e :: e in Pick(entries, TableArrays) ==> EntryWritable(e))
  {
    WritableMeans(entries);
    PickMembers(entries, Scalars);
    PickMembers(entries, SubTables);
    PickMembers(entries, TableArrays);
    forall e | e in entries
      ensures In(e.value, Scalars) || In(e.value, SubTables) || In(e.value, TableArrays) || e.value.Null?
    {
    }
  }

  method Dump(t: Value) returns (r: Option<string>)
    requires t.Table?
    ensures r == Dumps(t)
    ensures r.None? <==> Offends(Spot(t, false))
  {
    WritableIff(t);
    var out := new Output();
    var ok := out.EmitTable(t, []);
    if !ok {
      return None;
    }
    assert [] + Emit(t, []) == Emit(t, []);
    r := Some(if |out.lines| > 0 then Text.Join(out.lines, '\n') + "\n" else "");
  }
}
