/** Reading what the TOML writer wrote (pibot/tomlio.py) rebuilds the mapping. */
module TomlLaws {
  import opened Wrappers
  import opened Seqs
  import opened Toml
  import opened TomlReader
  import opened TomlText

  // ----- what a mapping means -----

  /** The document a value stands for: entries that are None are dropped, order does not matter. */
  function Denote(v: Value): Doc
    decreases v, 1
  {
    match v
    case Table(entries) => Dict(DenoteAll(entries))
    case List(items) => if IsTableArray(v) then Docs(DenoteItems(items)) else Leaf(v)
    case _ => Leaf(v)
  }

  function DenoteAll(entries: seq<Entry>): map<string, Doc>
    decreases entries, 0
  {
    if |entries| == 0 then map[]
    else
      var rest := DenoteAll(entries[1..]);
      if entries[0].value.Null? then rest else rest[entries[0].key := Denote(entries[0].value)]
  }

  function DenoteItems(items: seq<Value>): (docs: seq<Doc>)
    ensures |docs| == |items|
    decreases items, 0
  {
    if |items| == 0 then [] else [Denote(items[0])] + DenoteItems(items[1..])
  }

  function Keys(entries: seq<Entry>): set<string> {
    if |entries| == 0 then {} else {entries[0].key} + Keys(entries[1..])
  }

  predicate Distinct(entries: seq<Entry>) {
    |entries| == 0 || (entries[0].key !in Keys(entries[1..]) && Distinct(entries[1..]))
  }

  /** A dict has each key once, at every level. */
  predicate Proper(v: Value)
    decreases v, 1
  {
    match v
    case Table(entries) => Distinct(entries) && AllProper(entries)
    case List(items) => ItemsProper(items)
    case _ => true
  }

  predicate AllProper(entries: seq<Entry>)
    decreases entries, 0
  {
    |entries| == 0 || (Proper(entries[0].value) && AllProper(entries[1..]))
  }

  predicate ItemsProper(items: seq<Value>)
    decreases items, 0
  {
    |items| == 0 || (Proper(items[0]) && ItemsProper(items[1..]))
  }

  /** What the entries of one group contribute. */
  function Part(entries: seq<Entry>, group: Group): map<string, Doc> {
    if |entries| == 0 then map[]
    else
      var rest := Part(entries[1..], group);
      if In(entries[0].value, group) then rest[entries[0].key := Denote(entries[0].value)] else rest
  }

  lemma {:induction false} PartKeys(entries: seq<Entry>, group: Group)
    ensures Part(entries, group).Keys <= Keys(entries)
  {
    if |entries| > 0 { PartKeys(entries[1..], group); }
  }

  lemma {:induction false} PartsDisjoint(entries: seq<Entry>, g: Group, h: Group)
    requires Distinct(entries) && g != h
    ensures Part(entries, g).Keys !! Part(entries, h).Keys
  {
    if |entries| == 0 {
    } else {
      PartsDisjoint(entries[1..], g, h);
      PartKeys(entries[1..], g);
      PartKeys(entries[1..], h);
    }
  }

  lemma {:induction false} PartsTogether(entries: seq<Entry>)
    requires Distinct(entries)
    ensures Part(entries, Scalars) + Part(entries, SubTables) + Part(entries, TableArrays) == DenoteAll(entries)
  {
    if |entries| == 0 {
    } else {
      PartsTogether(entries[1..]);
      PartKeys(entries[1..], Scalars);
      PartKeys(entries[1..], SubTables);
      PartKeys(entries[1..], TableArrays);
    }
  }

  // ----- looking up and replacing a table -----

  lemma {:induction false} TableOfReplace(d: Doc, f: map<string, Doc>)
    requires TableOf(d).Some?
    ensures TableOf(Replace(d, f)) == Some(f)
  {
    if d.Docs? { TableOfReplace(d.items[|d.items| - 1], f); }
  }

  lemma {:induction false} ReplaceTwice(d: Doc, f: map<string, Doc>, g: map<string, Doc>)
    requires TableOf(d).Some?
    ensures TableOf(Replace(d, f)).Some? && Replace(Replace(d, f), g) == Replace(d, g)
  {
    TableOfReplace(d, f);
    if d.Docs? { ReplaceTwice(d.items[|d.items| - 1], f, g); }
  }

  lemma {:induction false} ReplaceSame(d: Doc)
    requires TableOf(d).Some?
    ensures Replace(d, TableOf(d).value) == d
  {
    if d.Docs? {
      ReplaceSame(d.items[|d.items| - 1]);
      assert d.items == d.items[..|d.items| - 1] + [d.items[|d.items| - 1]];
    }
  }

  lemma {:induction false} GetPut(d: Doc, path: seq<string>, f: map<string, Doc>)
    requires Get(d, path).Some?
    ensures Get(Put(d, path, f), path) == Some(f)
    decreases |path|
  {
    if |path| == 0 {
      TableOfReplace(d, f);
    } else {
      var here := TableOf(d).value;
      GetPut(here[path[0]], path[1..], f);
      TableOfReplace(d, here[path[0] := Put(here[path[0]], path[1..], f)]);
    }
  }

  lemma {:induction false} PutPut(d: Doc, path: seq<string>, f: map<string, Doc>, g: map<string, Doc>)
    requires Get(d, path).Some?
    ensures Get(Put(d, path, f), path).Some? && Put(Put(d, path, f), path, g) == Put(d, path, g)
    decreases |path|
  {
    GetPut(d, path, f);
    if |path| == 0 {
      ReplaceTwice(d, f, g);
    } else {
      var here := TableOf(d).value;
      var child := here[path[0]];
      PutPut(child, path[1..], f, g);
      var once := here[path[0] := Put(child, path[1..], f)];
      TableOfReplace(d, once);
      ReplaceTwice(d, once, here[path[0] := Put(child, path[1..], g)]);
      assert once[path[0] := Put(child, path[1..], g)] == here[path[0] := Put(child, path[1..], g)];
    }
  }

  lemma {:induction false} PutSame(d: Doc, path: seq<string>)
    requires Get(d, path).Some?
    ensures Put(d, path, Get(d, path).value) == d
    decreases |path|
  {
    ReplaceSame(d);
    if |path| == 0 {
    } else {
      var here := TableOf(d).value;
      PutSame(here[path[0]], path[1..]);
      assert here[path[0] := here[path[0]]] == here;
    }
  }

  /** The table one name further. */
  lemma {:induction false} GetChild(d: Doc, path: seq<string>, key: string)
    requires Get(d, path).Some? && key in Get(d, path).value
    ensures Get(d, path + [key]) == TableOf(Get(d, path).value[key])
    decreases |path|
  {
    if |path| == 0 {
    } else {
      assert (path + [key])[1..] == path[1..] + [key];
      GetChild(TableOf(d).value[path[0]], path[1..], key);
    }
  }

  lemma {:induction false} PutChild(d: Doc, path: seq<string>, key: string, f: map<string, Doc>)
    requires Get(d, path).Some? && key in Get(d, path).value && TableOf(Get(d, path).value[key]).Some?
    ensures var here := Get(d, path).value;
            Get(d, path + [key]).Some? && Put(d, path + [key], f) == Put(d, path, here[key := Replace(here[key], f)])
    decreases |path|
  {
    GetChild(d, path, key);
    if |path| > 0 {
      assert (path + [key])[1..] == path[1..] + [key];
      PutChild(TableOf(d).value[path[0]], path[1..], key, f);
    } else {
      assert (path + [key])[1..] == [];
    }
  }

  // ----- reading lines -----

  lemma {:induction false} ReadConcat(s: Reading, a: seq<Line>, b: seq<Line>)
    ensures ReadLines(s, a + b)
         == match ReadLines(s, a) case None => None case Some(t) => ReadLines(t, b)
    decreases |a|
  {
    if |a| == 0 {
      assert a + b == b;
    } else {
      assert (a + b)[1..] == a[1..] + b;
      match ReadLine(s, a[0])
      case None =>
      case Some(t) => ReadConcat(t, a[1..], b);
    }
  }

  /** Reading `lines` turns the table at `prefix` into `fields` and changes nothing else. */
  ghost predicate Fills(s: Reading, lines: seq<Line>, prefix: seq<string>, fields: map<string, Doc>) {
    && Get(s.root, prefix).Some? && ReadLines(s, lines).Some?
    && ReadLines(s, lines).value.root == Put(s.root, prefix, fields)
  }

  lemma FillsNothing(s: Reading, prefix: seq<string>)
    requires Get(s.root, prefix).Some?
    ensures Fills(s, [], prefix, Get(s.root, prefix).value)
  {
    PutSame(s.root, prefix);
  }

  lemma FillsMore(s: Reading, a: seq<Line>, b: seq<Line>, prefix: seq<string>, f: map<string, Doc>, g: map<string, Doc>)
    requires Fills(s, a, prefix, f) && Fills(ReadLines(s, a).value, b, prefix, g)
    ensures Fills(s, a + b, prefix, g)
  {
    ReadConcat(s, a, b);
    PutPut(s.root, prefix, f, g);
  }

  lemma FilledGet(s: Reading, lines: seq<Line>, prefix: seq<string>, f: map<string, Doc>)
    requires Fills(s, lines, prefix, f)
    ensures Get(ReadLines(s, lines).value.root, prefix) == Some(f)
  {
    GetPut(s.root, prefix, f);
  }

  lemma OneLine(s: Reading, line: Line)
    ensures ReadLines(s, [line]) == ReadLine(s, line)
  {
    assert [line][1..] == [];
  }

  lemma TwoLines(s: Reading, line: Line)
    ensures ReadLines(s, [Blank, line]) == ReadLine(s, line)
  {
    assert [Blank, line] == [Blank] + [line];
    ReadConcat(s, [Blank], [line]);
    OneLine(s, Blank);
    OneLine(s, line);
  }

  // ----- scalars -----

  lemma ScalarFills(root: Doc, prefix: seq<string>, key: string, value: Value)
    requires Get(root, prefix).Some? && key !in Get(root, prefix).value
    ensures var s, lines := Reading(root, prefix), [KeyValue(key, value)];
            Fills(s, lines, prefix, Get(root, prefix).value[key := Leaf(value)]) && ReadLines(s, lines).value.at == prefix
  {
    OneLine(Reading(root, prefix), KeyValue(key, value));
  }

  lemma {:induction false} ScalarsFill(entries: seq<Entry>, root: Doc, prefix: seq<string>)
    requires Get(root, prefix).Some? && Distinct(entries)
    requires Get(root, prefix).value.Keys !! Part(entries, Scalars).Keys
    ensures var s, lines := Reading(root, prefix), EmitScalars(entries);
            && Fills(s, lines, prefix, Get(root, prefix).value + Part(entries, Scalars))
            && ReadLines(s, lines).value.at == prefix
    decreases entries
  {
    var s, m := Reading(root, prefix), Get(root, prefix).value;
    if |entries| == 0 {
      FillsNothing(s, prefix);
      assert m + map[] == m;
    } else if IsScalar(entries[0].value) {
      var key, value, rest := entries[0].key, entries[0].value, entries[1..];
      ScalarFills(root, prefix, key, value);
      var first := [KeyValue(key, value)];
      var t := ReadLines(s, first).value;
      FilledGet(s, first, prefix, m[key := Leaf(value)]);
      PartKeys(rest, Scalars);
      ScalarsFill(rest, t.root, prefix);
      assert m[key := Leaf(value)] + Part(rest, Scalars) == m + Part(entries, Scalars);
      FillsMore(s, first, EmitScalars(rest), prefix, m[key := Leaf(value)], m + Part(entries, Scalars));
      ReadConcat(s, first, EmitScalars(rest));
    } else {
      ScalarsFill(entries[1..], root, prefix);
      assert [] + EmitScalars(entries[1..]) == EmitScalars(entries[1..]);
    }
  }

  // ----- sub-tables -----

  /** Past a header the new table is there, and filling it fills the key of its parent. */
  lemma HeaderOpens(s: Reading, prefix: seq<string>, key: string)
    requires Get(s.root, prefix).Some? && key !in Get(s.root, prefix).value
    ensures var lines, m := [Blank, Header(prefix + [key])], Get(s.root, prefix).value;
            && Fills(s, lines, prefix, m[key := Dict(map[])])
            && ReadLines(s, lines).value.at == prefix + [key]
            && Get(ReadLines(s, lines).value.root, prefix + [key]) == Some(map[])
  {
    var lines, m, path := [Blank, Header(prefix + [key])], Get(s.root, prefix).value, prefix + [key];
    TwoLines(s, Header(path));
    assert path[..|path| - 1] == prefix && path[|path| - 1] == key;
    FilledGet(s, lines, prefix, m[key := Dict(map[])]);
    GetChild(ReadLines(s, lines).value.root, prefix, key);
  }

  /** Filling the table of a key fills the key. */
  lemma ChildFills(s: Reading, lines: seq<Line>, prefix: seq<string>, key: string, f: map<string, Doc>)
    requires Get(s.root, prefix).Some? && key in Get(s.root, prefix).value && TableOf(Get(s.root, prefix).value[key]).Some?
    requires Fills(s, lines, prefix + [key], f)
    ensures var m := Get(s.root, prefix).value;
            Fills(s, lines, prefix, m[key := Replace(m[key], f)])
  {
    PutChild(s.root, prefix, key, f);
  }

  lemma {:induction false} TablesFill(entries: seq<Entry>, s: Reading, prefix: seq<string>)
    requires Get(s.root, prefix).Some? && Distinct(entries) && AllProper(entries)
    requires Get(s.root, prefix).value.Keys !! Part(entries, SubTables).Keys
    ensures Fills(s, EmitTables(entries, prefix), prefix, Get(s.root, prefix).value + Part(entries, SubTables))
    decreases entries, 0
  {
    var m := Get(s.root, prefix).value;
    if |entries| == 0 {
      FillsNothing(s, prefix);
      assert m + map[] == m;
    } else {
      var e, rest := entries[0], entries[1..];
      if e.value.Table? {
        SubFills(e, s, prefix);
        var t := ReadLines(s, EmitSub(e, prefix)).value;
        var m' := m[e.key := Denote(e.value)];
        FilledGet(s, EmitSub(e, prefix), prefix, m');
        PartKeys(rest, SubTables);
        TablesFill(rest, t, prefix);
        assert m' + Part(rest, SubTables) == m + Part(entries, SubTables);
        FillsMore(s, EmitSub(e, prefix), EmitTables(rest, prefix), prefix, m', m + Part(entries, SubTables));
      } else {
        TablesFill(rest, s, prefix);
        assert [] + EmitTables(rest, prefix) == EmitTables(rest, prefix);
      }
    }
  }

  lemma {:induction false} SubFills(e: Entry, s: Reading, prefix: seq<string>)
    requires e.value.Table? && Proper(e.value)
    requires Get(s.root, prefix).Some? && e.key !in Get(s.root, prefix).value
    ensures Fills(s, EmitSub(e, prefix), prefix, Get(s.root, prefix).value[e.key := Denote(e.value)])
    decreases e, 2
  {
    var m, path, header := Get(s.root, prefix).value, prefix + [e.key], [Blank, Header(prefix + [e.key])];
    HeaderOpens(s, prefix, e.key);
    var t, started := ReadLines(s, header).value, m[e.key := Dict(map[])];
    FilledGet(s, header, prefix, started);
    EmitFills(e.value, t.root, path);
    ChildFills(t, Emit(e.value, path), prefix, e.key, DenoteAll(e.value.entries));
    assert started[e.key := Denote(e.value)] == m[e.key := Denote(e.value)];
    FillsMore(s, header, Emit(e.value, path), prefix, started, m[e.key := Denote(e.value)]);
  }

  // ----- arrays of tables -----

  /** What an array of tables holds once `done` elements are in. */
  function WithItems(m: map<string, Doc>, key: string, done: seq<Doc>): map<string, Doc> {
    if |done| == 0 then m else m[key := Docs(done)]
  }

  lemma ArrayHeaderOpens(s: Reading, prefix: seq<string>, key: string, m: map<string, Doc>, done: seq<Doc>)
    requires key !in m && Get(s.root, prefix) == Some(WithItems(m, key, done))
    ensures var lines, started := [Blank, ArrayHeader(prefix + [key])], m[key := Docs(done + [Dict(map[])])];
            && Fills(s, lines, prefix, started)
            && ReadLines(s, lines).value.at == prefix + [key]
            && Get(ReadLines(s, lines).value.root, prefix) == Some(started)
            && Get(ReadLines(s, lines).value.root, prefix + [key]) == Some(map[])
  {
    var lines, started, path := [Blank, ArrayHeader(prefix + [key])], m[key := Docs(done + [Dict(map[])])], prefix + [key];
    TwoLines(s, ArrayHeader(path));
    assert path[..|path| - 1] == prefix && path[|path| - 1] == key;
    assert Apply(WithItems(m, key, done), NewItem(key)) == Some(started) by {
      if |done| == 0 {
        assert done + [Dict(map[])] == [Dict(map[])];
      } else {
        assert WithItems(m, key, done)[key := Docs(done + [Dict(map[])])] == started;
      }
    }
    FilledGet(s, lines, prefix, started);
    GetChild(ReadLines(s, lines).value.root, prefix, key);
  }

  lemma {:induction false} ItemFills(
    item: Value, s: Reading, prefix: seq<string>, key: string, m: map<string, Doc>, done: seq<Doc>)
    requires item.Table? && Proper(item)
    requires key !in m && Get(s.root, prefix) == Some(WithItems(m, key, done))
    ensures Fills(s, [Blank, ArrayHeader(prefix + [key])] + Emit(item, prefix + [key]), prefix,
                  m[key := Docs(done + [Denote(item)])])
    decreases item, 2
  {
    var path, header := prefix + [key], [Blank, ArrayHeader(prefix + [key])];
    ArrayHeaderOpens(s, prefix, key, m, done);
    var t, started := ReadLines(s, header).value, m[key := Docs(done + [Dict(map[])])];
    EmitFills(item, t.root, path);
    ChildFills(t, Emit(item, path), prefix, key, DenoteAll(item.entries));
    ReplaceLast(done, DenoteAll(item.entries));
    assert started[key := Docs(done + [Denote(item)])] == m[key := Docs(done + [Denote(item)])];
    FillsMore(s, header, Emit(item, path), prefix, started, m[key := Docs(done + [Denote(item)])]);
  }

  lemma ReplaceLast(done: seq<Doc>, f: map<string, Doc>)
    ensures TableOf(Docs(done + [Dict(map[])])).Some?
    ensures Replace(Docs(done + [Dict(map[])]), f) == Docs(done + [Dict(f)])
  {
    var items := done + [Dict(map[])];
    assert items[..|items| - 1] == done;
  }

  lemma {:induction false} ItemsFill(
    items: seq<Value>, s: Reading, prefix: seq<string>, key: string, m: map<string, Doc>, done: seq<Doc>)
    requires (forall item :: item in items ==> item.Table?) && ItemsProper(items)
    requires key !in m && Get(s.root, prefix) == Some(WithItems(m, key, done))
    ensures Fills(s, EmitItems(items, prefix + [key]), prefix, WithItems(m, key, done + DenoteItems(items)))
    decreases items, 0
  {
    if |items| == 0 {
      FillsNothing(s, prefix);
      assert done + [] == done;
    } else {
      var item, rest, path := items[0], items[1..], prefix + [key];
      var first, done' := [Blank, ArrayHeader(path)] + Emit(item, path), done + [Denote(item)];
      ItemFills(item, s, prefix, key, m, done);
      FilledGet(s, first, prefix, WithItems(m, key, done'));
      ItemsFill(rest, ReadLines(s, first).value, prefix, key, m, done');
      Regroup(done, [Denote(item)], DenoteItems(rest));
      FillsMore(s, first, EmitItems(rest, path), prefix, WithItems(m, key, done'),
                WithItems(m, key, done' + DenoteItems(rest)));
    }
  }

  lemma {:induction false} ArraysFill(entries: seq<Entry>, s: Reading, prefix: seq<string>)
    requires Get(s.root, prefix).Some? && Distinct(entries) && AllProper(entries)
    requires Get(s.root, prefix).value.Keys !! Part(entries, TableArrays).Keys
    ensures Fills(s, EmitArrays(entries, prefix), prefix, Get(s.root, prefix).value + Part(entries, TableArrays))
    decreases entries, 0
  {
    var m := Get(s.root, prefix).value;
    if |entries| == 0 {
      FillsNothing(s, prefix);
      assert m + map[] == m;
    } else {
      var e, rest := entries[0], entries[1..];
      if IsTableArray(e.value) {
        var lines, m' := EmitItems(e.value.items, prefix + [e.key]), m[e.key := Denote(e.value)];
        ItemsFill(e.value.items, s, prefix, e.key, m, []);
        assert [] + DenoteItems(e.value.items) == DenoteItems(e.value.items);
        FilledGet(s, lines, prefix, m');
        PartKeys(rest, TableArrays);
        ArraysFill(rest, ReadLines(s, lines).value, prefix);
        assert m' + Part(rest, TableArrays) == m + Part(entries, TableArrays);
        FillsMore(s, lines, EmitArrays(rest, prefix), prefix, m', m + Part(entries, TableArrays));
      } else {
        ArraysFill(rest, s, prefix);
        assert [] + EmitArrays(rest, prefix) == EmitArrays(rest, prefix);
      }
    }
  }

  /** The lines of a table, read into an empty table, fill it with what the table means; sub-tables inside
      array elements land in the right element. */
  lemma {:induction false} EmitFills(t: Value, root: Doc, prefix: seq<string>)
    requires t.Table? && Proper(t) && Get(root, prefix) == Some(map[])
    ensures Fills(Reading(root, prefix), Emit(t, prefix), prefix, DenoteAll(t.entries))
    decreases t, 1
  {
    var s, es := Reading(root, prefix), t.entries;
    var scalars, tables, arrays := EmitScalars(es), EmitTables(es, prefix), EmitArrays(es, prefix);
    var f, g := Part(es, Scalars), Part(es, Scalars) + Part(es, SubTables);
    PartsDisjoint(es, Scalars, SubTables);
    PartsDisjoint(es, Scalars, TableArrays);
    PartsDisjoint(es, SubTables, TableArrays);
    ScalarsFill(es, root, prefix);
    assert map[] + f == f;
    FilledGet(s, scalars, prefix, f);
    TablesFill(es, ReadLines(s, scalars).value, prefix);
    FillsMore(s, scalars, tables, prefix, f, g);
    FilledGet(s, scalars + tables, prefix, g);
    ArraysFill(es, ReadLines(s, scalars + tables).value, prefix);
    PartsTogether(es);
    FillsMore(s, scalars + tables, arrays, prefix, g, DenoteAll(es));
  }

  // ----- which documents survive -----

  /** No key or string that is written holds a character beyond U+FFFF. */
  predicate BmpTable(t: Value)
    requires t.Table?
    decreases t, 1
  {
    BmpEntries(t.entries)
  }

  predicate BmpEntries(entries: seq<Entry>)
    decreases entries, 0
  {
    |entries| == 0 || (BmpEntry(entries[0]) && BmpEntries(entries[1..]))
  }

  predicate BmpEntry(e: Entry)
    decreases e, 2
  {
    e.value.Null?
    || (Bmp(e.key)
        && if e.value.Table? then BmpTable(e.value)
           else if IsTableArray(e.value) then BmpTables(e.value.items)
           else BmpValue(e.value))
  }

  predicate BmpTables(items: seq<Value>)
    requires forall item :: item in items ==> item.Table?
    decreases items, 0
  {
    |items| == 0 || (BmpTable(items[0]) && BmpTables(items[1..]))
  }

  lemma {:induction false} LinesTogether(a: seq<Line>, b: seq<Line>)
    ensures AllBmp(a + b) <==> AllBmp(a) && AllBmp(b)
    ensures AllEmittable(a + b) <==> AllEmittable(a) && AllEmittable(b)
  {
    if |a| == 0 {
      assert a + b == b;
    } else {
      assert (a + b)[1..] == a[1..] + b;
      LinesTogether(a[1..], b);
    }
  }

  /** What the lines written under a header are like: they can be read one by one unless, the header
      itself being fine, some string is not. */
  ghost predicate Fair(lines: seq<Line>, header: bool, bmp: bool) {
    AllEmittable(lines) && (header ==> (AllBmp(lines) <==> bmp))
  }

  lemma FairTogether(a: seq<Line>, b: seq<Line>, header: bool, p: bool, q: bool)
    requires Fair(a, header, p) && Fair(b, header, q)
    ensures Fair(a + b, header, p && q)
  {
    LinesTogether(a, b);
  }

  lemma FairHeader(path: seq<string>)
    requires |path| > 0
    ensures Fair([Blank, Header(path)], true, BmpPath(path)) && Fair([Blank, ArrayHeader(path)], true, BmpPath(path))
  {
    AfterBlank(Header(path));
    AfterBlank(ArrayHeader(path));
  }

  lemma AfterBlank(line: Line)
    ensures AllEmittable([Blank, line]) <==> Emittable(line)
    ensures AllBmp([Blank, line]) <==> BmpLine(line)
  {
    var both, one := [Blank, line], [line];
    assert both[1..] == one && one[1..] == [];
    assert AllEmittable(one) <==> Emittable(line);
    assert AllBmp(one) <==> BmpLine(line);
  }

  lemma FairKeyValue(key: string, value: Value)
    requires Plain(value) && Spelt(value)
    ensures Fair([KeyValue(key, value)], true, Bmp(key) && BmpValue(value))
  {
    assert [KeyValue(key, value)][1..] == [];
  }

  /** Whether one group of the entries is free of characters beyond U+FFFF. */
  predicate BmpGroup(entries: seq<Entry>, group: Group) {
    |entries| == 0 || ((In(entries[0].value, group) ==> BmpEntry(entries[0])) && BmpGroup(entries[1..], group))
  }

  lemma {:induction false} GroupsTogether(entries: seq<Entry>)
    ensures BmpEntries(entries)
       <==> BmpGroup(entries, Scalars) && BmpGroup(entries, SubTables) && BmpGroup(entries, TableArrays)
  {
    if |entries| > 0 { GroupsTogether(entries[1..]); }
  }

  lemma {:induction false} ScalarsFair(entries: seq<Entry>)
    requires AllWritable(entries) && EntriesSpelt(entries)
    ensures Fair(EmitScalars(entries), true, BmpGroup(entries, Scalars))
  {
    if |entries| == 0 {
    } else {
      var e := entries[0];
      ScalarsFair(entries[1..]);
      if IsScalar(e.value) {
        FairKeyValue(e.key, e.value);
        FairTogether([KeyValue(e.key, e.value)], EmitScalars(entries[1..]), true, BmpEntry(e),
                     BmpGroup(entries[1..], Scalars));
      } else {
        assert [] + EmitScalars(entries[1..]) == EmitScalars(entries[1..]);
      }
    }
  }

  lemma {:induction false} EmitFair(t: Value, prefix: seq<string>)
    requires t.Table? && Writable(t) && Spelt(t)
    ensures Fair(Emit(t, prefix), BmpPath(prefix), BmpTable(t))
    decreases t, 1
  {
    var es, header := t.entries, BmpPath(prefix);
    ScalarsFair(es);
    TablesFair(es, prefix);
    ArraysFair(es, prefix);
    GroupsTogether(es);
    FairTogether(EmitScalars(es), EmitTables(es, prefix), header, BmpGroup(es, Scalars), BmpGroup(es, SubTables));
    FairTogether(EmitScalars(es) + EmitTables(es, prefix), EmitArrays(es, prefix), header,
                 BmpGroup(es, Scalars) && BmpGroup(es, SubTables), BmpGroup(es, TableArrays));
  }

  lemma BmpLonger(prefix: seq<string>, key: string)
    requires BmpPath(prefix)
    ensures BmpPath(prefix + [key]) <==> Bmp(key)
  {
    assert key in prefix + [key];
  }

  /** A table's lines after its own header. */
  lemma {:induction false} HeadedFair(header: Line, t: Value, path: seq<string>)
    requires t.Table? && Writable(t) && Spelt(t) && |path| > 0
    requires header == Header(path) || header == ArrayHeader(path)
    ensures Fair([Blank, header] + Emit(t, path), true, BmpPath(path) && BmpTable(t))
    decreases t, 2
  {
    FairHeader(path);
    EmitFair(t, path);
    LinesTogether([Blank, header], Emit(t, path));
  }

  lemma {:induction false} TablesFair(entries: seq<Entry>, prefix: seq<string>)
    requires AllWritable(entries) && EntriesSpelt(entries)
    ensures Fair(EmitTables(entries, prefix), BmpPath(prefix), BmpGroup(entries, SubTables))
    decreases entries, 0
  {
    if |entries| == 0 {
    } else {
      var e, rest, header := entries[0], entries[1..], BmpPath(prefix);
      TablesFair(rest, prefix);
      if e.value.Table? {
        HeadedFair(Header(prefix + [e.key]), e.value, prefix + [e.key]);
        if header { BmpLonger(prefix, e.key); }
        FairTogether(EmitSub(e, prefix), EmitTables(rest, prefix), header, BmpEntry(e), BmpGroup(rest, SubTables));
      } else {
        assert [] + EmitTables(rest, prefix) == EmitTables(rest, prefix);
      }
    }
  }

  lemma {:induction false} ArraysFair(entries: seq<Entry>, prefix: seq<string>)
    requires AllWritable(entries) && EntriesSpelt(entries)
    ensures Fair(EmitArrays(entries, prefix), BmpPath(prefix), BmpGroup(entries, TableArrays))
    decreases entries, 0
  {
    if |entries| == 0 {
    } else {
      var e, rest, header := entries[0], entries[1..], BmpPath(prefix);
      ArraysFair(rest, prefix);
      if IsTableArray(e.value) {
        ItemsFair(e.value.items, prefix + [e.key]);
        if header { BmpLonger(prefix, e.key); }
        FairTogether(EmitItems(e.value.items, prefix + [e.key]), EmitArrays(rest, prefix), header, BmpEntry(e),
                     BmpGroup(rest, TableArrays));
      } else {
        assert [] + EmitArrays(rest, prefix) == EmitArrays(rest, prefix);
      }
    }
  }

  lemma {:induction false} ItemsFair(items: seq<Value>, path: seq<string>)
    requires (forall item :: item in items ==> item.Table?) && ItemsWritable(items) && AllSpelt(items) && |path| > 0
    ensures Fair(EmitItems(items, path), true, |items| == 0 || (BmpPath(path) && BmpTables(items)))
    decreases items, 0
  {
    if |items| == 0 {
    } else {
      HeadedFair(ArrayHeader(path), items[0], path);
      ItemsFair(items[1..], path);
      FairTogether([Blank, ArrayHeader(path)] + Emit(items[0], path), EmitItems(items[1..], path), true,
                   BmpPath(path) && BmpTable(items[0]), |items| == 1 || (BmpPath(path) && BmpTables(items[1..])));
    }
  }

  // ----- the round trip -----

  lemma BlankLast(s: Reading, lines: seq<Line>)
    ensures ReadLines(s, lines + [Blank]) == ReadLines(s, lines)
  {
    ReadConcat(s, lines, [Blank]);
    match ReadLines(s, lines)
    case None =>
    case Some(t) => OneLine(t, Blank);
  }

  const EMPTY: Reading := Reading(Dict(map[]), [])

  lemma LinesRebuild(t: Value)
    requires t.Table? && Proper(t)
    ensures ReadLines(EMPTY, Emit(t, []) + [Blank]).Some?
    ensures ReadLines(EMPTY, Emit(t, []) + [Blank]).value.root == Denote(t)
  {
    EmitFills(t, EMPTY.root, []);
    BlankLast(EMPTY, Emit(t, []));
  }

  /** Reading what was written rebuilds the mapping, exactly when no key or string in it holds a character
      beyond U+FFFF. Otherwise the text has a surrogate pair in it and is not TOML: JSON's escapes are not
      all TOML escapes. */
  lemma DumpsRoundTrips(t: Value)
    requires t.Table? && Proper(t) && Spelt(t)
    ensures Dumps(t).None? <==> Offends(Spot(t, false))
    ensures Dumps(t).Some? ==> Loads(Dumps(t).value) == if BmpTable(t) then Some(Denote(t)) else None
  {
    WritableIff(t);
    if Dumps(t).Some? {
      DumpedReads(t);
    }
  }

  lemma DumpedReads(t: Value)
    requires t.Table? && Proper(t) && Spelt(t) && Writable(t)
    ensures Loads(Dumps(t).value) == if BmpTable(t) then Some(Denote(t)) else None
  {
    var lines := Emit(t, []);
    EmitFair(t, []);
    TextSplits(lines);
    LinesRead(lines);
    LinesRebuild(t);
  }

  /** A plain string on which the round trip fails. */
  lemma EmojiIsLost()
    ensures var t := Table([Entry("name", Str([0x1F916 as char]))]);
            Dumps(t).Some? && Loads(Dumps(t).value) == None
  {
    var name, robot := "name", [0x1F916 as char];
    var t := Table([Entry(name, Str(robot))]);
    OneString(name, robot);
    assert robot[0] in robot;
    DumpsRoundTrips(t);
  }

  lemma OneString(key: string, text: string)
    ensures var t := Table([Entry(key, Str(text))]);
            Proper(t) && Spelt(t) && Writable(t) && (BmpTable(t) <==> Bmp(key) && Bmp(text))
  {
    var e := Entry(key, Str(text));
    var entries := [e];
    assert entries[1..] == [];
    assert BmpEntry(e) <==> Bmp(key) && Bmp(text);
    assert EntryWritable(e) && Proper(e.value) && Spelt(e.value);
    assert BmpEntries(entries) <==> BmpEntry(entries[0]) && BmpEntries(entries[1..]);
  }
}
