/** scripts/startup_check.py: the flat one-pass YAML reader, and its agreement with the indentation-driven one. */
module StartupYaml {
  import opened Text
  import opened G = GovernanceYaml

  // ---- One line at a time ----

  function LStripQuotes(s: string): string { if s != "" && s[0] == '"' then LStripQuotes(s[1..]) else s }

  function RStripQuotes(s: string): string {
    if s != "" && s[|s| - 1] == '"' then RStripQuotes(s[..|s| - 1]) else s
  }

  /** `value.strip('"')` takes every quote off both ends. */
  function StripQuotes(s: string): string { RStripQuotes(LStripQuotes(s)) }

  predicate EndsWith(s: string, suffix: string) { |suffix| <= |s| && s[|s| - |suffix|..] == suffix }

  predicate ListKey(key: string) {
    EndsWith(key, "_commands") || EndsWith(key, "_files") || EndsWith(key, "_required")
  }

  /** A section is a list if the name says so by its last word. */
  lemma {:induction false} ListKeyExactly(key: string)
    ensures ListKey(key) <==> exists front :: key in {front + "_commands", front + "_files", front + "_required"}
  {
    if EndsWith(key, "_commands") { assert key == key[..|key| - 9] + "_commands"; }
    if EndsWith(key, "_files") { assert key == key[..|key| - 6] + "_files"; }
    if EndsWith(key, "_required") { assert key == key[..|key| - 9] + "_required"; }
  }

  /** The loop's variables; None and the empty key are both false, and both are "" here. */
  datatype State = State(data: seq<Field>, listKey: string, mapKey: string, table: seq<Field>)

  const START := State([], "", "", [])

  predicate HasList(m: seq<Field>, key: string) {
    m != [] && if m[0].key == key then m[0].value.List? else HasList(m[1..], key)
  }

  /** `data[key].append(item)` never meets a missing key or a value that is not a list. */
  predicate Sound(st: State) { st.listKey != "" ==> HasList(st.data, st.listKey) }

  function Extend(m: seq<Field>, key: string, item: Value): (r: seq<Field>)
    requires HasList(m, key)
    ensures HasList(r, key)
  {
    if m[0].key == key then [Field(key, List(m[0].value.items + [item]))] + m[1..]
    else [m[0]] + Extend(m[1..], key, item)
  }

  lemma {:induction false} PutList(m: seq<Field>, key: string, items: seq<Value>)
    ensures HasList(Put(m, key, List(items)), key)
    decreases |m|
  {
    if m != [] { PutList(m[1..], key, items); }
  }

  lemma {:induction false} ColonFound(s: string)
    ensures Colon(s) < |s| <==> ':' in s
  {
  }

  lemma {:induction false} StripKeeps(s: string, c: char)
    requires c in s && !IsSpace(c)
    ensures c in Strip(s)
  {
    LStripKeeps(s, c);
    RStripKeeps(LStrip(s), c);
  }

  lemma {:induction false} LStripKeeps(s: string, c: char)
    requires c in s && !IsSpace(c)
    ensures c in LStrip(s)
    decreases |s|
  {
    if IsSpace(s[0]) {
      assert c in s[1..];
      LStripKeeps(s[1..], c);
    }
  }

  lemma {:induction false} RStripKeeps(s: string, c: char)
    requires c in s && !IsSpace(c)
    ensures c in RStrip(s)
    decreases |s|
  {
    if IsSpace(s[|s| - 1]) {
      assert c in s[..|s| - 1];
      RStripKeeps(s[..|s| - 1], c);
    }
  }

  function AddEntry(st: State, line: string): (r: State)
    requires Colon(line) < |line|
  {
    var table := Put(st.table, KeyOf(line), Value.Text(StripQuotes(Strip(line[Colon(line) + 1..]))));
    st.(data := Put(st.data, st.mapKey, Map(table)), table := table)
  }

  function StartSection(data: seq<Field>, line: string): (r: State)
    requires Colon(line) < |line|
    ensures Sound(r)
  {
    var key, value := KeyOf(line), Strip(line[Colon(line) + 1..]);
    if value != "" then State(Put(data, key, Value.Text(StripQuotes(value))), "", "", [])
    else if ListKey(key) then PutList(data, key, []); State(Put(data, key, List([])), key, "", [])
    else State(Put(data, key, Map([])), "", key, [])
  }

  predicate Ignored(line: string) { line == "" || StartsWith(LStrip(line), "#") }

  function StepLine(st: State, line: string): (r: State)
    requires Sound(st) && (st.listKey == "" || st.mapKey == "")
    ensures Sound(r) && (r.listKey == "" || r.mapKey == "")
  {
    if StartsWith(line, "  - ") && st.listKey != "" then
      st.(data := Extend(st.data, st.listKey, Value.Text(Strip(line[4..]))))
    else if StartsWith(line, "  ") && st.mapKey != "" && ':' in line then
      StripKeeps(line, ':');
      ColonFound(Strip(line));
      AddEntry(st, Strip(line))
    else
      ColonFound(line);
      if ':' !in line then State(st.data, "", "", []) else StartSection(st.data, line)
  }

  predicate Steady(st: State) { Sound(st) && (st.listKey == "" || st.mapKey == "") }

  function Step(st: State, raw: string): (r: State)
    requires Steady(st)
    ensures Steady(r)
  {
    var line := RStrip(raw);
    if Ignored(line) then st else StepLine(st, line)
  }

  function Scan(st: State, raws: seq<string>): (r: State)
    requires Steady(st)
    ensures Steady(r)
    decreases |raws|
  {
    if raws == [] then st else Scan(Step(st, raws[0]), raws[1..])
  }

  function Parse(raws: seq<string>): seq<Field> { Scan(START, raws).data }

  /** The script's loop: it terminates on any lines, and its appends always meet a list. */
  method ParseSimpleYaml(lines: seq<string>) returns (data: seq<Field>)
    ensures data == Parse(lines)
  {
    hide Strip, StripQuotes, ListKey, Ignored, Put, HasList;
    data := [];
    var currentListKey, currentMapKey := "", "";
    var currentMap: seq<Field> := [];
    for i := 0 to |lines|
      invariant Steady(State(data, currentListKey, currentMapKey, currentMap))
      invariant Scan(State(data, currentListKey, currentMapKey, currentMap), lines[i..]) == Scan(START, lines)
    {
      assert lines[i..][0] == lines[i] && lines[i..][1..] == lines[i + 1..];
      var line := RStrip(lines[i]);
      if Ignored(line) {
        continue;
      }
      if StartsWith(line, "  - ") && currentListKey != "" {
        data := Extend(data, currentListKey, Value.Text(Strip(line[4..])));
        continue;
      }
      if StartsWith(line, "  ") && currentMapKey != "" && ':' in line {
        var entry := Strip(line);
        StripKeeps(line, ':');
        ColonFound(entry);
        var value := StripQuotes(Strip(entry[Colon(entry) + 1..]));
        currentMap := Put(currentMap, KeyOf(entry), Value.Text(value));
        data := Put(data, currentMapKey, Map(currentMap));
        continue;
      }
      currentListKey, currentMapKey, currentMap := "", "", [];
      ColonFound(line);
      if ':' !in line {
        continue;
      }
      var key, value := KeyOf(line), Strip(line[Colon(line) + 1..]);
      if value == "" {
        if ListKey(key) {
          data := Put(data, key, List([]));
          currentListKey := key;
        } else {
          data := Put(data, key, Map([]));
          currentMapKey := key;
        }
      } else {
        data := Put(data, key, Value.Text(StripQuotes(value)));
      }
    }
  }

  // ---- Two-level documents ----

  datatype Plainly = Bare(text: string) | InQuotes(text: string)
  datatype Row = Row(key: string, value: Plainly)
  datatype Body = Single(value: Plainly) | Items(items: seq<string>) | Table(rows: seq<Row>)
  datatype Section = Section(key: string, body: Body)

  function Shown(v: Plainly): string {
    match v case Bare(text) => text case InQuotes(text) => "\"" + text + "\""
  }

  predicate NoQuoteAtEnds(s: string) { s != "" ==> s[0] != '"' && s[|s| - 1] != '"' }

  predicate Writable(v: Plainly) {
    && NoQuoteAtEnds(v.text)
    && (v.Bare? ==> v.text != "" && Strip(v.text) == v.text)
  }

  predicate WritableKey(key: string) { ':' !in key && Strip(key) == key && !StartsWith(key, "#") }

  predicate WritableItem(item: string) { item != "" && Strip(item) == item }

  predicate WritableRows(rows: seq<Row>) {
    && (forall r <- rows :: WritableKey(r.key) && Writable(r.value))
    && (forall i, j :: 0 <= i < j < |rows| ==> rows[i].key != rows[j].key)
  }

  /** A list needs a recognised key; a table must not have one, and needs a key once it has rows. */
  predicate WritableSection(s: Section) {
    && WritableKey(s.key)
    && match s.body
       case Single(v) => Writable(v)
       case Items(items) => ListKey(s.key) && forall item <- items :: WritableItem(item)
       case Table(rows) => !ListKey(s.key) && WritableRows(rows) && (rows != [] ==> s.key != "")
  }

  predicate WritableDoc(doc: seq<Section>) {
    && (forall s <- doc :: WritableSection(s))
    && (forall i, j :: 0 <= i < j < |doc| ==> doc[i].key != doc[j].key)
  }

  function PrintItemLines(items: seq<string>): seq<string> {
    if items == [] then [] else ["  - " + items[0]] + PrintItemLines(items[1..])
  }

  function PrintRows(rows: seq<Row>): seq<string> {
    if rows == [] then [] else ["  " + rows[0].key + ": " + Shown(rows[0].value)] + PrintRows(rows[1..])
  }

  function PrintSection(s: Section): seq<string> {
    match s.body
    case Single(v) => [s.key + ": " + Shown(v)]
    case Items(items) => [s.key + ":"] + PrintItemLines(items)
    case Table(rows) => [s.key + ":"] + PrintRows(rows)
  }

  function PrintDoc(doc: seq<Section>): seq<string> {
    if doc == [] then [] else PrintSection(doc[0]) + PrintDoc(doc[1..])
  }

  function ItemValues(items: seq<string>): seq<Value> {
    if items == [] then [] else [Value.Text(items[0])] + ItemValues(items[1..])
  }

  function RowFields(rows: seq<Row>): seq<Field> {
    if rows == [] then [] else [Field(rows[0].key, Value.Text(rows[0].value.text))] + RowFields(rows[1..])
  }

  function BodyValue(b: Body): Value {
    match b
    case Single(v) => Value.Text(v.text)
    case Items(items) => List(ItemValues(items))
    case Table(rows) => Map(RowFields(rows))
  }

  function DocFields(doc: seq<Section>): seq<Field> {
    if doc == [] then [] else [Field(doc[0].key, BodyValue(doc[0].body))] + DocFields(doc[1..])
  }

  // ---- Lines read back ----

  lemma {:induction false} SolidKeepsQuotes(s: string)
    requires NoQuoteAtEnds(s)
    ensures StripQuotes(s) == s
  {
  }

  lemma {:induction false} ClosingQuoteComesOff(s: string)
    ensures RStripQuotes(s + "\"") == RStripQuotes(s)
  {
    assert (s + "\"")[..|s|] == s;
  }

  lemma {:induction false} OpeningQuoteComesOff(s: string)
    ensures LStripQuotes("\"" + s) == LStripQuotes(s)
  {
    assert ("\"" + s)[1..] == s;
  }

  lemma {:induction false} QuotesComeOff(v: Plainly)
    requires Writable(v)
    ensures StripQuotes(Shown(v)) == v.text
  {
    hide LStripQuotes, RStripQuotes, NoQuoteAtEnds;
    SolidKeepsQuotes(v.text);
    if v.InQuotes? {
      QuotedText(v.text);
    }
  }

  lemma {:induction false} QuotedText(text: string)
    requires NoQuoteAtEnds(text)
    ensures StripQuotes("\"" + text + "\"") == text
  {
    hide RStripQuotes;
    assert "\"" + text + "\"" == "\"" + (text + "\"");
    OpeningQuoteComesOff(text + "\"");
    if text == "" {
      assert text + "\"" == "\"" + text;
      OpeningQuoteComesOff(text);
      SolidKeepsQuotes(text);
    } else {
      ClosingQuoteComesOff(text);
      SolidKeepsQuotes(text);
    }
  }

  lemma {:induction false} ShownIsSolid(v: Plainly)
    requires Writable(v)
    ensures var t := Shown(v); t != "" && !IsSpace(t[0]) && !IsSpace(t[|t| - 1])
  {
    if v.Bare? { SolidOfStrip(v.text); }
  }

  lemma {:induction false} KeyLineIsSolid(key: string, after: string)
    requires WritableKey(key) && after != "" && after[0] == ':' && !IsSpace(after[|after| - 1])
    ensures Solid(key + after)
  {
    if key != "" {
      SolidOfStrip(key);
      assert key[..1] == [key[0]];
    }
  }

  /** `key: value`, with or without two leading spaces, gives back the key and the value. */
  lemma {:induction false} PairReadsBack(key: string, v: Plainly)
    requires WritableKey(key) && Writable(v)
    ensures var line := key + ": " + Shown(v);
      && Solid(line) && Colon(line) == |key| < |line| && KeyOf(line) == key
      && Strip(line[|key| + 1..]) == Shown(v) != ""
  {
    hide Shown, Writable, WritableKey, Strip, KeyOf;
    var t := Shown(v);
    var line := key + ": " + t;
    ShownIsSolid(v);
    assert line == key + ":" + (" " + t) == key + (": " + t);
    KeyLineIsSolid(key, ": " + t);
    KeyReadsBack(key, " " + t);
    SpacedSolid(t);
  }

  lemma {:induction false} KeyReadsBack(key: string, after: string)
    requires WritableKey(key)
    ensures var line := key + ":" + after; Colon(line) == |key| < |line| && KeyOf(line) == key && line[|key| + 1..] == after
  {
    ColonOfKey(key, after);
  }

  lemma {:induction false} SpacedSolid(t: string)
    requires t != "" && !IsSpace(t[0]) && !IsSpace(t[|t| - 1])
    ensures Strip(" " + t) == t
  {
    assert (" " + t)[1..] == t;
    assert LStrip(" " + t) == LStrip(t);
    StripOfSolid(t);
  }

  lemma {:induction false} HeaderReadsBack(key: string)
    requires WritableKey(key)
    ensures var line := key + ":";
      Solid(line) && Colon(line) == |key| < |line| && KeyOf(line) == key && Strip(line[|key| + 1..]) == ""
  {
    assert key + ":" == key + ":" + "";
    KeyLineIsSolid(key, ":");
    ColonOfKey(key, "");
  }

  lemma {:induction false} PrefixHead(s: string, prefix: string)
    requires prefix != ""
    ensures StartsWith(s, prefix) ==> s[0] == prefix[0]
  {
    if StartsWith(s, prefix) {
      assert s[..|prefix|][0] == s[0];
    }
  }

  lemma {:induction false} IndentedPrefix(content: string)
    ensures StartsWith("  " + content, "  - ") <==> StartsWith(content, "- ")
  {
    var line := "  " + content;
    if |content| >= 2 {
      assert line[..4] == "  " + content[..2];
      assert "  - " == "  " + "- ";
      if line[..4] == "  - " {
        assert content[..2] == line[..4][2..];
      }
    }
  }

  /** A line that starts at the margin with a solid text is neither blank, a comment, nor inside a section. */
  lemma {:induction false} MarginLine(line: string)
    requires Solid(line)
    ensures RStrip(line) == line && !Ignored(line) && !StartsWith(line, "  - ") && !StartsWith(line, "  ")
  {
    assert LStrip(line) == line;
    PrefixHead(line, "  - ");
    PrefixHead(line, "  ");
    PrefixHead(line, "#");
  }

  /** A line indented by two spaces keeps its content. */
  lemma {:induction false} InnerLine(content: string)
    requires Solid(content)
    ensures var line := "  " + content;
      && RStrip(line) == line && !Ignored(line) && StartsWith(line, "  ") && Strip(line) == content
      && (StartsWith(line, "  - ") <==> StartsWith(content, "- "))
  {
    var line := "  " + content;
    LStripTwo(content);
    assert line[..2] == "  ";
    PrefixHead(content, "#");
    IndentedPrefix(content);
  }

  lemma {:induction false} LStripTwo(content: string)
    requires Solid(content)
    ensures LStrip("  " + content) == content == RStrip(content) && RStrip("  " + content) == "  " + content
  {
    assert ("  " + content)[1..] == " " + content;
    assert (" " + content)[1..] == content;
    assert LStrip(" " + content) == content;
  }

  // ---- The round trip ----

  predicate Lacks(m: seq<Field>, key: string) { forall f <- m :: f.key != key }

  lemma {:induction false} PutLast(m: seq<Field>, key: string, before: Value, after: Value)
    requires Lacks(m, key)
    ensures Put(m + [Field(key, before)], key, after) == m + [Field(key, after)]
    decreases |m|
  {
    var all := m + [Field(key, before)];
    if m == [] {
      assert all[1..] == [];
    } else {
      assert m[0] in m;
      PutLast(m[1..], key, before, after);
      assert all[1..] == m[1..] + [Field(key, before)];
    }
  }

  lemma {:induction false} ExtendLast(m: seq<Field>, key: string, items: seq<Value>, item: Value)
    requires Lacks(m, key)
    ensures var all := m + [Field(key, List(items))];
      HasList(all, key) && Extend(all, key, item) == m + [Field(key, List(items + [item]))]
    decreases |m|
  {
    var all := m + [Field(key, List(items))];
    if m == [] {
      assert all[1..] == [];
    } else {
      assert m[0] in m;
      ExtendLast(m[1..], key, items, item);
      assert all[1..] == m[1..] + [Field(key, List(items))];
    }
  }

  lemma {:induction false} ScanNext(st: State, line: string, rest: seq<string>)
    requires Steady(st)
    ensures Scan(st, [line] + rest) == Scan(Step(st, line), rest)
  {
    hide Step, Steady;
    assert ([line] + rest)[0] == line && ([line] + rest)[1..] == rest;
  }

  /** The state inside a list section whose items so far are `items`. */
  function InList(m: seq<Field>, key: string, items: seq<Value>): State {
    State(m + [Field(key, List(items))], key, "", [])
  }

  function InTable(m: seq<Field>, key: string, table: seq<Field>): State {
    State(m + [Field(key, Map(table))], "", key, table)
  }

  lemma {:induction false} ItemStep(m: seq<Field>, key: string, items: seq<Value>, item: string)
    requires Lacks(m, key) && key != "" && WritableItem(item)
    ensures Steady(InList(m, key, items))
    ensures Step(InList(m, key, items), "  - " + item) == InList(m, key, items + [Value.Text(item)])
  {
    hide HasList, Extend, Strip, RStrip, Ignored, StartsWith;
    ExtendLast(m, key, items, Value.Text(item));
    ItemLine(item);
  }

  lemma {:induction false} SteadyList(m: seq<Field>, key: string, items: seq<Value>)
    requires Lacks(m, key)
    ensures Steady(InList(m, key, items))
  {
    ExtendLast(m, key, items, Value.Text(""));
  }

  lemma {:induction false} ItemLine(item: string)
    requires WritableItem(item)
    ensures var line := "  - " + item;
      RStrip(line) == line && !Ignored(line) && StartsWith(line, "  - ") && Strip(line[4..]) == item
  {
    var line := "  - " + item;
    SolidOfStrip(item);
    assert line == "  " + ("- " + item);
    ItemHead(item);
    InnerLine("- " + item);
    assert line[4..] == item;
  }

  lemma {:induction false} ItemsScan(m: seq<Field>, key: string, done: seq<Value>, items: seq<string>, rest: seq<string>)
    requires Lacks(m, key) && key != "" && (forall item <- items :: WritableItem(item))
    ensures Steady(InList(m, key, done)) && Steady(InList(m, key, done + ItemValues(items)))
    ensures Scan(InList(m, key, done), PrintItemLines(items) + rest)
         == Scan(InList(m, key, done + ItemValues(items)), rest)
    decreases |items|
  {
    hide Step, Steady, InList, WritableItem, Scan;
    if items == [] {
      assert PrintItemLines(items) + rest == rest && done + ItemValues(items) == done;
      SteadyList(m, key, done);
    } else {
      var item, tail := items[0], items[1..];
      ItemStep(m, key, done, item);
      ItemsScan(m, key, done + [Value.Text(item)], tail, rest);
      Joined(["  - " + item], PrintItemLines(tail), rest);
      ScanNext(InList(m, key, done), "  - " + item, PrintItemLines(tail) + rest);
      Joined(done, [Value.Text(item)], ItemValues(tail));
    }
  }

  lemma {:induction false} RowStep(m: seq<Field>, key: string, table: seq<Field>, row: Row)
    requires Lacks(m, key) && key != "" && WritableKey(row.key) && Writable(row.value) && Lacks(table, row.key)
    ensures Step(InTable(m, key, table), "  " + row.key + ": " + Shown(row.value))
         == InTable(m, key, table + [Field(row.key, Value.Text(row.value.text))])
  {
    hide StripQuotes, Strip, RStrip, Ignored, StartsWith, KeyOf, Solid, Shown, Colon, Writable, WritableKey;
    var content := row.key + ": " + Shown(row.value);
    PairReadsBack(row.key, row.value);
    QuotesComeOff(row.value);
    InnerLine(content);
    assert "  " + row.key + ": " + Shown(row.value) == "  " + content;
    ColonInside(content);
    PutNew(table, row.key, Value.Text(row.value.text));
    PutLast(m, key, Map(table), Map(table + [Field(row.key, Value.Text(row.value.text))]));
  }

  lemma {:induction false} ColonInside(content: string)
    requires Colon(content) < |content|
    ensures ':' in "  " + content
  {
    assert ("  " + content)[Colon(content) + 2] == ':';
  }

  lemma {:induction false} RowsScan(m: seq<Field>, key: string, table: seq<Field>, rows: seq<Row>, rest: seq<string>)
    requires Lacks(m, key) && WritableRows(rows) && (rows != [] ==> key != "")
    requires forall r <- rows :: Lacks(table, r.key)
    ensures Scan(InTable(m, key, table), PrintRows(rows) + rest)
         == Scan(InTable(m, key, table + RowFields(rows)), rest)
    decreases |rows|
  {
    hide Step, Scan, Writable, WritableKey, Shown;
    if rows == [] {
      assert PrintRows(rows) + rest == rest && table + RowFields(rows) == table;
    } else {
      var row, tail := rows[0], rows[1..];
      var field := Field(row.key, Value.Text(row.value.text));
      var line := "  " + row.key + ": " + Shown(row.value);
      assert row in rows;
      RowStep(m, key, table, row);
      RowsStayFresh(table, rows, field);
      RowsScan(m, key, table + [field], tail, rest);
      Joined([line], PrintRows(tail), rest);
      ScanNext(InTable(m, key, table), line, PrintRows(tail) + rest);
      Joined(table, [field], RowFields(tail));
    }
  }

  lemma {:induction false} RowsStayFresh(table: seq<Field>, rows: seq<Row>, field: Field)
    requires rows != [] && WritableRows(rows) && field.key == rows[0].key
    requires forall r <- rows :: Lacks(table, r.key)
    ensures WritableRows(rows[1..])
    ensures forall r <- rows[1..] :: Lacks(table + [field], r.key)
  {
    hide WritableKey, Writable;
    var tail := rows[1..];
    forall r <- tail ensures Lacks(table + [field], r.key) {
      var k :| 0 <= k < |tail| && tail[k] == r;
      assert rows[k + 1] == r;
    }
  }

  /** The state behind a printed section. */
  function Behind(m: seq<Field>, s: Section): State {
    match s.body
    case Single(v) => State(m + [Field(s.key, Value.Text(v.text))], "", "", [])
    case Items(items) => InList(m, s.key, ItemValues(items))
    case Table(rows) => InTable(m, s.key, RowFields(rows))
  }

  lemma {:induction false} HeaderStep(st: State, key: string)
    requires Steady(st) && WritableKey(key) && Lacks(st.data, key)
    ensures Step(st, key + ":") == if ListKey(key) then InList(st.data, key, []) else InTable(st.data, key, [])
  {
    hide Steady, StripQuotes, Strip, RStrip, Ignored, StartsWith, KeyOf, Solid, Colon, WritableKey, ListKey, Lacks, HasList;
    HeaderReadsBack(key);
    MarginLine(key + ":");
    ColonFound(key + ":");
    PutNewIn(st.data, key, List([]));
    PutNewIn(st.data, key, Map([]));
  }

  lemma {:induction false} PutNewIn(m: seq<Field>, key: string, value: Value)
    requires Lacks(m, key)
    ensures Put(m, key, value) == m + [Field(key, value)]
  {
    PutNew(m, key, value);
  }

  lemma {:induction false} SingleStep(st: State, key: string, v: Plainly)
    requires Steady(st) && WritableKey(key) && Writable(v) && Lacks(st.data, key)
    ensures Step(st, key + ": " + Shown(v)) == State(st.data + [Field(key, Value.Text(v.text))], "", "", [])
  {
    hide Steady, StripQuotes, Strip, RStrip, Ignored, StartsWith, KeyOf, Solid, Colon, WritableKey, Shown, Writable, Lacks;
    var line := key + ": " + Shown(v);
    PairReadsBack(key, v);
    QuotesComeOff(v);
    MarginLine(line);
    ColonFound(line);
    PutNewIn(st.data, key, Value.Text(v.text));
  }

  /** Whatever section came before, a printed section is read as its field. */
  lemma {:induction false} SectionScan(st: State, s: Section, rest: seq<string>)
    requires Steady(st) && WritableSection(s) && Lacks(st.data, s.key)
    ensures Steady(Behind(st.data, s))
    ensures Scan(st, PrintSection(s) + rest) == Scan(Behind(st.data, s), rest)
  {
    hide Step, Scan, Steady, WritableKey, Writable, WritableItem, WritableRows, Shown, Lacks;
    var m, key := st.data, s.key;
    match s.body
    case Single(v) =>
      SingleStep(st, key, v);
      ScanNext(st, key + ": " + Shown(v), rest);
    case Items(items) =>
      KeyOfListIsNotEmpty(key);
      HeaderStep(st, key);
      ItemsScan(m, key, [], items, rest);
      SectionHead(st, key + ":", PrintItemLines(items), rest);
      assert [] + ItemValues(items) == ItemValues(items);
    case Table(rows) =>
      HeaderStep(st, key);
      NothingLacks(rows);
      RowsScan(m, key, [], rows, rest);
      SectionHead(st, key + ":", PrintRows(rows), rest);
      assert [] + RowFields(rows) == RowFields(rows);
      assert Steady(InTable(m, key, RowFields(rows))) by { SteadyTable(m, key, RowFields(rows)); }
  }

  lemma {:induction false} SteadyTable(m: seq<Field>, key: string, table: seq<Field>)
    ensures Steady(InTable(m, key, table))
  {
  }

  lemma {:induction false} NothingLacks(rows: seq<Row>)
    ensures forall r <- rows :: Lacks([], r.key)
  {
  }

  lemma {:induction false} KeyOfListIsNotEmpty(key: string)
    ensures ListKey(key) ==> key != ""
  {
  }

  lemma {:induction false} SectionHead(st: State, line: string, lines: seq<string>, rest: seq<string>)
    requires Steady(st)
    ensures Scan(st, [line] + lines + rest) == Scan(Step(st, line), lines + rest)
  {
    Joined([line], lines, rest);
    ScanNext(st, line, lines + rest);
  }

  lemma {:induction false} DocScan(st: State, doc: seq<Section>)
    requires Steady(st) && WritableDoc(doc) && (forall s <- doc :: Lacks(st.data, s.key))
    ensures Scan(st, PrintDoc(doc)).data == st.data + DocFields(doc)
    decreases |doc|
  {
    hide Step, Steady, WritableSection, PrintSection, BodyValue;
    if doc == [] {
      assert st.data + DocFields(doc) == st.data;
    } else {
      var s, tail := doc[0], doc[1..];
      assert s in doc;
      SectionScan(st, s, PrintDoc(tail));
      BehindIsField(st.data, s);
      SectionsStayFresh(st.data, doc, BodyValue(s.body));
      DocScan(Behind(st.data, s), tail);
      Joined(st.data, [Field(s.key, BodyValue(s.body))], DocFields(tail));
    }
  }

  lemma {:induction false} BehindIsField(m: seq<Field>, s: Section)
    ensures Behind(m, s).data == m + [Field(s.key, BodyValue(s.body))]
  {
  }

  lemma {:induction false} SectionsStayFresh(m: seq<Field>, doc: seq<Section>, value: Value)
    requires doc != [] && WritableDoc(doc) && (forall s <- doc :: Lacks(m, s.key))
    ensures WritableDoc(doc[1..])
    ensures forall s <- doc[1..] :: Lacks(m + [Field(doc[0].key, value)], s.key)
  {
    hide WritableSection;
    var tail := doc[1..];
    forall s <- tail ensures Lacks(m + [Field(doc[0].key, value)], s.key) {
      var k :| 0 <= k < |tail| && tail[k] == s;
      assert doc[k + 1] == s;
    }
  }

  /** The flat parser inverts its printer on every two-level document. */
  lemma {:induction false} ParseInvertsPrinting(doc: seq<Section>)
    requires WritableDoc(doc)
    ensures Parse(PrintDoc(doc)) == DocFields(doc)
  {
    hide WritableDoc, Scan;
    DocScan(START, doc);
    assert [] + DocFields(doc) == DocFields(doc);
  }

  // ---- Agreement with the indentation-driven parser ----

  /** The other parser reads the text as it stands, unless it begins as a comment. */
  function ToInline(text: string): Content {
    if StartsWith(text, "#") then Commented(text) else Inline(Verbatim(text))
  }

  function ToScalars(items: seq<string>): seq<Scalar> {
    if items == [] then [] else [Verbatim(items[0])] + ToScalars(items[1..])
  }

  function ToRowEntries(rows: seq<Row>): seq<Entry> {
    if rows == [] then [] else [Entry(rows[0].key, ToInline(Shown(rows[0].value)))] + ToRowEntries(rows[1..])
  }

  function ToContent(b: Body): Content {
    match b
    case Single(v) => ToInline(Shown(v))
    case Items(items) => if items == [] then EmptyMap else Nested(ListBlock(2, ToScalars(items)))
    case Table(rows) => if rows == [] then EmptyMap else Nested(MapBlock(2, ToRowEntries(rows)))
  }

  function ToEntries(doc: seq<Section>): seq<Entry> {
    if doc == [] then [] else [Entry(doc[0].key, ToContent(doc[0].body))] + ToEntries(doc[1..])
  }

  /** The same document for the other parser, indented by two. */
  function ToBlock(doc: seq<Section>): Block { MapBlock(0, ToEntries(doc)) }

  /** No key begins like an item. */
  predicate KeysPlain(doc: seq<Section>) { forall s <- doc :: SectionKeysPlain(s) }

  predicate SectionKeysPlain(s: Section) {
    !StartsWith(s.key, "- ") && (s.body.Table? ==> forall r <- s.body.rows :: !StartsWith(r.key, "- "))
  }

  lemma {:induction false} RawsConcat(a: seq<Line>, b: seq<Line>)
    ensures RawsOf(a + b) == RawsOf(a) + RawsOf(b)
    decreases |a|
  {
    if a == [] {
      assert a + b == b;
    } else {
      assert (a + b)[1..] == a[1..] + b;
      RawsConcat(a[1..], b);
    }
  }

  lemma {:induction false} Indents()
    ensures Spaces(0) == "" && Spaces(2) == "  "
  {
    assert Spaces(2) == " " + Spaces(1) && Spaces(1) == " " + Spaces(0);
  }

  lemma {:induction false} SameItems(items: seq<string>)
    ensures RawsOf(PrintItems(ToScalars(items), 2)) == PrintItemLines(items)
    ensures ToScalars(items) == [] <==> items == []
    decreases |items|
  {
    if items != [] {
      SameItems(items[1..]);
      Indents();
      assert "  " + ("- " + items[0]) == "  - " + items[0];
    }
  }

  lemma {:induction false} InlineEntry(key: string, text: string, indent: nat)
    ensures PrintEntry(Entry(key, ToInline(text)), indent) == [Line(indent, key + ": " + text)]
  {
  }

  lemma {:induction false} SameRows(rows: seq<Row>)
    ensures RawsOf(PrintEntries(ToRowEntries(rows), 2)) == PrintRows(rows)
    ensures ToRowEntries(rows) == [] <==> rows == []
    decreases |rows|
  {
    hide Shown, ToInline;
    if rows != [] {
      var r, tail := rows[0], rows[1..];
      var e := Entry(r.key, ToInline(Shown(r.value)));
      SameRows(tail);
      Indents();
      InlineEntry(r.key, Shown(r.value), 2);
      RawsConcat(PrintEntry(e, 2), PrintEntries(ToRowEntries(tail), 2));
      assert "  " + (r.key + ": " + Shown(r.value)) == "  " + r.key + ": " + Shown(r.value);
      assert RawsOf(PrintEntry(e, 2)) == ["  " + r.key + ": " + Shown(r.value)];
    }
  }

  lemma {:induction false} SameSection(s: Section)
    ensures RawsOf(PrintEntry(Entry(s.key, ToContent(s.body)), 0)) == PrintSection(s)
  {
    hide Shown, ToInline, PrintItems, PrintEntries;
    Indents();
    HeadedLines(s.key, []);
    match s.body
    case Single(v) =>
      InlineEntry(s.key, Shown(v), 0);
      assert "" + (s.key + ": " + Shown(v)) == s.key + ": " + Shown(v);
    case Items(items) =>
      SameItems(items);
      HeadedLines(s.key, PrintItems(ToScalars(items), 2));
    case Table(rows) =>
      SameRows(rows);
      HeadedLines(s.key, PrintEntries(ToRowEntries(rows), 2));
  }

  lemma {:induction false} HeadedLines(key: string, lines: seq<Line>)
    ensures RawsOf([Line(0, key + ":")] + lines) == [key + ":"] + RawsOf(lines)
    ensures RawsOf([Line(0, key + ":")]) == [key + ":"]
  {
    Indents();
    assert ([Line(0, key + ":")] + lines)[1..] == lines;
    assert "" + (key + ":") == key + ":";
  }

  lemma {:induction false} SameDoc(doc: seq<Section>)
    ensures RawsOf(PrintEntries(ToEntries(doc), 0)) == PrintDoc(doc)
    decreases |doc|
  {
    hide PrintSection, ToContent, PrintEntry;
    if doc != [] {
      var e := Entry(doc[0].key, ToContent(doc[0].body));
      SameDoc(doc[1..]);
      SameSection(doc[0]);
      RawsConcat(PrintEntry(e, 0), PrintEntries(ToEntries(doc[1..]), 0));
    }
  }

  lemma {:induction false} EntryKeys(doc: seq<Section>)
    ensures |ToEntries(doc)| == |doc| && forall k :: 0 <= k < |doc| ==> ToEntries(doc)[k].key == doc[k].key
    decreases |doc|
  {
    hide ToContent;
    if doc != [] { EntryKeys(doc[1..]); }
  }

  lemma {:induction false} RowKeys(rows: seq<Row>)
    ensures |ToRowEntries(rows)| == |rows| && forall k :: 0 <= k < |rows| ==> ToRowEntries(rows)[k].key == rows[k].key
    decreases |rows|
  {
    hide ToInline, Shown;
    if rows != [] {
      var tail := rows[1..];
      RowKeys(tail);
      forall k | 0 < k < |rows| ensures ToRowEntries(rows)[k].key == rows[k].key {
        assert ToRowEntries(rows)[k] == ToRowEntries(tail)[k - 1] && tail[k - 1] == rows[k];
      }
    }
  }

  lemma {:induction false} ItemsPrintable(items: seq<string>)
    requires forall item <- items :: WritableItem(item)
    ensures forall s <- ToScalars(items) :: PrintableScalar(s)
    decreases |items|
  {
    hide Strip;
    if items != [] {
      assert items[0] in items && forall item <- items[1..] :: item in items;
      ItemsPrintable(items[1..]);
    }
  }

  lemma {:induction false} InlinePrintable(key: string, v: Plainly, indent: nat)
    requires WritableKey(key) && !StartsWith(key, "- ") && Writable(v)
    ensures PrintableEntries([Entry(key, ToInline(Shown(v)))], indent)
  {
    hide Strip;
    ShownIsSolid(v);
    StripOfSolid(Shown(v));
    var e := Entry(key, ToInline(Shown(v)));
    assert [e][1..] == [] && PrintableEntries([], indent);
  }

  lemma {:induction false} RowsPrintable(rows: seq<Row>)
    requires WritableRows(rows) && forall r <- rows :: !StartsWith(r.key, "- ")
    ensures PrintableEntries(ToRowEntries(rows), 2)
    decreases |rows|
  {
    hide PrintableScalar, PrintableKey, ToInline, Shown, Writable, WritableKey, StartsWith, Printable, EmptyBlock;
    if rows != [] {
      assert rows[0] in rows && forall r <- rows[1..] :: r in rows;
      RowsPrintable(rows[1..]);
      RowKeys(rows);
      InlinePrintable(rows[0].key, rows[0].value, 2);
      EntriesCons(ToRowEntries(rows), 2);
    }
  }

  lemma {:induction false} SectionPrintable(s: Section)
    requires WritableSection(s) && SectionKeysPlain(s)
    ensures PrintableEntries([Entry(s.key, ToContent(s.body))], 0)
  {
    hide PrintableScalar, PrintableKey, ToInline, WritableKey, Writable, WritableItem, WritableRows, StartsWith, Shown;
    var e := Entry(s.key, ToContent(s.body));
    assert [e][1..] == [] && PrintableEntries([], 0);
    KeyOfBoth(s.key);
    match s.body
    case Single(v) => InlinePrintable(s.key, v, 0);
    case Items(items) => ItemsPrintable(items); SameItems(items);
    case Table(rows) => RowsPrintable(rows); SameRows(rows);
  }

  lemma {:induction false} KeyOfBoth(key: string)
    ensures PrintableKey(key) <==> WritableKey(key) && !StartsWith(key, "- ")
  {
  }

  lemma {:induction false} DocPrintable(doc: seq<Section>)
    requires WritableDoc(doc) && KeysPlain(doc)
    ensures PrintableEntries(ToEntries(doc), 0)
    decreases |doc|
  {
    hide PrintableKey, PrintableScalar, SectionKeysPlain, WritableSection, ToContent, Printable, EmptyBlock;
    if doc != [] {
      assert doc[0] in doc;
      SectionPrintable(doc[0]);
      DocPrintable(doc[1..]);
      EntryKeys(doc);
      EntriesCons(ToEntries(doc), 0);
    }
  }

  lemma {:induction false} EntriesCons(entries: seq<Entry>, indent: nat)
    requires entries != [] && PrintableEntries([entries[0]], indent) && PrintableEntries(entries[1..], indent)
    requires forall k :: 0 < k < |entries| ==> entries[k].key != entries[0].key
    ensures PrintableEntries(entries, indent)
  {
    hide PrintableKey, PrintableScalar, Printable, EmptyBlock;
    assert [entries[0]][0] == entries[0];
  }

  // ---- When a value means the same to both ----

  /** The other parser sees no comment in the value, and no flag and no quotes to take off in a bare one. */
  predicate MeansItself(v: Plainly) {
    && CommentFree(Shown(v))
    && (v.Bare? ==> v.text != "true" && v.text != "false" && !InMarks(v.text))
  }

  predicate InMarks(text: string) { |text| >= 2 && text[0] == text[|text| - 1] && IsQuoteMark(text[0]) }

  /** A section both parsers read alike: its keys are plain, its lists are not empty and its values mean themselves. */
  predicate ReadsAlike(s: Section) { SectionKeysPlain(s) && BodyAlike(s.body) }

  predicate BodyAlike(b: Body) {
    match b
    case Single(v) => MeansItself(v)
    case Items(items) => items != [] && forall item <- items :: MeansItself(Plainly.Bare(item))
    case Table(rows) => forall r <- rows :: MeansItself(r.value)
  }

  /** What a text with a comment reads as is shorter. */
  lemma {:induction false} CommentShortens(t: string)
    requires t != "" && !CommentFree(t)
    ensures var u := Strip(StripComment(t)); exists i :: 0 <= i < |t| && t[i] == '#' && |u| <= i
    ensures var u := Strip(StripComment(t)); u != "" && !IsSpace(t[0]) ==> u[0] == t[0]
  {
    var i := FirstComment(t, 0);
    var cut := RStrip(t[..i]);
    assert StripComment(t) == cut && t[i] == '#';
    RStripIsPrefix(t[..i]);
    LStripShape(cut);
    RStripIsPrefix(LStrip(cut));
    if cut != "" && !IsSpace(t[0]) { assert cut[0] == t[0] && LStrip(cut) == cut; }
  }

  lemma {:induction false} BareAlike(text: string)
    requires text != "" && Strip(text) == text
    ensures ParseScalar(text) == Value.Text(text) <==> MeansItself(Plainly.Bare(text))
  {
    hide Strip, FirstComment, CommentAt;
    if CommentFree(text) {
      assert StripComment(text) == text;
    } else {
      CommentShortens(text);
    }
  }

  lemma {:induction false} QuotedAlike(text: string)
    requires NoQuoteAtEnds(text)
    ensures var v := Plainly.InQuotes(text); ParseScalar(Shown(v)) == Value.Text(text) <==> MeansItself(v)
  {
    hide Strip, FirstComment, CommentAt;
    var t := "\"" + text + "\"";
    assert t[|t| - 1] == '"' && t[0] == '"';
    if CommentFree(t) {
      assert StripComment(t) == t;
      StripOfSolid(t);
      assert t[1..|t| - 1] == text && t != "true" && t != "false";
    } else {
      CommentShortens(t);
      QuotedDiffers(text, Strip(StripComment(t)));
    }
  }

  /** A shortened text of a quoted value is not the value, with its own quotes taken off or not. */
  lemma {:induction false} QuotedDiffers(text: string, u: string)
    requires NoQuoteAtEnds(text) && |u| <= |text| && (u != "" ==> u[0] == '"') && text != ""
    ensures u != text && (|u| >= 2 ==> u[1..|u| - 1] != text)
  {
  }

  lemma {:induction false} InlineAlike(v: Plainly)
    requires Writable(v)
    ensures ContentValue(ToInline(Shown(v))) == Value.Text(v.text) <==> MeansItself(v)
  {
    hide Strip, ParseScalar, CommentFree;
    if StartsWith(Shown(v), "#") {
      HashIsComment(Shown(v));
    } else if v.Bare? {
      BareAlike(v.text);
    } else {
      QuotedAlike(v.text);
    }
  }

  lemma {:induction false} HashIsComment(t: string)
    requires StartsWith(t, "#")
    ensures !CommentFree(t)
  {
    assert t[..1] == "#" && CommentAt(t, 0);
  }

  lemma {:induction false} ItemsAlike(items: seq<string>)
    requires forall item <- items :: WritableItem(item)
    ensures ItemsOf(ToScalars(items)) == ItemValues(items) <==> forall item <- items :: MeansItself(Plainly.Bare(item))
    decreases |items|
  {
    hide Strip, ParseScalar, MeansItself;
    if items != [] {
      var tail := items[1..];
      assert items[0] in items && forall item <- tail :: item in items;
      ItemsAlike(tail);
      BareAlike(items[0]);
      assert forall item :: item in items <==> item == items[0] || item in tail;
      ListsEqual(ParseScalar(items[0]), ItemsOf(ToScalars(tail)), Value.Text(items[0]), ItemValues(tail));
    }
  }

  lemma {:induction false} ListsEqual<T>(a: T, x: seq<T>, b: T, y: seq<T>)
    ensures [a] + x == [b] + y <==> a == b && x == y
  {
    if [a] + x == [b] + y {
      assert ([a] + x)[0] == a && ([b] + y)[0] == b;
      assert ([a] + x)[1..] == x && ([b] + y)[1..] == y;
    }
  }

  lemma {:induction false} RowsAlike(rows: seq<Row>)
    requires forall r <- rows :: Writable(r.value)
    ensures FieldsOf(ToRowEntries(rows)) == RowFields(rows) <==> forall r <- rows :: MeansItself(r.value)
    decreases |rows|
  {
    hide Writable, MeansItself, ToInline, Shown;
    if rows != [] {
      var r, tail := rows[0], rows[1..];
      RowsAlike(tail);
      InlineAlike(r.value);
      assert forall x :: x in rows <==> x == r || x in tail;
      var e := Entry(r.key, ToInline(Shown(r.value)));
      assert ToRowEntries(rows) == [e] + ToRowEntries(tail) && ([e] + ToRowEntries(tail))[1..] == ToRowEntries(tail);
      ListsEqual(Field(r.key, ContentValue(e.content)), FieldsOf(ToRowEntries(tail)),
        Field(r.key, Value.Text(r.value.text)), RowFields(tail));
    }
  }

  lemma {:induction false} SectionAlike(s: Section)
    requires WritableSection(s)
    ensures ContentValue(ToContent(s.body)) == BodyValue(s.body) <==> BodyAlike(s.body)
  {
    hide Writable, MeansItself, ToInline, Shown, WritableItem, WritableKey, ItemsOf, FieldsOf;
    match s.body
    case Single(v) => InlineAlike(v);
    case Items(items) => ItemsAlike(items);
    case Table(rows) =>
      RowsAlike(rows);
      NoRows();
  }

  lemma {:induction false} NoRows()
    ensures RowFields([]) == []
  {
  }

  lemma {:induction false} DocAlike(doc: seq<Section>)
    requires forall s <- doc :: WritableSection(s)
    ensures FieldsOf(ToEntries(doc)) == DocFields(doc) <==> forall s <- doc :: BodyAlike(s.body)
    decreases |doc|
  {
    hide WritableSection, BodyAlike, ToContent, BodyValue;
    if doc != [] {
      var s, tail := doc[0], doc[1..];
      assert s in doc && forall x <- tail :: x in doc;
      DocAlike(tail);
      SectionAlike(s);
      assert forall x :: x in doc <==> x == s || x in tail;
      var e := Entry(s.key, ToContent(s.body));
      assert ToEntries(doc) == [e] + ToEntries(tail) && ([e] + ToEntries(tail))[1..] == ToEntries(tail);
      ListsEqual(Field(s.key, ContentValue(e.content)), FieldsOf(ToEntries(tail)),
        Field(s.key, BodyValue(s.body)), DocFields(tail));
    }
  }

  // ---- Keys that begin like an item ----

  lemma {:induction false} FieldAt(doc: seq<Section>, k: nat)
    requires k < |doc|
    ensures |DocFields(doc)| == |doc| && DocFields(doc)[k] == Field(doc[k].key, BodyValue(doc[k].body))
    decreases |doc|
  {
    hide BodyValue;
    if k > 0 { FieldAt(doc[1..], k - 1); }
    if |doc| > 1 { FieldAt(doc[1..], 0); }
  }

  lemma {:induction false} RowFieldAt(rows: seq<Row>, k: nat)
    requires k < |rows|
    ensures |RowFields(rows)| == |rows| && RowFields(rows)[k] == Field(rows[k].key, Value.Text(rows[k].value.text))
    decreases |rows|
  {
    if k > 0 { RowFieldAt(rows[1..], k - 1); }
    if |rows| > 1 { RowFieldAt(rows[1..], 0); }
  }

  lemma {:induction false} DashKeysShow(doc: seq<Section>)
    requires NoDashKeys(Map(DocFields(doc)))
    ensures KeysPlain(doc)
  {
    hide StartsWith;
    forall s <- doc ensures SectionKeysPlain(s) {
      var k :| 0 <= k < |doc| && doc[k] == s;
      FieldAt(doc, k);
      assert !StartsWith(DocFields(doc)[k].key, "- ") && NoDashKeys(DocFields(doc)[k].value);
      if s.body.Table? {
        forall r <- s.body.rows ensures !StartsWith(r.key, "- ") {
          var j :| 0 <= j < |s.body.rows| && s.body.rows[j] == r;
          RowFieldAt(s.body.rows, j);
          assert !StartsWith(RowFields(s.body.rows)[j].key, "- ");
        }
      }
    }
  }

  /** On every document of the flat language, both parsers return the same mapping exactly when each section reads alike. */
  lemma {:induction false} ParsersAgree(doc: seq<Section>)
    requires WritableDoc(doc)
    ensures Parse(PrintDoc(doc)) == DocFields(doc)
    ensures Load(PrintDoc(doc)) == Parse(PrintDoc(doc)) <==> forall s <- doc :: ReadsAlike(s)
  {
    hide Parse, Load, PrintableEntries, WritableSection, SectionKeysPlain, BodyAlike, NoDashKeys;
    ParseInvertsPrinting(doc);
    if KeysPlain(doc) {
      DocPrintable(doc);
      SameDoc(doc);
      LoadInvertsPrinting(ToBlock(doc));
      DocAlike(doc);
    } else {
      LoadHasNoDashKeys(PrintDoc(doc));
      if Load(PrintDoc(doc)) == DocFields(doc) { DashKeysShow(doc); }
    }
  }

  lemma {:induction false} LoadOne(e: Entry)
    requires PrintableEntries([e], 0)
    ensures Load(RawsOf(PrintEntry(e, 0))) == [Field(e.key, ContentValue(e.content))]
  {
    hide Load, PrintEntry, ContentValue;
    var b := MapBlock(0, [e]);
    assert [e][1..] == [];
    assert PrintEntries([], 0) == [] && FieldsOf([]) == [];
    assert PrintLines(b) == PrintEntry(e, 0) + [] == PrintEntry(e, 0);
    LoadInvertsPrinting(b);
  }

  lemma {:induction false} ParseOne(s: Section)
    requires WritableSection(s)
    ensures Parse(PrintSection(s)) == [Field(s.key, BodyValue(s.body))]
  {
    hide Parse, PrintSection, BodyValue, WritableSection;
    assert [s][1..] == [] && PrintDoc([]) == [] && DocFields([]) == [];
    assert PrintDoc([s]) == PrintSection(s) + [] == PrintSection(s);
    ParseInvertsPrinting([s]);
  }

  /** Outside it they part: a list without items is a list to the one and an empty mapping to the other, */
  lemma {:induction false} EmptyListsDiffer(key: string)
    requires PrintableKey(key) && ListKey(key)
    ensures Parse([key + ":"]) == [Field(key, List([]))] && Load([key + ":"]) == [Field(key, Map([]))]
  {
    hide Parse, Load, PrintableKey, ListKey;
    KeyOfBoth(key);
    ParseOne(Section(key, Items([])));
    assert [key + ":"] + [] == [key + ":"];
    OnlyEntry(Entry(key, EmptyMap));
    LoadOne(Entry(key, EmptyMap));
    HeadedLines(key, []);
  }

  lemma {:induction false} OnlyEntry(e: Entry)
    requires PrintableKey(e.key)
    requires e.content.EmptyMap? || (e.content.Inline? && PrintableScalar(e.content.scalar) && Visible(e.content.scalar))
    ensures PrintableEntries([e], 0)
  {
    hide PrintableKey, PrintableScalar;
    assert [e][1..] == [] && PrintableEntries([], 0);
  }

  /** and only one of them knows flags. */
  lemma {:induction false} FlagsDiffer(key: string, on: bool)
    requires PrintableKey(key)
    ensures var line := key + ": " + if on then "true" else "false";
      && Parse([line]) == [Field(key, Value.Text(if on then "true" else "false"))]
      && Load([line]) == [Field(key, Flag(on))]
  {
    hide Parse, Load, PrintableKey, Writable;
    var word := if on then "true" else "false";
    KeyOfBoth(key);
    FlagWord(on);
    ParseOne(Section(key, Body.Single(Plainly.Bare(word))));
    var e := Entry(key, Inline(Bool(on)));
    OnlyEntry(e);
    LoadOne(e);
    Indents();
    assert "" + (key + ": " + word) == key + ": " + word;
    assert RawsOf([]) == [];
    assert RawsOf(PrintEntry(e, 0)) == [key + ": " + word];
  }

  lemma {:induction false} FlagWord(on: bool)
    ensures Writable(Plainly.Bare(if on then "true" else "false"))
  {
    StripOfSolid(if on then "true" else "false");
  }

  // ---- Lines that do not matter ----

  lemma {:induction false} NoiseIsIgnored(raw: string)
    requires IsNoise(raw)
    ensures Ignored(RStrip(raw))
  {
    hide LStrip, RStrip, StartsWith;
    var k :| 0 <= k <= |raw| && Blank(raw[..k]) && (k < |raw| ==> raw[k] == '#');
    if k == |raw| {
      assert raw[..k] == raw == "" + raw;
      RStripSkips("", raw);
      NothingLeft();
    } else {
      HashStays(raw, k);
      var line := RStrip(raw);
      assert line == line[..k] + line[k..] && line[..k] == line[..k + 1][..k] == raw[..k];
      LStripSkips(line[..k], line[k..]);
      assert line[k] == line[..k + 1][k];
      HashLine(line[k..]);
    }
  }

  lemma {:induction false} NothingLeft()
    ensures RStrip("") == ""
  {
  }

  lemma {:induction false} HashLine(line: string)
    requires line != "" && line[0] == '#'
    ensures StartsWith(LStrip(line), "#")
  {
    assert line[..1] == "#";
  }

  lemma {:induction false} HashStays(raw: string, k: nat)
    requires k < |raw| && raw[k] == '#'
    ensures |RStrip(raw)| > k && RStrip(raw)[..k + 1] == raw[..k + 1]
    decreases |raw|
  {
    if IsSpace(raw[|raw| - 1]) {
      HashStays(raw[..|raw| - 1], k);
      assert raw[..|raw| - 1][..k + 1] == raw[..k + 1];
    }
  }

  /** A blank or comment line put in anywhere leaves what the flat parser reads as it was. */
  lemma {:induction false} NoiseKeepsParse(before: seq<string>, raw: string, behind: seq<string>)
    requires IsNoise(raw)
    ensures Parse(before + [raw] + behind) == Parse(before + behind)
  {
    hide IsNoise, Scan;
    NoiseKeepsScan(START, before, raw, behind);
  }

  lemma {:induction false} NoiseKeepsScan(st: State, before: seq<string>, raw: string, behind: seq<string>)
    requires Steady(st) && IsNoise(raw)
    ensures Scan(st, before + [raw] + behind) == Scan(st, before + behind)
    decreases |before|
  {
    hide IsNoise, Steady, Ignored, StepLine;
    NoiseIsIgnored(raw);
    if before == [] {
      assert before + [raw] + behind == [raw] + behind && before + behind == behind;
      assert ([raw] + behind)[1..] == behind;
    } else {
      var with, without := before + [raw] + behind, before + behind;
      assert with[1..] == before[1..] + [raw] + behind && without[1..] == before[1..] + behind;
      NoiseKeepsScan(Step(st, before[0]), before[1..], raw, behind);
    }
  }
}
