/** scripts/validate_governance_sync.py: the indentation-driven YAML subset. */
module GovernanceYaml {
  import opened Text

  // ---- Quotes and comments ----

  /** The scanner's two variables; `quote` is None, or the quote character that is still open. */
  datatype Quote = NoQuote | InQuote(mark: char)
  datatype Mode = Mode(quote: Quote, escaped: bool)

  const OUTSIDE := Mode(NoQuote, false)

  predicate IsQuoteMark(c: char) { c == '"' || c == '\'' }

  function NextMode(m: Mode, c: char): Mode {
    if m.escaped then m.(escaped := false)
    else if c == '\\' && m.quote == InQuote('"') then m.(escaped := true)
    else if IsQuoteMark(c) then
      if m.quote == InQuote(c) then m.(quote := NoQuote)
      else if m.quote == NoQuote then m.(quote := InQuote(c))
      else m
    else m
  }

  /** The mode before the character at `i`. */
  function ModeAt(s: string, i: nat): Mode
    requires i <= |s|
  {
    if i == 0 then OUTSIDE else NextMode(ModeAt(s, i - 1), s[i - 1])
  }

  /** A comment starts at `i`: a `#` outside quotes, first or after whitespace. */
  predicate CommentAt(s: string, i: nat)
    requires i < |s|
  {
    s[i] == '#' && ModeAt(s, i) == OUTSIDE && (i == 0 || IsSpace(s[i - 1]))
  }

  predicate CommentFree(s: string) {
    forall i :: 0 <= i < |s| ==> !CommentAt(s, i)
  }

  function FirstComment(s: string, from: nat): (i: nat)
    requires from <= |s|
    requires forall j :: 0 <= j < from ==> !CommentAt(s, j)
    ensures i <= |s| && (forall j :: 0 <= j < i ==> !CommentAt(s, j)) && (i < |s| ==> CommentAt(s, i))
    decreases |s| - from
  {
    if from == |s| || CommentAt(s, from) then from else FirstComment(s, from + 1)
  }

  function StripComment(s: string): string {
    var i := FirstComment(s, 0);
    if i == |s| then s else RStrip(s[..i])
  }

  /** The scanner cuts at exactly the first comment start; without one it returns the value untouched. */
  method StripYamlInlineComment(value: string) returns (r: string)
    ensures CommentFree(value) ==> r == value
    ensures forall i :: 0 <= i < |value| && CommentAt(value, i) && (forall j :: 0 <= j < i ==> !CommentAt(value, j)) ==>
      r == RStrip(value[..i])
    ensures r == StripComment(value)
  {
    var quote := NoQuote;
    var escaped := false;
    for index := 0 to |value|
      invariant Mode(quote, escaped) == ModeAt(value, index)
      invariant forall j :: 0 <= j < index ==> !CommentAt(value, j)
      invariant escaped ==> quote == InQuote('"')
    {
      var c := value[index];
      if escaped {
        escaped := false;
        continue;
      }
      if c == '\\' && quote == InQuote('"') {
        escaped := true;
        continue;
      }
      if IsQuoteMark(c) {
        if quote == InQuote(c) {
          quote := NoQuote;
        } else if quote == NoQuote {
          quote := InQuote(c);
        }
        continue;
      }
      if c == '#' && quote == NoQuote && (index == 0 || IsSpace(value[index - 1])) {
        assert CommentAt(value, index);
        assert FirstComment(value, 0) == index;
        return RStrip(value[..index]);
      }
    }
    assert FirstComment(value, 0) == |value|;
    r := value;
  }

  lemma {:induction false} ModeOfPrefix(s: string, n: nat, i: nat)
    requires i <= n <= |s|
    ensures ModeAt(s[..n], i) == ModeAt(s, i)
    decreases i
  {
    if i > 0 {
      ModeOfPrefix(s, n, i - 1);
    }
  }

  lemma {:induction false} PrefixIsCommentFree(s: string, n: nat, m: nat)
    requires m <= n <= |s| && forall j :: 0 <= j < n ==> !CommentAt(s, j)
    ensures CommentFree(s[..m])
  {
    forall j | 0 <= j < m ensures !CommentAt(s[..m], j) {
      ModeOfPrefix(s, m, j);
      assert !CommentAt(s, j);
    }
  }

  /** What the scanner returns holds no comment, so scanning again changes nothing. */
  lemma {:induction false} StripCommentIsIdempotent(s: string)
    ensures CommentFree(StripComment(s))
    ensures StripComment(StripComment(s)) == StripComment(s)
  {
    var i := FirstComment(s, 0);
    RStripIsPrefix(s[..i]);
    var n := |RStrip(s[..i])|;
    assert s[..i][..n] == s[..n];
    if i < |s| {
      PrefixIsCommentFree(s, i, n);
    }
    assert CommentFree(StripComment(s));
  }

  // ---- What "outside quotes" means, as a grammar ----

  /** A quoted piece of a double-quoted scalar: a plain character, or a backslash and whatever follows it. */
  datatype Inner = Char(c: char) | Escape(c: char)
  datatype Piece = Bare(c: char) | Single(body: string) | Double(inner: seq<Inner>)

  function InnerText(inner: seq<Inner>): string {
    if inner == [] then ""
    else
      var last := inner[|inner| - 1];
      InnerText(inner[..|inner| - 1]) + (match last case Char(c) => [c] case Escape(c) => ['\\', c])
  }

  function PieceText(p: Piece): string {
    match p
    case Bare(c) => [c]
    case Single(body) => "'" + body + "'"
    case Double(inner) => "\"" + InnerText(inner) + "\""
  }

  predicate GoodInner(inner: seq<Inner>) {
    forall x <- inner :: x.Char? ==> x.c != '"' && x.c != '\\'
  }

  predicate GoodPiece(p: Piece) {
    match p
    case Bare(c) => !IsQuoteMark(c)
    case Single(body) => '\'' !in body
    case Double(inner) => GoodInner(inner)
  }

  function PiecesText(ps: seq<Piece>): string {
    if ps == [] then "" else PiecesText(ps[..|ps| - 1]) + PieceText(ps[|ps| - 1])
  }

  predicate GoodPieces(ps: seq<Piece>) { forall p <- ps :: GoodPiece(p) }

  /** The text is a run of unquoted characters and complete quoted pieces. */
  ghost predicate QuotesClosed(s: string) {
    exists ps: seq<Piece> :: GoodPieces(ps) && PiecesText(ps) == s
  }

  /** The mode after reading `t` in mode `m`. */
  function After(m: Mode, t: string): Mode {
    if t == "" then m else NextMode(After(m, t[..|t| - 1]), t[|t| - 1])
  }

  lemma {:induction false} AfterIsModeAt(s: string, i: nat)
    requires i <= |s|
    ensures After(OUTSIDE, s[..i]) == ModeAt(s, i)
    decreases i
  {
    if i > 0 {
      AfterIsModeAt(s, i - 1);
      assert s[..i][..i - 1] == s[..i - 1];
    }
  }

  lemma {:induction false} AfterConcat(m: Mode, a: string, b: string)
    ensures After(m, a + b) == After(After(m, a), b)
    decreases |b|
  {
    if b == "" {
      assert a + b == a;
    } else {
      AfterConcat(m, a, b[..|b| - 1]);
      assert (a + b)[..|a + b| - 1] == a + b[..|b| - 1];
    }
  }

  lemma {:induction false} AfterSingleBody(body: string)
    requires '\'' !in body
    ensures After(Mode(InQuote('\''), false), body) == Mode(InQuote('\''), false)
    decreases |body|
  {
    if body != "" {
      AfterSingleBody(body[..|body| - 1]);
      assert body[|body| - 1] in body;
    }
  }

  lemma {:induction false} AfterOne(m: Mode, c: char)
    ensures After(m, [c]) == NextMode(m, c)
  {
    assert [c][..0] == "";
  }

  lemma {:induction false} AfterInner(inner: seq<Inner>)
    requires GoodInner(inner)
    ensures After(Mode(InQuote('"'), false), InnerText(inner)) == Mode(InQuote('"'), false)
    decreases |inner|
  {
    if inner != [] {
      var n := |inner| - 1;
      AfterInner(inner[..n]);
      var front := InnerText(inner[..n]);
      assert inner[n] in inner;
      match inner[n]
      case Char(c) => AfterConcat(Mode(InQuote('"'), false), front, [c]); AfterOne(Mode(InQuote('"'), false), c);
      case Escape(c) =>
        AfterConcat(Mode(InQuote('"'), false), front, ['\\', c]);
        assert ['\\', c] == ['\\'] + [c];
        AfterConcat(Mode(InQuote('"'), false), ['\\'], [c]);
        AfterOne(Mode(InQuote('"'), false), '\\');
        AfterOne(Mode(InQuote('"'), true), c);
    }
  }

  lemma {:induction false} AfterPiece(p: Piece)
    requires GoodPiece(p)
    ensures After(OUTSIDE, PieceText(p)) == OUTSIDE
  {
    match p
    case Bare(c) => AfterOne(OUTSIDE, c);
    case Single(body) =>
      AfterConcat(OUTSIDE, "'" + body, "'");
      AfterConcat(OUTSIDE, "'", body);
      AfterOne(OUTSIDE, '\'');
      AfterSingleBody(body);
      AfterOne(Mode(InQuote('\''), false), '\'');
    case Double(inner) =>
      AfterConcat(OUTSIDE, "\"" + InnerText(inner), "\"");
      AfterConcat(OUTSIDE, "\"", InnerText(inner));
      AfterOne(OUTSIDE, '"');
      AfterInner(inner);
      AfterOne(Mode(InQuote('"'), false), '"');
  }

  lemma {:induction false} AfterPieces(ps: seq<Piece>)
    requires GoodPieces(ps)
    ensures After(OUTSIDE, PiecesText(ps)) == OUTSIDE
    decreases |ps|
  {
    if ps != [] {
      AfterPieces(ps[..|ps| - 1]);
      AfterConcat(OUTSIDE, PiecesText(ps[..|ps| - 1]), PieceText(ps[|ps| - 1]));
      AfterPiece(ps[|ps| - 1]);
    }
  }

  /** What is read so far: complete pieces, and the part of a quoted piece that is still open. */
  datatype Reading = Closed | OpenSingle(body: string) | OpenDouble(inner: seq<Inner>, escaped: bool)

  function ReadingText(r: Reading): string {
    match r
    case Closed => ""
    case OpenSingle(body) => "'" + body
    case OpenDouble(inner, escaped) => "\"" + (if escaped then InnerText(inner) + "\\" else InnerText(inner))
  }

  ghost predicate Reads(s: string, ps: seq<Piece>, r: Reading) {
    && GoodPieces(ps) && s == PiecesText(ps) + ReadingText(r)
    && match r
       case Closed => After(OUTSIDE, s) == OUTSIDE
       case OpenSingle(body) => '\'' !in body && After(OUTSIDE, s) == Mode(InQuote('\''), false)
       case OpenDouble(inner, escaped) => GoodInner(inner) && After(OUTSIDE, s) == Mode(InQuote('"'), escaped)
  }

  lemma {:induction false} AppendPiece(ps: seq<Piece>, p: Piece)
    requires GoodPieces(ps) && GoodPiece(p)
    ensures GoodPieces(ps + [p]) && PiecesText(ps + [p]) == PiecesText(ps) + PieceText(p)
  {
    assert (ps + [p])[..|ps|] == ps;
  }

  lemma {:induction false} AppendInner(inner: seq<Inner>, x: Inner)
    requires GoodInner(inner) && GoodInner([x])
    ensures GoodInner(inner + [x])
    ensures InnerText(inner + [x]) == InnerText(inner) + (match x case Char(c) => [c] case Escape(c) => ['\\', c])
  {
    assert (inner + [x])[..|inner|] == inner;
    assert x in [x];
  }

  lemma {:induction false} ReadOutside(front: string, ps: seq<Piece>, c: char) returns (ps': seq<Piece>, r: Reading)
    requires Reads(front, ps, Closed)
    ensures Reads(front + [c], ps', r)
  {
    AfterConcat(OUTSIDE, front, [c]);
    AfterOne(OUTSIDE, c);
    assert PiecesText(ps) + "" == PiecesText(ps);
    if c == '\'' {
      ps', r := ps, OpenSingle("");
      assert ReadingText(r) == [c];
    } else if c == '"' {
      ps', r := ps, OpenDouble([], false);
      assert ReadingText(r) == [c];
    } else {
      AppendPiece(ps, Bare(c));
      ps', r := ps + [Bare(c)], Closed;
      assert front + [c] == PiecesText(ps') + "";
    }
  }

  lemma {:induction false} ReadInSingle(
    front: string, ps: seq<Piece>, body: string, c: char)
    returns (ps': seq<Piece>, r: Reading)
    requires Reads(front, ps, OpenSingle(body))
    ensures Reads(front + [c], ps', r)
  {
    AfterConcat(OUTSIDE, front, [c]);
    AfterOne(Mode(InQuote('\''), false), c);
    Regroup(PiecesText(ps), "'", body, [c]);
    if c == '\'' {
      AppendPiece(ps, Single(body));
      ps', r := ps + [Single(body)], Closed;
      assert PiecesText(ps') + "" == PiecesText(ps');
    } else {
      ps', r := ps, OpenSingle(body + [c]);
    }
  }

  lemma {:induction false} ReadInDouble(
    front: string, ps: seq<Piece>, inner: seq<Inner>, c: char)
    returns (ps': seq<Piece>, r: Reading)
    requires Reads(front, ps, OpenDouble(inner, false))
    ensures Reads(front + [c], ps', r)
  {
    AfterConcat(OUTSIDE, front, [c]);
    AfterOne(Mode(InQuote('"'), false), c);
    Regroup(PiecesText(ps), "\"", InnerText(inner), [c]);
    if c == '\\' {
      ps', r := ps, OpenDouble(inner, true);
    } else if c == '"' {
      AppendPiece(ps, Double(inner));
      ps', r := ps + [Double(inner)], Closed;
      assert PiecesText(ps') + "" == PiecesText(ps');
    } else {
      AppendInner(inner, Char(c));
      ps', r := ps, OpenDouble(inner + [Char(c)], false);
    }
  }

  lemma {:induction false} Regroup(a: string, b: string, c: string, d: string)
    ensures a + (b + c) + d == a + (b + (c + d)) == a + (b + c + d)
  {
  }

  lemma {:induction false} ReadEscaped(front: string, ps: seq<Piece>, inner: seq<Inner>, c: char) returns (r: Reading)
    requires Reads(front, ps, OpenDouble(inner, true))
    ensures Reads(front + [c], ps, r)
  {
    AfterConcat(OUTSIDE, front, [c]);
    AfterOne(Mode(InQuote('"'), true), c);
    AppendInner(inner, Escape(c));
    r := OpenDouble(inner + [Escape(c)], false);
    Regroup(PiecesText(ps), "\"", InnerText(inner) + "\\", [c]);
    assert InnerText(inner) + "\\" + [c] == InnerText(inner) + ['\\', c];
  }

  /** Every text reads as complete pieces and at most one open quoted piece. */
  lemma {:induction false} EveryTextReads(s: string) returns (ps: seq<Piece>, r: Reading)
    ensures Reads(s, ps, r)
    decreases |s|
  {
    hide Reads;
    if s == "" {
      ps, r := [], Closed;
      NothingRead();
    } else {
      var c, front := s[|s| - 1], s[..|s| - 1];
      assert s == front + [c];
      ps, r := EveryTextReads(front);
      match r {
        case Closed => ps, r := ReadOutside(front, ps, c);
        case OpenSingle(body) => ps, r := ReadInSingle(front, ps, body, c);
        case OpenDouble(inner, escaped) =>
          if escaped {
            r := ReadEscaped(front, ps, inner, c);
          } else {
            ps, r := ReadInDouble(front, ps, inner, c);
          }
      }
    }
  }

  lemma {:induction false} NothingRead()
    ensures Reads("", [], Closed)
  {
  }

  /** The scanner is outside quotes before position `i` exactly when the quotes before `i` are all closed. */
  lemma {:induction false} OutsideMeansClosed(s: string, i: nat)
    requires i <= |s|
    ensures ModeAt(s, i) == OUTSIDE <==> QuotesClosed(s[..i])
  {
    AfterIsModeAt(s, i);
    if ModeAt(s, i) == OUTSIDE {
      var ps, r := EveryTextReads(s[..i]);
      assert PiecesText(ps) + "" == PiecesText(ps);
    }
    if ps: seq<Piece> :| GoodPieces(ps) && PiecesText(ps) == s[..i] {
      AfterPieces(ps);
    }
  }

  // ---- Values and lines ----

  datatype Value = Text(text: string) | Flag(on: bool) | List(items: seq<Value>) | Map(entries: seq<Field>)
  datatype Field = Field(key: string, value: Value)
  datatype Line = Line(indent: nat, content: string)

  function ParseScalar(raw: string): Value {
    var value := Strip(StripComment(raw));
    if value == "true" || value == "false" then Flag(value == "true")
    else if |value| >= 2 && value[0] == value[|value| - 1] && IsQuoteMark(value[0]) then Text(value[1..|value| - 1])
    else Text(value)
  }

  /** `mapping[key] = value` on an insertion-ordered dict. */
  function Put(m: seq<Field>, key: string, value: Value): seq<Field> {
    if m == [] then [Field(key, value)]
    else if m[0].key == key then [Field(key, value)] + m[1..]
    else [m[0]] + Put(m[1..], key, value)
  }

  predicate IsItem(line: Line) { StartsWith(line.content, "- ") }

  /** The position of the first `:`; the length when there is none. */
  function Colon(s: string): (i: nat)
    ensures i <= |s| && (forall j :: 0 <= j < i ==> s[j] != ':') && (i < |s| ==> s[i] == ':')
  {
    if s == "" || s[0] == ':' then 0 else 1 + Colon(s[1..])
  }

  function KeyOf(content: string): string { Strip(content[..Colon(content)]) }

  function InlineOf(content: string): string
    requires Colon(content) < |content|
  {
    Strip(StripComment(content[Colon(content) + 1..]))
  }

  // ---- The block parser, as a function from lines to a value and the lines left over ----

  function ParseBlock(lines: seq<Line>, indent: nat): (r: (Value, seq<Line>))
    ensures |r.1| <= |lines|
    decreases |lines|, 1
  {
    if lines == [] then (Map([]), lines)
    else if IsItem(lines[0]) then ParseItems(lines, indent, [])
    else ParseMapping(lines, indent, [])
  }

  function ParseItems(lines: seq<Line>, indent: nat, items: seq<Value>): (r: (Value, seq<Line>))
    ensures |r.1| <= |lines|
    decreases |lines|, 0
  {
    if lines == [] || lines[0].indent != indent || !IsItem(lines[0]) then (List(items), lines)
    else ParseItems(lines[1..], indent, items + [ParseScalar(lines[0].content[2..])])
  }

  function ParseMapping(lines: seq<Line>, indent: nat, m: seq<Field>): (r: (Value, seq<Line>))
    ensures |r.1| <= |lines|
    decreases |lines|, 0
  {
    if lines == [] || lines[0].indent < indent then (Map(m), lines)
    else if lines[0].indent > indent then ParseMapping(lines[1..], indent, m)
    else if IsItem(lines[0]) then (Map(m), lines)
    else
      var content, rest := lines[0].content, lines[1..];
      if Colon(content) == |content| then ParseMapping(rest, indent, m)
      else
        var key, value := KeyOf(content), InlineOf(content);
        if value != "" then ParseMapping(rest, indent, Put(m, key, ParseScalar(value)))
        else if rest != [] && rest[0].indent > indent then
          var (child, after) := ParseBlock(rest, rest[0].indent);
          ParseMapping(after, indent, Put(m, key, child))
        else ParseMapping(rest, indent, Put(m, key, Map([])))
  }

  // ---- The parser of the script: an index into a list of lines ----

  /** Terminates on arbitrary lines and never moves its index backwards. */
  method ParseSimpleYamlBlock(lines: seq<Line>, start: nat, indent: nat) returns (value: Value, index: nat)
    requires start <= |lines|
    ensures start <= index <= |lines|
    ensures (value, lines[index..]) == ParseBlock(lines[start..], indent)
    decreases |lines| - start, 1
  {
    if start == |lines| {
      return Map([]), start;
    }
    if IsItem(lines[start]) {
      var items: seq<Value>;
      items, index := ParseItemLines(lines, start, indent);
      return List(items), index;
    }
    value, index := ParseMappingLines(lines, start, indent);
  }

  method ParseItemLines(lines: seq<Line>, start: nat, indent: nat) returns (items: seq<Value>, index: nat)
    requires start <= |lines|
    ensures start <= index <= |lines|
    ensures (List(items), lines[index..]) == ParseItems(lines[start..], indent, [])
  {
    items, index := [], start;
    while index < |lines|
      invariant start <= index <= |lines|
      invariant ParseItems(lines[index..], indent, items) == ParseItems(lines[start..], indent, [])
    {
      var line := lines[index];
      if line.indent != indent || !IsItem(line) {
        break;
      }
      assert lines[index..][1..] == lines[index + 1..];
      items := items + [ParseScalar(line.content[2..])];
      index := index + 1;
    }
  }

  method ParseMappingLines(lines: seq<Line>, start: nat, indent: nat) returns (value: Value, index: nat)
    requires start < |lines| && !IsItem(lines[start])
    ensures start <= index <= |lines|
    ensures (value, lines[index..]) == ParseMapping(lines[start..], indent, [])
    decreases |lines| - start, 0
  {
    hide StripComment, Strip, ParseScalar, Put, StartsWith;
    var mapping: seq<Field> := [];
    index := start;
    while index < |lines|
      invariant start <= index <= |lines|
      invariant ParseMapping(lines[index..], indent, mapping) == ParseMapping(lines[start..], indent, [])
      decreases |lines| - index
    {
      var line := lines[index];
      assert lines[index..][0] == line && lines[index..][1..] == lines[index + 1..];
      if line.indent < indent {
        break;
      }
      if line.indent > indent {
        index := index + 1;
        continue;
      }
      if IsItem(line) {
        break;
      }
      var colon := Colon(line.content);
      if colon == |line.content| {
        index := index + 1;
        continue;
      }
      var key := Strip(line.content[..colon]);
      var text := StripYamlInlineComment(line.content[colon + 1..]);
      text := Strip(text);
      index := index + 1;
      if text != "" {
        mapping := Put(mapping, key, ParseScalar(text));
        continue;
      }
      if index < |lines| && lines[index].indent > line.indent {
        var child;
        child, index := ParseSimpleYamlBlock(lines, index, lines[index].indent);
        mapping := Put(mapping, key, child);
      } else {
        mapping := Put(mapping, key, Map([]));
      }
    }
    value := Map(mapping);
  }

  // ---- Where a block stops ----

  /** A mapping block ends at a shallower line or at an item of its own depth. */
  predicate EndsMapping(line: Line, indent: nat) {
    line.indent < indent || (line.indent == indent && IsItem(line))
  }

  /** A list block ends at anything but an item of its own depth, so also at a deeper line. */
  predicate EndsList(line: Line, indent: nat) {
    line.indent != indent || !IsItem(line)
  }

  /** `rest` begins at the first of the lines that ends the block. */
  ghost predicate StopsFirst(lines: seq<Line>, rest: seq<Line>, ends: Line -> bool) {
    && |rest| <= |lines| && rest == lines[|lines| - |rest|..]
    && (forall j :: 0 <= j < |lines| - |rest| ==> !ends(lines[j]))
    && (rest != [] ==> ends(rest[0]))
  }

  lemma {:induction false} StopsFirstChains(lines: seq<Line>, mid: seq<Line>, rest: seq<Line>, ends: Line -> bool)
    requires |mid| <= |lines| && mid == lines[|lines| - |mid|..] && StopsFirst(mid, rest, ends)
    requires forall j :: 0 <= j < |lines| - |mid| ==> !ends(lines[j])
    ensures StopsFirst(lines, rest, ends)
  {
    var k := |lines| - |mid|;
    forall j | 0 <= j < |lines| - |rest| ensures !ends(lines[j]) {
      if j >= k { assert mid[j - k] == lines[j]; }
    }
  }

  lemma {:induction false} ListStops(lines: seq<Line>, indent: nat, items: seq<Value>)
    ensures StopsFirst(lines, ParseItems(lines, indent, items).1, line => EndsList(line, indent))
    decreases |lines|
  {
    if lines != [] && !EndsList(lines[0], indent) {
      var next := items + [ParseScalar(lines[0].content[2..])];
      ListStops(lines[1..], indent, next);
      StopsFirstChains(lines, lines[1..], ParseItems(lines[1..], indent, next).1, line => EndsList(line, indent));
    }
  }

  lemma {:induction false} MappingStops(lines: seq<Line>, indent: nat, m: seq<Field>)
    ensures StopsFirst(lines, ParseMapping(lines, indent, m).1, line => EndsMapping(line, indent))
    decreases |lines|, 0
  {
    hide StopsFirst, KeyOf, InlineOf, ParseScalar, Put, Colon;
    var ends := (line: Line) => EndsMapping(line, indent);
    if lines == [] || EndsMapping(lines[0], indent) {
      StopsHere(lines, ends);
    } else {
      var rest := lines[1..];
      var content := lines[0].content;
      if lines[0].indent > indent || Colon(content) == |content| {
        MappingStops(rest, indent, m);
        StopsBehind(lines, ParseMapping(rest, indent, m).1, ends);
      } else {
        var key, value := KeyOf(content), InlineOf(content);
        if value == "" && rest != [] && rest[0].indent > indent {
          var (child, after) := ParseBlock(rest, rest[0].indent);
          ChildStaysDeeper(rest, indent);
          MappingStops(after, indent, Put(m, key, child));
          StopsFirstChains(rest, after, ParseMapping(after, indent, Put(m, key, child)).1, ends);
          StopsBehind(lines, ParseMapping(after, indent, Put(m, key, child)).1, ends);
        } else {
          var next := Put(m, key, if value != "" then ParseScalar(value) else Map([]));
          MappingStops(rest, indent, next);
          StopsBehind(lines, ParseMapping(rest, indent, next).1, ends);
        }
      }
    }
  }

  lemma {:induction false} StopsHere(lines: seq<Line>, ends: Line -> bool)
    requires lines == [] || ends(lines[0])
    ensures StopsFirst(lines, lines, ends)
  {
  }

  lemma {:induction false} StopsBehind(lines: seq<Line>, rest: seq<Line>, ends: Line -> bool)
    requires lines != [] && !ends(lines[0]) && StopsFirst(lines[1..], rest, ends)
    ensures StopsFirst(lines, rest, ends)
  {
    StopsFirstChains(lines, lines[1..], rest, ends);
  }

  /** A child block takes only lines deeper than its parent's. */
  lemma {:induction false} ChildStaysDeeper(rest: seq<Line>, indent: nat)
    requires rest != [] && rest[0].indent > indent
    ensures var after := ParseBlock(rest, rest[0].indent).1;
      && after == rest[|rest| - |after|..]
      && forall j :: 0 <= j < |rest| - |after| ==> !EndsMapping(rest[j], indent)
    decreases |rest|, 1
  {
    if IsItem(rest[0]) {
      ListStops(rest, rest[0].indent, []);
    } else {
      MappingStops(rest, rest[0].indent, []);
    }
  }

  /** On arbitrary lines a block stops exactly at the first line that ends its kind of block. */
  lemma {:induction false} BlockStops(lines: seq<Line>, indent: nat)
    requires lines != []
    ensures StopsFirst(lines, ParseBlock(lines, indent).1,
      if IsItem(lines[0]) then (line: Line) => EndsList(line, indent) else (line: Line) => EndsMapping(line, indent))
  {
    if IsItem(lines[0]) {
      ListStops(lines, indent, []);
    } else {
      MappingStops(lines, indent, []);
    }
  }

  /**
   * Unlike a mapping, which skips deeper lines, a list stops at one: it is neither the end, nor shallower, nor another
   * kind of block at the list's own depth.
   */
  lemma {:induction false} ListStopsAtDeeperLine(text: string, deeper: Line, more: seq<Line>, indent: nat)
    requires deeper.indent > indent
    ensures ParseBlock([Line(indent, "- " + text), deeper] + more, indent) == (List([ParseScalar(text)]), [deeper] + more)
  {
    var item := Line(indent, "- " + text);
    ItemHead(text);
    ParseItem(item, [deeper] + more, indent, [], ParseScalar(text));
    assert [item, deeper] + more == [item] + ([deeper] + more);
    assert [] + [ParseScalar(text)] == [ParseScalar(text)];
    assert ([deeper] + more)[0] == deeper;
    assert ([item, deeper] + more)[0] == item;
  }

  // ---- Loading a file ----

  function LeadingSpaces(raw: string): nat {
    if raw != "" && raw[0] == ' ' then 1 + LeadingSpaces(raw[1..]) else 0
  }

  /** The indent of a line is the number of blanks in front of its first other character. */
  lemma {:induction false} IndentExactly(raw: string)
    ensures var n := LeadingSpaces(raw);
      n <= |raw| && (forall k :: 0 <= k < n ==> raw[k] == ' ') && (n < |raw| ==> raw[n] != ' ')
    decreases |raw|
  {
    if raw != "" && raw[0] == ' ' {
      IndentExactly(raw[1..]);
      assert forall k :: 0 < k < |raw| ==> raw[k] == raw[1..][k - 1];
    }
  }

  predicate Skipped(raw: string) {
    Strip(raw) == "" || StartsWith(LStrip(raw), "#")
  }

  function LineOf(raw: string): Line { Line(LeadingSpaces(raw), Strip(raw)) }

  function LinesOf(raws: seq<string>): seq<Line> {
    if raws == [] then [] else (if Skipped(raws[0]) then [] else [LineOf(raws[0])]) + LinesOf(raws[1..])
  }

  function Load(raws: seq<string>): seq<Field> {
    var lines := LinesOf(raws);
    var value := ParseBlock(lines, if lines == [] then 0 else lines[0].indent).0;
    if value.Map? then value.entries else []
  }

  method ReadLines(raws: seq<string>) returns (lines: seq<Line>)
    ensures lines == LinesOf(raws)
  {
    hide Skipped, LineOf;
    lines := [];
    for i := 0 to |raws|
      invariant lines + LinesOf(raws[i..]) == LinesOf(raws)
    {
      LinesOfNext(raws[i..]);
      assert raws[i..][0] == raws[i] && raws[i..][1..] == raws[i + 1..];
      if Skipped(raws[i]) {
        continue;
      }
      lines := lines + [LineOf(raws[i])];
    }
  }

  lemma {:induction false} LinesOfNext(raws: seq<string>)
    requires raws != []
    ensures LinesOf(raws) == if Skipped(raws[0]) then LinesOf(raws[1..]) else [LineOf(raws[0])] + LinesOf(raws[1..])
  {
  }

  method LoadSimpleYamlMapping(raws: seq<string>) returns (mapping: seq<Field>)
    ensures mapping == Load(raws)
  {
    hide LinesOf, ParseBlock;
    var lines := ReadLines(raws);
    assert lines[0..] == lines;
    var parsed, index := ParseSimpleYamlBlock(lines, 0, if lines == [] then 0 else lines[0].indent);
    mapping := if parsed.Map? then parsed.entries else [];
  }

  // ---- No key begins like an item ----

  predicate NoDashKeys(v: Value) {
    v.Map? ==> forall i :: 0 <= i < |v.entries| ==> !StartsWith(v.entries[i].key, "- ") && NoDashKeys(v.entries[i].value)
  }

  predicate StartsSolid(lines: seq<Line>) {
    forall k :: 0 <= k < |lines| ==> lines[k].content != "" && !IsSpace(lines[k].content[0])
  }

  lemma {:induction false} KeyOfKeepsStart(content: string)
    requires content != "" && !IsSpace(content[0]) && !StartsWith(content, "- ")
    ensures !StartsWith(KeyOf(content), "- ")
  {
    var front := content[..Colon(content)];
    RStripIsPrefix(front);
    if front != "" {
      assert LStrip(front) == front;
      assert |KeyOf(content)| >= 2 ==> KeyOf(content)[..2] == content[..2];
    }
  }

  lemma {:induction false} PutKeepsKeys(m: seq<Field>, key: string, value: Value)
    requires NoDashKeys(Map(m)) && !StartsWith(key, "- ") && NoDashKeys(value)
    ensures NoDashKeys(Map(Put(m, key, value)))
    decreases |m|
  {
    hide StartsWith;
    if m != [] && m[0].key != key {
      assert NoDashKeys(Map(m[1..])) by {
        forall i | 0 <= i < |m[1..]| ensures !StartsWith(m[1..][i].key, "- ") && NoDashKeys(m[1..][i].value) {
          assert m[1..][i] == m[i + 1];
        }
      }
      PutKeepsKeys(m[1..], key, value);
      var rest := Put(m[1..], key, value);
      forall i | 0 <= i < |rest| + 1
        ensures !StartsWith(([m[0]] + rest)[i].key, "- ") && NoDashKeys(([m[0]] + rest)[i].value)
      {
        if i > 0 { assert ([m[0]] + rest)[i] == rest[i - 1]; }
      }
    }
  }

  lemma {:induction false} BlockHasNoDashKeys(lines: seq<Line>, indent: nat)
    requires StartsSolid(lines)
    ensures NoDashKeys(ParseBlock(lines, indent).0)
    decreases |lines|, 1
  {
    hide ParseMapping, StartsWith, StartsSolid;
    if lines != [] && !IsItem(lines[0]) {
      MappingHasNoDashKeys(lines, indent, []);
    } else if lines != [] {
      ItemsAreList(lines, indent, []);
    }
  }

  lemma {:induction false} ItemsAreList(lines: seq<Line>, indent: nat, items: seq<Value>)
    ensures ParseItems(lines, indent, items).0.List?
    decreases |lines|
  {
    hide ParseScalar;
    if lines != [] && lines[0].indent == indent && IsItem(lines[0]) {
      ItemsAreList(lines[1..], indent, items + [ParseScalar(lines[0].content[2..])]);
    }
  }

  /** Whatever the lines are, no mapping that is read holds a key that begins like an item. */
  lemma {:induction false} MappingHasNoDashKeys(lines: seq<Line>, indent: nat, m: seq<Field>)
    requires StartsSolid(lines) && NoDashKeys(Map(m))
    ensures NoDashKeys(ParseMapping(lines, indent, m).0)
    decreases |lines|, 0
  {
    hide NoDashKeys, StartsWith, KeyOf, InlineOf, ParseScalar, Put, Colon;
    if lines != [] && lines[0].indent >= indent {
      var content, rest := lines[0].content, lines[1..];
      if lines[0].indent > indent || (!IsItem(lines[0]) && Colon(content) == |content|) {
        MappingHasNoDashKeys(rest, indent, m);
      } else if !IsItem(lines[0]) {
        var key, value := KeyOf(content), InlineOf(content);
        KeyOfKeepsStart(content);
        if value == "" && rest != [] && rest[0].indent > indent {
          var (child, after) := ParseBlock(rest, rest[0].indent);
          BlockHasNoDashKeys(rest, rest[0].indent);
          ChildStaysDeeper(rest, indent);
          PutKeepsKeys(m, key, child);
          MappingHasNoDashKeys(after, indent, Put(m, key, child));
        } else {
          var v := if value != "" then ParseScalar(value) else Map([]);
          FlatHasNoKeys(value);
          PutKeepsKeys(m, key, v);
          MappingHasNoDashKeys(rest, indent, Put(m, key, v));
        }
      }
    }
  }

  lemma {:induction false} FlatHasNoKeys(text: string)
    ensures NoDashKeys(ParseScalar(text)) && NoDashKeys(Map([]))
  {
    hide StripComment, Strip;
  }

  lemma {:induction false} LinesStartSolid(raws: seq<string>)
    ensures StartsSolid(LinesOf(raws))
    decreases |raws|
  {
    hide Skipped, LineOf;
    if raws != [] {
      LinesOfNext(raws);
      LinesStartSolid(raws[1..]);
      if !Skipped(raws[0]) { KeptStartsSolid(raws[0]); }
    }
  }

  lemma {:induction false} KeptStartsSolid(raw: string)
    requires !Skipped(raw)
    ensures LineOf(raw).content != "" && !IsSpace(LineOf(raw).content[0])
  {
    hide LeadingSpaces;
    LStripShape(raw);
    RStripIsPrefix(LStrip(raw));
  }

  lemma {:induction false} LoadHasNoDashKeys(raws: seq<string>)
    ensures NoDashKeys(Map(Load(raws)))
  {
    hide LinesOf, ParseBlock, StartsWith, StartsSolid;
    LinesStartSolid(raws);
    var lines := LinesOf(raws);
    BlockHasNoDashKeys(lines, if lines == [] then 0 else lines[0].indent);
  }

  // ---- Printing documents ----

  /** `Verbatim` is any other text in one piece, which means what the scalar rule makes of it. */
  datatype Scalar = Plain(text: string) | Quoted(mark: char, text: string) | Bool(on: bool) | Verbatim(text: string)
  /** A value that is only a comment means as little as none. */
  datatype Content = Inline(scalar: Scalar) | Nested(block: Block) | EmptyMap | Commented(text: string)
  datatype Entry = Entry(key: string, content: Content)
  /** Every nested block carries its own indentation. */
  datatype Block = MapBlock(indent: nat, entries: seq<Entry>) | ListBlock(indent: nat, scalars: seq<Scalar>)

  function ScalarText(s: Scalar): string {
    match s
    case Plain(text) => text
    case Quoted(mark, text) => [mark] + text + [mark]
    case Bool(on) => if on then "true" else "false"
    case Verbatim(text) => text
  }

  function ScalarValue(s: Scalar): Value {
    match s
    case Plain(text) => Text(text)
    case Quoted(_, text) => Text(text)
    case Bool(on) => Flag(on)
    case Verbatim(text) => ParseScalar(text)
  }

  /** Scalars that mean themselves: a plain one must not read as a comment, a flag or a quoted text. */
  predicate PrintableScalar(s: Scalar) {
    match s
    case Plain(text) =>
      && text != "" && Strip(text) == text && CommentFree(text) && text != "true" && text != "false"
      && !(|text| >= 2 && text[0] == text[|text| - 1] && IsQuoteMark(text[0]))
    case Quoted(mark, text) => IsQuoteMark(mark) && mark !in text && (mark == '"' ==> '\\' !in text)
    case Bool(_) => true
    case Verbatim(text) => text != "" && Strip(text) == text
  }

  /** Behind a key the text must not begin as a comment. */
  predicate Visible(s: Scalar) { s.Verbatim? ==> !StartsWith(s.text, "#") }

  predicate PrintableKey(key: string) {
    ':' !in key && Strip(key) == key && !StartsWith(key, "#") && !StartsWith(key, "- ")
  }

  function PrintLines(b: Block): seq<Line>
    decreases b, 1
  {
    match b
    case MapBlock(indent, entries) => PrintEntries(entries, indent)
    case ListBlock(indent, scalars) => PrintItems(scalars, indent)
  }

  function PrintItems(scalars: seq<Scalar>, indent: nat): seq<Line> {
    if scalars == [] then [] else [Line(indent, "- " + ScalarText(scalars[0]))] + PrintItems(scalars[1..], indent)
  }

  function PrintEntry(e: Entry, indent: nat): seq<Line>
    decreases e, 2
  {
    match e.content
    case Inline(scalar) => [Line(indent, e.key + ": " + ScalarText(scalar))]
    case Nested(block) => [Line(indent, e.key + ":")] + PrintLines(block)
    case EmptyMap => [Line(indent, e.key + ":")]
    case Commented(text) => [Line(indent, e.key + ": " + text)]
  }

  function PrintEntries(entries: seq<Entry>, indent: nat): seq<Line>
    decreases entries, 0
  {
    if entries == [] then [] else PrintEntry(entries[0], indent) + PrintEntries(entries[1..], indent)
  }

  predicate Printable(b: Block)
    decreases b, 1
  {
    match b
    case MapBlock(indent, entries) => PrintableEntries(entries, indent)
    case ListBlock(_, scalars) => forall s <- scalars :: PrintableScalar(s)
  }

  predicate PrintableEntries(entries: seq<Entry>, indent: nat)
    decreases entries, 0
  {
    entries != [] ==>
      && PrintableKey(entries[0].key)
      && (forall k :: 0 < k < |entries| ==> entries[k].key != entries[0].key)
      && (match entries[0].content
          case Inline(scalar) => PrintableScalar(scalar) && Visible(scalar)
          case Nested(block) => block.indent > indent && !EmptyBlock(block) && Printable(block)
          case EmptyMap => true
          case Commented(text) => StartsWith(text, "#") && Strip(text) == text)
      && PrintableEntries(entries[1..], indent)
  }

  predicate EmptyBlock(b: Block) { if b.MapBlock? then b.entries == [] else b.scalars == [] }

  function ValueOf(b: Block): Value
    decreases b, 1
  {
    match b
    case MapBlock(_, entries) => Map(FieldsOf(entries))
    case ListBlock(_, scalars) => List(ItemsOf(scalars))
  }

  function ItemsOf(scalars: seq<Scalar>): seq<Value> {
    if scalars == [] then [] else [ScalarValue(scalars[0])] + ItemsOf(scalars[1..])
  }

  function ContentValue(c: Content): Value
    decreases c, 2
  {
    match c
    case Inline(scalar) => ScalarValue(scalar)
    case Nested(block) => ValueOf(block)
    case _ => Map([])
  }

  function FieldsOf(entries: seq<Entry>): seq<Field>
    decreases entries, 0
  {
    if entries == [] then [] else [Field(entries[0].key, ContentValue(entries[0].content))] + FieldsOf(entries[1..])
  }

  // ---- Scalars read back ----

  lemma {:induction false} ModeInsideQuotes(mark: char, text: string, i: nat)
    requires PrintableScalar(Quoted(mark, text)) && 1 <= i <= |text| + 1
    ensures ModeAt([mark] + text + [mark], i) == Mode(InQuote(mark), false)
    decreases i
  {
    var s := [mark] + text + [mark];
    if i == 1 {
      assert s[0] == mark;
      assert ModeAt(s, 1) == NextMode(ModeAt(s, 0), s[0]);
    } else {
      ModeInsideQuotes(mark, text, i - 1);
      assert s[i - 1] == text[i - 2] && text[i - 2] in text;
    }
  }

  lemma {:induction false} QuotedIsCommentFree(mark: char, text: string)
    requires PrintableScalar(Quoted(mark, text))
    ensures CommentFree([mark] + text + [mark])
  {
    var s := [mark] + text + [mark];
    forall i | 0 <= i < |s| ensures !CommentAt(s, i) {
      if 1 <= i { ModeInsideQuotes(mark, text, i); }
    }
  }

  /** The text of a printable scalar is solid and reads back as its value; unless verbatim, it is free of comments. */
  lemma {:induction false} ScalarReadsBack(s: Scalar)
    requires PrintableScalar(s)
    ensures var t := ScalarText(s);
      t != "" && !IsSpace(t[0]) && !IsSpace(t[|t| - 1]) && (s.Verbatim? || CommentFree(t)) && ParseScalar(t) == ScalarValue(s)
  {
    var t := ScalarText(s);
    match s {
      case Plain(text) => SolidOfStrip(text);
      case Quoted(mark, text) =>
        QuotedIsCommentFree(mark, text);
        StripOfSolid(t);
        assert t[1..|t| - 1] == text;
        assert t[0] == mark && t != "true" && t != "false";
      case Bool(on) =>
        StripOfSolid(t);
        assert forall i :: 0 <= i < |t| ==> t[i] != '#';
      case Verbatim(text) => SolidOfStrip(text);
    }
  }

  // ---- Lines read back ----

  lemma {:induction false} ModeAfterSpace(t: string, i: nat)
    requires i <= |t|
    ensures ModeAt(" " + t, i + 1) == ModeAt(t, i)
    decreases i
  {
    var s := " " + t;
    if i == 0 {
      assert ModeAt(s, 1) == NextMode(ModeAt(s, 0), s[0]);
    } else {
      ModeAfterSpace(t, i - 1);
      assert s[i] == t[i - 1];
    }
  }

  lemma {:induction false} SpaceKeepsCommentFree(t: string)
    requires CommentFree(t)
    ensures CommentFree(" " + t)
  {
    var s := " " + t;
    forall i | 0 <= i < |s| ensures !CommentAt(s, i) {
      if i > 0 {
        ModeAfterSpace(t, i - 1);
        assert !CommentAt(t, i - 1);
        assert s[i] == t[i - 1] && (i > 1 ==> s[i - 1] == t[i - 2]);
      }
    }
  }

  lemma {:induction false} ColonOfKey(key: string, after: string)
    requires ':' !in key
    ensures Colon(key + ":" + after) == |key|
    ensures var c := key + ":" + after; c[..|key|] == key && c[|key| + 1..] == after
  {
    var c := key + ":" + after;
    assert c[|key|] == ':';
    forall j | 0 <= j < |key| ensures c[j] != ':' {
      assert c[j] == key[j] && key[j] in key;
    }
  }

  lemma {:induction false} InlineLineReadsBack(key: string, s: Scalar)
    requires PrintableKey(key) && PrintableScalar(s) && Visible(s)
    ensures var c := key + ": " + ScalarText(s);
      && Colon(c) == |key| < |c| && KeyOf(c) == key && InlineOf(c) != ""
      && ParseScalar(InlineOf(c)) == ScalarValue(s) && !StartsWith(c, "- ")
  {
    var t := ScalarText(s);
    var c := key + ": " + t;
    assert c == key + ":" + (" " + t) == key + (": " + t);
    ColonOfKey(key, " " + t);
    ScalarReadsBack(s);
    if s.Verbatim? { SpacedVerbatim(t); } else { SpacedScalar(t); }
    KeyIsNoItem(key, ": " + t);
  }

  lemma {:induction false} CommentedLineReadsBack(key: string, text: string)
    requires PrintableKey(key) && StartsWith(text, "#")
    ensures var c := key + ": " + text;
      Colon(c) == |key| < |c| && KeyOf(c) == key && InlineOf(c) == "" && !StartsWith(c, "- ")
  {
    var c := key + ": " + text;
    assert c == key + ":" + (" " + text) == key + (": " + text);
    ColonOfKey(key, " " + text);
    SpacedComment(text);
    KeyIsNoItem(key, ": " + text);
  }

  lemma {:induction false} SpacedComment(text: string)
    requires StartsWith(text, "#")
    ensures Strip(StripComment(" " + text)) == ""
  {
    var s := " " + text;
    assert text[..1] == "#" && text[0] == '#';
    assert ModeAt(s, 1) == NextMode(ModeAt(s, 0), s[0]);
    assert CommentAt(s, 1);
    assert FirstComment(s, 0) == 1;
    assert s[..1] == " " && RStrip(" ") == RStrip(" "[..0]);
  }

  lemma {:induction false} CommentShifts(t: string, k: nat)
    requires k < |t| && t[0] != '#'
    ensures CommentAt(" " + t, k + 1) <==> CommentAt(t, k)
  {
    ModeAfterSpace(t, k);
    assert (" " + t)[k + 1] == t[k];
    if k > 0 { assert (" " + t)[k] == t[k - 1]; }
  }

  lemma {:induction false} FirstCommentShifts(t: string)
    requires t != "" && t[0] != '#'
    ensures FirstComment(" " + t, 0) == FirstComment(t, 0) + 1
  {
    var i := FirstComment(t, 0);
    forall j | 0 <= j <= |t| && (j <= i || j == i + 1) ensures j <= i ==> !CommentAt(" " + t, j) {
      if j > 0 { CommentShifts(t, j - 1); }
    }
    if i < |t| { CommentShifts(t, i); }
  }

  /** Behind a key a verbatim text loses its comment first, and means the same. */
  lemma {:induction false} SpacedVerbatim(t: string)
    requires t != "" && !IsSpace(t[0]) && !IsSpace(t[|t| - 1]) && t[0] != '#'
    ensures var u := Strip(StripComment(" " + t)); u != "" && ParseScalar(u) == ParseScalar(t)
  {
    hide ParseScalar, FirstComment, CommentAt;
    var i := FirstComment(t, 0);
    if i == |t| {
      assert CommentFree(t);
      SpacedScalar(t);
    } else {
      assert i > 0 by { FirstIsNoComment(t); }
      FirstCommentShifts(t);
      assert (" " + t)[..i + 1] == " " + t[..i];
      SpaceThenText(t[..i]);
      StrippedMeansSame(t);
    }
  }

  lemma {:induction false} FirstIsNoComment(t: string)
    requires t != "" && t[0] != '#'
    ensures !CommentAt(t, 0)
  {
  }

  lemma {:induction false} StrippedMeansSame(t: string)
    ensures ParseScalar(StripComment(t)) == ParseScalar(t)
  {
    hide StripComment;
    StripCommentIsIdempotent(t);
  }

  lemma {:induction false} SpaceThenText(x: string)
    requires x != "" && !IsSpace(x[0])
    ensures RStrip(x) != "" && Strip(RStrip(" " + x)) == RStrip(x)
  {
    TextKept(x);
    RStripIsPrefix(x);
    RStripShape(x);
    SpaceKept(x);
    StripOfSolid(RStrip(x));
    assert (" " + RStrip(x))[1..] == RStrip(x);
    assert LStrip(" " + RStrip(x)) == LStrip(RStrip(x));
  }

  lemma {:induction false} TextKept(x: string)
    requires x != "" && !IsSpace(x[0])
    ensures RStrip(x) != ""
    decreases |x|
  {
    if IsSpace(x[|x| - 1]) { TextKept(x[..|x| - 1]); }
  }

  lemma {:induction false} SpaceKept(x: string)
    requires x != "" && !IsSpace(x[0])
    ensures RStrip(" " + x) == " " + RStrip(x)
    decreases |x|
  {
    if IsSpace(x[|x| - 1]) {
      assert (" " + x)[..|x|] == " " + x[..|x| - 1];
      SpaceKept(x[..|x| - 1]);
    }
  }

  lemma {:induction false} SpacedScalar(t: string)
    requires t != "" && !IsSpace(t[0]) && !IsSpace(t[|t| - 1]) && CommentFree(t)
    ensures Strip(StripComment(" " + t)) == t
  {
    SpaceKeepsCommentFree(t);
    assert StripComment(" " + t) == " " + t;
    StripOfSolid(t);
    assert (" " + t)[1..] == t;
    assert LStrip(" " + t) == LStrip(t);
  }

  lemma {:induction false} KeyIsNoItem(key: string, after: string)
    requires PrintableKey(key) && after != "" && after[0] == ':'
    ensures !StartsWith(key + after, "- ")
  {
    var c := key + after;
    if |key| >= 2 {
      assert c[..2] == key[..2];
    } else if |key| == 1 {
      assert c[1] == ':';
    } else {
      assert c[0] == ':';
    }
  }

  lemma {:induction false} BareLineReadsBack(key: string)
    requires PrintableKey(key)
    ensures var c := key + ":";
      Colon(c) == |key| < |c| && KeyOf(c) == key && InlineOf(c) == "" && !StartsWith(c, "- ")
  {
    assert key + ":" == key + ":" + "";
    ColonOfKey(key, "");
    KeyIsNoItem(key, ":");
  }

  // ---- The round trip ----

  lemma {:induction false} ItemsReadBack(scalars: seq<Scalar>, indent: nat, rest: seq<Line>, acc: seq<Value>)
    requires (forall s <- scalars :: PrintableScalar(s)) && (rest != [] ==> EndsList(rest[0], indent))
    ensures ParseItems(PrintItems(scalars, indent) + rest, indent, acc) == (List(acc + ItemsOf(scalars)), rest)
    decreases |scalars|
  {
    hide ScalarText, ParseScalar, ScalarValue, PrintableScalar, StartsWith;
    if scalars == [] {
      assert PrintItems(scalars, indent) + rest == rest && acc + ItemsOf(scalars) == acc;
    } else {
      var s, tail := scalars[0], scalars[1..];
      var value := ScalarValue(s);
      ScalarReadsBack(s);
      ItemHead(ScalarText(s));
      var line := Line(indent, "- " + ScalarText(s));
      var following := PrintItems(tail, indent) + rest;
      Joined([line], PrintItems(tail, indent), rest);
      ItemsReadBack(tail, indent, rest, acc + [value]);
      ParseItem(line, following, indent, acc, value);
      Joined(acc, [value], ItemsOf(tail));
    }
  }

  lemma {:induction false} ParseItem(line: Line, following: seq<Line>, indent: nat, acc: seq<Value>, value: Value)
    requires line.indent == indent && IsItem(line) && ParseScalar(line.content[2..]) == value
    ensures ParseItems([line] + following, indent, acc) == ParseItems(following, indent, acc + [value])
  {
    hide ParseScalar;
    assert ([line] + following)[1..] == following;
  }

  lemma {:induction false} PutNew(m: seq<Field>, key: string, value: Value)
    requires forall f <- m :: f.key != key
    ensures Put(m, key, value) == m + [Field(key, value)]
    decreases |m|
  {
    if m != [] {
      PutNew(m[1..], key, value);
    }
  }

  /** What follows a block is shallower than the block. */
  predicate Shallower(rest: seq<Line>, indent: nat) { rest != [] ==> rest[0].indent < indent }

  lemma {:induction false} FirstLineOfEntries(entries: seq<Entry>, indent: nat, rest: seq<Line>)
    requires Shallower(rest, indent)
    ensures Shallower(PrintEntries(entries, indent) + rest, indent + 1)
  {
    if entries == [] {
      assert PrintEntries(entries, indent) + rest == rest;
    } else {
      assert PrintEntry(entries[0], indent)[0].indent == indent;
    }
  }

  lemma {:induction false} EntryHead(e: Entry, indent: nat)
    ensures PrintEntry(e, indent) != [] && PrintEntry(e, indent)[0].indent == indent
    ensures PrintableKey(e.key) ==> !IsItem(PrintEntry(e, indent)[0])
  {
    hide ScalarText, PrintableKey;
    if PrintableKey(e.key) {
      match e.content
      case Inline(s) =>
        KeyIsNoItem(e.key, ": " + ScalarText(s));
        assert e.key + ": " + ScalarText(s) == e.key + (": " + ScalarText(s));
      case Commented(text) =>
        KeyIsNoItem(e.key, ": " + text);
        assert e.key + ": " + text == e.key + (": " + text);
      case _ => KeyIsNoItem(e.key, ":");
    }
  }

  lemma {:induction false} FirstLineOfBlock(b: Block, rest: seq<Line>)
    requires Printable(b) && !EmptyBlock(b)
    ensures PrintLines(b) != [] && PrintLines(b)[0].indent == b.indent
    ensures (PrintLines(b) + rest)[0] == PrintLines(b)[0]
    ensures IsItem(PrintLines(b)[0]) <==> b.ListBlock?
  {
    hide ScalarText, PrintableScalar, PrintableKey, PrintEntry, StartsWith;
    match b
    case MapBlock(indent, entries) =>
      assert PrintableEntries(entries, indent);
      EntryHead(entries[0], indent);
      assert PrintEntries(entries, indent)[0] == PrintEntry(entries[0], indent)[0];
    case ListBlock(indent, scalars) =>
      ItemHead(ScalarText(scalars[0]));
  }

  lemma {:induction false} ItemHead(text: string)
    ensures StartsWith("- " + text, "- ") && ("- " + text)[2..] == text
  {
    assert ("- " + text)[..2] == "- ";
  }

  lemma {:induction false} BlockReadsBack(b: Block, rest: seq<Line>)
    requires Printable(b) && !EmptyBlock(b) && Shallower(rest, b.indent)
    ensures ParseBlock(PrintLines(b) + rest, b.indent) == (ValueOf(b), rest)
    decreases b, 1
  {
    hide ParseMapping, ParseItems, PrintEntries, PrintItems, PrintableScalar, StartsWith;
    FirstLineOfBlock(b, rest);
    match b
    case MapBlock(indent, entries) =>
      EntriesReadBack(entries, indent, rest, []);
      assert [] + FieldsOf(entries) == FieldsOf(entries);
    case ListBlock(indent, scalars) =>
      ItemsReadBack(scalars, indent, rest, []);
      assert [] + ItemsOf(scalars) == ItemsOf(scalars);
  }

  /** One printed entry is read as one field, and parsing goes on behind it. */
  lemma {:induction false} EntryReadsBack(e: Entry, indent: nat, following: seq<Line>, m: seq<Field>)
    requires PrintableEntries([e], indent) && Shallower(following, indent + 1)
    requires forall f <- m :: f.key != e.key
    ensures ParseMapping(PrintEntry(e, indent) + following, indent, m)
         == ParseMapping(following, indent, m + [Field(e.key, ContentValue(e.content))])
    decreases e, 3
  {
    hide PrintableScalar, ScalarText, ScalarValue, ParseScalar, PrintableKey, KeyOf, InlineOf, Colon, StartsWith, ParseBlock;
    assert [e][0] == e;
    PutNew(m, e.key, ContentValue(e.content));
    var lines := PrintEntry(e, indent) + following;
    match e.content
    case Inline(s) =>
      InlineLineReadsBack(e.key, s);
      assert lines[1..] == following;
    case EmptyMap =>
      BareLineReadsBack(e.key);
      assert lines[1..] == following;
    case Commented(text) =>
      CommentedLineReadsBack(e.key, text);
      assert lines[1..] == following;
    case Nested(block) =>
      BareLineReadsBack(e.key);
      assert lines[1..] == PrintLines(block) + following;
      FirstLineOfBlock(block, following);
      BlockReadsBack(block, following);
  }

  lemma {:induction false} KeysStayFresh(entries: seq<Entry>, indent: nat, m: seq<Field>, value: Value)
    requires entries != [] && PrintableEntries(entries, indent)
    requires forall f <- m, e <- entries :: f.key != e.key
    ensures forall f <- m :: f.key != entries[0].key
    ensures forall f <- m + [Field(entries[0].key, value)], e <- entries[1..] :: f.key != e.key
  {
    var e, tail := entries[0], entries[1..];
    assert e in entries;
    forall f <- m + [Field(e.key, value)], t <- tail ensures f.key != t.key {
      var k :| 0 <= k < |tail| && tail[k] == t;
      assert entries[k + 1] == t && t in entries;
    }
  }

  lemma {:induction false} EntriesReadBack(entries: seq<Entry>, indent: nat, rest: seq<Line>, m: seq<Field>)
    requires PrintableEntries(entries, indent) && Shallower(rest, indent)
    requires forall f <- m, e <- entries :: f.key != e.key
    ensures ParseMapping(PrintEntries(entries, indent) + rest, indent, m) == (Map(m + FieldsOf(entries)), rest)
    decreases entries, 0
  {
    hide PrintEntry, ContentValue, PrintableKey, PrintableScalar, ParseMapping, Printable, EmptyBlock;
    if entries == [] {
      NoEntries(indent, rest, m);
    } else {
      var e, tail := entries[0], entries[1..];
      var value := ContentValue(e.content);
      var following := PrintEntries(tail, indent) + rest;
      Joined(PrintEntry(e, indent), PrintEntries(tail, indent), rest);
      FirstLineOfEntries(tail, indent, rest);
      OnlyFirst(entries, indent);
      KeysStayFresh(entries, indent, m, value);
      EntryReadsBack(e, indent, following, m);
      EntriesReadBack(tail, indent, rest, m + [Field(e.key, value)]);
      Joined(m, [Field(e.key, value)], FieldsOf(tail));
    }
  }

  lemma {:induction false} NoEntries(indent: nat, rest: seq<Line>, m: seq<Field>)
    requires Shallower(rest, indent)
    ensures ParseMapping(PrintEntries([], indent) + rest, indent, m) == (Map(m + FieldsOf([])), rest)
  {
    assert PrintEntries([], indent) + rest == rest && m + FieldsOf([]) == m;
  }

  lemma {:induction false} OnlyFirst(entries: seq<Entry>, indent: nat)
    requires entries != [] && PrintableEntries(entries, indent)
    ensures PrintableEntries([entries[0]], indent)
  {
    hide PrintableKey, PrintableScalar, Printable, EmptyBlock;
    assert [entries[0]][1..] == [];
    assert PrintableEntries([], indent);
  }

  lemma {:induction false} Joined<T>(a: seq<T>, b: seq<T>, c: seq<T>)
    ensures a + b + c == a + (b + c)
  {
  }

  // ---- Documents as raw lines ----

  function Spaces(n: nat): string { if n == 0 then "" else " " + Spaces(n - 1) }

  function RawOf(line: Line): string { Spaces(line.indent) + line.content }

  function RawsOf(lines: seq<Line>): seq<string> { if lines == [] then [] else [RawOf(lines[0])] + RawsOf(lines[1..]) }

  /** The loader keeps such a line, and its content is the whole stripped line. */
  predicate Solid(content: string) {
    content != "" && !IsSpace(content[0]) && !IsSpace(content[|content| - 1]) && content[0] != '#'
  }

  lemma {:induction false} IndentedText(indent: nat, content: string)
    requires content != "" && !IsSpace(content[0])
    ensures var raw := Spaces(indent) + content; LeadingSpaces(raw) == indent && LStrip(raw) == content
  {
    var raw := Spaces(indent) + content;
    if indent == 0 {
      assert raw == content;
    } else {
      IndentedText(indent - 1, content);
      assert raw[0] == ' ' && raw[1..] == Spaces(indent - 1) + content;
    }
  }

  lemma {:induction false} LineOfRaw(indent: nat, content: string)
    requires Solid(content)
    ensures var raw := Spaces(indent) + content;
      LeadingSpaces(raw) == indent && LStrip(raw) == content && Strip(raw) == content && !Skipped(raw)
  {
    hide LeadingSpaces, LStrip, Spaces;
    IndentedText(indent, content);
    assert RStrip(content) == content;
    assert content[..1] == [content[0]];
  }

  lemma {:induction false} LinesOfRaws(lines: seq<Line>)
    requires forall l <- lines :: Solid(l.content)
    ensures LinesOf(RawsOf(lines)) == lines
    decreases |lines|
  {
    hide Solid, Skipped, LineOf, LeadingSpaces, Strip;
    if lines != [] {
      assert lines[0] in lines;
      LinesOfRaws(lines[1..]);
      KeptLine(lines[0]);
      LinesOfNext(RawsOf(lines));
      assert RawsOf(lines)[1..] == RawsOf(lines[1..]);
    }
  }

  lemma {:induction false} KeptLine(line: Line)
    requires Solid(line.content)
    ensures !Skipped(RawOf(line)) && LineOf(RawOf(line)) == line
  {
    LineOfRaw(line.indent, line.content);
  }

  lemma {:induction false} KeyIsSolid(key: string, after: string)
    requires PrintableKey(key) && after != "" && after[0] == ':' && !IsSpace(after[|after| - 1])
    ensures Solid(key + after)
  {
    if key != "" {
      SolidOfStrip(key);
      assert key[..1] == [key[0]];
    }
  }

  lemma {:induction false} ValueLineIsSolid(key: string, text: string)
    requires PrintableKey(key) && text != "" && !IsSpace(text[|text| - 1])
    ensures Solid(key + ": " + text)
  {
    assert key + ": " + text == key + (": " + text);
    KeyIsSolid(key, ": " + text);
  }

  lemma {:induction false} EntryLinesAreSolid(e: Entry, indent: nat)
    requires PrintableEntries([e], indent)
    ensures forall l <- PrintEntry(e, indent) :: Solid(l.content)
    decreases e, 3
  {
    hide PrintableKey, PrintableScalar, ScalarText, Solid, EmptyBlock, Visible, Strip, ScalarValue, ParseScalar;
    assert [e][0] == e;
    match e.content
    case Inline(s) =>
      ScalarReadsBack(s);
      ValueLineIsSolid(e.key, ScalarText(s));
    case Nested(block) =>
      KeyIsSolid(e.key, ":");
      LinesAreSolid(block);
    case EmptyMap => KeyIsSolid(e.key, ":");
    case Commented(text) =>
      SolidOfStrip(text);
      ValueLineIsSolid(e.key, text);
  }

  lemma {:induction false} EntriesAreSolid(entries: seq<Entry>, indent: nat)
    requires PrintableEntries(entries, indent)
    ensures forall l <- PrintEntries(entries, indent) :: Solid(l.content)
    decreases entries, 0
  {
    hide PrintEntry, PrintableKey, PrintableScalar, Solid, EmptyBlock, Printable;
    if entries != [] {
      OnlyFirst(entries, indent);
      EntryLinesAreSolid(entries[0], indent);
      EntriesAreSolid(entries[1..], indent);
    }
  }

  lemma {:induction false} ItemsAreSolid(scalars: seq<Scalar>, indent: nat)
    requires forall s <- scalars :: PrintableScalar(s)
    ensures forall l <- PrintItems(scalars, indent) :: Solid(l.content)
    decreases |scalars|
  {
    hide PrintableScalar, ScalarText;
    if scalars != [] {
      ScalarReadsBack(scalars[0]);
      ItemsAreSolid(scalars[1..], indent);
    }
  }

  lemma {:induction false} LinesAreSolid(b: Block)
    requires Printable(b)
    ensures forall l <- PrintLines(b) :: Solid(l.content)
    decreases b, 1
  {
    hide PrintableScalar, Solid, PrintEntries, PrintItems;
    match b
    case MapBlock(indent, entries) => EntriesAreSolid(entries, indent);
    case ListBlock(indent, scalars) => ItemsAreSolid(scalars, indent);
  }

  /** A file whose kept lines are a printed document loads as that document, whatever blank and comment lines it holds. */
  lemma {:induction false} LoadReadsDocument(raws: seq<string>, b: Block)
    requires Printable(b) && b.MapBlock? && LinesOf(raws) == PrintLines(b)
    ensures Load(raws) == FieldsOf(b.entries)
  {
    hide LinesOf, ParseBlock, PrintableEntries, FieldsOf;
    if b.entries == [] {
      EmptyDocument(b);
      assert ParseBlock([], 0) == (Map([]), []) by { NothingToParse(); }
    } else {
      FirstLineOfBlock(b, []);
      BlockReadsBack(b, []);
      assert PrintLines(b) + [] == PrintLines(b);
    }
  }

  lemma {:induction false} NothingToParse()
    ensures ParseBlock([], 0) == (Map([]), [])
  {
  }

  lemma {:induction false} EmptyDocument(b: Block)
    requires b.MapBlock? && b.entries == []
    ensures PrintLines(b) == [] && FieldsOf(b.entries) == []
  {
  }

  /** Loading the printed form of any document returns that document. */
  lemma {:induction false} LoadInvertsPrinting(b: Block)
    requires Printable(b) && b.MapBlock?
    ensures Load(RawsOf(PrintLines(b))) == FieldsOf(b.entries)
  {
    hide Load, LinesOf, Printable, PrintLines, FieldsOf;
    LinesAreSolid(b);
    LinesOfRaws(PrintLines(b));
    LoadReadsDocument(RawsOf(PrintLines(b)), b);
  }

  // ---- Lines that do not matter ----

  /** A blank line, or one whose first character that is not blank is `#`. */
  ghost predicate IsNoise(raw: string) {
    exists k :: 0 <= k <= |raw| && Blank(raw[..k]) && (k < |raw| ==> raw[k] == '#')
  }

  lemma {:induction false} NoiseIsSkipped(raw: string)
    requires IsNoise(raw)
    ensures Skipped(raw)
  {
    var k :| 0 <= k <= |raw| && Blank(raw[..k]) && (k < |raw| ==> raw[k] == '#');
    assert raw == raw[..k] + raw[k..];
    LStripSkips(raw[..k], raw[k..]);
    if k < |raw| {
      assert raw[k..][0] == '#' && LStrip(raw[k..]) == raw[k..];
      assert raw[k..][..1] == "#";
    }
  }

  lemma {:induction false} NoiseLeavesLines(before: seq<string>, raw: string, behind: seq<string>)
    requires IsNoise(raw)
    ensures LinesOf(before + [raw] + behind) == LinesOf(before + behind)
    decreases |before|
  {
    hide Skipped, LineOf, IsNoise;
    NoiseIsSkipped(raw);
    if before == [] {
      assert before + [raw] + behind == [raw] + behind && before + behind == behind;
      assert ([raw] + behind)[1..] == behind;
      LinesOfNext([raw] + behind);
    } else {
      var with, without := before + [raw] + behind, before + behind;
      assert with[1..] == before[1..] + [raw] + behind && without[1..] == before[1..] + behind;
      LinesOfNext(with);
      LinesOfNext(without);
      NoiseLeavesLines(before[1..], raw, behind);
    }
  }

  /** A blank or comment line put in anywhere leaves what is loaded as it was. */
  lemma {:induction false} NoiseDoesNotMatter(before: seq<string>, raw: string, behind: seq<string>)
    requires IsNoise(raw)
    ensures Load(before + [raw] + behind) == Load(before + behind)
  {
    hide IsNoise, LinesOf, ParseBlock;
    NoiseLeavesLines(before, raw, behind);
  }

  // ---- Repeated keys and stray lines ----

  /** A line with key and value, a deeper line, or one of no depth that has no colon and is no item. */
  datatype FlatLine = Pair(key: string, scalar: Scalar) | Deeper(indent: nat, content: string) | Loose(content: string)

  predicate FlatFits(l: FlatLine) {
    match l
    case Pair(key, scalar) => PrintableKey(key) && PrintableScalar(scalar) && Visible(scalar)
    case Deeper(indent, content) => indent > 0 && Solid(content)
    case Loose(content) => Solid(content) && ':' !in content && !StartsWith(content, "- ")
  }

  function FlatText(l: FlatLine): Line {
    match l
    case Pair(key, scalar) => Line(0, key + ": " + ScalarText(scalar))
    case Deeper(indent, content) => Line(indent, content)
    case Loose(content) => Line(0, content)
  }

  function FlatTexts(ls: seq<FlatLine>): seq<Line> { if ls == [] then [] else [FlatText(ls[0])] + FlatTexts(ls[1..]) }

  /** The value of the last pair with that key. */
  function LastValue(ls: seq<FlatLine>, key: string): seq<Value> {
    if ls == [] then []
    else
      var last := ls[|ls| - 1];
      if last.Pair? && last.key == key then [ScalarValue(last.scalar)] else LastValue(ls[..|ls| - 1], key)
  }

  /** What a mapping holds under a key. */
  function Lookup(m: seq<Field>, key: string): seq<Value> {
    if m == [] then [] else if m[0].key == key then [m[0].value] else Lookup(m[1..], key)
  }

  lemma {:induction false} PutSets(m: seq<Field>, key: string, value: Value, other: string)
    ensures Lookup(Put(m, key, value), other) == if other == key then [value] else Lookup(m, other)
    decreases |m|
  {
    if m != [] && m[0].key != key {
      PutSets(m[1..], key, value, other);
    } else if m != [] {
      assert ([Field(key, value)] + m[1..])[1..] == m[1..];
    }
  }

  lemma {:induction false} FlatStep(l: FlatLine, rest: seq<Line>, m: seq<Field>)
    requires FlatFits(l)
    ensures ParseMapping([FlatText(l)] + rest, 0, m)
      == ParseMapping(rest, 0, if l.Pair? then Put(m, l.key, ScalarValue(l.scalar)) else m)
  {
    hide PrintableScalar, ScalarText, ScalarValue, ParseScalar, PrintableKey, KeyOf, InlineOf, StartsWith, ParseBlock, Solid;
    var lines := [FlatText(l)] + rest;
    assert lines[1..] == rest;
    match l
    case Pair(key, scalar) => InlineLineReadsBack(key, scalar);
    case Deeper(_, _) =>
    case Loose(content) => NoColon(content);
  }

  lemma {:induction false} NoColon(content: string)
    requires ':' !in content
    ensures Colon(content) == |content|
  {
  }

  lemma {:induction false} FlatFold(ls: seq<FlatLine>, m: seq<Field>) returns (fields: seq<Field>)
    requires forall l <- ls :: FlatFits(l)
    ensures ParseMapping(FlatTexts(ls), 0, m).0 == Map(fields)
    ensures forall key :: Lookup(fields, key) == if LastValue(ls, key) != [] then LastValue(ls, key) else Lookup(m, key)
    decreases |ls|
  {
    hide FlatFits, ScalarValue, FlatText;
    if ls == [] {
      fields := m;
    } else {
      var l, rest := ls[0], ls[1..];
      assert l in ls && forall x <- rest :: x in ls;
      FlatStep(l, FlatTexts(rest), m);
      var next := if l.Pair? then Put(m, l.key, ScalarValue(l.scalar)) else m;
      fields := FlatFold(rest, next);
      forall key ensures Lookup(fields, key) == if LastValue(ls, key) != [] then LastValue(ls, key) else Lookup(m, key) {
        LastOfRest(ls, key);
        if l.Pair? { PutSets(m, l.key, ScalarValue(l.scalar), key); }
      }
    }
  }

  lemma {:induction false} LastOfRest(ls: seq<FlatLine>, key: string)
    requires ls != []
    ensures LastValue(ls, key) ==
      if LastValue(ls[1..], key) != [] then LastValue(ls[1..], key)
      else if ls[0].Pair? && ls[0].key == key then [ScalarValue(ls[0].scalar)] else []
    decreases |ls|
  {
    hide ScalarValue;
    var n := |ls| - 1;
    if n > 0 {
      assert ls[1..][..n - 1] == ls[..n][1..] && ls[1..][n - 1] == ls[n];
      LastOfRest(ls[..n], key);
    } else {
      assert ls[1..] == [];
      assert LastValue(ls[..0], key) == [];
    }
  }

  lemma {:induction false} FlatIsSolid(ls: seq<FlatLine>)
    requires forall l <- ls :: FlatFits(l)
    ensures forall line <- FlatTexts(ls) :: Solid(line.content)
    decreases |ls|
  {
    hide PrintableScalar, PrintableKey, Solid, ScalarText, StartsWith, Visible;
    if ls != [] {
      assert ls[0] in ls && forall x <- ls[1..] :: x in ls;
      FlatIsSolid(ls[1..]);
      if ls[0].Pair? {
        ScalarReadsBack(ls[0].scalar);
        ValueLineIsSolid(ls[0].key, ScalarText(ls[0].scalar));
      }
    }
  }

  /**
   * In a file of pairs the last value of each key counts, and deeper lines behind a pair and lines without a colon are
   * skipped.
   */
  lemma {:induction false} LastPairCounts(first: FlatLine, ls: seq<FlatLine>)
    requires first.Pair? && FlatFits(first) && forall l <- ls :: FlatFits(l)
    ensures forall key :: Lookup(Load(RawsOf(FlatTexts([first] + ls))), key) == LastValue([first] + ls, key)
  {
    hide LinesOf, ParseMapping, FlatFits, LastValue, Lookup, ScalarText;
    var all := [first] + ls;
    var texts := FlatTexts(all);
    forall l <- all ensures FlatFits(l) { assert l == first || l in ls; }
    FlatIsSolid(all);
    LinesOfRaws(texts);
    FirstIsNoItem(first, ls);
    var fields := FlatFold(all, []);
    forall key ensures Lookup([], key) == [] { NothingThere(key); }
  }

  lemma {:induction false} NothingThere(key: string)
    ensures Lookup([], key) == []
  {
  }

  lemma {:induction false} FirstIsNoItem(first: FlatLine, ls: seq<FlatLine>)
    requires first.Pair? && FlatFits(first)
    ensures var texts := FlatTexts([first] + ls); texts != [] && texts[0].indent == 0 && !IsItem(texts[0])
  {
    hide PrintableScalar, ScalarText, Visible;
    var c := first.key + ": " + ScalarText(first.scalar);
    assert c == first.key + (": " + ScalarText(first.scalar));
    KeyIsNoItem(first.key, ": " + ScalarText(first.scalar));
  }
}
