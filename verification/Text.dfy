/** The string operations the scripts use, over ASCII whitespace and letters. */
module Text {

  predicate IsSpace(c: char) {
    c == ' ' || '\t' <= c <= '\r' || '\U{1c}' <= c <= '\U{1f}'
  }

  predicate IsDigit(c: char) { '0' <= c <= '9' }

  predicate IsAlphanumeric(c: char) { IsDigit(c) || 'A' <= c <= 'Z' || 'a' <= c <= 'z' }

  function UpperChar(c: char): char {
    if 'a' <= c <= 'z' then (c as int - 32) as char else c
  }

  function LowerChar(c: char): char {
    if 'A' <= c <= 'Z' then (c as int + 32) as char
    else if c == 'Ä' then 'ä' else if c == 'Ö' then 'ö' else if c == 'Ü' then 'ü' else c
  }

  function Upper(s: string): string { seq(|s|, k requires 0 <= k < |s| => UpperChar(s[k])) }

  function Lower(s: string): string { seq(|s|, k requires 0 <= k < |s| => LowerChar(s[k])) }

  function LStrip(s: string): string {
    if s != "" && IsSpace(s[0]) then LStrip(s[1..]) else s
  }

  function RStrip(s: string): string {
    if s != "" && IsSpace(s[|s| - 1]) then RStrip(s[..|s| - 1]) else s
  }

  function Strip(s: string): string { RStrip(LStrip(s)) }

  predicate StartsWith(s: string, prefix: string) { |prefix| <= |s| && s[..|prefix|] == prefix }

  /** `s.split(c)`. */
  function SplitOn(s: string, c: char): (parts: seq<string>)
    ensures parts != []
  {
    if s == "" then [""]
    else
      var rest := SplitOn(s[1..], c);
      if s[0] == c then [""] + rest else [[s[0]] + rest[0]] + rest[1..]
  }

  // ---- Stripping ----

  lemma {:induction false} RStripIsPrefix(s: string)
    ensures |RStrip(s)| <= |s| && RStrip(s) == s[..|RStrip(s)|]
    decreases |s|
  {
    if s != "" && IsSpace(s[|s| - 1]) {
      RStripIsPrefix(s[..|s| - 1]);
      assert s[..|s| - 1][..|RStrip(s)|] == s[..|RStrip(s)|];
    }
  }

  lemma {:induction false} LStripShape(s: string)
    ensures |LStrip(s)| <= |s| && (LStrip(s) != "" ==> !IsSpace(LStrip(s)[0]))
    ensures |LStrip(s)| == |s| ==> LStrip(s) == s
    decreases |s|
  {
    if s != "" && IsSpace(s[0]) { LStripShape(s[1..]); }
  }

  lemma {:induction false} RStripShape(s: string)
    ensures RStrip(s) != "" ==> !IsSpace(RStrip(s)[|RStrip(s)| - 1])
    decreases |s|
  {
    if s != "" && IsSpace(s[|s| - 1]) { RStripShape(s[..|s| - 1]); }
  }

  lemma {:induction false} StripOfSolid(s: string)
    requires s != "" && !IsSpace(s[0]) && !IsSpace(s[|s| - 1])
    ensures Strip(s) == s
  {
  }

  lemma {:induction false} SolidOfStrip(s: string)
    requires s != "" && Strip(s) == s
    ensures !IsSpace(s[0]) && !IsSpace(s[|s| - 1])
  {
    LStripShape(s);
    RStripIsPrefix(LStrip(s));
    RStripShape(LStrip(s));
  }

  /** What is stripped once has nothing left to strip. */
  lemma {:induction false} StripIsIdempotent(s: string)
    ensures Strip(Strip(s)) == Strip(s)
  {
    var t := Strip(s);
    if t != "" {
      LStripShape(s);
      RStripIsPrefix(LStrip(s));
      RStripShape(LStrip(s));
      StripOfSolid(t);
    }
  }

  predicate Blank(s: string) { forall k :: 0 <= k < |s| ==> IsSpace(s[k]) }

  lemma {:induction false} LStripSkips(front: string, rest: string)
    requires Blank(front)
    ensures LStrip(front + rest) == LStrip(rest)
    decreases |front|
  {
    if front == "" {
      assert front + rest == rest;
    } else {
      assert (front + rest)[1..] == front[1..] + rest;
      LStripSkips(front[1..], rest);
    }
  }

  lemma {:induction false} RStripSkips(text: string, back: string)
    requires Blank(back)
    ensures RStrip(text + back) == RStrip(text)
    decreases |back|
  {
    if back == "" {
      assert text + back == text;
    } else {
      assert (text + back)[..|text + back| - 1] == text + back[..|back| - 1];
      RStripSkips(text, back[..|back| - 1]);
    }
  }

  /** Stripping takes off exactly the blanks around a text that has none at its ends. */
  lemma {:induction false} StripTakesTheMiddle(front: string, text: string, back: string)
    requires Blank(front) && Blank(back) && (text != "" ==> !IsSpace(text[0]) && !IsSpace(text[|text| - 1]))
    ensures Strip(front + text + back) == text
  {
    assert front + text + back == front + (text + back);
    LStripSkips(front, text + back);
    if text == "" {
      assert text + back == back + "";
      LStripSkips(back, "");
    } else {
      assert LStrip(text + back) == text + back;
      RStripSkips(text, back);
      assert RStrip(text) == text;
    }
  }

  // ---- Splitting ----

  /** A part runs from the start or a mark to the end or the next mark, and holds none. */
  predicate PartBetween(s: string, c: char, i: nat, j: nat) {
    i <= j <= |s| && (i == 0 || s[i - 1] == c) && (j == |s| || s[j] == c) && c !in s[i..j]
  }

  /** Such a part reads `t`. */
  ghost predicate IsPart(s: string, c: char, t: string) {
    exists i: nat, j: nat :: PartBetween(s, c, i, j) && t == s[i..j]
  }

  lemma {:induction false} FirstPart(s: string, c: char)
    ensures var first := SplitOn(s, c)[0];
      |first| <= |s| && first == s[..|first|] && c !in first && (|first| == |s| || s[|first|] == c)
    decreases |s|
  {
    if s != "" {
      FirstPart(s[1..], c);
      var rest := SplitOn(s[1..], c)[0];
      if s[0] != c {
        assert s[..|rest| + 1] == [s[0]] + s[1..][..|rest|];
      }
    }
  }

  /** The parts of a text are exactly what stands between its marks. */
  lemma {:induction false} PartsAreBetween(s: string, c: char, t: string)
    ensures t in SplitOn(s, c) <==> IsPart(s, c, t)
    decreases |s|
  {
    if s == "" {
      assert PartBetween(s, c, 0, 0) && s[0..0] == "";
    } else {
      PartsAreBetween(s[1..], c, t);
      if t in SplitOn(s, c) { SplitIsBetween(s, c, t); }
      if i: nat, j: nat :| PartBetween(s, c, i, j) && t == s[i..j] { BetweenIsSplit(s, c, i, j); }
    }
  }

  lemma {:induction false} ShiftedPart(s: string, c: char, i: nat, j: nat)
    requires s != "" && i <= j < |s| && PartBetween(s[1..], c, i, j) && (i > 0 || s[0] == c)
    ensures j < |s| && PartBetween(s, c, i + 1, j + 1) && s[i + 1..j + 1] == s[1..][i..j]
  {
    TailPart(s, i + 1, j + 1);
  }

  lemma {:induction false} PartIndices(s: string, c: char, t: string) returns (i: nat, j: nat)
    requires IsPart(s, c, t)
    ensures i <= j <= |s| && PartBetween(s, c, i, j) && t == s[i..j]
  {
    i, j :| PartBetween(s, c, i, j) && t == s[i..j];
  }

  lemma {:induction false} FirstIsPart(s: string, c: char)
    ensures IsPart(s, c, SplitOn(s, c)[0])
  {
    hide SplitOn;
    FirstPart(s, c);
    var first := SplitOn(s, c)[0];
    assert PartBetween(s, c, 0, |first|) && s[0..|first|] == first;
  }

  lemma {:induction false} SplitIsBetween(s: string, c: char, t: string)
    requires s != "" && t in SplitOn(s, c)
    requires t in SplitOn(s[1..], c) ==> IsPart(s[1..], c, t)
    ensures IsPart(s, c, t)
  {
    hide PartBetween;
    FirstIsPart(s, c);
    if t != SplitOn(s, c)[0] {
      if s[0] == c {
        var i, j := PartIndices(s[1..], c, t);
        ShiftedPart(s, c, i, j);
      } else {
        assert t in SplitOn(s[1..], c)[1..];
        var i, j := LaterPart(s[1..], c, t);
        ShiftedPart(s, c, i, j);
      }
    }
  }

  /** A part behind the first one begins behind a mark. */
  lemma {:induction false} LaterPart(s: string, c: char, t: string) returns (i: nat, j: nat)
    requires t in SplitOn(s, c)[1..]
    ensures 0 < i <= j <= |s| && PartBetween(s, c, i, j) && t == s[i..j]
    decreases |s|
  {
    hide PartBetween;
    var tail := s[1..];
    if s[0] == c && t == SplitOn(tail, c)[0] {
      FirstPart(tail, c);
      i, j := 0, |t|;
      assert PartBetween(tail, c, 0, j) && t == tail[0..j] by { StartsPart(tail, c, j); }
      ShiftedPart(s, c, 0, j);
    } else {
      assert t in SplitOn(tail, c)[1..];
      i, j := LaterPart(tail, c, t);
      ShiftedPart(s, c, i, j);
    }
    i, j := i + 1, j + 1;
  }

  lemma {:induction false} StartsPart(s: string, c: char, j: nat)
    requires j <= |s| && c !in s[..j] && (j == |s| || s[j] == c)
    ensures PartBetween(s, c, 0, j) && s[0..j] == s[..j]
  {
  }

  lemma {:induction false} TailPart(s: string, i: nat, j: nat)
    requires 0 < i <= j <= |s|
    ensures s[1..][i - 1..j - 1] == s[i..j]
  {
  }

  lemma {:induction false} BetweenIsSplit(s: string, c: char, i: nat, j: nat)
    requires s != "" && PartBetween(s, c, i, j)
    requires (exists k: nat, l: nat :: PartBetween(s[1..], c, k, l) && s[i..j] == s[1..][k..l]) ==> s[i..j] in SplitOn(s[1..], c)
    ensures s[i..j] in SplitOn(s, c)
  {
    if i == 0 {
      SamePart(s, c, j);
    } else {
      var tail := s[1..];
      TailPart(s, i, j);
      assert PartBetween(tail, c, i - 1, j - 1);
      var rest := SplitOn(tail, c);
      assert s[i..j] in rest;
      if s[0] != c {
        BehindFirst(tail, c, i - 1, j - 1);
        assert SplitOn(s, c) == [[s[0]] + rest[0]] + rest[1..];
      }
    }
  }

  lemma {:induction false} BehindFirst(s: string, c: char, i: nat, j: nat)
    requires i > 0 && PartBetween(s, c, i, j)
    ensures s[i..j] in SplitOn(s, c)[1..]
    decreases |s|
  {
    var tail := s[1..];
    var rest := SplitOn(tail, c);
    TailPart(s, i, j);
    assert PartBetween(tail, c, i - 1, j - 1);
    if i == 1 {
      SamePart(tail, c, j - 1);
    } else {
      BehindFirst(tail, c, i - 1, j - 1);
    }
  }

  lemma {:induction false} SamePart(s: string, c: char, j: nat)
    requires PartBetween(s, c, 0, j)
    ensures s[..j] == SplitOn(s, c)[0]
  {
    FirstPart(s, c);
    var first := SplitOn(s, c)[0];
    assert forall k :: 0 <= k < j ==> s[k] in s[0..j];
    assert forall k :: 0 <= k < |first| ==> s[k] in first;
  }
}
