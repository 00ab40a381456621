/** scripts/nac_hw_bridge.py: zero-padded matter numbers, safe identifiers and import-proposal ids. */
module Identifiers {
  import opened Text

  // ---- Decimal numbers ----

  function Digit(d: nat): char
    requires d < 10
  {
    ('0' as int + d) as char
  }

  function Decimal(n: nat): (s: string)
    ensures s != "" && forall c <- s :: IsDigit(c)
  {
    if n < 10 then [Digit(n)] else Decimal(n / 10) + [Digit(n % 10)]
  }

  predicate AllDigits(s: string) { forall k :: 0 <= k < |s| ==> IsDigit(s[k]) }

  function ParseDecimal(s: string): nat
    requires AllDigits(s)
  {
    if s == "" then 0 else ParseDecimal(s[..|s| - 1]) * 10 + (s[|s| - 1] as int - '0' as int)
  }

  function Zeros(n: nat): string { seq(n, _ => '0') }

  /** `f"{n:0{width}d}"`: padded on the left, never cut. */
  function Padded(n: nat, width: nat): string {
    var s := Decimal(n);
    if |s| < width then Zeros(width - |s|) + s else s
  }

  lemma {:induction false} ParseInvertsDecimal(n: nat)
    ensures ParseDecimal(Decimal(n)) == n
  {
    if n >= 10 {
      ParseInvertsDecimal(n / 10);
      assert Decimal(n)[..|Decimal(n)| - 1] == Decimal(n / 10);
    } else {
      assert [Digit(n)][..0] == "";
    }
  }

  lemma {:induction false} ParseSkipsZeros(k: nat, s: string)
    requires AllDigits(s)
    ensures AllDigits(Zeros(k) + s) && ParseDecimal(Zeros(k) + s) == ParseDecimal(s)
    decreases k + |s|
  {
    var t := Zeros(k) + s;
    if s != "" {
      ParseSkipsZeros(k, s[..|s| - 1]);
      assert t[..|t| - 1] == Zeros(k) + s[..|s| - 1];
    } else if k > 0 {
      ParseSkipsZeros(k - 1, "");
      assert t[..|t| - 1] == Zeros(k - 1) + "";
    }
  }

  /** Formatting and parsing are inverse, at every width. */
  lemma {:induction false} ParseInvertsPadded(n: nat, width: nat)
    ensures AllDigits(Padded(n, width)) && ParseDecimal(Padded(n, width)) == n
  {
    ParseInvertsDecimal(n);
    if |Decimal(n)| < width {
      ParseSkipsZeros(width - |Decimal(n)|, Decimal(n));
    }
  }

  lemma {:induction false} DecimalLength(n: nat, width: nat, bound: nat)
    requires 1 <= width && bound == Power10(width)
    ensures |Decimal(n)| <= width <==> n < bound
    decreases width
  {
    if n >= 10 && width > 1 {
      DecimalLength(n / 10, width - 1, Power10(width - 1));
    }
  }

  function Power10(k: nat): (r: nat)
    ensures r >= 1
  {
    if k == 0 then 1 else 10 * Power10(k - 1)
  }

  /** Four digits hold exactly the numbers up to 9999. */
  lemma {:induction false} FourDigits(n: nat)
    ensures |Padded(n, 4)| == 4 <==> n <= 9999
  {
    assert Power10(4) == 10000 by {
      assert Power10(1) == 10 && Power10(2) == 100 && Power10(3) == 1000;
    }
    DecimalLength(n, 4, 10000);
  }

  // ---- Matter ids ----

  /** `f"UVZ-{year}-{number:04d}"`. */
  function MatterId(year: string, number: nat): string {
    "UVZ-" + year + "-" + Padded(number, 4)
  }

  /** The number in a folder name matching `^UVZ-{year}-(\d{4})$`, or 0 when the name does not match. */
  function ScannedNumber(year: string, name: string): nat {
    var front := "UVZ-" + year + "-";
    if |name| == |front| + 4 && name[..|front|] == front && AllDigits(name[|front|..])
    then ParseDecimal(name[|front|..]) else 0
  }

  /** The scan reads back exactly the numbers up to 9999; anything larger is invisible to it. */
  lemma {:induction false} ScanInvertsMatterId(year: string, number: nat)
    ensures ScannedNumber(year, MatterId(year, number)) == if number <= 9999 then number else 0
  {
    var front := "UVZ-" + year + "-";
    var name := MatterId(year, number);
    assert name[..|front|] == front && name[|front|..] == Padded(number, 4);
    ParseInvertsPadded(number, 4);
    FourDigits(number);
  }

  lemma {:induction false} MatterIdIsInjective(year: string, m: nat, year': string, n: nat)
    requires |year| == |year'| && MatterId(year, m) == MatterId(year', n)
    ensures year == year' && m == n
  {
    hide Padded, AllDigits, ParseDecimal;
    var a, b := MatterId(year, m), MatterId(year', n);
    assert a[4..4 + |year|] == year && b[4..4 + |year|] == year';
    assert a[5 + |year|..] == Padded(m, 4) && b[5 + |year|..] == Padded(n, 4);
    ParseInvertsPadded(m, 4);
    ParseInvertsPadded(n, 4);
  }

  // ---- Safe identifiers ----

  /** `re.sub(r"[^A-Za-z0-9]+", "-", s)`: every run of other characters becomes one dash. */
  function Squeeze(s: string): string {
    if s == "" then ""
    else
      var front, c := Squeeze(s[..|s| - 1]), s[|s| - 1];
      if IsAlphanumeric(c) then front + [c]
      else if front != "" && front[|front| - 1] == '-' then front
      else front + "-"
  }

  function TrimLeft(s: string): string {
    if s != "" && s[0] == '-' then TrimLeft(s[1..]) else s
  }

  function TrimRight(s: string): string {
    if s != "" && s[|s| - 1] == '-' then TrimRight(s[..|s| - 1]) else s
  }

  function SafeIdentifier(value: string): string {
    var normalized := Upper(TrimRight(TrimLeft(Squeeze(value))));
    if normalized == "" then "UNBENANNT" else normalized
  }

  // ---- Safe identifiers in elementary terms ----

  /** Texts are squeezed one by one, unless a run of other characters goes on from one to the next. */
  lemma {:induction false} SqueezeJoins(a: string, b: string)
    requires a == "" || b == "" || IsAlphanumeric(a[|a| - 1]) || IsAlphanumeric(b[0])
    ensures Squeeze(a + b) == Squeeze(a) + Squeeze(b)
    decreases |b|
  {
    SqueezedEnd("");
    hide Squeeze, IsAlphanumeric;
    if b == "" {
      assert a + b == a;
    } else {
      var n := |b| - 1;
      SqueezeJoins(a, b[..n]);
      SqueezeOneMore(a, b[..n], b[n]);
      assert b == b[..n] + [b[n]] && a + b == a + b[..n] + [b[n]];
    }
  }

  lemma {:induction false} SqueezeOneMore(a: string, b: string, c: char)
    requires Squeeze(a + b) == Squeeze(a) + Squeeze(b)
    requires a == "" || b != "" || IsAlphanumeric(a[|a| - 1]) || IsAlphanumeric(c)
    ensures Squeeze(a + b + [c]) == Squeeze(a) + Squeeze(b + [c])
  {
    SqueezeNext(a + b, c);
    SqueezeNext(b, c);
    SqueezedEnd(b);
    hide Squeeze, IsAlphanumeric;
    if b == "" {
      assert a + b == a && Squeeze(a) + Squeeze(b) == Squeeze(a);
    } else {
      assert (a + b)[|a + b| - 1] == b[|b| - 1];
    }
  }

  lemma {:induction false} SqueezeNext(s: string, c: char)
    ensures Squeeze(s + [c]) ==
      if IsAlphanumeric(c) then Squeeze(s) + [c]
      else if s != "" && !IsAlphanumeric(s[|s| - 1]) then Squeeze(s)
      else Squeeze(s) + "-"
  {
    SqueezedEnd(s);
    assert (s + [c])[..|s|] == s;
  }

  lemma {:induction false} SqueezedEnd(s: string)
    ensures s != "" ==> Squeeze(s) != "" && (Squeeze(s)[|Squeeze(s)| - 1] == '-' <==> !IsAlphanumeric(s[|s| - 1]))
    ensures s == "" ==> Squeeze(s) == ""
  {
  }

  /** A run of other characters becomes one dash, and letters and digits stay. */
  lemma {:induction false} SqueezeRun(run: string)
    requires run != ""
    ensures (forall k :: 0 <= k < |run| ==> !IsAlphanumeric(run[k])) ==> Squeeze(run) == "-"
    ensures (forall k :: 0 <= k < |run| ==> IsAlphanumeric(run[k])) ==> Squeeze(run) == run
    decreases |run|
  {
    if |run| > 1 { SqueezeRun(run[..|run| - 1]); }
  }

  lemma {:induction false} SqueezeChar(c: char)
    ensures Squeeze([c]) == if '0' <= c <= '9' || 'A' <= c <= 'Z' || 'a' <= c <= 'z' then [c] else "-"
  {
    assert [c][..0] == "";
  }

  ghost predicate AllDashes(s: string) { forall k :: 0 <= k < |s| ==> s[k] == '-' }

  /** Dashes at both ends are dropped and the rest is put into capitals; where nothing is left, it is `UNBENANNT`. */
  lemma {:induction false} SafeIdentifierTrims(value: string, lead: string, core: string, trail: string)
    requires Squeeze(value) == lead + core + trail && AllDashes(lead) && AllDashes(trail)
    requires core != "" ==> core[0] != '-' && core[|core| - 1] != '-'
    requires core == "" ==> trail == ""
    ensures SafeIdentifier(value) == if core == "" then "UNBENANNT" else Upper(core)
  {
    assert lead + core + trail == lead + (core + trail);
    TrimsLead(lead, core + trail);
    TrimsTrail(core, trail);
    assert core == "" ==> Upper(core) == "";
  }

  lemma {:induction false} TrimsLead(lead: string, rest: string)
    requires AllDashes(lead) && (rest != "" ==> rest[0] != '-')
    ensures TrimLeft(lead + rest) == rest
    decreases |lead|
  {
    if lead == "" {
      assert lead + rest == rest;
    } else {
      assert lead[0] == '-' && (lead + rest)[1..] == lead[1..] + rest;
      TrimsLead(lead[1..], rest);
    }
  }

  lemma {:induction false} TrimsTrail(core: string, trail: string)
    requires AllDashes(trail) && (core != "" ==> core[|core| - 1] != '-')
    ensures TrimRight(core + trail) == core
    decreases |trail|
  {
    if trail == "" {
      assert core + trail == core;
    } else {
      var n := |trail| - 1;
      assert trail[n] == '-' && (core + trail)[..|core| + n] == core + trail[..n];
      TrimsTrail(core, trail[..n]);
    }
  }

  predicate IsIdChar(c: char) { IsDigit(c) || 'A' <= c <= 'Z' || c == '-' }

  predicate NoDoubleDash(s: string) {
    forall i, j :: 0 <= i < j < |s| && s[i] == '-' && s[j] == '-' ==> i + 1 < j
  }

  /** Capitals, digits and single inner dashes; a trailing dash is still allowed. */
  predicate Tidy(s: string) {
    && (forall k :: 0 <= k < |s| ==> IsIdChar(s[k]))
    && NoDoubleDash(s)
    && (s != "" ==> s[0] != '-')
  }

  predicate Canonical(s: string) {
    Tidy(s) && s != "" && s[|s| - 1] != '-'
  }

  lemma {:induction false} SqueezeOfAppend(x: string, t: string)
    requires Tidy(t)
    ensures Squeeze(x + t) == Squeeze(x) + t
    decreases |t|
  {
    if t == "" {
      assert x + t == x;
    } else {
      var n := |t| - 1;
      SqueezeOfAppend(x, t[..n]);
      assert (x + t)[..|x + t| - 1] == x + t[..n];
      assert t == t[..n] + [t[n]];
      if n > 0 {
        assert t[..n][n - 1] == t[n - 1];
      }
    }
  }

  lemma {:induction false} SqueezeShape(s: string)
    ensures forall k :: 0 <= k < |Squeeze(s)| ==> IsAlphanumeric(Squeeze(s)[k]) || Squeeze(s)[k] == '-'
    ensures NoDoubleDash(Squeeze(s))
    decreases |s|
  {
    if s != "" {
      SqueezeShape(s[..|s| - 1]);
    }
  }

  lemma {:induction false} UpperOfShape(s: string)
    requires forall k :: 0 <= k < |s| ==> IsAlphanumeric(s[k]) || s[k] == '-'
    ensures forall k :: 0 <= k < |s| ==> IsIdChar(Upper(s)[k]) && (Upper(s)[k] == '-' <==> s[k] == '-')
  {
  }

  /** Every safe identifier is canonical. */
  lemma {:induction false} SafeIdentifierIsCanonical(value: string)
    ensures Canonical(SafeIdentifier(value))
  {
    hide Squeeze, TrimLeft, TrimRight, Upper;
    var s := Squeeze(value);
    SqueezeShape(value);
    TrimLeftShape(s);
    var t := TrimLeft(s);
    TrimRightShape(t);
    var u := TrimRight(t);
    assert NoDoubleDash(u) by { PartKeepsDashes(s, t, u); }
    UpperOfShape(u);
    UpperKeepsLength(u);
    assert Canonical("UNBENANNT") by { assert forall k :: 0 <= k < 9 ==> IsIdChar("UNBENANNT"[k]) && "UNBENANNT"[k] != '-'; }
  }

  lemma {:induction false} UpperKeepsLength(s: string)
    ensures |Upper(s)| == |s|
  {
  }

  lemma {:induction false} PartKeepsDashes(s: string, t: string, u: string)
    requires NoDoubleDash(s) && (exists n: nat :: n <= |s| && t == s[n..]) && u <= t
    ensures NoDoubleDash(u)
  {
  }

  lemma {:induction false} TrimLeftShape(s: string)
    ensures exists n: nat :: n <= |s| && TrimLeft(s) == s[n..]
    ensures TrimLeft(s) != "" ==> TrimLeft(s)[0] != '-'
  {
    if s != "" && s[0] == '-' {
      TrimLeftShape(s[1..]);
      var n: nat :| n <= |s[1..]| && TrimLeft(s[1..]) == s[1..][n..];
      assert s[1..][n..] == s[n + 1..];
    } else {
      assert s[0..] == s;
    }
  }

  lemma {:induction false} TrimRightShape(s: string)
    ensures TrimRight(s) <= s
    ensures TrimRight(s) != "" ==> TrimRight(s)[|TrimRight(s)| - 1] != '-'
  {
    if s != "" && s[|s| - 1] == '-' {
      TrimRightShape(s[..|s| - 1]);
    }
  }

  lemma {:induction false} UpperFixesIds(s: string)
    requires forall k :: 0 <= k < |s| ==> IsIdChar(s[k])
    ensures Upper(s) == s
  {
    forall k | 0 <= k < |s| ensures Upper(s)[k] == s[k] {
      assert IsIdChar(s[k]);
    }
  }

  lemma {:induction false} CanonicalIsSafe(s: string)
    requires Canonical(s)
    ensures SafeIdentifier(s) == s
  {
    SqueezeOfAppend("", s);
    assert "" + s == s;
    UpperFixesIds(s);
  }

  lemma {:induction false} SafeIdentifierIsIdempotent(value: string)
    ensures SafeIdentifier(SafeIdentifier(value)) == SafeIdentifier(value)
  {
    SafeIdentifierIsCanonical(value);
    CanonicalIsSafe(SafeIdentifier(value));
  }

  lemma {:induction false} SqueezeOfLower(s: string)
    ensures Squeeze(Lower(s)) == Lower(Squeeze(s))
    decreases |s|
  {
    if s != "" {
      var n := |s| - 1;
      SqueezeOfLower(s[..n]);
      assert Lower(s)[..n] == Lower(s[..n]);
    }
  }

  lemma {:induction false} TrimLeftOfLower(s: string)
    ensures TrimLeft(Lower(s)) == Lower(TrimLeft(s))
    decreases |s|
  {
    if s != "" {
      TrimLeftOfLower(s[1..]);
      assert Lower(s)[1..] == Lower(s[1..]);
    }
  }

  lemma {:induction false} TrimRightOfLower(s: string)
    ensures TrimRight(Lower(s)) == Lower(TrimRight(s))
    decreases |s|
  {
    if s != "" {
      TrimRightOfLower(s[..|s| - 1]);
      assert Lower(s)[..|s| - 1] == Lower(s[..|s| - 1]);
    }
  }

  lemma {:induction false} PartsOfSqueezed(s: string)
    ensures var u := TrimRight(TrimLeft(Squeeze(s)));
      forall k :: 0 <= k < |u| ==> IsAlphanumeric(u[k]) || u[k] == '-'
  {
    hide Squeeze, TrimLeft, TrimRight, NoDoubleDash;
    SqueezeShape(s);
    TrimLeftShape(Squeeze(s));
    TrimRightShape(TrimLeft(Squeeze(s)));
  }

  /** Spellings that differ in capitals only have the same safe identifier. */
  lemma {:induction false} SafeIdentifierIgnoresCase(value: string)
    ensures SafeIdentifier(Lower(value)) == SafeIdentifier(value)
  {
    hide Squeeze, TrimLeft, TrimRight;
    SqueezeOfLower(value);
    TrimLeftOfLower(Squeeze(value));
    TrimRightOfLower(TrimLeft(Squeeze(value)));
    PartsOfSqueezed(value);
    var u := TrimRight(TrimLeft(Squeeze(value)));
    assert Upper(Lower(u)) == Upper(u);
  }

  lemma {:induction false} CanonicalJoins(a: string, b: string)
    requires Canonical(a) && Canonical(b)
    ensures Canonical(a + "-" + b)
  {
  }

  lemma {:induction false} DecimalIsCanonical(n: nat)
    ensures Canonical(Decimal(n))
  {
    var s := Decimal(n);
    assert forall k :: 0 <= k < |s| ==> s[k] in s && IsDigit(s[k]);
  }

  lemma {:induction false} MatterIdIsCanonical(year: string, number: nat)
    requires year != "" && AllDigits(year)
    ensures Canonical(MatterId(year, number))
  {
    hide Canonical, Padded, AllDigits;
    ParseInvertsPadded(number, 4);
    assert Canonical("UVZ") by { FrontIsCanonical(); }
    DigitsAreCanonical(year);
    PaddedIsNotEmpty(number, 4);
    DigitsAreCanonical(Padded(number, 4));
    CanonicalJoins("UVZ", year);
    assert "UVZ" + "-" + year == "UVZ-" + year;
    CanonicalJoins("UVZ-" + year, Padded(number, 4));
  }

  lemma {:induction false} PaddedIsNotEmpty(n: nat, width: nat)
    ensures Padded(n, width) != ""
  {
  }

  lemma {:induction false} FrontIsCanonical()
    ensures Canonical("UVZ")
  {
  }

  lemma {:induction false} DigitsAreCanonical(s: string)
    requires AllDigits(s) && s != ""
    ensures Canonical(s)
  {
  }

  // ---- Import-proposal ids ----

  /** `f"IMP-{yyyymmdd}-{safe_identifier(title)[:44]}"`. */
  function ProposalBase(dateDigits: string, title: string): string {
    var safe := SafeIdentifier(title);
    "IMP-" + dateDigits + "-" + (if |safe| > 44 then safe[..44] else safe)
  }

  /** The `k`-th id that is tried: the base itself, then `base-2`, `base-3`, ... */
  function Candidate(base: string, k: nat): string
    requires 1 <= k
  {
    if k == 1 then base else base + "-" + Decimal(k)
  }

  /** The proposal file a candidate id is stored in. */
  function CandidateFile(base: string, k: nat): string
    requires 1 <= k
  {
    SafeIdentifier(Candidate(base, k))
  }

  lemma {:induction false} ProposalBaseIsTidy(dateDigits: string, title: string)
    requires dateDigits != "" && AllDigits(dateDigits)
    ensures Tidy(ProposalBase(dateDigits, title)) && ProposalBase(dateDigits, title) != ""
  {
    hide SafeIdentifier, Canonical, Tidy, AllDigits;
    SafeIdentifierIsCanonical(title);
    var safe := SafeIdentifier(title);
    var cut := if |safe| > 44 then safe[..44] else safe;
    var front := "IMP-" + dateDigits;
    assert Tidy(cut) by { CutIsTidy(safe, |cut|); assert cut == safe[..|cut|]; }
    assert Canonical(front) by {
      DigitsAreCanonical(dateDigits);
      ImportFront();
      CanonicalJoins("IMP", dateDigits);
      assert front == "IMP" + "-" + dateDigits;
    }
    TidyJoins(front, cut);
    assert ProposalBase(dateDigits, title) == front + "-" + cut;
  }

  lemma {:induction false} ImportFront()
    ensures Canonical("IMP")
  {
  }

  lemma {:induction false} CutIsTidy(safe: string, n: nat)
    requires Canonical(safe) && n <= |safe|
    ensures Tidy(safe[..n])
  {
  }

  lemma {:induction false} TidyJoins(a: string, b: string)
    requires Canonical(a) && Tidy(b)
    ensures Tidy(a + "-" + b)
  {
  }

  /** Truncation may leave a trailing dash; the counter then follows the base without it. */
  lemma {:induction false} CandidateFileText(base: string, k: nat)
    requires Tidy(base) && base != "" && 1 <= k
    ensures var stem := if base[|base| - 1] == '-' then base[..|base| - 1] else base;
      CandidateFile(base, k) == if k == 1 then stem else stem + "-" + Decimal(k)
  {
    var stem := if base[|base| - 1] == '-' then base[..|base| - 1] else base;
    StemIsCanonical(base);
    CanonicalIsSafe(stem);
    if base == stem {
      StemWithNumber(stem, k);
    } else {
      assert base == stem + "-";
      TrailingDashVanishes(stem);
      StemWithNumber(stem, k);
      DoubledDashVanishes(base, Decimal(k));
    }
  }

  lemma {:induction false} StemWithNumber(stem: string, k: nat)
    requires Canonical(stem)
    ensures Canonical(Decimal(k))
    ensures SafeIdentifier(stem + "-" + Decimal(k)) == stem + "-" + Decimal(k)
  {
    DecimalIsCanonical(k);
    CanonicalJoins(stem, Decimal(k));
    CanonicalIsSafe(stem + "-" + Decimal(k));
  }

  lemma {:induction false} StemIsCanonical(base: string)
    requires Tidy(base) && base != ""
    ensures Canonical(if base[|base| - 1] == '-' then base[..|base| - 1] else base)
  {
    if base[|base| - 1] == '-' {
      assert |base| > 1;
      assert base[|base| - 2] != '-';
    }
  }

  lemma {:induction false} SqueezeOfTidy(s: string)
    requires Tidy(s)
    ensures Squeeze(s) == s
  {
    hide Tidy;
    SqueezeOfAppend("", s);
    assert "" + s == s;
  }

  lemma {:induction false} TrimLeftOfTidy(s: string)
    requires Tidy(s)
    ensures TrimLeft(s) == s
  {
  }

  lemma {:induction false} TrimRightOfDash(s: string)
    ensures TrimRight(s + "-") == TrimRight(s)
  {
    assert (s + "-")[..|s|] == s;
  }

  lemma {:induction false} DashedIsTidy(stem: string)
    requires Canonical(stem)
    ensures Tidy(stem + "-") && Tidy(stem)
  {
  }

  lemma {:induction false} TrailingDashVanishes(stem: string)
    requires Canonical(stem)
    ensures SafeIdentifier(stem + "-") == SafeIdentifier(stem)
  {
    hide Squeeze, TrimLeft, TrimRight, Upper, Tidy, Canonical;
    DashedIsTidy(stem);
    SqueezeOfTidy(stem);
    SqueezeOfTidy(stem + "-");
    TrimLeftOfTidy(stem);
    TrimLeftOfTidy(stem + "-");
    TrimRightOfDash(stem);
  }

  lemma {:induction false} SqueezeOfDoubled(base: string)
    requires Tidy(base) && base != "" && base[|base| - 1] == '-'
    ensures Squeeze(base + "-") == base
  {
    hide Tidy;
    SqueezeOfTidy(base);
    assert (base + "-")[..|base|] == base;
  }

  lemma {:induction false} DoubledDashVanishes(base: string, t: string)
    requires Tidy(base) && base != "" && base[|base| - 1] == '-' && Canonical(t)
    ensures SafeIdentifier(base + "-" + t) == SafeIdentifier(base + t)
  {
    hide Squeeze, TrimLeft, TrimRight, Upper, Tidy;
    SqueezeOfDoubled(base);
    SqueezeOfTidy(base);
    SqueezeOfAppend(base + "-", t);
    SqueezeOfAppend(base, t);
  }

  /** Different counters never name the same file. */
  lemma {:induction false} CandidateFilesDiffer(base: string, j: nat, k: nat)
    requires Tidy(base) && base != "" && 1 <= j && 1 <= k && CandidateFile(base, j) == CandidateFile(base, k)
    ensures j == k
  {
    CandidateFileText(base, j);
    CandidateFileText(base, k);
    var stem := if base[|base| - 1] == '-' then base[..|base| - 1] else base;
    if j > 1 && k > 1 {
      var a, b := stem + "-" + Decimal(j), stem + "-" + Decimal(k);
      assert a[|stem| + 1..] == Decimal(j) && b[|stem| + 1..] == Decimal(k);
      ParseInvertsDecimal(j);
      ParseInvertsDecimal(k);
    }
  }

  ghost predicate IsFirstFree(files: set<string>, base: string, k: nat) {
    && 1 <= k
    && CandidateFile(base, k) !in files
    && (forall j :: 1 <= j < k ==> CandidateFile(base, j) in files)
  }

  /** Pigeonhole: `k - 1` taken candidates are `k - 1` different existing files. */
  lemma {:induction false} TakenCandidates(files: set<string>, base: string, k: nat) returns (taken: set<string>)
    requires Tidy(base) && base != "" && 1 <= k
    requires forall j :: 1 <= j < k ==> CandidateFile(base, j) in files
    ensures taken <= files && |taken| == k - 1
    ensures forall f <- taken :: exists j :: 1 <= j < k && f == CandidateFile(base, j)
  {
    if k == 1 {
      taken := {};
    } else {
      taken := TakenCandidates(files, base, k - 1);
      var last := CandidateFile(base, k - 1);
      assert last !in taken by {
        forall j | 1 <= j < k - 1 ensures last != CandidateFile(base, j) {
          if last == CandidateFile(base, j) { CandidateFilesDiffer(base, j, k - 1); }
        }
      }
      taken := taken + {last};
    }
  }

  lemma {:induction false} SubsetSize(a: set<string>, b: set<string>)
    requires a <= b
    ensures |a| <= |b|
  {
    assert b == a + (b - a);
  }

  /** The probing loop stops within one probe more than there are proposal files, at the first free candidate. */
  method NextImportProposalId(
    files: set<string>, dateDigits: string, title: string)
    returns (id: string, ghost probes: nat)
    requires dateDigits != "" && AllDigits(dateDigits)
    ensures SafeIdentifier(id) !in files
    ensures var base := ProposalBase(dateDigits, title);
      IsFirstFree(files, base, probes) && probes <= |files| + 1 && id == Candidate(base, probes)
  {
    var base := ProposalBase(dateDigits, title);
    ProposalBaseIsTidy(dateDigits, title);
    var candidate := base;
    var counter := 2;
    ghost var taken: set<string> := {};
    while SafeIdentifier(candidate) in files
      invariant 2 <= counter && candidate == Candidate(base, counter - 1)
      invariant forall j :: 1 <= j < counter - 1 ==> CandidateFile(base, j) in files
      invariant taken <= files && |taken| == counter - 2
      decreases |files| - |taken|
    {
      taken := TakenCandidates(files, base, counter);
      SubsetSize(taken, files);
      candidate := base + "-" + Decimal(counter);
      counter := counter + 1;
    }
    SubsetSize(taken, files);
    return candidate, counter - 1;
  }
}
