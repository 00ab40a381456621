/** scripts/scoped_repo_glob.py: does some regular file of the tree match a relative glob pattern? */
module ScopedGlob {
  import opened Options
  import opened FileTree

  const EXCLUDED_PARTS: set<string> := {".git", "out"}
  const VISIBLE: Keep := (e: Entry) => e.name !in EXCLUDED_PARTS && !e.node.Symlink?
  const NOT_A_DIRECTORY: Pick := (n: Node) => !n.Dir?

  // ---- Patterns ----

  predicate IsWild(c: char) { c == '*' || c == '?' || c == '[' }

  predicate HasWildcard(s: string) { exists k :: 0 <= k < |s| && IsWild(s[k]) }

  /** The single-segment matcher `fnmatch.fnmatchcase(name, pattern)`, a library function. */
  type SegmentMatcher = (string, string) -> bool

  ghost predicate MatchesLiterally(fn: SegmentMatcher) {
    forall name: string, part: string ::
      '*' !in part && '?' !in part && '[' !in part ==> (fn(name, part) <==> name == part)
  }

  lemma {:induction false} WithoutWildcard(s: string)
    ensures HasWildcard(s) <==> '*' in s || '?' in s || '[' in s
  {
    if '*' in s || '?' in s || '[' in s {
      var k :| 0 <= k < |s| && (s[k] == '*' || s[k] == '?' || s[k] == '[');
      assert IsWild(s[k]);
    }
  }

  function Piece(cur: string): seq<string> {
    if cur == "" || cur == "." then [] else [cur]
  }

  function Split(s: string, cur: string): seq<string> {
    if s == "" then Piece(cur)
    else if s[0] == '/' then Piece(cur) + Split(s[1..], "")
    else Split(s[1..], cur + [s[0]])
  }

  /** `pathlib.Path(pattern).parts`: empty and `.` segments vanish, an absolute path starts with its root. */
  function Parts(pattern: string): seq<string> {
    (if IsAbsolute(pattern) then ["/"] else []) + Split(pattern, "")
  }

  predicate IsAbsolute(pattern: string) { pattern != "" && pattern[0] == '/' }

  predicate AnyWild(parts: seq<string>) { exists k :: 0 <= k < |parts| && HasWildcard(parts[k]) }

  function SegmentsMatch(fn: SegmentMatcher, path: Path, pattern: seq<string>): bool
    decreases |pattern| + |path|
  {
    if pattern == [] then path == []
    else if pattern[0] == "**" then
      || SegmentsMatch(fn, path, pattern[1..])
      || (path != [] && SegmentsMatch(fn, path[1..], pattern))
    else path != [] && fn(path[0], pattern[0]) && SegmentsMatch(fn, path[1..], pattern[1..])
  }

  // ---- The algebra of segment patterns ----

  ghost predicate SplitsInto(fn: SegmentMatcher, path: Path, a: seq<string>, b: seq<string>, k: nat) {
    k <= |path| && SegmentsMatch(fn, path[..k], a) && SegmentsMatch(fn, path[k..], b)
  }

  lemma {:induction false} MatchJoins(fn: SegmentMatcher, x: Path, y: Path, a: seq<string>, b: seq<string>)
    requires SegmentsMatch(fn, x, a) && SegmentsMatch(fn, y, b)
    ensures SegmentsMatch(fn, x + y, a + b)
    decreases |a| + |x|
  {
    if a == [] {
      assert x + y == y && a + b == b;
    } else {
      assert (a + b)[1..] == a[1..] + b;
      if x != [] {
        assert (x + y)[1..] == x[1..] + y;
      }
      if a[0] == "**" {
        if SegmentsMatch(fn, x, a[1..]) {
          MatchJoins(fn, x, y, a[1..], b);
        } else {
          MatchJoins(fn, x[1..], y, a, b);
        }
      } else {
        MatchJoins(fn, x[1..], y, a[1..], b);
      }
    }
  }

  lemma {:induction false} MatchSplits(fn: SegmentMatcher, path: Path, a: seq<string>, b: seq<string>) returns (k: nat)
    requires SegmentsMatch(fn, path, a + b)
    ensures SplitsInto(fn, path, a, b, k)
    decreases |a| + |path|
  {
    if a == [] {
      assert a + b == b;
      k := 0;
    } else {
      assert (a + b)[1..] == a[1..] + b;
      if a[0] == "**" && SegmentsMatch(fn, path, (a + b)[1..]) {
        k := MatchSplits(fn, path, a[1..], b);
      } else {
        k := MatchSplits(fn, path[1..], if a[0] == "**" then a else a[1..], b);
        assert path[..k + 1][1..] == path[1..][..k];
        assert path[k + 1..] == path[1..][k..];
        k := k + 1;
      }
    }
  }

  /** A path matches `a + b` exactly when it splits into a part matching `a` and a part matching `b`. */
  lemma {:induction false} MatchConcat(fn: SegmentMatcher, path: Path, a: seq<string>, b: seq<string>)
    ensures SegmentsMatch(fn, path, a + b) <==> exists k: nat :: SplitsInto(fn, path, a, b, k)
  {
    if SegmentsMatch(fn, path, a + b) {
      var k := MatchSplits(fn, path, a, b);
    }
    if k: nat :| SplitsInto(fn, path, a, b, k) {
      MatchJoins(fn, path[..k], path[k..], a, b);
      assert path[..k] + path[k..] == path;
    }
  }

  lemma {:induction false} StarsMatchAll(fn: SegmentMatcher, path: Path)
    ensures SegmentsMatch(fn, path, ["**"])
    decreases |path|
  {
    if path != [] {
      StarsMatchAll(fn, path[1..]);
    } else {
      assert ["**"][1..] == [];
    }
  }

  /** `**` absorbs any run of segments, including none; a doubled `**` says no more than one. */
  lemma {:induction false} StarsAbsorb(fn: SegmentMatcher, path: Path, rest: seq<string>)
    ensures SegmentsMatch(fn, path, ["**"] + rest) <==> exists k: nat :: k <= |path| && SegmentsMatch(fn, path[k..], rest)
    ensures SegmentsMatch(fn, path, ["**", "**"] + rest) <==> SegmentsMatch(fn, path, ["**"] + rest)
  {
    MatchConcat(fn, path, ["**"], rest);
    if k: nat :| k <= |path| && SegmentsMatch(fn, path[k..], rest) {
      StarsMatchAll(fn, path[..k]);
      assert SplitsInto(fn, path, ["**"], rest, k);
    }
    assert ["**", "**"] + rest == ["**"] + (["**"] + rest);
    MatchConcat(fn, path, ["**"], ["**"] + rest);
    if SegmentsMatch(fn, path, ["**"] + (["**"] + rest)) {
      var k := MatchSplits(fn, path, ["**"], ["**"] + rest);
      var j := MatchSplits(fn, path[k..], ["**"], rest);
      StarsMatchAll(fn, path[..k + j]);
      assert path[k..][j..] == path[k + j..];
      assert SplitsInto(fn, path, ["**"], rest, k + j);
    }
    if SegmentsMatch(fn, path, ["**"] + rest) {
      StarsMatchAll(fn, path[..0]);
      assert path[0..] == path;
      assert SplitsInto(fn, path, ["**"], ["**"] + rest, 0);
    }
  }

  /** Without `**` a pattern matches the paths of its own length whose segments match one by one. */
  lemma {:induction false} FixedDepth(fn: SegmentMatcher, path: Path, pattern: seq<string>)
    requires "**" !in pattern
    ensures SegmentsMatch(fn, path, pattern)
       <==> |path| == |pattern| && forall k :: 0 <= k < |path| ==> fn(path[k], pattern[k])
    decreases |pattern|
  {
    if pattern != [] && path != [] {
      var p, q := path[1..], pattern[1..];
      FixedDepth(fn, p, q);
      assert forall k :: 0 <= k < |p| && k < |q| ==> p[k] == path[k + 1] && q[k] == pattern[k + 1];
      if |p| == |q| && fn(path[0], pattern[0]) && (forall k :: 0 <= k < |p| ==> fn(p[k], q[k])) {
        forall k | 0 <= k < |path| ensures fn(path[k], pattern[k]) {
          if k > 0 { assert fn(p[k - 1], q[k - 1]); }
        }
      }
    }
  }

  lemma {:induction false} EmptyPathMatch(fn: SegmentMatcher, pattern: seq<string>)
    ensures SegmentsMatch(fn, [], pattern) <==> forall part <- pattern :: part == "**"
    decreases |pattern|
  {
    if pattern != [] {
      EmptyPathMatch(fn, pattern[1..]);
      assert pattern[0] in pattern && forall part <- pattern :: part == pattern[0] || part in pattern[1..];
      assert forall part <- pattern[1..] :: part in pattern;
      assert SegmentsMatch(fn, [], pattern) <==> pattern[0] == "**" && SegmentsMatch(fn, [], pattern[1..]);
    }
  }

  /** Literal segments in front pin the front of the path. */
  lemma {:induction false} LiteralPrefix(fn: SegmentMatcher, path: Path, lits: seq<string>, rest: seq<string>)
    requires MatchesLiterally(fn) && !AnyWild(lits)
    ensures SegmentsMatch(fn, path, lits + rest)
       <==> |lits| <= |path| && path[..|lits|] == lits && SegmentsMatch(fn, path[|lits|..], rest)
    decreases |lits|
  {
    if lits == [] {
      assert lits + rest == rest && path[0..] == path;
    } else {
      assert (lits + rest)[1..] == lits[1..] + rest;
      assert !HasWildcard(lits[0]);
      WithoutWildcard(lits[0]);
      assert lits[0] != "**" by { assert IsWild("**"[0]); }
      forall k | 0 <= k < |lits[1..]| ensures !HasWildcard(lits[1..][k]) {
        assert lits[1..][k] == lits[k + 1];
      }
      if path != [] {
        LiteralPrefix(fn, path[1..], lits[1..], rest);
        if |lits| <= |path| {
          assert path[|lits|..] == path[1..][|lits[1..]|..];
          assert path[..|lits|] == [path[0]] + path[1..][..|lits[1..]|];
        }
      }
    }
  }

  /** A literal segment anywhere in the pattern occurs in every matching path. */
  lemma {:induction false} LiteralOccurs(fn: SegmentMatcher, path: Path, pattern: seq<string>, k: nat)
    requires MatchesLiterally(fn) && SegmentsMatch(fn, path, pattern)
    requires k < |pattern| && !HasWildcard(pattern[k])
    ensures pattern[k] in path
  {
    assert pattern == pattern[..k] + pattern[k..];
    var j := MatchSplits(fn, path, pattern[..k], pattern[k..]);
    assert pattern[k..] == [pattern[k]] + pattern[k + 1..];
    assert !AnyWild([pattern[k]]);
    LiteralPrefix(fn, path[j..], [pattern[k]], pattern[k + 1..]);
    assert path[j..][..1][0] == path[j];
  }

  // ---- Pattern text ----

  lemma {:induction false} SplitKeepsWildcards(s: string, cur: string)
    ensures AnyWild(Split(s, cur)) <==> HasWildcard(s) || HasWildcard(cur)
  {
    if s == "" {
      PieceKeepsWildcards(cur);
    } else if s[0] == '/' {
      PieceKeepsWildcards(cur);
      SplitKeepsWildcards(s[1..], "");
      AnyWildConcat(Piece(cur), Split(s[1..], ""));
      HasWildcardHead(s);
    } else {
      SplitKeepsWildcards(s[1..], cur + [s[0]]);
      HasWildcardHead(s);
      var next := cur + [s[0]];
      assert next[|cur|] == s[0] && next[..|cur|] == cur;
      assert HasWildcard(next) <==> HasWildcard(cur) || IsWild(s[0]) by {
        if k :| 0 <= k < |cur| && IsWild(cur[k]) { assert next[k] == cur[k]; }
      }
    }
  }

  lemma {:induction false} PieceKeepsWildcards(cur: string)
    ensures AnyWild(Piece(cur)) <==> HasWildcard(cur)
  {
    if cur != "" && cur != "." {
      assert Piece(cur)[0] == cur;
    }
  }

  lemma {:induction false} HasWildcardHead(s: string)
    requires s != ""
    ensures HasWildcard(s) <==> IsWild(s[0]) || HasWildcard(s[1..])
  {
    if k :| 0 <= k < |s| && IsWild(s[k]) {
      if k > 0 { assert s[1..][k - 1] == s[k]; }
    }
  }

  lemma {:induction false} AnyWildConcat(a: seq<string>, b: seq<string>)
    ensures AnyWild(a + b) <==> AnyWild(a) || AnyWild(b)
  {
    if k :| 0 <= k < |a| && HasWildcard(a[k]) { assert (a + b)[k] == a[k]; }
    if k :| 0 <= k < |b| && HasWildcard(b[k]) { assert (a + b)[|a| + k] == b[k]; }
  }

  lemma {:induction false} PatternWildcards(pattern: string)
    ensures HasWildcard(pattern) <==> AnyWild(Parts(pattern))
  {
    SplitKeepsWildcards(pattern, "");
    if IsAbsolute(pattern) {
      AnyWildConcat(["/"], Split(pattern, ""));
      assert !IsWild("/"[0]);
    } else {
      assert Parts(pattern) == Split(pattern, "");
    }
  }

  // ---- What the search is for ----

  /** Some regular file, reached through no symbolic link and no excluded name, has a matching path. */
  ghost predicate SomeFileMatches(fn: SegmentMatcher, root: Node, parts: seq<string>) {
    exists p: Path :: IsMatchingFile(fn, root, parts, p)
  }

  ghost predicate IsMatchingFile(fn: SegmentMatcher, root: Node, parts: seq<string>, p: Path) {
    && Walk(root, p, VISIBLE).Some?
    && Walk(root, p, VISIBLE).value.File?
    && SegmentsMatch(fn, p, parts)
  }

  /** The leading segments without wildcards. */
  function Anchor(parts: seq<string>): (anchor: seq<string>)
    ensures |anchor| <= |parts| && anchor == parts[..|anchor|] && !AnyWild(anchor)
    ensures |anchor| == |parts| || HasWildcard(parts[|anchor|])
  {
    if parts == [] || HasWildcard(parts[0]) then []
    else
      var tail := Anchor(parts[1..]);
      assert forall k :: 0 < k <= |tail| ==> ([parts[0]] + tail)[k] == tail[k - 1];
      [parts[0]] + tail
  }

  /** The one family the search misses: the literal front names a file and only `**` segments follow. */
  predicate AnchorIsTheFile(root: Node, parts: seq<string>) {
    var anchor := Anchor(parts);
    && |anchor| < |parts|
    && (forall part <- parts[|anchor|..] :: part == "**")
    && Walk(root, anchor, VISIBLE).Some?
    && Walk(root, anchor, VISIBLE).value.File?
  }

  /** The family is not empty: a file `a` in the root, and the pattern of `a` and a double star below it. */
  lemma {:induction false} MissedFamilyExists(size: nat, sha256: string)
    ensures var root := Dir([Entry("a", File(size, sha256))]);
      WellFormed(root) && AnchorIsTheFile(root, ["a", "**"])
  {
    var parts, entries := ["a", "**"], [Entry("a", File(size, sha256))];
    assert HasWildcard("**") by { assert IsWild("**"[0]); }
    assert parts[1..] == ["**"] && Anchor(parts[1..]) == [];
    assert Anchor(parts) == ["a"] by { assert !HasWildcard("a"); }
    assert Find(entries, "a") == Some(File(size, sha256)) by { assert entries[0].name == "a"; }
    assert ["a"][1..] == [];
  }

  lemma {:induction false} MatchLiesUnderAnchor(
    fn: SegmentMatcher, root: Node, parts: seq<string>, p: Path)
    returns (rel: Path)
    requires MatchesLiterally(fn) && IsMatchingFile(fn, root, parts, p)
    ensures p == Anchor(parts) + rel && SegmentsMatch(fn, rel, parts[|Anchor(parts)|..])
    ensures Walk(root, Anchor(parts), VISIBLE).Some?
    ensures Walk(Walk(root, Anchor(parts), VISIBLE).value, rel, VISIBLE) == Walk(root, p, VISIBLE)
  {
    var anchor := Anchor(parts);
    assert parts == anchor + parts[|anchor|..];
    LiteralPrefix(fn, p, anchor, parts[|anchor|..]);
    rel := p[|anchor|..];
    assert p == anchor + rel;
    WalkAppend(root, anchor, rel, VISIBLE);
  }

  /** Every path in the missed family really is a match, so there the search answers wrongly. */
  lemma {:induction false} MissedFamilyMatches(fn: SegmentMatcher, root: Node, parts: seq<string>)
    requires MatchesLiterally(fn) && AnchorIsTheFile(root, parts)
    ensures SomeFileMatches(fn, root, parts)
  {
    var anchor := Anchor(parts);
    assert parts == anchor + parts[|anchor|..];
    EmptyPathMatch(fn, parts[|anchor|..]);
    LiteralPrefix(fn, anchor, anchor, parts[|anchor|..]);
    assert anchor[..|anchor|] == anchor && anchor[|anchor|..] == [];
    assert IsMatchingFile(fn, root, parts, anchor);
  }

  lemma {:induction false} WalkIsVisible(node: Node, rel: Path)
    requires Walk(node, rel, VISIBLE).Some?
    ensures forall name <- rel :: name !in EXCLUDED_PARTS
    decreases |rel|
  {
    if rel != [] {
      WalkIsVisible(Find(node.entries, rel[0]).value, rel[1..]);
      assert rel == [rel[0]] + rel[1..];
    }
  }

  predicate Refused(parts: seq<string>) {
    "/" in parts || ".." in parts || exists name <- EXCLUDED_PARTS :: name in parts
  }

  lemma {:induction false} RefusedNeverMatches(fn: SegmentMatcher, root: Node, parts: seq<string>)
    requires MatchesLiterally(fn) && WellFormed(root) && Refused(parts)
    ensures !SomeFileMatches(fn, root, parts)
  {
    forall p | Walk(root, p, VISIBLE).Some? && SegmentsMatch(fn, p, parts) ensures false {
      var bad :| bad in parts && (bad == "/" || bad == ".." || bad in EXCLUDED_PARTS);
      var k :| 0 <= k < |parts| && parts[k] == bad;
      assert !HasWildcard(bad);
      LiteralOccurs(fn, p, parts, k);
      WalkWellFormed(root, p, VISIBLE);
      WalkIsVisible(root, p);
    }
  }

  // ---- The search ----

  /** Stack search: every visible path below `anchor` that is not a directory, each once. */
  method RecursiveCandidates(anchor: Spot) returns (found: seq<Spot>)
    requires anchor.node.Dir?
    ensures multiset(found) == Below(anchor.path, anchor.node.entries, VISIBLE, NOT_A_DIRECTORY)
  {
    var stack := [anchor];
    found := [];
    StartPending(anchor, VISIBLE, NOT_A_DIRECTORY);
    while stack != []
      invariant AreDirectories(stack)
      invariant Account(found, stack, [], []) == Below(anchor.path, anchor.node.entries, VISIBLE, NOT_A_DIRECTORY)
      decreases StackWeight(stack)
    {
      var directory := stack[|stack| - 1];
      found, stack := ScanDirectory(directory, found, stack[..|stack| - 1]);
    }
  }

  /** Found so far, waiting on the stack, and still to come among the entries `es` of `path`. */
  ghost function Account(found: seq<Spot>, stack: seq<Spot>, path: Path, es: seq<Entry>): multiset<Spot>
    requires AreDirectories(stack)
  {
    multiset(found) + (Pending(stack, VISIBLE, NOT_A_DIRECTORY) + Below(path, es, VISIBLE, NOT_A_DIRECTORY))
  }

  method ScanDirectory(directory: Spot, found0: seq<Spot>, stack0: seq<Spot>)
    returns (found: seq<Spot>, stack: seq<Spot>)
    requires directory.node.Dir? && AreDirectories(stack0)
    ensures AreDirectories(stack)
    ensures Account(found, stack, [], []) == Account(found0, stack0, directory.path, directory.node.entries)
    ensures StackWeight(stack) <= StackWeight(stack0) + Weight(directory.node.entries)
  {
    hide Below, Pending, Weight, StackWeight, AreDirectories;
    var path, entries := directory.path, directory.node.entries;
    found, stack := found0, stack0;
    assert entries[0..] == entries;
    for i := 0 to |entries|
      invariant AreDirectories(stack)
      invariant Account(found, stack, path, entries[i..]) == Account(found0, stack0, path, entries)
      invariant StackWeight(stack) + Weight(entries[i..]) <= StackWeight(stack0) + Weight(entries)
    {
      var entry := entries[i];
      if entry.name in EXCLUDED_PARTS || entry.node.Symlink? {
        NextEntry(path, entries, i, VISIBLE, NOT_A_DIRECTORY);
        continue;
      }
      var spot := Spot(path + [entry.name], entry.node);
      StepEntry(stack, path, entries, i, VISIBLE, NOT_A_DIRECTORY);
      if entry.node.Dir? {
        stack := stack + [spot];
      } else {
        found := found + [spot];
      }
    }
    assert entries[|entries|..] == [];
    NothingBelow(path, VISIBLE, NOT_A_DIRECTORY);
    NothingBelow([], VISIBLE, NOT_A_DIRECTORY);
  }

  /** Level `depth` below `anchor`: the frontier of a breadth-first search cut off at a known depth. */
  ghost predicate IsLevel(anchor: Spot, frontier: seq<Spot>, depth: nat, final: bool) {
    && (forall s <- frontier :: OnLevel(anchor, s, depth, final))
    && (forall s :: OnLevel(anchor, s, depth, final) ==> s in frontier)
  }

  ghost predicate OnLevel(anchor: Spot, s: Spot, depth: nat, final: bool) {
    && |s.path| == |anchor.path| + depth
    && s.path[..|anchor.path|] == anchor.path
    && Walk(anchor.node, s.path[|anchor.path|..], VISIBLE) == Some(s.node)
    && (final || s.node.Dir?)
  }

  method FixedDepthCandidates(anchor: Spot, depth: nat) returns (frontier: seq<Spot>)
    requires WellFormed(anchor.node) && anchor.node.Dir? && 0 < depth
    ensures IsLevel(anchor, frontier, depth, true)
  {
    frontier := [anchor];
    var currentDepth := 0;
    assert forall s :: OnLevel(anchor, s, 0, false) ==> s.path[|anchor.path|..] == [] && s == anchor;
    while currentDepth < depth
      invariant 0 <= currentDepth <= depth
      invariant IsLevel(anchor, frontier, currentDepth, currentDepth == depth)
    {
      var finalDepth := currentDepth == depth - 1;
      frontier := NextLevel(anchor, frontier, currentDepth, finalDepth);
      currentDepth := currentDepth + 1;
    }
  }

  ghost predicate ChildOf(directory: Spot, name: string, child: Spot, final: bool) {
    && directory.node.Dir?
    && Find(directory.node.entries, name) == Some(child.node)
    && child.path == directory.path + [name]
    && VISIBLE(Entry(name, child.node))
    && (final || child.node.Dir?)
  }

  method NextLevel(ghost anchor: Spot, frontier: seq<Spot>, ghost depth: nat, finalDepth: bool)
    returns (next: seq<Spot>)
    requires WellFormed(anchor.node) && IsLevel(anchor, frontier, depth, false)
    ensures IsLevel(anchor, next, depth + 1, finalDepth)
  {
    next := [];
    for d := 0 to |frontier|
      invariant forall s <- next :: exists k, name :: 0 <= k < d && ChildOf(frontier[k], name, s, finalDepth)
      invariant forall k, name, s :: 0 <= k < d && ChildOf(frontier[k], name, s, finalDepth) ==> s in next
    {
      var directory := frontier[d];
      assert OnLevel(anchor, directory, depth, false);
      WalkWellFormed(anchor.node, directory.path[|anchor.path|..], VISIBLE);
      var children := VisibleChildren(directory, finalDepth);
      next := next + children;
    }
    forall s <- next ensures OnLevel(anchor, s, depth + 1, finalDepth) {
      var k, name :| 0 <= k < |frontier| && ChildOf(frontier[k], name, s, finalDepth);
      assert OnLevel(anchor, frontier[k], depth, false);
      ChildIsOneDeeper(anchor, frontier[k], name, s, depth, finalDepth);
    }
    forall s | OnLevel(anchor, s, depth + 1, finalDepth) ensures s in next {
      var parent := ParentOnLevel(anchor, s, depth, finalDepth);
      var k :| 0 <= k < |frontier| && frontier[k] == parent;
      assert ChildOf(frontier[k], s.path[|s.path| - 1], s, finalDepth);
    }
  }

  method VisibleChildren(directory: Spot, finalDepth: bool) returns (children: seq<Spot>)
    requires directory.node.Dir? && WellFormed(directory.node)
    ensures forall s <- children :: exists name :: ChildOf(directory, name, s, finalDepth)
    ensures forall name, s :: ChildOf(directory, name, s, finalDepth) ==> s in children
  {
    var entries := directory.node.entries;
    children := [];
    for i := 0 to |entries|
      invariant forall s <- children :: exists name :: ChildOf(directory, name, s, finalDepth)
      invariant forall k, s :: 0 <= k < i && ChildOf(directory, entries[k].name, s, finalDepth) ==> s in children
    {
      var child := entries[i];
      WellFormedAt(entries, i);
      if child.node.Symlink? || child.name in EXCLUDED_PARTS {
        continue;
      }
      if finalDepth || child.node.Dir? {
        var spot := Spot(directory.path + [child.name], child.node);
        assert ChildOf(directory, child.name, spot, finalDepth);
        children := children + [spot];
      }
    }
  }

  lemma {:induction false} ChildIsOneDeeper(
    anchor: Spot, parent: Spot, name: string, child: Spot, depth: nat, final: bool)
    requires OnLevel(anchor, parent, depth, false) && ChildOf(parent, name, child, final)
    ensures OnLevel(anchor, child, depth + 1, final)
  {
    var rel := parent.path[|anchor.path|..];
    assert child.path[|anchor.path|..] == rel + [name];
    assert child.path[..|anchor.path|] == anchor.path;
    WalkAppend(anchor.node, rel, [name], VISIBLE);
    assert Walk(parent.node, [name], VISIBLE) == Some(child.node);
  }

  lemma {:induction false} ParentOnLevel(anchor: Spot, child: Spot, depth: nat, final: bool) returns (parent: Spot)
    requires OnLevel(anchor, child, depth + 1, final)
    ensures OnLevel(anchor, parent, depth, false)
    ensures ChildOf(parent, child.path[|child.path| - 1], child, final)
  {
    var name := child.path[|child.path| - 1];
    var up := child.path[..|child.path| - 1];
    var rel := up[|anchor.path|..];
    assert child.path[|anchor.path|..] == rel + [name];
    WalkAppend(anchor.node, rel, [name], VISIBLE);
    parent := Spot(up, Walk(anchor.node, rel, VISIBLE).value);
    assert child.path == up + [name];
    assert up[..|anchor.path|] == child.path[..|anchor.path|];
  }

  /** One step of `candidate /= part`; a path below anything but a directory does not exist. */
  function StepInto(candidate: Option<Node>, part: string): Option<Node> {
    if candidate.Some? && candidate.value.Dir? then Find(candidate.value.entries, part) else None
  }

  /** Follows literal segments from the root; a symbolic link on the way ends the search. */
  method FollowLiterals(root: Node, parts: seq<string>) returns (linked: bool, candidate: Option<Node>)
    requires !root.Symlink? && forall name <- EXCLUDED_PARTS :: name !in parts
    ensures linked ==> Walk(root, parts, VISIBLE).None?
    ensures !linked ==> candidate == Walk(root, parts, VISIBLE)
  {
    candidate := Some(root);
    for i := 0 to |parts|
      invariant candidate == Walk(root, parts[..i], VISIBLE)
    {
      var part := parts[i];
      assert parts[..i + 1] == parts[..i] + [part];
      assert parts == parts[..i + 1] + parts[i + 1..];
      WalkAppend(root, parts[..i], [part], VISIBLE);
      WalkAppend(root, parts[..i + 1], parts[i + 1..], VISIBLE);
      candidate := StepInto(candidate, part);
      if candidate == Some(Symlink) {
        return true, None;
      }
    }
    assert parts[..|parts|] == parts;
    linked := false;
  }

  /** The search answers "some visible file matches", except in the family `AnchorIsTheFile`. */
  method PathOrGlobMatches(fn: SegmentMatcher, pattern: string, resolvedRoot: Option<Node>) returns (matches: bool)
    requires MatchesLiterally(fn)
    requires resolvedRoot.Some? ==> WellFormed(resolvedRoot.value) && !resolvedRoot.value.Symlink?
    ensures resolvedRoot.None? ==> !matches
    ensures resolvedRoot.Some? ==>
      (matches <==> && SomeFileMatches(fn, resolvedRoot.value, Parts(pattern))
                    && !AnchorIsTheFile(resolvedRoot.value, Parts(pattern)))
  {
    var parts := Parts(pattern);
    if IsAbsolute(pattern) || ".." in parts || (exists name <- EXCLUDED_PARTS :: name in parts) {
      if resolvedRoot.Some? {
        RefusedNeverMatches(fn, resolvedRoot.value, parts);
      }
      return false;
    }
    if resolvedRoot.None? {
      return false;
    }
    var root := resolvedRoot.value;
    PatternWildcards(pattern);
    if !HasWildcard(pattern) {
      var linked, candidate := FollowLiterals(root, parts);
      LiteralPatternMatches(fn, root, parts);
      return !linked && candidate.Some? && candidate.value.File?;
    }

    matches := SearchBelowAnchor(fn, parts, root);
  }

  method SearchBelowAnchor(fn: SegmentMatcher, parts: seq<string>, root: Node) returns (matches: bool)
    requires MatchesLiterally(fn) && AnyWild(parts)
    requires WellFormed(root) && !root.Symlink? && forall name <- EXCLUDED_PARTS :: name !in parts
    ensures matches <==> SomeFileMatches(fn, root, parts) && !AnchorIsTheFile(root, parts)
  {
    var anchorParts := AnchorParts(parts);
    assert forall name <- anchorParts :: name in parts;
    var linked, anchor := FollowLiterals(root, anchorParts);
    if linked || anchor.None? || !anchor.value.Dir? {
      NoDirectoryAtAnchor(fn, root, parts);
      return false;
    }
    assert |anchorParts| < |parts| by {
      assert |anchorParts| == |parts| ==> anchorParts == parts;
    }
    var start := Spot(anchorParts, anchor.value);
    WalkWellFormed(root, anchorParts, VISIBLE);
    var candidates;
    if "**" in parts {
      candidates := RecursiveCandidates(start);
      CandidatesCoverRecursive(fn, root, parts, start, candidates);
    } else {
      candidates := FixedDepthCandidates(start, |parts| - |anchorParts|);
      CandidatesCoverLevel(fn, root, parts, start, candidates);
    }
    matches := AnyCandidateMatches(fn, parts, candidates);
    CoversDecides(fn, root, parts, candidates);
  }

  method AnyCandidateMatches(fn: SegmentMatcher, parts: seq<string>, candidates: seq<Spot>) returns (matches: bool)
    ensures matches <==> exists c <- candidates :: c.node.File? && SegmentsMatch(fn, c.path, parts)
  {
    for i := 0 to |candidates|
      invariant forall k :: 0 <= k < i ==> !(candidates[k].node.File? && SegmentsMatch(fn, candidates[k].path, parts))
    {
      if !candidates[i].node.File? {
        continue;
      }
      if SegmentsMatch(fn, candidates[i].path, parts) {
        return true;
      }
    }
    return false;
  }

  method AnchorParts(parts: seq<string>) returns (anchor: seq<string>)
    ensures anchor == Anchor(parts)
  {
    anchor := [];
    for i := 0 to |parts|
      invariant anchor == parts[..i] && forall k :: 0 <= k < i ==> !HasWildcard(parts[k])
    {
      if HasWildcard(parts[i]) {
        AnchorIsFirstLiterals(parts, i);
        return;
      }
      anchor := anchor + [parts[i]];
    }
    AnchorIsFirstLiterals(parts, |parts|);
  }

  lemma {:induction false} AnchorIsFirstLiterals(parts: seq<string>, n: nat)
    requires n <= |parts| && (forall k :: 0 <= k < n ==> !HasWildcard(parts[k]))
    requires n == |parts| || HasWildcard(parts[n])
    ensures Anchor(parts) == parts[..n]
  {
    var anchor := Anchor(parts);
    assert forall k :: 0 <= k < |anchor| ==> anchor[k] == parts[k] && !HasWildcard(anchor[k]);
  }

  /** The candidates are visible files of the tree and include every match. */
  ghost predicate Covers(fn: SegmentMatcher, root: Node, parts: seq<string>, candidates: seq<Spot>) {
    && (forall c <- candidates :: Walk(root, c.path, VISIBLE) == Some(c.node))
    && (forall p :: IsMatchingFile(fn, root, parts, p) ==> Spot(p, Walk(root, p, VISIBLE).value) in candidates)
  }

  lemma {:induction false} CoversDecides(fn: SegmentMatcher, root: Node, parts: seq<string>, candidates: seq<Spot>)
    requires Covers(fn, root, parts, candidates)
    ensures SomeFileMatches(fn, root, parts)
       <==> exists c <- candidates :: c.node.File? && SegmentsMatch(fn, c.path, parts)
  {
    if c :| c in candidates && c.node.File? && SegmentsMatch(fn, c.path, parts) {
      assert IsMatchingFile(fn, root, parts, c.path);
    }
  }

  lemma {:induction false} LiteralPatternMatches(fn: SegmentMatcher, root: Node, parts: seq<string>)
    requires MatchesLiterally(fn) && !AnyWild(parts)
    ensures SomeFileMatches(fn, root, parts) <==> Walk(root, parts, VISIBLE).Some? && Walk(root, parts, VISIBLE).value.File?
    ensures !AnchorIsTheFile(root, parts)
  {
    forall p ensures SegmentsMatch(fn, p, parts) <==> p == parts {
      assert parts + [] == parts;
      LiteralPrefix(fn, p, parts, []);
      if |p| == |parts| { assert p[..|parts|] == p; }
      assert parts[..|parts|] == parts;
    }
    if Walk(root, parts, VISIBLE).Some? && Walk(root, parts, VISIBLE).value.File? {
      assert IsMatchingFile(fn, root, parts, parts);
    }
  }

  lemma {:induction false} NoDirectoryAtAnchor(fn: SegmentMatcher, root: Node, parts: seq<string>)
    requires MatchesLiterally(fn) && AnyWild(parts)
    requires var a := Walk(root, Anchor(parts), VISIBLE); a.None? || !a.value.Dir?
    ensures SomeFileMatches(fn, root, parts) <==> AnchorIsTheFile(root, parts)
  {
    var anchor := Anchor(parts);
    assert anchor == parts[..|anchor|] && |anchor| < |parts|;
    if p :| IsMatchingFile(fn, root, parts, p) {
      var rel := MatchLiesUnderAnchor(fn, root, parts, p);
      assert rel == [];
      EmptyPathMatch(fn, parts[|anchor|..]);
      assert p == anchor;
    }
    if AnchorIsTheFile(root, parts) {
      MissedFamilyMatches(fn, root, parts);
    }
  }

  lemma {:induction false} EntriesWellFormed(node: Node)
    requires WellFormed(node) && node.Dir?
    ensures WellFormedEntries(node.entries)
  {
  }

  lemma {:induction false} CandidatesCoverRecursive(
    fn: SegmentMatcher, root: Node, parts: seq<string>, start: Spot, candidates: seq<Spot>)
    requires MatchesLiterally(fn) && WellFormed(start.node) && start.node.Dir?
    requires start.path == Anchor(parts) && Walk(root, start.path, VISIBLE) == Some(start.node)
    requires multiset(candidates) == Below(start.path, start.node.entries, VISIBLE, NOT_A_DIRECTORY)
    ensures Covers(fn, root, parts, candidates)
  {
    hide Below, SegmentsMatch, WellFormed, MatchesLiterally;
    assert Dir(start.node.entries) == start.node;
    assert WellFormedEntries(start.node.entries) by { EntriesWellFormed(start.node); }
    forall c <- candidates ensures Walk(root, c.path, VISIBLE) == Some(c.node) {
      assert c in multiset(candidates);
      BelowIsWalk(start.path, start.node.entries, VISIBLE, NOT_A_DIRECTORY, c);
      assert c.path == start.path + c.path[|start.path|..];
      WalkAppend(root, start.path, c.path[|start.path|..], VISIBLE);
    }
    forall p | IsMatchingFile(fn, root, parts, p) ensures Spot(p, Walk(root, p, VISIBLE).value) in candidates {
      var rel := MatchLiesUnderAnchor(fn, root, parts, p);
      var c := Spot(p, Walk(root, p, VISIBLE).value);
      assert rel != [];
      assert p[..|start.path|] == start.path && p[|start.path|..] == rel;
      BelowIsWalk(start.path, start.node.entries, VISIBLE, NOT_A_DIRECTORY, c);
      assert c in multiset(candidates);
    }
  }

  lemma {:induction false} CandidatesCoverLevel(
    fn: SegmentMatcher, root: Node, parts: seq<string>, start: Spot, candidates: seq<Spot>)
    requires MatchesLiterally(fn) && "**" !in parts
    requires start.path == Anchor(parts) && Walk(root, start.path, VISIBLE) == Some(start.node)
    requires IsLevel(start, candidates, |parts| - |start.path|, true)
    ensures Covers(fn, root, parts, candidates)
  {
    forall c <- candidates ensures Walk(root, c.path, VISIBLE) == Some(c.node) {
      assert OnLevel(start, c, |parts| - |start.path|, true);
      assert c.path == start.path + c.path[|start.path|..];
      WalkAppend(root, start.path, c.path[|start.path|..], VISIBLE);
    }
    forall p | IsMatchingFile(fn, root, parts, p) ensures Spot(p, Walk(root, p, VISIBLE).value) in candidates {
      var rel := MatchLiesUnderAnchor(fn, root, parts, p);
      FixedDepth(fn, p, parts);
      assert p[..|start.path|] == start.path && p[|start.path|..] == rel;
      assert OnLevel(start, Spot(p, Walk(root, p, VISIBLE).value), |parts| - |start.path|, true);
    }
  }

  // ---- The tree and the pattern text in elementary terms ----

  const EVERY: Keep := (e: Entry) => true

  /** No name on the path is excluded and no place on it is a symbolic link. */
  ghost predicate Clear(root: Node, p: Path) {
    forall k :: 0 <= k < |p| ==> ClearAt(root, p, k)
  }

  ghost predicate ClearAt(root: Node, p: Path, k: nat)
    requires k < |p|
  {
    p[k] != ".git" && p[k] != "out" && Walk(root, p[..k + 1], EVERY) != Some(Symlink)
  }

  lemma {:induction false} ClearStep(root: Node, p: Path, k: nat)
    requires k < |p| && root.Dir? && Find(root.entries, p[0]).Some?
    ensures var child := Find(root.entries, p[0]).value;
      ClearAt(root, p, k) <==>
        if k == 0 then p[0] != ".git" && p[0] != "out" && child != Symlink else ClearAt(child, p[1..], k - 1)
  {
    var child, q := Find(root.entries, p[0]).value, p[..k + 1];
    assert q[0] == p[0] && q[1..] == p[1..][..k];
    assert EVERY(Entry(p[0], child));
    assert Walk(root, q, EVERY) == Walk(child, q[1..], EVERY);
  }

  /** A visible walk reaches a place exactly when one is there and the path is clear, and then that place. */
  lemma {:induction false} VisibleExactly(root: Node, p: Path)
    ensures Walk(root, p, VISIBLE) == if Clear(root, p) then Walk(root, p, EVERY) else None
    decreases |p|
  {
    if p == [] {
      assert Clear(root, p);
    } else if root.Dir? && Find(root.entries, p[0]).Some? {
      hide Clear;
      var child := Find(root.entries, p[0]).value;
      VisibleExactly(child, p[1..]);
      ClearBehind(root, p);
      assert EVERY(Entry(p[0], child));
    } else {
      assert Walk(root, p, EVERY) == None;
    }
  }

  lemma {:induction false} ClearBehind(root: Node, p: Path)
    requires p != [] && root.Dir? && Find(root.entries, p[0]).Some?
    ensures var child := Find(root.entries, p[0]).value;
      Clear(root, p) <==> p[0] != ".git" && p[0] != "out" && child != Symlink && Clear(child, p[1..])
  {
    hide ClearAt;
    var child := Find(root.entries, p[0]).value;
    ClearStep(root, p, 0);
    forall k: nat | 0 < k < |p| ensures ClearAt(root, p, k) <==> ClearAt(child, p[1..], k - 1) {
      ClearStep(root, p, k);
    }
    if ClearAt(root, p, 0) && Clear(child, p[1..]) {
      forall k: nat | k < |p| ensures ClearAt(root, p, k) {
        if k > 0 { assert ClearAt(child, p[1..], k - 1); }
      }
    }
    if Clear(root, p) {
      assert ClearAt(root, p, 0);
      forall k: nat | k < |p[1..]| ensures ClearAt(child, p[1..], k) { assert ClearAt(root, p, k + 1); }
    }
  }

  /** A slash ends a name: the parts of `a/b` are the parts of `a` and the names of `b`. */
  lemma {:induction false} PartsJoin(a: string, b: string)
    requires a != ""
    ensures Parts(a + "/" + b) == Parts(a) + Split(b, "")
  {
    SplitJoin(a, b, "");
    assert (a + "/" + b)[0] == a[0];
  }

  lemma {:induction false} SplitJoin(a: string, b: string, cur: string)
    ensures Split(a + "/" + b, cur) == Split(a, cur) + Split(b, "")
    decreases |a|
  {
    if a == "" {
      assert a + "/" + b == "/" + b && ("/" + b)[1..] == b;
    } else {
      assert (a + "/" + b)[1..] == a[1..] + "/" + b;
      SplitJoin(a[1..], b, if a[0] == '/' then "" else cur + [a[0]]);
    }
  }

  /** A name without slashes is one part, except that the empty name and the dot are none. */
  lemma {:induction false} PartOfName(name: string)
    requires '/' !in name
    ensures Split(name, "") == if name == "" || name == "." then [] else [name]
    ensures Parts(name) == Split(name, "")
  {
    SplitOfName(name, "");
    assert "" + name == name;
    if name != "" { assert name[0] in name; }
  }

  lemma {:induction false} SplitOfName(name: string, cur: string)
    requires '/' !in name
    ensures Split(name, cur) == Piece(cur + name)
    decreases |name|
  {
    if name == "" {
      assert cur + name == cur;
    } else {
      assert name[0] in name && '/' !in name[1..];
      SplitOfName(name[1..], cur + [name[0]]);
      assert cur + [name[0]] + name[1..] == cur + name;
    }
  }
}
