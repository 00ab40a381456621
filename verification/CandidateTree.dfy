/** scripts/build_m365_current_state_read_driver.py: the package-tree digest and the sealing order. */
module CandidateTree {
  import opened Options
  import opened FileTree
  import opened Ordering

  const ALL: Keep := (e: Entry) => true
  const ANY: Pick := (n: Node) => true
  const FILES: Pick := (n: Node) => n.File?
  const IRREGULAR: Pick := (n: Node) => n.Symlink? || n.Special?

  const MAX_PACKAGE_FILES: nat := 20000
  const MAX_CANDIDATE_PATHS: nat := 8192

  /** The stable codes of `BuildBlocked` that the two enumerations raise. */
  datatype Blocked = ReparsePoint | NonregularPath | TooLarge | Unavailable
  datatype Result<+T> = Ok(value: T) | Err(error: Blocked)

  /** The prefix a directory passes on: every name followed by the separator. */
  function Prefixed(path: Path, sep: char): string {
    if path == [] then "" else path[0] + [sep] + Prefixed(path[1..], sep)
  }

  /** The text of a relative path. */
  function Text(path: Path, sep: char): string {
    if path == [] then "" else Prefixed(path[..|path| - 1], sep) + path[|path| - 1]
  }

  /** No name holds the separator. */
  ghost predicate Parted(path: Path, sep: char) {
    forall k :: 0 <= k < |path| ==> sep !in path[k]
  }

  lemma {:induction false} PrefixedAppends(path: Path, name: string, sep: char)
    ensures Prefixed(path + [name], sep) == Prefixed(path, sep) + name + [sep]
    decreases |path|
  {
    if path == [] {
      assert [name][1..] == [];
    } else {
      assert (path + [name])[1..] == path[1..] + [name];
      PrefixedAppends(path[1..], name, sep);
    }
  }

  lemma {:induction false} FirstSeparator(a: string, x: string, sep: char)
    requires sep !in a
    ensures var s := a + [sep] + x; s[|a|] == sep && (forall k :: 0 <= k < |a| ==> s[k] != sep)
    ensures var s := a + [sep] + x; s[..|a|] == a && s[|a| + 1..] == x
  {
  }

  lemma {:induction false} PrefixedIsInjective(p: Path, q: Path, sep: char)
    requires Parted(p, sep) && Parted(q, sep) && Prefixed(p, sep) == Prefixed(q, sep)
    ensures p == q
    decreases |p|
  {
    if p != [] && q != [] {
      FirstSeparator(p[0], Prefixed(p[1..], sep), sep);
      FirstSeparator(q[0], Prefixed(q[1..], sep), sep);
      PrefixedIsInjective(p[1..], q[1..], sep);
      assert p == [p[0]] + p[1..] && q == [q[0]] + q[1..];
    }
  }

  /** Different paths print differently, whatever the separator, so the sort keys are unique. */
  lemma {:induction false} TextIsInjective(p: Path, q: Path, sep: char)
    requires p != [] && q != [] && Parted(p, sep) && Parted(q, sep) && Text(p, sep) == Text(q, sep)
    ensures p == q
  {
    PrefixedAppends(p[..|p| - 1], p[|p| - 1], sep);
    PrefixedAppends(q[..|q| - 1], q[|q| - 1], sep);
    assert p == p[..|p| - 1] + [p[|p| - 1]] && q == q[..|q| - 1] + [q[|q| - 1]];
    PrefixedIsInjective(p, q, sep);
  }

  // ---- Trees that differ only in the enumeration order of their directories ----

  ghost predicate SameTree(a: Node, b: Node) {
    if a.Dir? && b.Dir? then
      && (forall i :: 0 <= i < |b.entries| ==> Find(a.entries, b.entries[i].name).Some?)
      && (forall i :: 0 <= i < |a.entries| ==>
            && Find(b.entries, a.entries[i].name).Some?
            && SameTree(a.entries[i].node, Find(b.entries, a.entries[i].name).value))
    else a == b
  }

  lemma {:induction false} FindIndex(es: seq<Entry>, name: string) returns (k: nat)
    requires Find(es, name).Some?
    ensures k < |es| && es[k].name == name && es[k].node == Find(es, name).value
  {
    if es[0].name == name {
      k := 0;
    } else {
      k := FindIndex(es[1..], name);
      k := k + 1;
    }
  }

  lemma {:induction false} SameTreeWalk(a: Node, b: Node, rel: Path)
    requires SameTree(a, b)
    ensures Walk(a, rel, ALL).Some? <==> Walk(b, rel, ALL).Some?
    ensures Walk(a, rel, ALL).Some? ==> SameTree(Walk(a, rel, ALL).value, Walk(b, rel, ALL).value)
    decreases |rel|
  {
    if rel != [] && a.Dir? && b.Dir? {
      if Find(a.entries, rel[0]).Some? {
        var k := FindIndex(a.entries, rel[0]);
        SameTreeWalk(a.entries[k].node, Find(b.entries, rel[0]).value, rel[1..]);
      }
      assert forall i :: 0 <= i < |b.entries| && b.entries[i].name == rel[0] ==> Find(a.entries, b.entries[i].name).Some?;
    }
  }

  // ---- The package digest ----

  /** A digest record is a file's spot: its relative path, size and content hash. Records are ordered by path text. */
  predicate ByText(a: Spot, b: Spot) { StringLess(Text(a.path, '/'), Text(b.path, '/')) }

  ghost predicate IsFileOf(root: Node, s: Spot) {
    s.path != [] && s.node.File? && Walk(root, s.path, ALL) == Some(s.node)
  }

  /** Exactly the files of the tree, each once, in ascending order of their distinct path texts. */
  ghost predicate IsPackageListing(root: Node, list: seq<Spot>) {
    && Ascending(list, ByText)
    && (forall s :: s in list <==> IsFileOf(root, s))
  }

  ghost function FilesBelow(root: Node): multiset<Spot>
    requires root.Dir?
  {
    Below([], root.entries, ALL, FILES)
  }

  ghost predicate AllRegular(root: Node) {
    forall rel :: Walk(root, rel, ALL).Some? ==> Walk(root, rel, ALL).value.Dir? || Walk(root, rel, ALL).value.File?
  }

  ghost predicate PackageAccepted(root: Node) {
    root.Dir? && AllRegular(root) && 0 < |FilesBelow(root)| <= 20000
  }

  lemma {:induction false} BelowRoot(root: Node, pick: Pick, l: Spot)
    requires root.Dir? && WellFormed(root)
    ensures Below([], root.entries, ALL, pick)[l]
         == if l.path != [] && Walk(root, l.path, ALL) == Some(l.node) && pick(l.node) then 1 else 0
  {
    BelowIsWalk([], root.entries, ALL, pick, l);
    assert l.path[0..] == l.path && Dir(root.entries) == root;
    assert Prefix([], l.path) <==> l.path != [];
  }

  lemma {:induction false} RegularIffNothingIrregular(root: Node)
    requires root.Dir? && WellFormed(root)
    ensures AllRegular(root) <==> Below([], root.entries, ALL, IRREGULAR) == multiset{}
  {
    var bad := Below([], root.entries, ALL, IRREGULAR);
    forall l ensures l in bad ==> !AllRegular(root) {
      BelowRoot(root, IRREGULAR, l);
    }
    if bad == multiset{} {
      forall rel | Walk(root, rel, ALL).Some?
        ensures Walk(root, rel, ALL).value.Dir? || Walk(root, rel, ALL).value.File?
      {
        BelowRoot(root, IRREGULAR, Spot(rel, Walk(root, rel, ALL).value));
      }
    }
  }

  /** What a traversal has to account for: nodes to list, irregular nodes, and a termination budget. */
  datatype Account = Account(listed: multiset<Spot>, irregular: multiset<Spot>, budget: nat)

  /** Listed nodes, directories on the stack, and the entries `es` of `path` still to come. */
  ghost function AccountOf(pick: Pick, listed: seq<Spot>, pending: seq<Spot>, path: Path, es: seq<Entry>): Account
    requires AreDirectories(pending)
  {
    Account(
      multiset(listed) + (Pending(pending, ALL, pick) + Below(path, es, ALL, pick)),
      Pending(pending, ALL, IRREGULAR) + Below(path, es, ALL, IRREGULAR),
      StackWeight(pending) + Weight(es))
  }

  ghost predicate Continues(before: Account, after: Account) {
    after.listed == before.listed && after.irregular == before.irregular && after.budget <= before.budget
  }

  /** One regular entry: listed if picked, stacked if a directory. */
  lemma {:induction false} StepAccount(
    pick: Pick, listed: seq<Spot>, pending: seq<Spot>, path: Path, es: seq<Entry>, i: nat)
    requires AreDirectories(pending) && i < |es| && !IRREGULAR(es[i].node)
    ensures var spot := Spot(path + [es[i].name], es[i].node);
      var listed' := if pick(spot.node) then listed + [spot] else listed;
      var pending' := PushIfDirectory(pending, spot);
      && AreDirectories(pending')
      && Continues(AccountOf(pick, listed, pending, path, es[i..]), AccountOf(pick, listed', pending', path, es[i + 1..]))
  {
    hide Below, Pending, Weight, StackWeight, PushIfDirectory, AreDirectories;
    var spot := Spot(path + [es[i].name], es[i].node);
    var listed' := if pick(spot.node) then listed + [spot] else listed;
    StepEntry(pending, path, es, i, ALL, pick);
    StepEntry(pending, path, es, i, ALL, IRREGULAR);
    Regroup(multiset(listed), Picked(spot, pick), multiset(listed'),
      Pending(PushIfDirectory(pending, spot), ALL, pick) + Below(path, es[i + 1..], ALL, pick));
  }

  lemma {:induction false} Regroup<T>(a: multiset<T>, b: multiset<T>, ab: multiset<T>, c: multiset<T>)
    requires ab == a + b
    ensures ab + c == a + (b + c)
  {
  }

  /** Taking a directory off the stack costs one unit of the budget and loses nothing. */
  lemma {:induction false} PopAccount(pick: Pick, listed: seq<Spot>, pending: seq<Spot>)
    requires AreDirectories(pending) && pending != []
    ensures var top := pending[|pending| - 1]; var rest := pending[..|pending| - 1];
      && AreDirectories(rest)
      && Continues(AccountOf(pick, listed, pending, [], []), AccountOf(pick, listed, rest, top.path, top.node.entries))
      && AccountOf(pick, listed, rest, top.path, top.node.entries).budget < StackWeight(pending)
  {
  }

  lemma {:induction false} StartAccount(pick: Pick, root: Node)
    requires root.Dir?
    ensures AreDirectories([Spot([], root)])
    ensures AccountOf(pick, [], [Spot([], root)], [], []).listed == Below([], root.entries, ALL, pick)
    ensures AccountOf(pick, [], [Spot([], root)], [], []).irregular == Below([], root.entries, ALL, IRREGULAR)
  {
    StartPending(Spot([], root), ALL, pick);
    StartPending(Spot([], root), ALL, IRREGULAR);
  }

  lemma {:induction false} OverfullAccount(pick: Pick, listed: seq<Spot>, pending: seq<Spot>, path: Path, es: seq<Entry>)
    requires AreDirectories(pending)
    ensures |AccountOf(pick, listed, pending, path, es).listed| >= |listed|
  {
    assert |multiset(listed)| == |listed|;
  }

  lemma {:induction false} IrregularAccount(
    pick: Pick, listed: seq<Spot>, pending: seq<Spot>, path: Path, es: seq<Entry>, i: nat)
    requires AreDirectories(pending) && i < |es| && IRREGULAR(es[i].node)
    ensures Spot(path + [es[i].name], es[i].node) in AccountOf(pick, listed, pending, path, es).irregular
  {
    BelowHasEntry(path, es, IRREGULAR, i);
    assert Spot(path + [es[i].name], es[i].node) in AccountOf(pick, listed, pending, path, es).irregular;
  }

  /** What each refusal code says about the tree. */
  ghost predicate IsCause(root: Node, code: Blocked) {
    match code
    case ReparsePoint => exists rel :: Walk(root, rel, ALL) == Some(Symlink)
    case Unavailable => !root.Dir? || FilesBelow(root) == multiset{} || exists rel :: Walk(root, rel, ALL) == Some(Special)
    case TooLarge => root.Dir? && |FilesBelow(root)| > 20000
    case NonregularPath => false
  }

  /** The same, said of the nodes a traversal has to account for. */
  ghost predicate IsCauseIn(listed: multiset<Spot>, irregular: multiset<Spot>, code: Blocked) {
    match code
    case ReparsePoint => exists spot <- irregular :: spot.node == Symlink
    case Unavailable => exists spot <- irregular :: spot.node == Special
    case TooLarge => |listed| > MAX_PACKAGE_FILES
    case NonregularPath => false
  }

  lemma {:induction false} BlockedHasCause(root: Node, code: Blocked)
    requires root.Dir? && WellFormed(root)
    requires IsCauseIn(FilesBelow(root), Below([], root.entries, ALL, IRREGULAR), code)
    ensures IsCause(root, code)
    ensures !PackageAccepted(root)
  {
    hide Below, Walk, WellFormed, AllRegular;
    if code != TooLarge {
      var spot :| spot in Below([], root.entries, ALL, IRREGULAR) && (spot.node == Symlink || spot.node == Special)
        && (spot.node == Symlink <==> code == ReparsePoint);
      BelowRoot(root, IRREGULAR, spot);
      RegularIffNothingIrregular(root);
    }
  }

  /** Entries of the package tree by a stack traversal, then sorted; the digest is a hash of the result. */
  method PackageFiles(root: Node) returns (r: Result<seq<Spot>>)
    requires WellFormed(root)
    ensures r.Ok? <==> PackageAccepted(root)
    ensures r.Ok? ==> IsPackageListing(root, r.value)
    ensures r.Err? ==> IsCause(root, r.error)
  {
    hide IsCauseIn, IsPackageListing, AllRegular, Walk, Below, WellFormed;
    if !root.Dir? {
      return Err(Unavailable);
    }
    RegularIffNothingIrregular(root);
    var files: seq<Spot> := [];
    var pending := [Spot([], root)];
    StartAccount(FILES, root);
    ghost var goal := AccountOf(FILES, files, pending, [], []);
    while pending != []
      invariant AreDirectories(pending) && |files| <= MAX_PACKAGE_FILES
      invariant Continues(goal, AccountOf(FILES, files, pending, [], []))
      decreases StackWeight(pending)
    {
      var directory := pending[|pending| - 1];
      PopAccount(FILES, files, pending);
      var blocked;
      blocked, files, pending := ScanPackageDirectory(directory, files, pending[..|pending| - 1]);
      if blocked.Some? {
        BlockedHasCause(root, blocked.value);
        return Err(blocked.value);
      }
    }
    if files == [] {
      assert FilesBelow(root) == multiset{};
      return Err(Unavailable);
    }
    assert |multiset(files)| == |files|;
    ListingOfTraversal(root, files);
    return Ok(Sorted(files, ByText));
  }

  /** One round of the traversal: the entries of one directory. */
  method ScanPackageDirectory(directory: Spot, files0: seq<Spot>, pending0: seq<Spot>)
    returns (blocked: Option<Blocked>, files: seq<Spot>, pending: seq<Spot>)
    requires directory.node.Dir? && AreDirectories(pending0) && |files0| <= MAX_PACKAGE_FILES
    ensures blocked.None? ==>
      && AreDirectories(pending) && |files| <= MAX_PACKAGE_FILES
      && Continues(
           AccountOf(FILES, files0, pending0, directory.path, directory.node.entries),
           AccountOf(FILES, files, pending, [], []))
    ensures var before := AccountOf(FILES, files0, pending0, directory.path, directory.node.entries);
      blocked.Some? ==> IsCauseIn(before.listed, before.irregular, blocked.value)
  {
    var path, entries := directory.path, directory.node.entries;
    files, pending := files0, pending0;
    ghost var before := AccountOf(FILES, files0, pending0, path, entries);
    assert entries[0..] == entries;
    for i := 0 to |entries|
      invariant AreDirectories(pending) && |files| <= MAX_PACKAGE_FILES
      invariant Continues(before, AccountOf(FILES, files, pending, path, entries[i..]))
    {
      var entry := entries[i];
      var here := path + [entry.name];
      if entry.node.Symlink? || entry.node.Special? {
        IrregularAccount(FILES, files0, pending0, path, entries, i);
        return Some(if entry.node.Symlink? then ReparsePoint else Unavailable), files, pending;
      }
      StepAccount(FILES, files, pending, path, entries, i);
      if entry.node.Dir? {
        pending := pending + [Spot(here, entry.node)];
      } else {
        files := files + [Spot(here, entry.node)];
      }
      if |files| > MAX_PACKAGE_FILES {
        OverfullAccount(FILES, files, pending, path, entries[i + 1..]);
        return Some(TooLarge), files, pending;
      }
    }
    assert entries[|entries|..] == [];
    blocked := None;
  }

  lemma {:induction false} BelowHasEntry(path: Path, es: seq<Entry>, pick: Pick, i: nat)
    requires i < |es| && pick(es[i].node)
    ensures Spot(path + [es[i].name], es[i].node) in Below(path, es, ALL, pick)
  {
    if i > 0 {
      BelowHasEntry(path, es[1..], pick, i - 1);
    }
  }

  lemma {:induction false} ByTextIsStrict()
    ensures StrictOrder(ByText)
  {
    StringLessIsStrict();
    forall a: Spot, b: Spot, c: Spot | ByText(a, b) && ByText(b, c) ensures ByText(a, c) {
      assert StringLess(Text(a.path, '/'), Text(b.path, '/')) && StringLess(Text(b.path, '/'), Text(c.path, '/'));
    }
  }

  lemma {:induction false} ListingOfTraversal(root: Node, files: seq<Spot>)
    requires root.Dir? && WellFormed(root) && multiset(files) == FilesBelow(root)
    ensures IsPackageListing(root, Sorted(files, ByText))
  {
    ByTextIsStrict();
    forall s ensures multiset(files)[s] == if IsFileOf(root, s) then 1 else 0 {
      BelowRoot(root, FILES, s);
    }
    forall i, j | 0 <= i < j < |files| ensures ByText(files[i], files[j]) || ByText(files[j], files[i]) {
      assert files[i] in multiset(files) && files[j] in multiset(files);
      MembersDiffer(files, i, j);
      FilesAreComparable(root, files[i], files[j]);
    }
    SortedSorts(files, ByText);
    var list := Sorted(files, ByText);
    assert forall s :: s in list <==> s in multiset(list);
  }

  lemma {:induction false} MembersDiffer<T>(xs: seq<T>, i: nat, j: nat)
    requires i < j < |xs| && multiset(xs)[xs[i]] == 1
    ensures xs[i] != xs[j]
  {
    assert xs == xs[..j] + [xs[j]] + xs[j + 1..];
    assert xs[..j][i] in multiset(xs[..j]);
  }

  /** The digest input depends on the tree alone: every enumeration order is accepted or blocked alike and lists alike. */
  lemma {:induction false} PackageListingIgnoresOrder(a: Node, b: Node, la: seq<Spot>, lb: seq<Spot>)
    requires WellFormed(a) && WellFormed(b) && SameTree(a, b)
    ensures PackageAccepted(a) <==> PackageAccepted(b)
    ensures IsPackageListing(a, la) && IsPackageListing(b, lb) ==> la == lb
  {
    forall rel ensures Walk(a, rel, ALL).Some? <==> Walk(b, rel, ALL).Some?
      ensures Walk(a, rel, ALL).Some? ==> SameTree(Walk(a, rel, ALL).value, Walk(b, rel, ALL).value)
    {
      SameTreeWalk(a, b, rel);
    }
    if a.Dir? {
      forall l ensures FilesBelow(a)[l] == FilesBelow(b)[l] {
        BelowRoot(a, FILES, l);
        BelowRoot(b, FILES, l);
      }
      assert FilesBelow(a) == FilesBelow(b);
    }
    if IsPackageListing(a, la) && IsPackageListing(b, lb) {
      assert forall s :: IsFileOf(a, s) <==> IsFileOf(b, s);
      ByTextIsStrict();
      AscendingIsUnique(la, lb, ByText);
    }
  }

  // ---- The sealing order ----

  ghost function EverythingBelow(root: Node): multiset<Spot>
    requires root.Dir?
  {
    Below([], root.entries, ALL, ANY)
  }

  ghost predicate SealAccepted(root: Node) {
    root.Dir? && AllRegular(root) && 1 + |EverythingBelow(root)| <= 8192
  }

  /** Sealing runs on Windows only, where `str(path)` joins with a backslash and no name can hold one. */
  const BACKSLASH := '\\'

  ghost predicate WindowsNames(root: Node) {
    forall rel :: Walk(root, rel, ALL).Some? ==> Parted(rel, BACKSLASH)
  }

  /** The sort key `(len(path.parts), str(path))`, for paths below one root. */
  predicate SealBefore(a: Spot, b: Spot) {
    |a.path| < |b.path| || (|a.path| == |b.path| && StringLess(Text(a.path, BACKSLASH), Text(b.path, BACKSLASH)))
  }

  /** The root and everything below it, each once, ascending by depth and then by text. */
  ghost predicate IsSealOrder(root: Node, order: seq<Spot>) {
    && Ascending(order, SealBefore)
    && (forall s :: s in order <==> Walk(root, s.path, ALL) == Some(s.node))
  }

  /** Parent first: a directory is sealed before anything below it, and nothing outside the root is listed. */
  lemma {:induction false} SealsParentsFirst(root: Node, order: seq<Spot>, j: nat, n: nat)
    requires WellFormed(root) && IsSealOrder(root, order) && j < |order| && n < |order[j].path|
    ensures exists i: nat :: i < j && order[i].path == order[j].path[..n] && order[i].node.Dir?
  {
    var path := order[j].path;
    assert order[j] in order && path == path[..n] + path[n..];
    WalkAppend(root, path[..n], path[n..], ALL);
    var parent := Spot(path[..n], Walk(root, path[..n], ALL).value);
    assert parent in order;
    var i :| 0 <= i < |order| && order[i] == parent;
    assert i != j;
    assert j < i ==> SealBefore(order[j], order[i]);
  }

  lemma {:induction false} SealBeforeIsStrict()
    ensures StrictOrder(SealBefore)
  {
    StringLessIsStrict();
    forall a: Spot ensures !SealBefore(a, a) {
      assert !StringLess(Text(a.path, BACKSLASH), Text(a.path, BACKSLASH));
    }
    forall a: Spot, b: Spot, c: Spot | SealBefore(a, b) && SealBefore(b, c) ensures SealBefore(a, c) {
      var x, y, z := Text(a.path, BACKSLASH), Text(b.path, BACKSLASH), Text(c.path, BACKSLASH);
      assert StringLess(x, y) && StringLess(y, z) ==> StringLess(x, z);
    }
  }

  /** Both trees have something at the path, or neither has. */
  ghost predicate SamePlace(a: Node, b: Node, path: Path) { Walk(a, path, ALL).Some? <==> Walk(b, path, ALL).Some? }

  lemma {:induction false} BareSpotIsListed(a: Node, b: Node, oa: seq<Spot>, ob: seq<Spot>, s: Spot)
    requires IsSealOrder(a, oa) && IsSealOrder(b, ob) && SamePlace(a, b, s.path) && s in Bare(oa)
    ensures s in Bare(ob)
  {
    var k :| 0 <= k < |oa| && Bare(oa)[k] == s;
    assert oa[k] in oa;
    var t := Spot(s.path, Walk(b, s.path, ALL).value);
    assert t in ob;
    var m :| 0 <= m < |ob| && ob[m] == t;
    assert Bare(ob)[m] == s;
  }

  /** The sealing order is a function of the tree alone, as a list of paths. */
  lemma {:induction false} SealOrderIgnoresEnumeration(a: Node, b: Node, oa: seq<Spot>, ob: seq<Spot>)
    requires WellFormed(a) && WellFormed(b) && SameTree(a, b)
    requires IsSealOrder(a, oa) && IsSealOrder(b, ob)
    ensures |oa| == |ob| && forall k :: 0 <= k < |oa| ==> oa[k].path == ob[k].path
  {
    var pa, pb := Bare(oa), Bare(ob);
    SealBeforeIsStrict();
    forall s ensures s in pa <==> s in pb {
      SameTreeWalk(a, b, s.path);
      if s in pa { BareSpotIsListed(a, b, oa, ob, s); }
      if s in pb { BareSpotIsListed(b, a, ob, oa, s); }
    }
    assert Ascending(pa, SealBefore) && Ascending(pb, SealBefore);
    AscendingIsUnique(pa, pb, SealBefore);
    forall k | 0 <= k < |oa| ensures oa[k].path == ob[k].path {
      assert pa[k] == pb[k];
    }
  }

  /** The members of a multiset in some order. */
  ghost function InSomeOrder<T>(m: multiset<T>): (xs: seq<T>)
    ensures multiset(xs) == m
    decreases |m|
  {
    if m == multiset{} then []
    else
      var x :| x in m;
      [x] + InSomeOrder(m - multiset{x})
  }

  lemma {:induction false} OrderCounts(root: Node) returns (order: seq<Spot>)
    requires root.Dir? && WellFormed(root) && WindowsNames(root)
    ensures IsSealOrder(root, order) && |order| == 1 + |EverythingBelow(root)|
  {
    hide Below, WellFormed, IsSealOrder, WindowsNames;
    var below := InSomeOrder(EverythingBelow(root));
    OrderOfTraversal(root, below);
    order := Sorted([Spot([], root)] + below, SealBefore);
    SortedCounts(root, below);
    assert |multiset(below)| == |below|;
  }

  lemma {:induction false} SortedCounts(root: Node, below: seq<Spot>)
    ensures |Sorted([Spot([], root)] + below, SealBefore)| == 1 + |below|
  {
    SortedKeepsLength([Spot([], root)] + below, SealBefore);
  }

  /** One enumeration order of a tree is accepted exactly when every other is. */
  lemma {:induction false} SealingIgnoresEnumeration(a: Node, b: Node)
    requires WellFormed(a) && WellFormed(b) && WindowsNames(a) && WindowsNames(b) && SameTree(a, b)
    ensures SealAccepted(a) <==> SealAccepted(b)
  {
    hide WellFormed, WindowsNames, IsSealOrder, Below;
    RegularAlike(a, b);
    if a.Dir? {
      var oa := OrderCounts(a);
      var ob := OrderCounts(b);
      SealOrderIgnoresEnumeration(a, b, oa, ob);
    }
  }

  lemma {:induction false} RegularAlike(a: Node, b: Node)
    requires SameTree(a, b)
    ensures (a.Dir? <==> b.Dir?) && (AllRegular(a) <==> AllRegular(b))
  {
    forall rel ensures Walk(a, rel, ALL).Some? <==> Walk(b, rel, ALL).Some?
      ensures Walk(a, rel, ALL).Some? ==> SameTree(Walk(a, rel, ALL).value, Walk(b, rel, ALL).value)
    {
      SameTreeWalk(a, b, rel);
    }
  }

  /** The same places without their contents. */
  ghost function Bare(order: seq<Spot>): (bare: seq<Spot>)
    ensures |bare| == |order| && forall k :: 0 <= k < |order| ==> bare[k] == Spot(order[k].path, Special)
  {
    seq(|order|, k requires 0 <= k < |order| => Spot(order[k].path, Special))
  }

  ghost predicate IsSealCause(root: Node, code: Blocked) {
    match code
    case ReparsePoint => !root.Dir? || exists rel :: Walk(root, rel, ALL) == Some(Symlink)
    case NonregularPath => exists rel :: Walk(root, rel, ALL) == Some(Special)
    case TooLarge => root.Dir? && 1 + |EverythingBelow(root)| > 8192
    case Unavailable => false
  }

  /** The same, said of the nodes a traversal has to account for. */
  ghost predicate IsSealCauseIn(listed: multiset<Spot>, irregular: multiset<Spot>, code: Blocked) {
    match code
    case ReparsePoint => exists spot <- irregular :: spot.node == Symlink
    case NonregularPath => exists spot <- irregular :: spot.node == Special
    case TooLarge => 1 + |listed| > MAX_CANDIDATE_PATHS
    case Unavailable => false
  }

  lemma {:induction false} SealBlockedHasCause(root: Node, code: Blocked)
    requires root.Dir? && WellFormed(root)
    requires IsSealCauseIn(EverythingBelow(root), Below([], root.entries, ALL, IRREGULAR), code)
    ensures IsSealCause(root, code)
    ensures !SealAccepted(root)
  {
    hide Below, Walk, WellFormed, AllRegular;
    if code != TooLarge {
      var spot :| spot in Below([], root.entries, ALL, IRREGULAR) && (spot.node == Symlink || spot.node == Special)
        && (spot.node == Symlink <==> code == ReparsePoint);
      BelowRoot(root, IRREGULAR, spot);
      RegularIffNothingIrregular(root);
    }
  }

  /** Enumerates the candidate tree from its root, then sorts by depth and text. */
  method SealOrder(root: Node) returns (r: Result<seq<Spot>>)
    requires WellFormed(root) && WindowsNames(root)
    ensures r.Ok? <==> SealAccepted(root)
    ensures r.Ok? ==> IsSealOrder(root, r.value)
    ensures r.Err? ==> IsSealCause(root, r.error)
  {
    hide IsSealCauseIn, IsSealOrder, AllRegular, Walk, Below, WellFormed, WindowsNames;
    if !root.Dir? {
      return Err(ReparsePoint);
    }
    RegularIffNothingIrregular(root);
    var top := Spot([], root);
    var paths: seq<Spot> := [];
    var pending := [top];
    StartAccount(ANY, root);
    ghost var goal := AccountOf(ANY, paths, pending, [], []);
    while pending != []
      invariant AreDirectories(pending) && 1 + |paths| <= MAX_CANDIDATE_PATHS
      invariant Continues(goal, AccountOf(ANY, paths, pending, [], []))
      decreases StackWeight(pending)
    {
      var directory := pending[|pending| - 1];
      PopAccount(ANY, paths, pending);
      var blocked;
      blocked, paths, pending := ScanCandidateDirectory(directory, paths, pending[..|pending| - 1]);
      if blocked.Some? {
        SealBlockedHasCause(root, blocked.value);
        return Err(blocked.value);
      }
    }
    assert |multiset(paths)| == |paths|;
    OrderOfTraversal(root, paths);
    return Ok(Sorted([top] + paths, SealBefore));
  }

  /** One round of the sealing enumeration; `below` holds the paths after the root. */
  method ScanCandidateDirectory(directory: Spot, below0: seq<Spot>, pending0: seq<Spot>)
    returns (blocked: Option<Blocked>, below: seq<Spot>, pending: seq<Spot>)
    requires directory.node.Dir? && AreDirectories(pending0) && 1 + |below0| <= MAX_CANDIDATE_PATHS
    ensures blocked.None? ==>
      && AreDirectories(pending) && 1 + |below| <= MAX_CANDIDATE_PATHS
      && Continues(
           AccountOf(ANY, below0, pending0, directory.path, directory.node.entries),
           AccountOf(ANY, below, pending, [], []))
    ensures var before := AccountOf(ANY, below0, pending0, directory.path, directory.node.entries);
      blocked.Some? ==> IsSealCauseIn(before.listed, before.irregular, blocked.value)
  {
    var path, entries := directory.path, directory.node.entries;
    below, pending := below0, pending0;
    ghost var before := AccountOf(ANY, below0, pending0, path, entries);
    assert entries[0..] == entries;
    for i := 0 to |entries|
      invariant AreDirectories(pending) && 1 + |below| <= MAX_CANDIDATE_PATHS
      invariant Continues(before, AccountOf(ANY, below, pending, path, entries[i..]))
    {
      var entry := entries[i];
      var here := path + [entry.name];
      if entry.node.Symlink? || entry.node.Special? {
        IrregularAccount(ANY, below0, pending0, path, entries, i);
        return Some(if entry.node.Symlink? then ReparsePoint else NonregularPath), below, pending;
      }
      StepAccount(ANY, below, pending, path, entries, i);
      if entry.node.Dir? {
        pending := pending + [Spot(here, entry.node)];
      }
      below := below + [Spot(here, entry.node)];
      if 1 + |below| > MAX_CANDIDATE_PATHS {
        OverfullAccount(ANY, below, pending, path, entries[i + 1..]);
        return Some(TooLarge), below, pending;
      }
    }
    assert entries[|entries|..] == [];
    blocked := None;
  }

  lemma {:induction false} BelowIsListedOnce(root: Node, below: seq<Spot>)
    requires root.Dir? && WellFormed(root) && multiset(below) == EverythingBelow(root)
    ensures forall s :: multiset(below)[s] == if s.path != [] && Walk(root, s.path, ALL) == Some(s.node) then 1 else 0
  {
    hide Walk, Below, WellFormed;
    forall s ensures multiset(below)[s] == if s.path != [] && Walk(root, s.path, ALL) == Some(s.node) then 1 else 0 {
      BelowRoot(root, ANY, s);
    }
  }

  lemma {:induction false} PathsAreComparable(root: Node, below: seq<Spot>)
    requires root.Dir? && WellFormed(root) && WindowsNames(root) && multiset(below) == EverythingBelow(root)
    ensures Comparable([Spot([], root)] + below, SealBefore)
  {
    hide Walk, Below, WellFormed, WindowsNames;
    var paths := [Spot([], root)] + below;
    BelowIsListedOnce(root, below);
    assert forall s <- below :: s in multiset(below);
    forall i, j | 0 <= i < j < |paths| ensures SealBefore(paths[i], paths[j]) || SealBefore(paths[j], paths[i]) {
      assert paths[j] == below[j - 1];
      if i > 0 {
        assert paths[i] == below[i - 1];
        MembersDiffer(below, i - 1, j - 1);
        SpotsAreComparable(root, paths[i], paths[j]);
      }
    }
  }

  lemma {:induction false} OrderOfTraversal(root: Node, below: seq<Spot>)
    requires root.Dir? && WellFormed(root) && WindowsNames(root) && multiset(below) == EverythingBelow(root)
    ensures IsSealOrder(root, Sorted([Spot([], root)] + below, SealBefore))
  {
    hide SealBefore, Below, WellFormed, Comparable, WindowsNames;
    var paths := [Spot([], root)] + below;
    SealBeforeIsStrict();
    BelowIsListedOnce(root, below);
    PathsAreComparable(root, below);
    SortedSorts(paths, SealBefore);
    var order := Sorted(paths, SealBefore);
    forall s ensures s in order <==> Walk(root, s.path, ALL) == Some(s.node) {
      assert s in order <==> s in multiset(order);
      assert s in multiset(paths) <==> s == Spot([], root) || s in multiset(below);
    }
  }

  lemma {:induction false} TextsAreComparable(root: Node, a: Spot, b: Spot, sep: char)
    requires a != b && a.path != [] && b.path != [] && Parted(a.path, sep) && Parted(b.path, sep)
    requires Walk(root, a.path, ALL) == Some(a.node) && Walk(root, b.path, ALL) == Some(b.node)
    ensures StringLess(Text(a.path, sep), Text(b.path, sep)) || StringLess(Text(b.path, sep), Text(a.path, sep))
  {
    if Text(a.path, sep) == Text(b.path, sep) {
      TextIsInjective(a.path, b.path, sep);
    }
    StringLessIsTotal(Text(a.path, sep), Text(b.path, sep));
  }

  lemma {:induction false} FilesAreComparable(root: Node, a: Spot, b: Spot)
    requires WellFormed(root) && a != b && a.path != [] && b.path != []
    requires Walk(root, a.path, ALL) == Some(a.node) && Walk(root, b.path, ALL) == Some(b.node)
    ensures ByText(a, b) || ByText(b, a)
  {
    WalkWellFormed(root, a.path, ALL);
    WalkWellFormed(root, b.path, ALL);
    TextsAreComparable(root, a, b, '/');
  }

  lemma {:induction false} SpotsAreComparable(root: Node, a: Spot, b: Spot)
    requires WindowsNames(root) && a != b && a.path != [] && b.path != []
    requires Walk(root, a.path, ALL) == Some(a.node) && Walk(root, b.path, ALL) == Some(b.node)
    ensures SealBefore(a, b) || SealBefore(b, a)
  {
    TextsAreComparable(root, a, b, BACKSLASH);
  }
}
