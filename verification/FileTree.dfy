/** Directory trees as the scripts see them: entries come in an arbitrary enumeration order. */
module FileTree {
  import opened Options

  /** What `lstat` tells apart; `Special` is every other kind of path (socket, device). */
  datatype Node = File(size: nat, sha256: string) | Dir(entries: seq<Entry>) | Symlink | Special
  datatype Entry = Entry(name: string, node: Node)

  type Path = seq<string>

  /** A node together with the path it is reached by. */
  datatype Spot = Spot(path: Path, node: Node)

  predicate ProperName(name: string) {
    name != "" && name != "." && name != ".." && '/' !in name
  }

  /** Names within one directory are proper and pairwise different. */
  ghost predicate WellFormedEntries(es: seq<Entry>) {
    es != [] ==>
      && ProperName(es[0].name)
      && (forall k :: 0 < k < |es| ==> es[k].name != es[0].name)
      && (es[0].node.Dir? ==> WellFormedEntries(es[0].node.entries))
      && WellFormedEntries(es[1..])
  }

  ghost predicate WellFormed(node: Node) {
    node.Dir? ==> WellFormedEntries(node.entries)
  }

  function Find(es: seq<Entry>, name: string): (r: Option<Node>)
    ensures r.Some? <==> exists k :: 0 <= k < |es| && es[k].name == name
  {
    if es == [] then None
    else if es[0].name == name then Some(es[0].node)
    else Find(es[1..], name)
  }

  type Keep = Entry -> bool
  type Pick = Node -> bool

  /** The node `rel` leads to from `node`, through kept entries only. */
  function Walk(node: Node, rel: Path, keep: Keep): Option<Node>
    decreases |rel|
  {
    if rel == [] then Some(node)
    else if !node.Dir? then None
    else match Find(node.entries, rel[0])
      case None => None
      case Some(child) => if keep(Entry(rel[0], child)) then Walk(child, rel[1..], keep) else None
  }

  /** Every picked node strictly below a directory with entries `es`, reached through kept entries. */
  ghost function Below(path: Path, es: seq<Entry>, keep: Keep, pick: Pick): multiset<Spot>
    decreases es
  {
    if es == [] then multiset{}
    else
      var here := path + [es[0].name];
      var first :=
        if !keep(es[0]) then multiset{}
        else
          (if pick(es[0].node) then multiset{Spot(here, es[0].node)} else multiset{})
          + (if es[0].node.Dir? then Below(here, es[0].node.entries, keep, pick) else multiset{});
      first + Below(path, es[1..], keep, pick)
  }

  function Weight(es: seq<Entry>): nat {
    if es == [] then 0
    else 1 + (if es[0].node.Dir? then Weight(es[0].node.entries) else 0) + Weight(es[1..])
  }

  ghost predicate Prefix(p: Path, q: Path) {
    |p| < |q| && q[..|p|] == p
  }

  /** `l` lies strictly below `path`, along kept entries, and is picked. */
  ghost predicate IsBelow(path: Path, es: seq<Entry>, keep: Keep, pick: Pick, l: Spot) {
    && Prefix(path, l.path)
    && Walk(Dir(es), l.path[|path|..], keep) == Some(l.node)
    && pick(l.node)
  }

  lemma {:induction false} WellFormedAt(es: seq<Entry>, k: nat)
    requires WellFormedEntries(es) && k < |es|
    ensures ProperName(es[k].name) && WellFormed(es[k].node)
    ensures Find(es, es[k].name) == Some(es[k].node)
  {
    if k > 0 {
      WellFormedAt(es[1..], k - 1);
    }
  }

  lemma {:induction false} FindWellFormed(es: seq<Entry>, name: string)
    requires WellFormedEntries(es) && Find(es, name).Some?
    ensures ProperName(name) && WellFormed(Find(es, name).value)
  {
    if es[0].name != name {
      FindWellFormed(es[1..], name);
    }
  }

  lemma {:induction false} WalkWellFormed(node: Node, rel: Path, keep: Keep)
    requires WellFormed(node) && Walk(node, rel, keep).Some?
    ensures WellFormed(Walk(node, rel, keep).value)
    ensures forall k :: 0 <= k < |rel| ==> ProperName(rel[k])
    decreases |rel|
  {
    if rel != [] {
      FindWellFormed(node.entries, rel[0]);
      WalkWellFormed(Find(node.entries, rel[0]).value, rel[1..], keep);
      assert forall k :: 0 < k < |rel| ==> rel[k] == rel[1..][k - 1];
    }
  }

  lemma {:induction false} WalkAppend(node: Node, a: Path, b: Path, keep: Keep)
    ensures Walk(node, a + b, keep)
         == match Walk(node, a, keep) case None => None case Some(mid) => Walk(mid, b, keep)
    decreases |a|
  {
    if a == [] {
      assert a + b == b;
    } else {
      assert (a + b)[1..] == a[1..] + b;
      if node.Dir? && Find(node.entries, a[0]).Some? {
        WalkAppend(Find(node.entries, a[0]).value, a[1..], b, keep);
      }
    }
  }

  /** `l` is the entry `e` of the directory `path`, or lies below it. */
  ghost predicate IsUnderEntry(path: Path, e: Entry, keep: Keep, pick: Pick, l: Spot) {
    && Prefix(path, l.path)
    && l.path[|path|] == e.name
    && keep(e)
    && Walk(e.node, l.path[|path| + 1..], keep) == Some(l.node)
    && pick(l.node)
  }

  lemma {:induction false} IsBelowSplits(path: Path, es: seq<Entry>, keep: Keep, pick: Pick, l: Spot)
    requires WellFormedEntries(es) && es != []
    ensures IsBelow(path, es, keep, pick, l)
       <==> IsUnderEntry(path, es[0], keep, pick, l) || IsBelow(path, es[1..], keep, pick, l)
    ensures !(IsUnderEntry(path, es[0], keep, pick, l) && IsBelow(path, es[1..], keep, pick, l))
  {
    if Prefix(path, l.path) {
      var rel := l.path[|path|..];
      assert rel[0] == l.path[|path|] && rel[1..] == l.path[|path| + 1..];
      assert Entry(es[0].name, es[0].node) == es[0];
      if rel[0] == es[0].name {
        assert Find(es[1..], rel[0]).None?;
      }
    }
  }

  lemma {:induction false} UnderEntryUnfolds(path: Path, e: Entry, keep: Keep, pick: Pick, l: Spot)
    ensures IsUnderEntry(path, e, keep, pick, l)
       <==> keep(e) && (|| (l == Spot(path + [e.name], e.node) && pick(e.node))
                        || (e.node.Dir? && IsBelow(path + [e.name], e.node.entries, keep, pick, l)))
  {
    var here := path + [e.name];
    StepPrefix(path, e.name, l.path);
    if Prefix(path, l.path) && l.path[|path|] == e.name {
      if |l.path| == |here| {
        assert l.path == here;
      } else {
        assert Walk(e.node, l.path[|here|..], keep).Some? ==> Dir(e.node.entries) == e.node;
      }
    }
  }

  lemma {:induction false} StepPrefix(path: Path, name: string, q: Path)
    ensures Prefix(path, q) && q[|path|] == name <==> q == path + [name] || Prefix(path + [name], q)
  {
    var here := path + [name];
    if Prefix(path, q) && q[|path|] == name {
      assert q[..|here|] == here;
      assert |q| == |here| ==> q == here;
    }
    if Prefix(here, q) {
      assert q[..|path|] == q[..|here|][..|path|];
      assert q[..|here|][|path|] == name;
    }
  }

  /** The traversal set holds each reached and picked node exactly once, and nothing else. */
  lemma {:induction false} BelowIsWalk(path: Path, es: seq<Entry>, keep: Keep, pick: Pick, l: Spot)
    requires WellFormedEntries(es)
    ensures Below(path, es, keep, pick)[l] == if IsBelow(path, es, keep, pick, l) then 1 else 0
    decreases es
  {
    if es == [] {
      assert !IsBelow(path, es, keep, pick, l);
    } else {
      var e := es[0];
      BelowIsWalk(path, es[1..], keep, pick, l);
      IsBelowSplits(path, es, keep, pick, l);
      UnderEntryUnfolds(path, e, keep, pick, l);
      if e.node.Dir? {
        BelowIsWalk(path + [e.name], e.node.entries, keep, pick, l);
      }
    }
  }

  // ---- Depth-first traversal with an explicit stack of directories ----

  ghost predicate AreDirectories(stack: seq<Spot>) {
    forall s <- stack :: s.node.Dir?
  }

  /** What the directories still on the stack stand for. */
  ghost function Pending(stack: seq<Spot>, keep: Keep, pick: Pick): multiset<Spot>
    requires AreDirectories(stack)
  {
    if stack == [] then multiset{}
    else
      var top := stack[|stack| - 1];
      Below(top.path, top.node.entries, keep, pick) + Pending(stack[..|stack| - 1], keep, pick)
  }

  function StackWeight(stack: seq<Spot>): nat {
    if stack == [] then 0
    else
      var top := stack[|stack| - 1];
      1 + (if top.node.Dir? then Weight(top.node.entries) else 0) + StackWeight(stack[..|stack| - 1])
  }

  lemma {:induction false} PushPending(stack: seq<Spot>, s: Spot, keep: Keep, pick: Pick)
    requires AreDirectories(stack) && s.node.Dir?
    ensures AreDirectories(stack + [s])
    ensures Pending(stack + [s], keep, pick)
         == Pending(stack, keep, pick) + Below(s.path, s.node.entries, keep, pick)
    ensures StackWeight(stack + [s]) == StackWeight(stack) + 1 + Weight(s.node.entries)
  {
    assert (stack + [s])[..|stack|] == stack;
  }

  /** What one entry contributes to the set of nodes below its directory. */
  ghost function Contribution(path: Path, e: Entry, keep: Keep, pick: Pick): multiset<Spot> {
    if !keep(e) then multiset{}
    else
      (if pick(e.node) then multiset{Spot(path + [e.name], e.node)} else multiset{})
      + (if e.node.Dir? then Below(path + [e.name], e.node.entries, keep, pick) else multiset{})
  }

  lemma {:induction false} NextEntry(path: Path, es: seq<Entry>, i: nat, keep: Keep, pick: Pick)
    requires i < |es|
    ensures Below(path, es[i..], keep, pick) == Contribution(path, es[i], keep, pick) + Below(path, es[i + 1..], keep, pick)
    ensures Weight(es[i..]) == 1 + (if es[i].node.Dir? then Weight(es[i].node.entries) else 0) + Weight(es[i + 1..])
  {
    assert es[i..][0] == es[i] && es[i..][1..] == es[i + 1..];
  }

  ghost function Picked(s: Spot, pick: Pick): multiset<Spot> {
    if pick(s.node) then multiset{s} else multiset{}
  }

  /** The stack after a kept entry: a directory is pushed. */
  function PushIfDirectory(stack: seq<Spot>, spot: Spot): seq<Spot> {
    if spot.node.Dir? then stack + [spot] else stack
  }

  /** Visiting a kept entry moves its subtree from the entries to the stack and picks the entry itself. */
  lemma {:induction false} StepEntry(stack: seq<Spot>, path: Path, es: seq<Entry>, i: nat, keep: Keep, pick: Pick)
    requires AreDirectories(stack) && i < |es| && keep(es[i])
    ensures var spot := Spot(path + [es[i].name], es[i].node); var next := PushIfDirectory(stack, spot);
      && AreDirectories(next)
      && Picked(spot, pick) + (Pending(next, keep, pick) + Below(path, es[i + 1..], keep, pick))
         == Pending(stack, keep, pick) + Below(path, es[i..], keep, pick)
      && StackWeight(next) + Weight(es[i + 1..]) <= StackWeight(stack) + Weight(es[i..])
  {
    var spot := Spot(path + [es[i].name], es[i].node);
    NextEntry(path, es, i, keep, pick);
    if spot.node.Dir? {
      PushPending(stack, spot, keep, pick);
      assert Contribution(path, es[i], keep, pick) == Picked(spot, pick) + Below(spot.path, spot.node.entries, keep, pick);
    } else {
      assert Contribution(path, es[i], keep, pick) == Picked(spot, pick);
    }
  }

  lemma {:induction false} NothingBelow(path: Path, keep: Keep, pick: Pick)
    ensures Below(path, [], keep, pick) == multiset{}
  {
  }

  lemma {:induction false} StartPending(root: Spot, keep: Keep, pick: Pick)
    requires root.node.Dir?
    ensures AreDirectories([root])
    ensures Pending([root], keep, pick) == Below(root.path, root.node.entries, keep, pick)
  {
    PushPending([], root, keep, pick);
    assert [] + [root] == [root];
  }
}
