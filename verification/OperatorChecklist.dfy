/** scripts/nac_hw_bridge.py: what the matter list says about a matter's checklist. */
module OperatorChecklist {
  import opened Options
  import opened Text

  datatype Progress = Open | Waiting | Completed
  datatype Item = Item(id: string, caption: string, status: string)
  datatype Section = Section(caption: string, items: seq<Item>)
  datatype Step = Step(section: string, item: Item)

  /** `normalize_checklist_status`: unlike a matter's status, an unknown word counts as open. */
  function NormalizeProgress(value: string): Progress {
    var status := Lower(Strip(value));
    if status in {"done", "complete", "completed", "closed", "erledigt", "abgeschlossen"} then Completed
    else if status in {"waiting", "blocked", "warten", "wartet"} then Waiting
    else Open
  }

  /** The words of a progress, in any mixture of capitals and blanks around; any other word means open. */
  predicate MeansProgress(value: string, progress: Progress) {
    var word := Lower(Strip(value));
    var over := {"done", "complete", "completed", "closed", "erledigt", "abgeschlossen"};
    var held := {"waiting", "blocked", "warten", "wartet"};
    match progress
    case Completed => word in over
    case Waiting => word in held
    case Open => word !in over + held
  }

  /** Every value means one progress, the one read. */
  lemma {:induction false} ProgressReads(value: string, progress: Progress)
    ensures MeansProgress(value, progress) <==> NormalizeProgress(value) == progress
  {
    hide Strip, Lower;
  }

  predicate Done(s: Step) { NormalizeProgress(s.item.status) == Completed }

  /** The items with their sections, in order. */
  function Steps(sections: seq<Section>): seq<Step> {
    if sections == [] then []
    else
      var n := |sections| - 1;
      Steps(sections[..n]) + StepsOf(sections[n].caption, sections[n].items)
  }

  function StepsOf(caption: string, items: seq<Item>): (r: seq<Step>)
    ensures |r| == |items| && forall k :: 0 <= k < |r| ==> r[k] == Step(caption, items[k])
  {
    seq(|items|, k requires 0 <= k < |items| => Step(caption, items[k]))
  }

  function DoneCount(steps: seq<Step>): nat {
    if steps == [] then 0
    else DoneCount(steps[..|steps| - 1]) + if Done(steps[|steps| - 1]) then 1 else 0
  }

  /** `next` is the first step that is not done. */
  ghost predicate IsNext(steps: seq<Step>, next: Option<Step>) {
    match next
    case None => forall s <- steps :: Done(s)
    case Some(step) => exists k :: 0 <= k < |steps| && steps[k] == step && !Done(step) && forall j :: 0 <= j < k ==> Done(steps[j])
  }

  lemma {:induction false} CountStep(steps: seq<Step>, s: Step)
    ensures DoneCount(steps + [s]) == DoneCount(steps) + if Done(s) then 1 else 0
  {
    assert (steps + [s])[..|steps|] == steps;
  }

  lemma {:induction false} NextStep(steps: seq<Step>, s: Step, next: Option<Step>)
    requires IsNext(steps, next)
    ensures IsNext(steps + [s], if next.None? && !Done(s) then Some(s) else next)
  {
    var all := steps + [s];
    match next
    case None =>
      assert forall j :: 0 <= j < |steps| ==> steps[j] in steps && all[j] == steps[j];
      assert all[|steps|] == s;
    case Some(step) =>
      var k :| 0 <= k < |steps| && steps[k] == step && !Done(step) && forall j :: 0 <= j < k ==> Done(steps[j]);
      assert all[k] == step && forall j :: 0 <= j < k ==> all[j] == steps[j];
  }

  /** All steps are done exactly when every one is counted. */
  lemma {:induction false} AllDone(steps: seq<Step>)
    ensures DoneCount(steps) <= |steps|
    ensures DoneCount(steps) == |steps| <==> forall s <- steps :: Done(s)
    decreases |steps|
  {
    if steps != [] {
      var front, last := steps[..|steps| - 1], steps[|steps| - 1];
      AllDone(front);
      assert forall s :: s in steps <==> s in front || s == last;
    }
  }

  /**
   * Every item is counted once, as done or as open; the next step is the first open one; the summary says completed
   * exactly for a checklist with items that are all done.
   */
  method SummarizeChecklist(sections: seq<Section>)
    returns (open: nat, completed: nat, total: nat, finished: bool, next: Option<Step>)
    ensures total == |Steps(sections)| && open + completed == total && completed == DoneCount(Steps(sections))
    ensures IsNext(Steps(sections), next) && (next.None? <==> open == 0)
    ensures finished <==> Steps(sections) != [] && forall s <- Steps(sections) :: Done(s)
  {
    hide Done, IsNext, DoneCount;
    open, completed, total, next := 0, 0, 0, None;
    ghost var seen: seq<Step> := [];
    NothingSeen();
    for i := 0 to |sections|
      invariant seen == Steps(sections[..i])
      invariant total == |seen| == open + completed && completed == DoneCount(seen) && IsNext(seen, next)
    {
      var caption, items := sections[i].caption, sections[i].items;
      ghost var before := seen;
      assert sections[..i + 1][..i] == sections[..i];
      for j := 0 to |items|
        invariant seen == before + StepsOf(caption, items)[..j]
        invariant total == |seen| == open + completed && completed == DoneCount(seen) && IsNext(seen, next)
      {
        var step := Step(caption, items[j]);
        CountStep(seen, step);
        NextStep(seen, step, next);
        assert StepsOf(caption, items)[..j + 1] == StepsOf(caption, items)[..j] + [step];
        seen := seen + [step];
        total := total + 1;
        if Done(step) {
          completed := completed + 1;
          continue;
        }
        open := open + 1;
        if next.None? {
          next := Some(step);
        }
      }
    }
    assert sections[..|sections|] == sections;
    AllDone(seen);
    NextMeansOpen(seen, next);
    finished := total > 0 && completed == total;
  }

  lemma {:induction false} NothingSeen()
    ensures DoneCount([]) == 0 && IsNext([], None)
  {
  }

  lemma {:induction false} NextMeansOpen(steps: seq<Step>, next: Option<Step>)
    requires IsNext(steps, next)
    ensures next.None? <==> forall s <- steps :: Done(s)
  {
    if next.Some? {
      var k :| 0 <= k < |steps| && steps[k] == next.value && !Done(next.value);
      assert steps[k] in steps;
    }
  }
}
