/** The runs of a rendered process, and where the workstation check stands in them. */
module UsecaseRuns {
  import opened BpmnTree
  import opened BpmnValidation
  import opened UsecaseBpmn
  import opened UsecaseAcceptance
  import opened UsecaseSteps

  // ---- Runs of a process ----

  predicate Leads(p: Element, a: string, b: string) {
    exists f <- SequenceFlows(p) :: Get(f, SourceRef) == a && Get(f, TargetRef) == b
  }

  predicate StartsAt(p: Element, id: string) {
    exists e <- FlowNodes(p) :: e.tag == StartEvent && Get(e, Id) == id
  }

  predicate EndsAt(p: Element, id: string) {
    forall f <- SequenceFlows(p) :: Get(f, SourceRef) != id
  }

  /** A run enters a start event and follows sequence flows. */
  predicate IsRun(p: Element, run: seq<string>) {
    && run != [] && StartsAt(p, run[0])
    && forall i :: 0 <= i < |run| - 1 ==> Leads(p, run[i], run[i + 1])
  }

  predicate MaximalRun(p: Element, run: seq<string>) { IsRun(p, run) && EndsAt(p, run[|run| - 1]) }

  predicate UniqueIds(steps: seq<Step>) {
    forall i, j :: 0 <= i < j < |steps| ==> steps[i].elementId != steps[j].elementId
  }

  function StepIds(steps: seq<Step>): seq<string> { seq(|steps|, i requires 0 <= i < |steps| => steps[i].elementId) }

  /** A single start, in front, and nothing that is not a flow node. */
  predicate Chain(steps: seq<Step>) {
    && steps != [] && UniqueIds(steps) && (forall s <- steps :: IsFlowNode(s.kind))
    && forall i :: 0 <= i < |steps| ==> (steps[i].kind == StartEvent <==> i == 0)
  }

  lemma {:induction false} FlowFrom(steps: seq<Step>, i: nat, f: Element)
    requires Chain(steps) && i < |steps| && f in FlowElements(steps, FlowCount(steps)) && Get(f, SourceRef) == steps[i].elementId
    ensures i + 1 < |steps| && Get(f, TargetRef) == steps[i + 1].elementId
  {
    var flows := FlowElements(steps, FlowCount(steps));
    var k :| 0 <= k < |flows| && flows[k] == f;
    assert flows[k] == FlowElement(steps, k);
    assert steps[k].elementId == steps[i].elementId;
  }

  lemma {:induction false} LeadsToNext(slug: string, title: string, safe: string, steps: seq<Step>, i: nat, b: string)
    requires Chain(steps) && i < |steps|
    ensures var p := ProcessElement(slug, title, safe, steps);
      && (Leads(p, steps[i].elementId, b) <==> i + 1 < |steps| && b == steps[i + 1].elementId)
      && (EndsAt(p, steps[i].elementId) <==> i + 1 == |steps|)
  {
    hide ProcessElement, SequenceFlows, FlowNodes, UniqueIds, IsFlowNode;
    var p := ProcessElement(slug, title, safe, steps);
    ProcessParts(slug, title, safe, steps);
    var flows := FlowElements(steps, FlowCount(steps));
    forall f <- flows ensures Get(f, SourceRef) == steps[i].elementId ==>
      i + 1 < |steps| && Get(f, TargetRef) == steps[i + 1].elementId
    {
      if Get(f, SourceRef) == steps[i].elementId { FlowFrom(steps, i, f); }
    }
    if i + 1 < |steps| {
      assert flows[i] == FlowElement(steps, i) && flows[i] in flows;
    }
  }

  lemma {:induction false} StartsAtFirst(slug: string, title: string, safe: string, steps: seq<Step>, id: string)
    requires Chain(steps)
    ensures StartsAt(ProcessElement(slug, title, safe, steps), id) <==> id == steps[0].elementId
  {
    hide IsFlowNode, UniqueIds, StepAttrs, ProcessElement, FlowNodes, SequenceFlows;
    var p := ProcessElement(slug, title, safe, steps);
    ProcessParts(slug, title, safe, steps);
    var nodes := StepElements(steps, slug, |steps|);
    AttrsOfStep(steps[0], slug, Id);
    assert nodes[0] == StepElement(steps, 0, slug) && nodes[0] in nodes;
    OnlyStartNode(steps, slug);
  }

  lemma {:induction false} OnlyStartNode(steps: seq<Step>, slug: string)
    requires Chain(steps)
    ensures forall e <- StepElements(steps, slug, |steps|) :: e.tag == StartEvent ==> e == StepElement(steps, 0, slug)
  {
    hide IsFlowNode, UniqueIds, StepAttrs;
    var nodes := StepElements(steps, slug, |steps|);
    forall e <- nodes ensures e.tag == StartEvent ==> e == nodes[0] {
      var i :| 0 <= i < |nodes| && nodes[i] == e;
    }
  }

  lemma {:induction false} RunFollowsSteps(
    slug: string, title: string, safe: string, steps: seq<Step>, run: seq<string>, i: nat)
    requires Chain(steps) && IsRun(ProcessElement(slug, title, safe, steps), run) && i < |run|
    ensures i < |steps| && run[i] == steps[i].elementId
    decreases i
  {
    hide Chain, Leads, StartsAt, EndsAt, ProcessElement;
    if i == 0 {
      StartsAtFirst(slug, title, safe, steps, run[0]);
      assert steps != [] by { ChainIsNotEmpty(steps); }
    } else {
      RunFollowsSteps(slug, title, safe, steps, run, i - 1);
      LeadsToNext(slug, title, safe, steps, i - 1, run[i]);
      var k := i - 1;
      assert Leads(ProcessElement(slug, title, safe, steps), run[k], run[k + 1]);
    }
  }

  lemma {:induction false} ChainIsNotEmpty(steps: seq<Step>)
    requires Chain(steps)
    ensures steps != []
  {
  }

  /** A rendered chain of steps has exactly one maximal run: the steps in their order. */
  lemma {:induction false} OneMaximalRun(slug: string, title: string, safe: string, steps: seq<Step>, run: seq<string>)
    requires Chain(steps)
    ensures MaximalRun(ProcessElement(slug, title, safe, steps), run) <==> run == StepIds(steps)
  {
    hide Chain, Leads, StartsAt, EndsAt, ProcessElement;
    var p := ProcessElement(slug, title, safe, steps);
    ChainIsNotEmpty(steps);
    if run == StepIds(steps) {
      StartsAtFirst(slug, title, safe, steps, run[0]);
      forall i | 0 <= i < |run| - 1 ensures Leads(p, run[i], run[i + 1]) {
        LeadsToNext(slug, title, safe, steps, i, run[i + 1]);
      }
      LeadsToNext(slug, title, safe, steps, |run| - 1, "");
    }
    if MaximalRun(p, run) {
      forall i | 0 <= i < |run| ensures i < |steps| && run[i] == steps[i].elementId {
        RunFollowsSteps(slug, title, safe, steps, run, i);
      }
      LeadsToNext(slug, title, safe, steps, |run| - 1, "");
    }
  }

  // ---- The ids of a usecase ----

  /** Length and sixth character of an id, packed into one number: enough to tell the ids of one usecase apart. */
  function Packed(length: nat, sixth: char): nat { length * 1000 + sixth as int }

  function Code(id: string): nat { if |id| > 5 then Packed(|id|, id[5]) else 0 }

  function Codes(steps: seq<Step>): seq<nat> { seq(|steps|, i requires 0 <= i < |steps| => Code(steps[i].elementId)) }

  predicate Distinct(xs: seq<nat>) { forall i, j :: 0 <= i < j < |xs| ==> xs[i] != xs[j] }

  lemma {:induction false} CodesTellApart(steps: seq<Step>)
    requires Distinct(Codes(steps))
    ensures UniqueIds(steps)
  {
    forall i, j | 0 <= i < j < |steps| ensures steps[i].elementId != steps[j].elementId {
      assert Codes(steps)[i] != Codes(steps)[j];
    }
  }

  lemma {:induction false} UsualCodes(slug: string)
    ensures Codes(UsualSteps(slug)) == [
      Packed(25, 'E'), Packed(21, 'A'), Packed(23, 'F'), Packed(22, 'U'), Packed(21, 'E'), Packed(25, 'I'),
      Packed(16, 'B'), Packed(23, 'E'), Packed(24, 'N'), Packed(22, 'e')]
  {
    hide Words, Channels, IntakeChannel, DocumentsChannel, DraftChannel, IdentityChannel, SignatureChannel;
    hide SubmissionChannel, FollowUpChannel, DocumentsLabel, DraftLabel, DeedLabel, SubmissionLabel;
  }

  lemma {:induction false} OnlineCodes()
    ensures Codes(OnlineSteps()) == [
      Packed(25, 'E'), Packed(28, 'S'), Packed(27, 'F'), Packed(25, 'U'), Packed(30, 'V'), Packed(22, 'O'),
      Packed(23, 'R'), Packed(24, 'N'), Packed(22, 'e')]
  {
    hide Words, Channels;
  }

  const CHECK_CODE := Packed(27, 'X')

  lemma {:induction false} CheckCode()
    ensures Code(CHECK.elementId) == CHECK_CODE
  {
    hide Words, Channels;
  }

  lemma {:induction false} InsertDistinct(xs: seq<nat>, x: nat, n: nat)
    requires Distinct(xs) && x !in xs && n <= |xs|
    ensures Distinct(xs[..n] + [x] + xs[n..])
  {
    var ys := xs[..n] + [x] + xs[n..];
    forall i, j | 0 <= i < j < |ys| ensures ys[i] != ys[j] {
      var i', j' := if i < n then i else i - 1, if j < n then j else j - 1;
      assert i != n ==> ys[i] == xs[i'];
      assert j != n ==> ys[j] == xs[j'];
    }
  }

  lemma {:induction false} CodesWithCheck(slug: string, steps: seq<Step>)
    requires Distinct(Codes(steps)) && CHECK_CODE !in Codes(steps) && |steps| > 4
    ensures UniqueIds(WithXnpCheck(slug, steps))
  {
    hide Code, Distinct;
    var n := if slug == ONLINE then 3 else 4;
    CheckCode();
    InsertDistinct(Codes(steps), CHECK_CODE, n);
    assert Codes(WithXnpCheck(slug, steps)) == Codes(steps)[..n] + [CHECK_CODE] + Codes(steps)[n..];
    CodesTellApart(WithXnpCheck(slug, steps));
  }

  lemma {:induction false} BuildStepsUnique(slug: string)
    ensures UniqueIds(BuildSteps(slug))
  {
    hide UsualSteps, OnlineSteps, WithXnpCheck, UniqueIds, RequiresXnpCheck;
    StepCounts(slug);
    UsualCodes(slug);
    OnlineCodes();
    if slug == ONLINE {
      CodesWithCheck(slug, OnlineSteps());
    } else {
      CodesWithCheck(slug, UsualSteps(slug));
      CodesTellApart(UsualSteps(slug));
    }
  }

  /** Only the first step is a start event. */
  predicate OneStart(steps: seq<Step>) { forall i :: 0 < i < |steps| ==> steps[i].kind != StartEvent }

  lemma {:induction false} ListsHaveOneStart(slug: string)
    ensures OneStart(OnlineSteps()) && OneStart(UsualSteps(slug))
  {
    hide Words, Channels, IntakeChannel, DocumentsChannel, DraftChannel, IdentityChannel, SignatureChannel;
    hide SubmissionChannel, FollowUpChannel, DocumentsLabel, DraftLabel, DeedLabel, SubmissionLabel;
  }

  lemma {:induction false} CheckKeepsOneStart(slug: string, steps: seq<Step>)
    requires OneStart(steps) && |steps| > 4
    ensures OneStart(WithXnpCheck(slug, steps))
  {
    var n := if slug == ONLINE then 3 else 4;
    var all := WithXnpCheck(slug, steps);
    forall i | 0 < i < |all| ensures all[i].kind != StartEvent {
      assert i != n ==> all[i] == steps[if i < n then i else i - 1];
    }
  }

  lemma {:induction false} BuildStepsChain(slug: string)
    ensures Chain(BuildSteps(slug))
  {
    hide UsualSteps, OnlineSteps, WithXnpCheck, UniqueIds, RequiresXnpCheck, OneStart;
    StepCounts(slug);
    BuildStepsUnique(slug);
    BuildStepsFit(slug);
    FitIsLegal(BuildSteps(slug));
    ListsHaveOneStart(slug);
    if slug == ONLINE {
      CheckKeepsOneStart(slug, OnlineSteps());
    } else {
      CheckKeepsOneStart(slug, UsualSteps(slug));
    }
    assert OneStart(BuildSteps(slug));
    ChainFromParts(BuildSteps(slug));
  }

  lemma {:induction false} ChainFromParts(steps: seq<Step>)
    requires UniqueIds(steps) && StepsFit(steps) && OneStart(steps)
    ensures Chain(steps)
  {
    hide UniqueIds, StepLegal;
  }

  // ---- The workstation check ----

  predicate UsesXnp(s: Step) { "xnp_local" in SplitChannelTokens(s.channel) }

  predicate NeedsFourEyes(s: Step) { s.approval == "four_eyes" }

  predicate NotX(t: string) { t != "" && t[0] != 'x' }

  /** Every token of the script but the workstation's starts with another letter. */
  predicate NoX(ts: seq<string>) { forall t <- ts :: NotX(t) }

  lemma {:induction false} WithoutXnp(s: Step, ts: seq<string>)
    requires s.channel == Channels(ts) && AllKnown(ts) && NoX(ts)
    ensures !UsesXnp(s)
  {
    hide AllKnown, Channels;
    TokensOfChannels(ts);
    assert !NotX("xnp_local");
  }

  lemma {:induction false} OtherTokens()
    ensures NotX("authority") && NotX("ben") && NotX("court") && NotX("email") && NotX("fax") && NotX("internal")
    ensures NotX("notary_app") && NotX("personal") && NotX("phone") && NotX("post")
    ensures NotX("land_register_portal") && NotX("paper_signature") && NotX("register_portal")
  {
  }

  lemma {:induction false} QuietIntake(slug: string)
    ensures NoX(IntakeChannel(slug)) && NoX(DocumentsChannel(slug)) && NoX(DraftChannel(slug))
  {
    hide Register, LandRegister, CourtOrEstate, NotX;
    OtherTokens();
  }

  lemma {:induction false} QuietExecution(slug: string)
    ensures NoX(FollowUpChannel(slug))
    ensures !Register(slug) ==> NoX(IdentityChannel(slug)) && NoX(SignatureChannel(slug)) && NoX(SubmissionChannel(slug))
  {
    hide Register, LandRegister, CourtOrEstate, LastWill, Precaution, NotX;
    OtherTokens();
  }

  lemma {:induction false} QuietOnline()
    ensures NoX(["notary_app", "email"]) && NoX(["notary_app", "internal"]) && NoX(["internal"])
    ensures NoX(["register_portal", "internal"])
  {
    hide NotX;
    OtherTokens();
  }

  lemma {:induction false} QuietStart(name: seq<string>, channel: seq<string>)
    requires AllKnown(channel) && NoX(channel)
    ensures !UsesXnp(Start(name, channel)) && !NeedsFourEyes(Start(name, channel))
  {
    hide AllKnown, NoX, UsesXnp, Words, Channels;
    WithoutXnp(Start(name, channel), channel);
  }

  lemma {:induction false} QuietEnd(name: seq<string>)
    requires AllKnown(["internal"]) && NoX(["internal"])
    ensures !UsesXnp(End(name))
  {
    hide AllKnown, NoX, UsesXnp, Words, Channels;
    WithoutXnp(End(name), ["internal"]);
  }

  lemma {:induction false} QuietUser(id: string, name: seq<string>, role: string, channel: seq<string>, dataClass: string)
    requires AllKnown(channel) && NoX(channel)
    ensures !UsesXnp(User(id, name, role, channel, dataClass)) && !NeedsFourEyes(User(id, name, role, channel, dataClass))
  {
    hide AllKnown, NoX, UsesXnp, Words, Channels;
    WithoutXnp(User(id, name, role, channel, dataClass), channel);
  }

  lemma {:induction false} QuietManual(id: string, name: seq<string>, role: string, channel: seq<string>, approval: string)
    requires AllKnown(channel) && NoX(channel)
    ensures !UsesXnp(Manual(id, name, role, channel, approval))
  {
    hide AllKnown, NoX, UsesXnp, Words, Channels;
    WithoutXnp(Manual(id, name, role, channel, approval), channel);
  }

  lemma {:induction false} QuietRule(id: string, name: seq<string>, channel: seq<string>)
    requires AllKnown(channel) && NoX(channel)
    ensures !UsesXnp(Rule(id, name, channel)) && !NeedsFourEyes(Rule(id, name, channel))
  {
    hide AllKnown, NoX, UsesXnp, Words, Channels;
    WithoutXnp(Rule(id, name, channel), channel);
  }

  lemma {:induction false} QuietSend(id: string, name: seq<string>, channel: seq<string>)
    requires AllKnown(channel) && NoX(channel)
    ensures !UsesXnp(Send(id, name, channel))
  {
    hide AllKnown, NoX, UsesXnp, Words, Channels;
    WithoutXnp(Send(id, name, channel), channel);
  }

  predicate QuietUpTo(steps: seq<Step>, n: nat) {
    n <= |steps| && forall i :: 0 <= i < n ==> !UsesXnp(steps[i]) && !NeedsFourEyes(steps[i])
  }

  lemma {:induction false} OnlineQuiet()
    ensures QuietUpTo(OnlineSteps(), 3)
  {
    hide AllKnown, NoX, UsesXnp, NeedsFourEyes, Start, End, User, Manual, Rule, Send, OnlineSteps;
    StepCounts("");
    QuietOnline();
    OnlineChannels();
    var s := OnlineSteps();
    assert s[0] == Start(["Vorgang", "im", "Online-Verfahren", "übernehmen"], ["notary_app", "email"])
      && s[1] == User("Task_SachbearbeitungZuweisen", ["Sachbearbeitung", "und", "Aktenzeichen", "zuweisen"], NOTARIAT,
           ["notary_app", "internal"], "metadata")
      && s[2] == Rule("Task_FormUndRegisterPruefen", ["Gründung,", "Satzung", "und", "Registerroute", "prüfen"],
           ["register_portal", "internal"])
    by { FirstOnlineSteps(); }
    QuietStart(["Vorgang", "im", "Online-Verfahren", "übernehmen"], ["notary_app", "email"]);
    QuietUser("Task_SachbearbeitungZuweisen", ["Sachbearbeitung", "und", "Aktenzeichen", "zuweisen"], NOTARIAT,
      ["notary_app", "internal"], "metadata");
    QuietRule("Task_FormUndRegisterPruefen", ["Gründung,", "Satzung", "und", "Registerroute", "prüfen"],
      ["register_portal", "internal"]);
  }

  lemma {:induction false} FirstOnlineSteps()
    ensures var s := OnlineSteps();
      && |s| == 9
      && s[0] == Start(["Vorgang", "im", "Online-Verfahren", "übernehmen"], ["notary_app", "email"])
      && s[1] == User("Task_SachbearbeitungZuweisen", ["Sachbearbeitung", "und", "Aktenzeichen", "zuweisen"], NOTARIAT,
           ["notary_app", "internal"], "metadata")
      && s[2] == Rule("Task_FormUndRegisterPruefen", ["Gründung,", "Satzung", "und", "Registerroute", "prüfen"],
           ["register_portal", "internal"])
  {
    hide Start, End, User, Manual, Rule, Send;
  }

  lemma {:induction false} UsualQuiet(slug: string)
    ensures QuietUpTo(UsualSteps(slug), 4)
  {
    hide AllKnown, NoX, UsesXnp, NeedsFourEyes, Start, End, User, Manual, Rule, Send;
    hide IntakeChannel, DocumentsChannel, DraftChannel, IdentityChannel, SignatureChannel, SubmissionChannel, FollowUpChannel;
    hide DocumentsLabel, DraftLabel, DeedLabel, SubmissionLabel;
    QuietIntake(slug);
    QuietOnline();
    OnlineChannels();
    SlugChannels(slug);
    var dataClass := "confidential_placeholder";
    QuietStart(["Vorgang", "anlegen"], IntakeChannel(slug));
    QuietUser("Task_AuftragAufnehmen", ["Auftrag", "und", "Beteiligte", "aufnehmen"], CLERK, IntakeChannel(slug), dataClass);
    QuietRule("Task_FormFristenPruefen", ["Zuständigkeit,", "Form", "und", "Fristen", "prüfen"], ["internal"]);
    QuietUser("Task_UnterlagenPruefen", DocumentsLabel(slug), CLERK, DocumentsChannel(slug), dataClass);
  }

  lemma {:induction false} UsualWithoutXnp(slug: string)
    requires !Register(slug)
    ensures forall s <- UsualSteps(slug) :: !UsesXnp(s)
  {
    hide AllKnown, NoX, UsesXnp, NeedsFourEyes, Start, End, User, Manual, Rule, Send, Register;
    hide IntakeChannel, DocumentsChannel, DraftChannel, IdentityChannel, SignatureChannel, SubmissionChannel, FollowUpChannel;
    hide DocumentsLabel, DraftLabel, DeedLabel, SubmissionLabel;
    QuietIntake(slug);
    QuietExecution(slug);
    QuietOnline();
    OnlineChannels();
    SlugChannels(slug);
    var dataClass := "confidential_placeholder";
    QuietStart(["Vorgang", "anlegen"], IntakeChannel(slug));
    QuietUser("Task_AuftragAufnehmen", ["Auftrag", "und", "Beteiligte", "aufnehmen"], CLERK, IntakeChannel(slug), dataClass);
    QuietRule("Task_FormFristenPruefen", ["Zuständigkeit,", "Form", "und", "Fristen", "prüfen"], ["internal"]);
    QuietUser("Task_UnterlagenPruefen", DocumentsLabel(slug), CLERK, DocumentsChannel(slug), dataClass);
    QuietUser("Task_EntwurfAbstimmen", DraftLabel(slug), CLERK, DraftChannel(slug), dataClass);
    QuietManual("Task_IdentitaetVertretung", ["Identität", "und", "Vertretung", "prüfen"], NOTARY, IdentityChannel(slug), "human");
    QuietManual("Task_Beurkundung", DeedLabel(slug), NOTARY, SignatureChannel(slug), "four_eyes");
    QuietSend("Task_EinreichungVersand", SubmissionLabel(slug), SubmissionChannel(slug));
    QuietUser("Task_NachweiseNachhalten", ["Nachweis", "und", "Fristen", "nachhalten"], CLERK, FollowUpChannel(slug), dataClass);
    QuietEnd(["Vorgang", "abgeschlossen"]);
  }

  /** At every step of the list that signs locally or needs four eyes, the check has been seen. */
  predicate CheckInTime(steps: seq<Step>) {
    forall i :: 0 <= i < |steps| ==>
      && (UsesXnp(steps[i]) ==> XNP_CHECK in StepIds(steps)[..i + 1])
      && (NeedsFourEyes(steps[i]) ==> XNP_CHECK in StepIds(steps)[..i])
  }

  lemma {:induction false} CheckComesInTime(slug: string, steps: seq<Step>)
    requires |steps| > 4 && QuietUpTo(steps, if slug == ONLINE then 3 else 4)
    ensures CheckInTime(WithXnpCheck(slug, steps)) && XNP_CHECK in StepIds(WithXnpCheck(slug, steps))
  {
    hide UsesXnp, Channels, Words;
    var n := if slug == ONLINE then 3 else 4;
    var all := WithXnpCheck(slug, steps);
    assert all[n] == CHECK && StepIds(all)[n] == XNP_CHECK;
    assert !NeedsFourEyes(CHECK);
    forall i | 0 <= i < |all|
      ensures UsesXnp(all[i]) ==> XNP_CHECK in StepIds(all)[..i + 1]
      ensures NeedsFourEyes(all[i]) ==> XNP_CHECK in StepIds(all)[..i]
    {
      if i < n {
        assert all[i] == steps[i];
      } else {
        assert StepIds(all)[..i + 1][n] == XNP_CHECK;
        if i > n { assert StepIds(all)[..i][n] == XNP_CHECK; }
      }
    }
  }

  lemma {:induction false} NoCheckWithoutCode(steps: seq<Step>)
    requires CHECK_CODE !in Codes(steps)
    ensures XNP_CHECK !in StepIds(steps)
  {
    hide Code, Words, Channels;
    CheckCode();
    forall i | 0 <= i < |steps| ensures StepIds(steps)[i] != XNP_CHECK {
      assert Codes(steps)[i] == Code(steps[i].elementId);
      assert Codes(steps)[i] in Codes(steps);
    }
  }

  lemma {:induction false} OnlineIsRegister()
    ensures Register(ONLINE) && RequiresXnpCheck(ONLINE)
  {
  }

  /** The check is among the steps exactly where it is required, and nothing signs locally without it. */
  lemma {:induction false} BuildStepsCheck(slug: string)
    ensures XNP_CHECK in StepIds(BuildSteps(slug)) <==> RequiresXnpCheck(slug)
    ensures RequiresXnpCheck(slug) ==> CheckInTime(BuildSteps(slug))
    ensures !RequiresXnpCheck(slug) ==> forall s <- BuildSteps(slug) :: !UsesXnp(s)
  {
    hide UsualSteps, OnlineSteps, WithXnpCheck, CheckInTime, QuietUpTo, UsesXnp, StepIds, Codes, Register;
    StepCounts(slug);
    OnlineIsRegister();
    UsualQuiet(slug);
    if !Register(slug) { UsualWithoutXnp(slug); }
    OnlineQuiet();
    UsualCodes(slug);
    if slug == ONLINE {
      CheckComesInTime(slug, OnlineSteps());
    } else {
      CheckComesInTime(slug, UsualSteps(slug));
      NoCheckWithoutCode(UsualSteps(slug));
    }
  }

  /** What a run must have passed when it stands at the node. */
  predicate CheckedAt(p: Element, run: seq<string>, i: nat, checked: bool)
    requires i < |run|
  {
    forall e <- FlowNodes(p) :: Get(e, Id) == run[i] ==>
      && ("xnp_local" in SplitChannelTokens(Get(e, Channel)) ==> XNP_CHECK in run[..i + 1])
      && (checked && Get(e, Approval) == "four_eyes" ==> XNP_CHECK in run[..i])
  }

  lemma {:induction false} NodeOfRun(slug: string, title: string, safe: string, steps: seq<Step>, i: nat, e: Element)
    requires Chain(steps) && i < |steps|
    requires e in FlowNodes(ProcessElement(slug, title, safe, steps)) && Get(e, Id) == steps[i].elementId
    ensures Get(e, Channel) == steps[i].channel && Get(e, Approval) == steps[i].approval
  {
    hide StepAttrs, FlowNodes, SequenceFlows, ProcessElement, IsFlowNode;
    ProcessParts(slug, title, safe, steps);
    var nodes := StepElements(steps, slug, |steps|);
    var k :| 0 <= k < |nodes| && nodes[k] == e;
    assert nodes[k] == StepElement(steps, k, slug);
    AttrsOfStep(steps[k], slug, Id);
    assert k == i;
  }

  /**
   * Every maximal run of a generated process visits the steps in order and ends; whenever it stands at a node that uses
   * the workstation's channel, it has passed the workstation check, and where the check is required also before the
   * four-eyes step.
   */
  lemma {:induction false} EveryRunIsChecked(slug: string, title: string, safe: string, run: seq<string>)
    ensures var p := ProcessElement(slug, title, safe, BuildSteps(slug));
      && (MaximalRun(p, run) <==> run == StepIds(BuildSteps(slug)))
      && (MaximalRun(p, run) ==>
            && (XNP_CHECK in run <==> RequiresXnpCheck(slug))
            && forall i :: 0 <= i < |run| ==> CheckedAt(p, run, i, RequiresXnpCheck(slug)))
  {
    hide BuildSteps, ProcessElement, MaximalRun, RequiresXnpCheck, Chain, UsesXnp, CheckedAt, CheckInTime;
    var steps := BuildSteps(slug);
    var p := ProcessElement(slug, title, safe, steps);
    BuildStepsChain(slug);
    OneMaximalRun(slug, title, safe, steps, run);
    BuildStepsCheck(slug);
    if run == StepIds(steps) {
      forall i | 0 <= i < |run| ensures CheckedAt(p, run, i, RequiresXnpCheck(slug)) {
        CheckedStep(slug, title, safe, i);
      }
    }
  }

  lemma {:induction false} CheckedStep(slug: string, title: string, safe: string, i: nat)
    requires i < |BuildSteps(slug)|
    ensures var p := ProcessElement(slug, title, safe, BuildSteps(slug));
      CheckedAt(p, StepIds(BuildSteps(slug)), i, RequiresXnpCheck(slug))
  {
    hide BuildSteps, ProcessElement, RequiresXnpCheck, Chain, FlowNodes;
    var steps := BuildSteps(slug);
    var p := ProcessElement(slug, title, safe, steps);
    BuildStepsChain(slug);
    BuildStepsCheck(slug);
    assert steps[i] in steps;
    forall e <- FlowNodes(p) ensures Get(e, Id) == StepIds(steps)[i] ==>
      Get(e, Channel) == steps[i].channel && Get(e, Approval) == steps[i].approval
    {
      if Get(e, Id) == StepIds(steps)[i] { NodeOfRun(slug, title, safe, steps, i, e); }
    }
  }
}
