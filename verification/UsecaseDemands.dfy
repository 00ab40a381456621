/** What the steps of scripts/generate_usecase_bpmn.py demand: approvals, roles and routes, for every slug. */
module UsecaseDemands {
  import opened BpmnTree
  import opened BpmnValidation
  import opened UsecaseBpmn
  import opened UsecaseAcceptance
  import opened UsecaseSteps
  import opened UsecaseRuns

  /** What a step of its kind brings along, whatever the usecase. */
  predicate OfItsKind(s: Step) {
    match s.kind
    case StartEvent => s.role == "Notariat" && s.dataClass == "metadata" && s.approval == "none" && s.evidence == "none"
    case EndEvent => s.role == "Notariat" && s.dataClass == "metadata" && s.approval == "none" && s.evidence == "required"
    case UserTask =>
      && s.role in {"Notariat", "Notariatsfachkraft"} && s.dataClass in {"metadata", "confidential_placeholder"}
      && s.approval == "human" && s.evidence == "required"
    case ManualTask =>
      && s.role in {"Notariatsfachkraft", "Notarin/Notar"} && s.dataClass == "confidential_placeholder"
      && s.approval in {"human", "four_eyes"} && s.evidence == "required"
    case BusinessRuleTask =>
      s.role == "Notariat" && s.dataClass == "metadata" && s.approval == "human" && s.evidence == "required"
    case SendTask =>
      s.role == "Notariatsfachkraft" && s.dataClass == "metadata" && s.approval == "human" && s.evidence == "required"
    case ServiceTask =>
      && s.elementId == "Task_XnpArbeitsplatzPruefen" && s.role == "IT-Betrieb" && s.dataClass == "metadata"
      && s.approval == "none" && s.evidence == "required" && s.plugin == "nac-cyberjack-rfid"
    case _ => false
  }

  /** Only the workstation check runs locally and is bound to a plugin. */
  predicate LocalOnlyAtCheck(s: Step) {
    (s.localExecution <==> s.kind == ServiceTask) && (s.kind != ServiceTask ==> s.plugin == "")
  }

  predicate Plain(s: Step, kind: Tag) { s.kind == kind && OfItsKind(s) && LocalOnlyAtCheck(s) && !NeedsFourEyes(s) }

  lemma {:induction false} StartIsPlain(name: seq<string>, channel: seq<string>)
    ensures Plain(Start(name, channel), StartEvent)
  {
    hide Words, Channels;
  }

  lemma {:induction false} EndIsPlain(name: seq<string>)
    ensures Plain(End(name), EndEvent)
  {
    hide Words, Channels;
  }

  lemma {:induction false} UserIsPlain(id: string, name: seq<string>, role: string, channel: seq<string>, dataClass: string)
    requires role in {NOTARIAT, CLERK} && dataClass in {"metadata", "confidential_placeholder"}
    ensures Plain(User(id, name, role, channel, dataClass), UserTask)
  {
    hide Words, Channels;
  }

  lemma {:induction false} ManualIsPlain(id: string, name: seq<string>, role: string, channel: seq<string>)
    requires role in {CLERK, NOTARY}
    ensures Plain(Manual(id, name, role, channel, "human"), ManualTask)
  {
    hide Words, Channels;
  }

  lemma {:induction false} DeedIsGuarded(id: string, name: seq<string>, channel: seq<string>)
    ensures var s := Manual(id, name, NOTARY, channel, "four_eyes");
      s.kind == ManualTask && s.role == "Notarin/Notar" && OfItsKind(s) && LocalOnlyAtCheck(s) && NeedsFourEyes(s)
  {
    hide Words, Channels;
  }

  lemma {:induction false} RuleIsPlain(id: string, name: seq<string>, channel: seq<string>)
    ensures Plain(Rule(id, name, channel), BusinessRuleTask)
  {
    hide Words, Channels;
  }

  lemma {:induction false} SendIsPlain(id: string, name: seq<string>, channel: seq<string>)
    ensures Plain(Send(id, name, channel), SendTask)
  {
    hide Words, Channels;
  }

  /** The step at `deed` is the only one that needs four eyes: a manual task of the notary, before the only send task. */
  ghost predicate DeedAt(steps: seq<Step>, deed: nat, send: nat) {
    && deed < send < |steps|
    && steps[deed].kind == ManualTask && steps[deed].role == "Notarin/Notar" && steps[send].kind == SendTask
    && forall i :: 0 <= i < |steps| ==>
         && (NeedsFourEyes(steps[i]) <==> i == deed) && (steps[i].kind == SendTask <==> i == send)
         && OfItsKind(steps[i]) && LocalOnlyAtCheck(steps[i])
  }

  /** A list whose kinds are these, with the deed in its place. */
  ghost predicate Listed(steps: seq<Step>, kinds: seq<Tag>, deed: nat) {
    && |steps| == |kinds| && deed < |steps| && kinds[deed] == ManualTask
    && steps[deed].kind == ManualTask && steps[deed].role == "Notarin/Notar"
    && OfItsKind(steps[deed]) && LocalOnlyAtCheck(steps[deed]) && NeedsFourEyes(steps[deed])
    && forall i :: 0 <= i < |steps| && i != deed ==> Plain(steps[i], kinds[i])
  }

  const USUAL_KINDS := [
    StartEvent, UserTask, BusinessRuleTask, UserTask, UserTask, ManualTask, ManualTask, SendTask, UserTask, EndEvent]
  const ONLINE_KINDS := [
    StartEvent, UserTask, BusinessRuleTask, UserTask, ManualTask, ManualTask, SendTask, UserTask, EndEvent]

  lemma {:induction false} ListedDeed(steps: seq<Step>, kinds: seq<Tag>, deed: nat, send: nat)
    requires Listed(steps, kinds, deed) && deed < send < |kinds|
    requires forall i :: 0 <= i < |kinds| ==> kinds[i] != ServiceTask && (kinds[i] == SendTask <==> i == send)
    ensures DeedAt(steps, deed, send) && forall s <- steps :: s.kind != ServiceTask
  {
    hide OfItsKind, LocalOnlyAtCheck, NeedsFourEyes;
    forall i | 0 <= i < |steps| ensures steps[i].kind == kinds[i] {
      assert i != deed ==> Plain(steps[i], kinds[i]);
    }
  }

  lemma {:induction false} UsualListed(slug: string)
    ensures Listed(UsualSteps(slug), USUAL_KINDS, 6)
  {
    hide OfItsKind, LocalOnlyAtCheck, NeedsFourEyes, Plain, Start, End, User, Manual, Rule, Send;
    hide IntakeChannel, DocumentsChannel, DraftChannel, IdentityChannel, SignatureChannel;
    hide SubmissionChannel, FollowUpChannel, DocumentsLabel, DraftLabel, DeedLabel, SubmissionLabel;
    var dataClass := "confidential_placeholder";
    StartIsPlain(["Vorgang", "anlegen"], IntakeChannel(slug));
    UserIsPlain("Task_AuftragAufnehmen", ["Auftrag", "und", "Beteiligte", "aufnehmen"], CLERK, IntakeChannel(slug), dataClass);
    RuleIsPlain("Task_FormFristenPruefen", ["Zuständigkeit,", "Form", "und", "Fristen", "prüfen"], ["internal"]);
    UserIsPlain("Task_UnterlagenPruefen", DocumentsLabel(slug), CLERK, DocumentsChannel(slug), dataClass);
    UserIsPlain("Task_EntwurfAbstimmen", DraftLabel(slug), CLERK, DraftChannel(slug), dataClass);
    ManualIsPlain("Task_IdentitaetVertretung", ["Identität", "und", "Vertretung", "prüfen"], NOTARY, IdentityChannel(slug));
    DeedIsGuarded("Task_Beurkundung", DeedLabel(slug), SignatureChannel(slug));
    SendIsPlain("Task_EinreichungVersand", SubmissionLabel(slug), SubmissionChannel(slug));
    UserIsPlain("Task_NachweiseNachhalten", ["Nachweis", "und", "Fristen", "nachhalten"], CLERK, FollowUpChannel(slug), dataClass);
    EndIsPlain(["Vorgang", "abgeschlossen"]);
  }

  lemma {:induction false} OnlineListed()
    ensures Listed(OnlineSteps(), ONLINE_KINDS, 5)
  {
    hide OfItsKind, LocalOnlyAtCheck, NeedsFourEyes, Plain, Start, End, User, Manual, Rule, Send;
    StartIsPlain(["Vorgang", "im", "Online-Verfahren", "übernehmen"], ["notary_app", "email"]);
    UserIsPlain("Task_SachbearbeitungZuweisen", ["Sachbearbeitung", "und", "Aktenzeichen", "zuweisen"], NOTARIAT,
      ["notary_app", "internal"], "metadata");
    RuleIsPlain("Task_FormUndRegisterPruefen", ["Gründung,", "Satzung", "und", "Registerroute", "prüfen"],
      ["register_portal", "internal"]);
    UserIsPlain("Task_UnterlagenAbgleichen", ["Gründer,", "Kapital", "und", "Unterlagen", "abgleichen"], CLERK,
      ["notary_app", "email", "register_portal"], "confidential_placeholder");
    ManualIsPlain("Task_VideokonferenzVorbereiten", ["Videokonferenz", "und", "Signaturfähigkeit", "vorbereiten"], CLERK,
      ["video", "notary_app", "qualified_e_signature"]);
    DeedIsGuarded("Task_OnlineBeurkundung", ["Online-Beurkundung", "durchführen"],
      ["video", "qualified_e_signature", "notary_app"]);
    SendIsPlain("Task_RegisterEinreichen", ["Registerpaket", "digital", "einreichen"],
      ["xnp_local", "register_portal", "qualified_e_signature"]);
    UserIsPlain("Task_NachweiseNachhalten", ["Registerrückläufe", "und", "Nachweise", "nachhalten"], CLERK,
      ["register_portal", "email", "internal"], "confidential_placeholder");
    EndIsPlain(["Vorgang", "abgeschlossen"]);
  }

  lemma {:induction false} UsualDeed(slug: string)
    ensures |UsualSteps(slug)| == 10 && DeedAt(UsualSteps(slug), 6, 7)
    ensures forall s <- UsualSteps(slug) :: s.kind != ServiceTask
  {
    hide Listed, DeedAt, UsualSteps;
    UsualListed(slug);
    ListedDeed(UsualSteps(slug), USUAL_KINDS, 6, 7);
    ListedLength(UsualSteps(slug), USUAL_KINDS, 6);
  }

  lemma {:induction false} ListedLength(steps: seq<Step>, kinds: seq<Tag>, deed: nat)
    requires Listed(steps, kinds, deed)
    ensures |steps| == |kinds|
  {
  }

  lemma {:induction false} OnlineDeed()
    ensures |OnlineSteps()| == 9 && DeedAt(OnlineSteps(), 5, 6)
    ensures forall s <- OnlineSteps() :: s.kind != ServiceTask
  {
    hide Listed, DeedAt, OnlineSteps;
    OnlineListed();
    ListedDeed(OnlineSteps(), ONLINE_KINDS, 5, 6);
    ListedLength(OnlineSteps(), ONLINE_KINDS, 5);
  }

  lemma {:induction false} CheckIsOfItsKind()
    ensures OfItsKind(CHECK) && LocalOnlyAtCheck(CHECK) && CHECK.kind == ServiceTask && !NeedsFourEyes(CHECK)
  {
    hide Words, Channels;
  }

  /** The check goes in before the deed, and moves it and the sending by one. */
  lemma {:induction false} DeedBehindCheck(slug: string, steps: seq<Step>, deed: nat, send: nat)
    requires DeedAt(steps, deed, send) && 4 < deed && |steps| > 4
    ensures var all := WithXnpCheck(slug, steps); var n := if slug == ONLINE then 3 else 4;
      DeedAt(all, deed + 1, send + 1) && n < deed && all[n] == CHECK
  {
    hide OfItsKind, LocalOnlyAtCheck, NeedsFourEyes, Words, Channels;
    CheckIsOfItsKind();
    var n := if slug == ONLINE then 3 else 4;
    var all := WithXnpCheck(slug, steps);
    forall i | 0 <= i < |all|
      ensures (NeedsFourEyes(all[i]) <==> i == deed + 1) && (all[i].kind == SendTask <==> i == send + 1)
      ensures OfItsKind(all[i]) && LocalOnlyAtCheck(all[i])
    {
      if i < n { assert all[i] == steps[i]; } else if i > n { assert all[i] == steps[i - 1]; }
    }
    assert all[deed + 1] == steps[deed] && all[send + 1] == steps[send];
  }

  /** Tasks other than the deed and the check need human approval; a check, if there is one, comes before the deed. */
  ghost predicate Supervised(steps: seq<Step>, deed: nat, checked: bool) {
    && (forall i :: 0 <= i < |steps| && IsTask(steps[i].kind) && i != deed ==>
          steps[i].approval == if steps[i].kind == ServiceTask then "none" else "human")
    && (checked <==> exists i :: 0 <= i < |steps| && steps[i].kind == ServiceTask)
    && (forall i :: 0 <= i < |steps| && steps[i].kind == ServiceTask ==> i < deed)
  }

  lemma {:induction false} CheckedSteps(slug: string, steps: seq<Step>, deed: nat, send: nat)
    requires DeedAt(steps, deed, send) && 4 < deed && |steps| > 4 && forall s <- steps :: s.kind != ServiceTask
    ensures var all := WithXnpCheck(slug, steps); DeedAt(all, deed + 1, send + 1) && Supervised(all, deed + 1, true)
  {
    hide OfItsKind, LocalOnlyAtCheck, NeedsFourEyes, DeedAt, WithXnpCheck, IsTask;
    DeedBehindCheck(slug, steps, deed, send);
    OnlyCheckIsService(slug, steps);
    OthersAreHuman(WithXnpCheck(slug, steps), deed + 1, send + 1);
  }

  lemma {:induction false} UncheckedSteps(steps: seq<Step>, deed: nat, send: nat)
    requires DeedAt(steps, deed, send) && forall s <- steps :: s.kind != ServiceTask
    ensures Supervised(steps, deed, false)
  {
    hide OfItsKind, LocalOnlyAtCheck, NeedsFourEyes, DeedAt, IsTask;
    OthersAreHuman(steps, deed, send);
    assert forall i :: 0 <= i < |steps| ==> steps[i] in steps;
  }

  /**
   * For every slug exactly one step needs four eyes: a manual task of the notary, before the only send task, and behind
   * the workstation check where that is required. Every other task but the check needs human approval, and the check
   * alone runs locally.
   */
  lemma {:induction false} FourEyesExactly(slug: string) returns (deed: nat, send: nat)
    ensures DeedAt(BuildSteps(slug), deed, send) && Supervised(BuildSteps(slug), deed, RequiresXnpCheck(slug))
  {
    hide UsualSteps, OnlineSteps, WithXnpCheck, RequiresXnpCheck, DeedAt, Supervised;
    UsualDeed(slug);
    OnlineDeed();
    OnlineNeedsCheck();
    if slug == ONLINE {
      deed, send := 6, 7;
      CheckedSteps(slug, OnlineSteps(), 5, 6);
    } else if RequiresXnpCheck(slug) {
      deed, send := 7, 8;
      CheckedSteps(slug, UsualSteps(slug), 6, 7);
    } else {
      deed, send := 6, 7;
      UncheckedSteps(UsualSteps(slug), deed, send);
    }
  }

  lemma {:induction false} OnlineNeedsCheck()
    ensures RequiresXnpCheck(ONLINE)
  {
  }

  lemma {:induction false} OnlyCheckIsService(slug: string, steps: seq<Step>)
    requires |steps| > 4 && forall s <- steps :: s.kind != ServiceTask
    ensures var all := WithXnpCheck(slug, steps); var n := if slug == ONLINE then 3 else 4;
      n < |all| && forall i :: 0 <= i < |all| ==> (all[i].kind == ServiceTask <==> i == n)
  {
    CheckIsOfItsKind();
    var n := if slug == ONLINE then 3 else 4;
    var all := WithXnpCheck(slug, steps);
    forall i | 0 <= i < |all| ensures all[i].kind == ServiceTask <==> i == n {
      if i < n { assert all[i] == steps[i] && steps[i] in steps; }
      else if i > n { assert all[i] == steps[i - 1] && steps[i - 1] in steps; }
    }
  }

  lemma {:induction false} OthersAreHuman(steps: seq<Step>, deed: nat, send: nat)
    requires DeedAt(steps, deed, send)
    ensures forall i :: 0 <= i < |steps| && IsTask(steps[i].kind) && i != deed ==>
      steps[i].approval == if steps[i].kind == ServiceTask then "none" else "human"
  {
    hide LocalOnlyAtCheck;
  }

  /** Exactly this node has the approval four_eyes, and it is a manual task of the notary. */
  ghost predicate FourEyesAt(nodes: seq<Element>, deed: nat) {
    && deed < |nodes| && nodes[deed].tag == ManualTask && Get(nodes[deed], Role) == "Notarin/Notar"
    && forall i :: 0 <= i < |nodes| ==> (Get(nodes[i], Approval) == "four_eyes" <==> i == deed)
  }

  /** In the rendered process exactly one flow node has the approval four_eyes, a manual task of the notary. */
  lemma {:induction false} OneFourEyesNode(slug: string, title: string, safe: string) returns (deed: nat)
    ensures FourEyesAt(FlowNodes(ProcessElement(slug, title, safe, BuildSteps(slug))), deed)
  {
    hide BuildSteps, ProcessElement, FlowNodes, OfItsKind, LocalOnlyAtCheck, IsFlowNode, RequiresXnpCheck, StepLegal, Shows;
    var send;
    deed, send := FourEyesExactly(slug);
    BuildStepsFit(slug);
    NodesShowSteps(slug, title, safe, BuildSteps(slug));
    ShownFourEyes(BuildSteps(slug), FlowNodes(ProcessElement(slug, title, safe, BuildSteps(slug))), deed, send);
  }

  ghost predicate Shows(nodes: seq<Element>, steps: seq<Step>) {
    && |nodes| == |steps|
    && forall i :: 0 <= i < |nodes| ==>
         nodes[i].tag == steps[i].kind && Get(nodes[i], Approval) == steps[i].approval && Get(nodes[i], Role) == steps[i].role
  }

  lemma {:induction false} NodesShowSteps(slug: string, title: string, safe: string, steps: seq<Step>)
    requires forall s <- steps :: IsFlowNode(s.kind)
    ensures Shows(FlowNodes(ProcessElement(slug, title, safe, steps)), steps)
  {
    hide ProcessElement, FlowNodes, StepElements, IsFlowNode, Shows;
    ProcessParts(slug, title, safe, steps);
    StepsShown(slug, steps);
  }

  lemma {:induction false} StepsShown(slug: string, steps: seq<Step>)
    ensures Shows(StepElements(steps, slug, |steps|), steps)
  {
    hide StepElement, Get;
    forall i: nat | i < |steps|
      ensures var node := StepElement(steps, i, slug);
        node.tag == steps[i].kind && Get(node, Approval) == steps[i].approval && Get(node, Role) == steps[i].role
    {
      ShownStep(steps, i, slug);
    }
  }

  lemma {:induction false} ShownStep(steps: seq<Step>, i: nat, slug: string)
    requires i < |steps|
    ensures var node := StepElement(steps, i, slug);
      node.tag == steps[i].kind && Get(node, Approval) == steps[i].approval && Get(node, Role) == steps[i].role
  {
    hide StepAttrs;
    StepTag(steps, i, slug);
    AttrsOfStep(steps[i], slug, Id);
  }

  lemma {:induction false} ShownFourEyes(steps: seq<Step>, nodes: seq<Element>, deed: nat, send: nat)
    requires DeedAt(steps, deed, send) && Shows(nodes, steps)
    ensures FourEyesAt(nodes, deed)
  {
    hide OfItsKind, LocalOnlyAtCheck;
  }

  // ---- The way out ----

  /** The tokens of the only send task, by the kind of usecase. */
  predicate Route(slug: string, ts: seq<string>) {
    && ("register_portal" in ts <==> Register(slug)) && ("xnp_local" in ts <==> Register(slug))
    && ("qualified_e_signature" in ts <==> Register(slug))
    && ("land_register_portal" in ts <==> LandRegister(slug))
    && ("court" in ts <==> CourtOrEstate(slug) && !Precaution(slug))
    && ("ben" in ts <==> LastWill(slug)) && ("authority" in ts <==> Precaution(slug))
    && ("post" in ts <==> !Register(slug))
  }

  /** Register, land register and court usecases are disjoint kinds; last wills and precaution are of the last one. */
  lemma {:induction false} KindsAreDisjoint(slug: string)
    ensures !(Register(slug) && LandRegister(slug)) && !(Register(slug) && CourtOrEstate(slug))
    ensures !(LandRegister(slug) && CourtOrEstate(slug))
    ensures LastWill(slug) ==> CourtOrEstate(slug) && !Precaution(slug)
    ensures Precaution(slug) ==> CourtOrEstate(slug)
  {
  }

  lemma {:induction false} SubmissionRoutes(slug: string)
    ensures slug != ONLINE ==> Route(slug, SubmissionChannel(slug))
    ensures Route(ONLINE, ["xnp_local", "register_portal", "qualified_e_signature"])
  {
    hide Register, LandRegister, CourtOrEstate, LastWill, Precaution;
    KindsAreDisjoint(slug);
    KindsAreDisjoint(ONLINE);
    OnlineIsRegister();
  }

  lemma {:induction false} UsualSend(slug: string)
    ensures |UsualSteps(slug)| == 10 && UsualSteps(slug)[7].channel == Channels(SubmissionChannel(slug))
    ensures |OnlineSteps()| == 9
    ensures OnlineSteps()[6].channel == Channels(["xnp_local", "register_portal", "qualified_e_signature"])
  {
    hide Words, Channels, IntakeChannel, DocumentsChannel, DraftChannel, IdentityChannel, SignatureChannel;
    hide SubmissionChannel, FollowUpChannel, DocumentsLabel, DraftLabel, DeedLabel, SubmissionLabel;
  }

  lemma {:induction false} Shifted(slug: string, steps: seq<Step>, k: nat)
    requires 4 <= k < |steps|
    ensures |WithXnpCheck(slug, steps)| == |steps| + 1 && WithXnpCheck(slug, steps)[k + 1] == steps[k]
  {
    hide Words, Channels;
  }

  lemma {:induction false} SendIsAt(steps: seq<Step>, deed: nat, send: nat, i: nat)
    requires DeedAt(steps, deed, send) && i < |steps| && steps[i].kind == SendTask
    ensures i == send
  {
    hide OfItsKind, LocalOnlyAtCheck, NeedsFourEyes;
  }

  lemma {:induction false} ChannelOfSend(slug: string, i: nat)
    requires i < |BuildSteps(slug)| && BuildSteps(slug)[i].kind == SendTask
    ensures BuildSteps(slug)[i].channel
      == if slug == ONLINE then Channels(["xnp_local", "register_portal", "qualified_e_signature"])
         else Channels(SubmissionChannel(slug))
  {
    hide UsualSteps, OnlineSteps, RequiresXnpCheck, DeedAt, Supervised, WithXnpCheck, Channels, SubmissionChannel;
    UsualSend(slug);
    UsualDeed(slug);
    OnlineDeed();
    if slug == ONLINE {
      CheckedSteps(slug, OnlineSteps(), 5, 6);
      Shifted(slug, OnlineSteps(), 6);
      SendIsAt(BuildSteps(slug), 6, 7, i);
    } else if RequiresXnpCheck(slug) {
      CheckedSteps(slug, UsualSteps(slug), 6, 7);
      Shifted(slug, UsualSteps(slug), 7);
      SendIsAt(BuildSteps(slug), 7, 8, i);
    } else {
      SendIsAt(BuildSteps(slug), 6, 7, i);
    }
  }

  /** The send task goes out by the portal, court or authority of its kind of usecase, and only register usecases without post. */
  lemma {:induction false} SendsByItsRoute(slug: string, i: nat)
    requires i < |BuildSteps(slug)| && BuildSteps(slug)[i].kind == SendTask
    ensures Route(slug, SplitChannelTokens(BuildSteps(slug)[i].channel))
  {
    hide BuildSteps, Channels, SplitChannelTokens, AllKnown, Route, SubmissionChannel;
    ChannelOfSend(slug, i);
    SubmissionRoutes(slug);
    SlugChannels(slug);
    OnlineChannels();
    TokensOfChannels(SubmissionChannel(slug));
    TokensOfChannels(["xnp_local", "register_portal", "qualified_e_signature"]);
  }

  /** The offices a usecase deals with, by its kind: intake, documents, draft and follow-up. */
  lemma {:induction false} OfficesByKind(slug: string)
    ensures "register_portal" in IntakeChannel(slug) <==> Register(slug)
    ensures "register_portal" in DocumentsChannel(slug) <==> Register(slug)
    ensures "register_portal" in DraftChannel(slug) <==> Register(slug)
    ensures "register_portal" in FollowUpChannel(slug) <==> Register(slug)
    ensures "land_register_portal" in DocumentsChannel(slug) <==> LandRegister(slug)
    ensures "land_register_portal" in DraftChannel(slug) <==> LandRegister(slug)
    ensures "land_register_portal" in FollowUpChannel(slug) <==> LandRegister(slug)
    ensures "court" in DocumentsChannel(slug) <==> CourtOrEstate(slug)
    ensures "court" in FollowUpChannel(slug) <==> CourtOrEstate(slug)
  {
    hide Register, LandRegister, CourtOrEstate;
    KindsAreDisjoint(slug);
  }

  /** Identity and signature are electronic and need the workstation exactly in register usecases. */
  lemma {:induction false} SigningByKind(slug: string)
    ensures "xnp_local" in IdentityChannel(slug) <==> Register(slug)
    ensures "xnp_local" in SignatureChannel(slug) <==> Register(slug)
    ensures "qualified_e_signature" in IdentityChannel(slug) <==> Register(slug)
    ensures "qualified_e_signature" in SignatureChannel(slug) <==> Register(slug)
    ensures "personal" in IdentityChannel(slug) && "paper_signature" in SignatureChannel(slug)
  {
    hide Register;
  }

  /** The workstation check is part of the process exactly in register usecases and those that need the card. */
  lemma {:induction false} ChecksExactly(slug: string)
    ensures (exists s <- BuildSteps(slug) :: s.kind == ServiceTask) <==> slug in REGISTER_SLUGS || slug in {
      "bautraegervertrag", "grundschuld-hypothekenbestellung", "immobilienkaufvertrag",
      "loeschungsbewilligung-grundbuchloeschung", "teilungserklaerung-weg", "vollmacht-immobilien-gesellschaftsgeschaefte"}
  {
    hide WithXnpCheck, UsualSteps, OnlineSteps, DeedAt;
    UsualDeed(slug);
    OnlineDeed();
    OnlineNeedsCheck();
    var steps := if slug == ONLINE then OnlineSteps() else UsualSteps(slug);
    OnlyCheckIsService(slug, steps);
    if RequiresXnpCheck(slug) {
      var n := if slug == ONLINE then 3 else 4;
      assert WithXnpCheck(slug, steps)[n] in BuildSteps(slug);
    }
  }
}
