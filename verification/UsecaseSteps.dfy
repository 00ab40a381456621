/** What scripts/generate_usecase_bpmn.py builds for a slug is legal for every slug. */
module UsecaseSteps {
  import opened Text
  import opened BpmnTree
  import opened BpmnValidation
  import opened UsecaseBpmn
  import opened UsecaseAcceptance
  import opened UsecaseVocabulary

  // ---- Channels ----

  predicate TokenChar(c: char) { 'a' <= c <= 'z' || c == '_' }

  predicate IsToken(t: string) { t != "" && forall i :: 0 <= i < |t| ==> TokenChar(t[i]) }

  predicate TokenUpTo(t: string, n: nat)
    requires n <= |t|
    decreases n
  {
    if n == 0 then true else TokenChar(t[n - 1]) && TokenUpTo(t, n - 1)
  }

  lemma {:induction false} TokenChars(t: string, n: nat)
    requires n <= |t| && TokenUpTo(t, n)
    ensures forall i :: 0 <= i < n ==> TokenChar(t[i])
    decreases n
  {
    if n > 0 { TokenChars(t, n - 1); }
  }

  lemma {:induction false} Token(t: string, n: nat)
    requires 0 < n == |t| && TokenUpTo(t, n)
    ensures IsToken(t)
  {
    TokenChars(t, n);
  }

  predicate Known(t: string) { IsToken(t) && t in ALLOWED_CHANNELS }

  predicate AllKnown(ts: seq<string>) { ts != [] && forall t <- ts :: Known(t) }

  lemma {:induction false} SplitAtMark(t: string, rest: string)
    requires forall i :: 0 <= i < |t| ==> TokenChar(t[i])
    ensures SplitOn(t + ";" + rest, ';') == [t] + SplitOn(rest, ';')
    decreases |t|
  {
    var s := t + ";" + rest;
    if t == "" {
      assert s[1..] == rest;
    } else {
      assert s[1..] == t[1..] + ";" + rest;
      SplitAtMark(t[1..], rest);
      assert [t[0]] + t[1..] == t;
    }
  }

  lemma {:induction false} SplitWhole(t: string)
    requires forall i :: 0 <= i < |t| ==> TokenChar(t[i])
    ensures SplitOn(t, ';') == [t]
    decreases |t|
  {
    if t != "" {
      SplitWhole(t[1..]);
      assert [t[0]] + t[1..] == t;
    }
  }

  lemma {:induction false} StripOfToken(t: string)
    requires IsToken(t)
    ensures Strip(t) == t
  {
  }

  lemma {:induction false} SplitInvertsChannels(ts: seq<string>)
    requires ts != [] && forall t <- ts :: IsToken(t)
    ensures SplitOn(Channels(ts), ';') == ts && Channels(ts) != ""
    decreases |ts|
  {
    var t := ts[0];
    assert IsToken(t);
    if |ts| == 1 {
      SplitWhole(t);
    } else {
      SplitInvertsChannels(ts[1..]);
      SplitAtMark(t, Channels(ts[1..]));
      assert t + [';'] + Channels(ts[1..]) == t + ";" + Channels(ts[1..]);
    }
  }

  lemma {:induction false} TokensStay(ts: seq<string>)
    requires forall t <- ts :: IsToken(t)
    ensures StripAll(ts) == ts
    decreases |ts|
  {
    hide IsToken, Strip;
    if ts != [] {
      StripOfToken(ts[0]);
      assert ts[0] != "" by { TokenIsNotEmpty(ts[0]); }
      TokensStay(ts[1..]);
    }
  }

  lemma {:induction false} TokenIsNotEmpty(t: string)
    requires IsToken(t)
    ensures t != ""
  {
  }

  /** The validator splits a generated channel text back into the tokens it was joined from. */
  lemma {:induction false} TokensOfChannels(ts: seq<string>)
    requires AllKnown(ts)
    ensures SplitChannelTokens(Channels(ts)) == ts && ChannelsOk(Channels(ts))
  {
    hide IsToken;
    SplitInvertsChannels(ts);
    TokensStay(ts);
  }

  lemma {:induction false} ShortTokensAToI()
    ensures Known("authority") && Known("ben") && Known("court") && Known("email") && Known("fax") && Known("internal")
  {
    Token("authority", 9);
    Token("ben", 3);
    Token("court", 5);
    Token("email", 5);
    Token("fax", 3);
    Token("internal", 8);
  }

  lemma {:induction false} ShortTokensNToX()
    ensures Known("notary_app") && Known("personal") && Known("phone") && Known("post") && Known("video") && Known("xnp_local")
  {
    Token("notary_app", 10);
    Token("personal", 8);
    Token("phone", 5);
    Token("post", 4);
    Token("video", 5);
    Token("xnp_local", 9);
  }

  lemma {:induction false} LongTokens()
    ensures Known("paper_signature") && Known("register_portal")
  {
    assert TokenUpTo("paper_signature", 5) && TokenUpTo("paper_signature", 10);
    Token("paper_signature", 15);
    assert TokenUpTo("register_portal", 5) && TokenUpTo("register_portal", 10);
    Token("register_portal", 15);
  }

  lemma {:induction false} LongestTokens()
    ensures Known("land_register_portal") && Known("qualified_e_signature")
  {
    assert TokenUpTo("land_register_portal", 5) && TokenUpTo("land_register_portal", 10);
    assert TokenUpTo("land_register_portal", 15);
    Token("land_register_portal", 20);
    assert TokenUpTo("qualified_e_signature", 5) && TokenUpTo("qualified_e_signature", 10);
    assert TokenUpTo("qualified_e_signature", 15);
    Token("qualified_e_signature", 21);
  }

  lemma {:induction false} KnownTokens()
    ensures Known("authority") && Known("ben") && Known("court") && Known("email") && Known("fax") && Known("internal")
    ensures Known("notary_app") && Known("personal") && Known("phone") && Known("post") && Known("video") && Known("xnp_local")
    ensures Known("land_register_portal") && Known("paper_signature")
    ensures Known("qualified_e_signature") && Known("register_portal")
  {
    hide Known;
    ShortTokensAToI();
    ShortTokensNToX();
    LongTokens();
    LongestTokens();
  }

  lemma {:induction false} SlugChannels(slug: string)
    ensures AllKnown(IntakeChannel(slug)) && AllKnown(DocumentsChannel(slug)) && AllKnown(DraftChannel(slug))
    ensures AllKnown(IdentityChannel(slug)) && AllKnown(SignatureChannel(slug)) && AllKnown(SubmissionChannel(slug))
    ensures AllKnown(FollowUpChannel(slug))
  {
    hide Known, Register, LandRegister, CourtOrEstate, LastWill, Precaution;
    KnownTokens();
  }

  // ---- Labels ----

  lemma {:induction false} DocumentsLabels(slug: string)
    ensures CleanWords(DocumentsLabel(slug))
  {
    hide Clean, CleanWords, Register, LandRegister, LastWill, Precaution;
    RegisterReviewWords();
    WillAndCustodyWords();
    EstateAndFilingWords();
    Four("Registerstand", "und", "Anlagen", "prüfen");
    Four("Grundbuchstand", "und", "Unterlagen", "prüfen");
    Four("Verfügungen", "und", "Verwahrungsweg", "prüfen");
    Four("Nachlassangaben", "und", "Nachweise", "prüfen");
    Four("Unterlagen", "und", "Nachweise", "prüfen");
  }

  lemma {:induction false} DraftLabels(slug: string)
    ensures CleanWords(DraftLabel(slug))
  {
    hide Clean, CleanWords, Register, LandRegister, LastWill, Precaution;
    RegisterReviewWords();
    EstateAndFilingWords();
    DeedDraftWords();
    DraftAgreementWords();
    Four("Anmeldung", "und", "Anlagen", "entwerfen");
    Four("Urkundenentwurf", "und", "Vollzugshinweise", "abstimmen");
    Four("Entwurf", "und", "Abstimmung", "erstellen");
  }

  lemma {:induction false} DeedLabels(slug: string)
    ensures CleanWords(DeedLabel(slug))
  {
    hide Clean, CleanWords, Register, LandRegister, LastWill, Precaution;
    DeedWords();
    SignatureWords();
    Four("Beglaubigung", "oder", "Beurkundung", "durchführen");
    Three("Unterschrift", "öffentlich", "beglaubigen");
    Four("Beurkundung", "oder", "Erklärung", "durchführen");
  }

  lemma {:induction false} SubmissionLabels(slug: string)
    ensures CleanWords(SubmissionLabel(slug))
  {
    hide Clean, CleanWords, Register, LandRegister, LastWill, Precaution;
    RegisterReviewWords();
    DeedWords();
    RegisterSubmissionWords();
    LandRegisterAndCustodyWords();
    NotificationWords();
    WorkstationCheckWords();
    Two("Registereinreichung", "ausführen");
    Four("Vollzug", "und", "Grundbuchkommunikation", "ausführen");
    Four("Verwahrung", "und", "Benachrichtigung", "ausführen");
    Four("Registrierung", "oder", "Versand", "ausführen");
    Four("Einreichung", "oder", "Versand", "ausführen");
  }

  lemma {:induction false} CommonLabels()
    ensures CleanWords(["Vorgang", "anlegen"]) && CleanWords(["Auftrag", "und", "Beteiligte", "aufnehmen"])
    ensures CleanWords(["Zuständigkeit,", "Form", "und", "Fristen", "prüfen"])
    ensures CleanWords(["Identität", "und", "Vertretung", "prüfen"]) && CleanWords(["Nachweis", "und", "Fristen", "nachhalten"])
    ensures CleanWords(["Vorgang", "abgeschlossen"])
    ensures CleanWords(["Karte,", "XNP", "und", "Signaturpfad", "lokal", "prüfen"])
  {
    hide Clean, CleanWords;
    RegisterReviewWords();
    WorkstationCheckWords();
    FollowUpAndEndWords();
    IntakeWords();
    IdentityWords();
    Two("Vorgang", "anlegen");
    Four("Auftrag", "und", "Beteiligte", "aufnehmen");
    Five("Zuständigkeit,", "Form", "und", "Fristen", "prüfen");
    Four("Identität", "und", "Vertretung", "prüfen");
    Four("Nachweis", "und", "Fristen", "nachhalten");
    Two("Vorgang", "abgeschlossen");
    Six("Karte,", "XNP", "und", "Signaturpfad", "lokal", "prüfen");
  }

  lemma {:induction false} OnlineLabels()
    ensures CleanWords(["Vorgang", "im", "Online-Verfahren", "übernehmen"])
    ensures CleanWords(["Sachbearbeitung", "und", "Aktenzeichen", "zuweisen"])
    ensures CleanWords(["Gründung,", "Satzung", "und", "Registerroute", "prüfen"])
    ensures CleanWords(["Gründer,", "Kapital", "und", "Unterlagen", "abgleichen"])
    ensures CleanWords(["Videokonferenz", "und", "Signaturfähigkeit", "vorbereiten"])
    ensures CleanWords(["Online-Beurkundung", "durchführen"]) && CleanWords(["Registerpaket", "digital", "einreichen"])
    ensures CleanWords(["Registerrückläufe", "und", "Nachweise", "nachhalten"]) && CleanWords(["Vorgang", "abgeschlossen"])
  {
    hide Clean, CleanWords;
    RegisterReviewWords();
    WillAndCustodyWords();
    EstateAndFilingWords();
    DeedWords();
    WorkstationCheckWords();
    OnlineIntakeWords();
    AssignmentWords();
    OnlineFoundingWords();
    OnlineIdentityWords();
    SignaturePreparationWords();
    OnlineDeedWords();
    OnlineSubmissionWords();
    FollowUpAndEndWords();
    Four("Vorgang", "im", "Online-Verfahren", "übernehmen");
    Four("Sachbearbeitung", "und", "Aktenzeichen", "zuweisen");
    Five("Gründung,", "Satzung", "und", "Registerroute", "prüfen");
    Five("Gründer,", "Kapital", "und", "Unterlagen", "abgleichen");
    Four("Videokonferenz", "und", "Signaturfähigkeit", "vorbereiten");
    Two("Online-Beurkundung", "durchführen");
    Three("Registerpaket", "digital", "einreichen");
    Four("Registerrückläufe", "und", "Nachweise", "nachhalten");
    Two("Vorgang", "abgeschlossen");
  }

  // ---- Steps ----

  /** What every step of the script brings: a clean label and known channels. */
  lemma {:induction false} BuiltLegal(s: Step, name: seq<string>, channel: seq<string>)
    requires s.name == Words(name) && CleanWords(name) && s.channel == Channels(channel) && AllKnown(channel)
    requires s.elementId != "" && s.role != "" && IsFlowNode(s.kind)
    requires s.dataClass in {"metadata", "confidential_placeholder"} && s.approval in {"none", "human", "four_eyes"}
    requires s.evidence in {"none", "required"} && (s.kind == ServiceTask ==> s.localExecution)
    ensures StepLegal(s)
  {
    hide CleanWords, AllKnown, ChannelsOk, NoForbiddenPart, Words, Channels;
    WordsAreClean(name);
    CleanHasNoForbiddenPart(s.name);
    TokensOfChannels(channel);
  }

  predicate StepFits(s: Step) { StepLegal(s) && IsFlowNode(s.kind) }

  predicate StepsFit(steps: seq<Step>) {
    |steps| > 0 && steps[0].kind == StartEvent && steps[|steps| - 1].kind == EndEvent && forall s <- steps :: StepFits(s)
  }

  lemma {:induction false} StartFits(name: seq<string>, channel: seq<string>)
    requires CleanWords(name) && AllKnown(channel)
    ensures StepFits(Start(name, channel)) && Start(name, channel).kind == StartEvent
  {
    hide StepLegal, CleanWords, AllKnown, Words, Channels;
    BuiltLegal(Start(name, channel), name, channel);
  }

  lemma {:induction false} EndFits(name: seq<string>)
    requires CleanWords(name) && AllKnown(["internal"])
    ensures StepFits(End(name)) && End(name).kind == EndEvent
  {
    hide StepLegal, CleanWords, AllKnown, Words, Channels;
    BuiltLegal(End(name), name, ["internal"]);
  }

  lemma {:induction false} UserFits(id: string, name: seq<string>, role: string, channel: seq<string>, dataClass: string)
    requires CleanWords(name) && AllKnown(channel) && id != "" && role != ""
    requires dataClass == "metadata" || dataClass == "confidential_placeholder"
    ensures StepFits(User(id, name, role, channel, dataClass))
  {
    hide StepLegal, CleanWords, AllKnown, Words, Channels;
    BuiltLegal(User(id, name, role, channel, dataClass), name, channel);
  }

  lemma {:induction false} ManualFits(id: string, name: seq<string>, role: string, channel: seq<string>, approval: string)
    requires CleanWords(name) && AllKnown(channel) && id != "" && role != ""
    requires approval == "human" || approval == "four_eyes"
    ensures StepFits(Manual(id, name, role, channel, approval))
  {
    hide StepLegal, CleanWords, AllKnown, Words, Channels;
    BuiltLegal(Manual(id, name, role, channel, approval), name, channel);
  }

  lemma {:induction false} RuleFits(id: string, name: seq<string>, channel: seq<string>)
    requires CleanWords(name) && AllKnown(channel) && id != ""
    ensures StepFits(Rule(id, name, channel))
  {
    hide StepLegal, CleanWords, AllKnown, Words, Channels;
    BuiltLegal(Rule(id, name, channel), name, channel);
  }

  lemma {:induction false} SendFits(id: string, name: seq<string>, channel: seq<string>)
    requires CleanWords(name) && AllKnown(channel) && id != ""
    ensures StepFits(Send(id, name, channel))
  {
    hide StepLegal, CleanWords, AllKnown, Words, Channels;
    BuiltLegal(Send(id, name, channel), name, channel);
  }

  lemma {:induction false} OnlineStepsFit()
    ensures StepsFit(OnlineSteps())
  {
    hide CleanWords, AllKnown, StepFits, Start, End, User, Manual, Rule, Send;
    OnlineLabels();
    OnlineChannels();
    StartFits(["Vorgang", "im", "Online-Verfahren", "übernehmen"], ["notary_app", "email"]);
    UserFits("Task_SachbearbeitungZuweisen", ["Sachbearbeitung", "und", "Aktenzeichen", "zuweisen"], NOTARIAT,
      ["notary_app", "internal"], "metadata");
    RuleFits("Task_FormUndRegisterPruefen", ["Gründung,", "Satzung", "und", "Registerroute", "prüfen"],
      ["register_portal", "internal"]);
    UserFits("Task_UnterlagenAbgleichen", ["Gründer,", "Kapital", "und", "Unterlagen", "abgleichen"], CLERK,
      ["notary_app", "email", "register_portal"], "confidential_placeholder");
    ManualFits("Task_VideokonferenzVorbereiten", ["Videokonferenz", "und", "Signaturfähigkeit", "vorbereiten"], CLERK,
      ["video", "notary_app", "qualified_e_signature"], "human");
    ManualFits("Task_OnlineBeurkundung", ["Online-Beurkundung", "durchführen"], NOTARY,
      ["video", "qualified_e_signature", "notary_app"], "four_eyes");
    SendFits("Task_RegisterEinreichen", ["Registerpaket", "digital", "einreichen"],
      ["xnp_local", "register_portal", "qualified_e_signature"]);
    UserFits("Task_NachweiseNachhalten", ["Registerrückläufe", "und", "Nachweise", "nachhalten"], CLERK,
      ["register_portal", "email", "internal"], "confidential_placeholder");
    EndFits(["Vorgang", "abgeschlossen"]);
  }

  lemma {:induction false} OnlineChannels()
    ensures AllKnown(["notary_app", "email"]) && AllKnown(["notary_app", "internal"]) && AllKnown(["internal"])
    ensures AllKnown(["register_portal", "internal"]) && AllKnown(["notary_app", "email", "register_portal"])
    ensures AllKnown(["video", "notary_app", "qualified_e_signature"])
    ensures AllKnown(["video", "qualified_e_signature", "notary_app"])
    ensures AllKnown(["xnp_local", "register_portal", "qualified_e_signature"])
    ensures AllKnown(["register_portal", "email", "internal"]) && AllKnown(["xnp_local"])
  {
    hide Known;
    KnownTokens();
  }

  lemma {:induction false} UsualStepsFit(slug: string)
    ensures StepsFit(UsualSteps(slug))
  {
    hide CleanWords, AllKnown, StepFits, Start, End, User, Manual, Rule, Send;
    hide IntakeChannel, DocumentsChannel, DraftChannel, IdentityChannel, SignatureChannel, SubmissionChannel, FollowUpChannel;
    hide DocumentsLabel, DraftLabel, DeedLabel, SubmissionLabel;
    DocumentsLabels(slug);
    DraftLabels(slug);
    DeedLabels(slug);
    SubmissionLabels(slug);
    CommonLabels();
    SlugChannels(slug);
    OnlineChannels();
    var dataClass := "confidential_placeholder";
    StartFits(["Vorgang", "anlegen"], IntakeChannel(slug));
    UserFits("Task_AuftragAufnehmen", ["Auftrag", "und", "Beteiligte", "aufnehmen"], CLERK, IntakeChannel(slug), dataClass);
    RuleFits("Task_FormFristenPruefen", ["Zuständigkeit,", "Form", "und", "Fristen", "prüfen"], ["internal"]);
    UserFits("Task_UnterlagenPruefen", DocumentsLabel(slug), CLERK, DocumentsChannel(slug), dataClass);
    UserFits("Task_EntwurfAbstimmen", DraftLabel(slug), CLERK, DraftChannel(slug), dataClass);
    ManualFits("Task_IdentitaetVertretung", ["Identität", "und", "Vertretung", "prüfen"], NOTARY, IdentityChannel(slug), "human");
    ManualFits("Task_Beurkundung", DeedLabel(slug), NOTARY, SignatureChannel(slug), "four_eyes");
    SendFits("Task_EinreichungVersand", SubmissionLabel(slug), SubmissionChannel(slug));
    UserFits("Task_NachweiseNachhalten", ["Nachweis", "und", "Fristen", "nachhalten"], CLERK, FollowUpChannel(slug), dataClass);
    EndFits(["Vorgang", "abgeschlossen"]);
  }

  lemma {:induction false} CheckFits()
    ensures StepFits(CHECK)
  {
    hide CleanWords, AllKnown, StepLegal, Words, Channels;
    CommonLabels();
    OnlineChannels();
    BuiltLegal(CHECK, ["Karte,", "XNP", "und", "Signaturpfad", "lokal", "prüfen"], ["xnp_local"]);
  }

  /** Putting the check in keeps every other step, the first and the last. */
  lemma {:induction false} InsertKeepsFit(steps: seq<Step>, check: Step, n: nat)
    requires StepsFit(steps) && StepFits(check) && 0 < n < |steps|
    ensures StepsFit(steps[..n] + [check] + steps[n..])
  {
    hide StepFits;
    var all := steps[..n] + [check] + steps[n..];
    assert all[0] == steps[0] && all[|all| - 1] == steps[|steps| - 1];
    forall s <- all ensures StepFits(s) {
      assert s in steps[..n] || s == check || s in steps[n..];
    }
  }

  lemma {:induction false} CheckKeepsFit(slug: string, steps: seq<Step>)
    requires StepsFit(steps) && |steps| > 4
    ensures StepsFit(WithXnpCheck(slug, steps))
  {
    hide StepsFit, StepFits;
    CheckFits();
    InsertKeepsFit(steps, CHECK, if slug == ONLINE then 3 else 4);
  }

  lemma {:induction false} StepCounts(slug: string)
    ensures |OnlineSteps()| == 9 && |UsualSteps(slug)| == 10
  {
    hide Start, End, User, Manual, Rule, Send;
  }

  lemma {:induction false} BuildStepsFit(slug: string)
    ensures StepsFit(BuildSteps(slug))
  {
    hide StepsFit, UsualSteps, OnlineSteps, WithXnpCheck, RequiresXnpCheck;
    StepCounts(slug);
    OnlineStepsFit();
    UsualStepsFit(slug);
    if slug == ONLINE {
      CheckKeepsFit(slug, OnlineSteps());
    } else {
      CheckKeepsFit(slug, UsualSteps(slug));
    }
  }

  lemma {:induction false} FitIsLegal(steps: seq<Step>)
    requires StepsFit(steps)
    ensures StepsLegal(steps) && forall s <- steps :: IsFlowNode(s.kind)
  {
    hide StepLegal, IsFlowNode;
    assert steps[0] in steps && steps[|steps| - 1] in steps;
  }

  /** For every slug and title, the generated model passes both checks exactly when neither is empty. */
  lemma {:induction false} EveryUsecaseAccepted(slug: string, title: string, safe: string)
    ensures var root := Rendered(slug, title, safe, BuildSteps(slug));
      BasicErrors(root) == [] && NacProfileErrors(root) == [] <==> slug != "" && title != ""
  {
    hide BasicErrors, NacProfileErrors, Rendered, BuildSteps, StepsLegal, StepsFit, IsFlowNode;
    BuildStepsFit(slug);
    FitIsLegal(BuildSteps(slug));
    AcceptedExactly(slug, title, safe, BuildSteps(slug));
  }
}
