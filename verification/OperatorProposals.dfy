/** Import proposals over runs: accepted at most once, and mapped one to one to matters that log the acceptance. */
module OperatorProposals {
  import opened Text
  import opened Identifiers
  import opened OperatorRequests
  import opened OperatorFiles
  import opened OperatorStore
  import opened OperatorRuns
  import opened OperatorNumbering

  /** The request ids named by the acceptance events of a log. */
  ghost function Acceptances(log: seq<Event>): seq<string> {
    if log == [] then []
    else
      var e := log[|log| - 1];
      Acceptances(log[..|log| - 1]) + (if e.ProposalAccepted? then [e.proposalId] else [])
  }

  lemma {:induction false} AcceptancesAppend(log: seq<Event>, e: Event)
    ensures Acceptances(log + [e]) == Acceptances(log) + (if e.ProposalAccepted? then [e.proposalId] else [])
  {
    assert (log + [e])[..|log|] == log;
  }

  ghost predicate IsAcceptedAs(s: Store, file: string, p: Place) {
    && file in s.proposals && s.proposals[file].state.Accepted?
    && p in s.matters && s.proposals[file].state.matterId == p.id
  }

  ghost predicate NamesOnly(log: seq<Event>, file: string) {
    |Acceptances(log)| == 1 && SafeIdentifier(Acceptances(log)[0]) == file
  }

  /** A matter's log holds no acceptance, or the one of the proposal that became this matter. */
  ghost predicate PlaceSettled(s: Store, p: Place) {
    Acceptances(LogAt(s.logs, p)) == [] || exists file :: NamesOnly(LogAt(s.logs, p), file) && IsAcceptedAs(s, file, p)
  }

  /** An accepted proposal has its matter, and that matter's log holds exactly one acceptance, naming it. */
  ghost predicate ProposalSettled(s: Store, file: string) {
    exists p :: IsAcceptedAs(s, file, p) && NamesOnly(LogAt(s.logs, p), file)
  }

  ghost predicate Settled(s: Store) {
    && (forall p <- s.matters :: PlaceSettled(s, p))
    && (forall file <- s.proposals :: s.proposals[file].state.Accepted? ==> ProposalSettled(s, file))
  }

  /** Accepted proposals map injectively to existing matters. */
  lemma {:induction false} AcceptedProposalsDiffer(s: Store, f: string, g: string)
    requires Inv(s) && Settled(s) && f in s.proposals && g in s.proposals && f != g
    requires s.proposals[f].state.Accepted? && s.proposals[g].state.Accepted?
    ensures s.proposals[f].state.matterId != s.proposals[g].state.matterId
    ensures exists p <- s.matters :: p.id == s.proposals[f].state.matterId
  {
    hide SafeIdentifier, Agrees, MatterId;
    assert ProposalSettled(s, f) && ProposalSettled(s, g);
    var p :| IsAcceptedAs(s, f, p) && NamesOnly(LogAt(s.logs, p), f);
    var q :| IsAcceptedAs(s, g, q) && NamesOnly(LogAt(s.logs, q), g);
    if p.id == q.id {
      PlaceIsUnique(p, q);
    }
  }

  // ---- Quiet steps ----

  /** The step writes no acceptance event and leaves every accepted proposal, and no other, accepted. */
  ghost predicate Quiet(s: Store, s': Store) {
    && s.matters.Keys <= s'.matters.Keys
    && (forall p <- s'.matters ::
          Acceptances(LogAt(s'.logs, p)) == (if p in s.matters then Acceptances(LogAt(s.logs, p)) else []))
    && (forall f <- s.proposals :: f in s'.proposals && s'.proposals[f] == s.proposals[f])
    && (forall f <- s'.proposals :: f in s.proposals || s'.proposals[f].state == Pending)
  }

  lemma {:induction false} QuietKeepsSettled(s: Store, s': Store)
    requires Settled(s) && Quiet(s, s')
    ensures Settled(s')
  {
    hide SafeIdentifier, Acceptances;
    forall p <- s'.matters ensures PlaceSettled(s', p) {
      if p in s.matters && Acceptances(LogAt(s.logs, p)) != [] {
        assert PlaceSettled(s, p);
        var file :| NamesOnly(LogAt(s.logs, p), file) && IsAcceptedAs(s, file, p);
        assert NamesOnly(LogAt(s'.logs, p), file) && IsAcceptedAs(s', file, p);
      }
    }
    forall file <- s'.proposals | s'.proposals[file].state.Accepted? ensures ProposalSettled(s', file) {
      assert ProposalSettled(s, file);
      var p :| IsAcceptedAs(s, file, p) && NamesOnly(LogAt(s.logs, p), file);
      assert NamesOnly(LogAt(s'.logs, p), file) && IsAcceptedAs(s', file, p);
    }
  }

  lemma {:induction false} CreateIsQuiet(s: Store, v: MatterValues, now: Stamp, w: Workflow)
    requires Shaped(s) && NextPlace(s, now) !in s.matters
    ensures Quiet(s, CreateMatter(s, v, now, w).0)
    ensures CreateMatter(s, v, now, w).1.Ok? ==> Acceptances(LogAt(CreateMatter(s, v, now, w).0.logs, NextPlace(s, now))) == []
  {
    hide CreateMatter, NextPlace, NextNumber, NumberedPlace, Created, Scan, Prepare;
    var (s', r) := CreateMatter(s, v, now, w);
    if r.Ok? {
      CreateAdds(s, v, now, w);
      var place := NextPlace(s, now);
      AcceptancesAppend([], MatterCreated(place.id, now, Prepare(v).value.status, r.value.binding));
      assert LogAt(s'.logs, place) == [] + [MatterCreated(place.id, now, Prepare(v).value.status, r.value.binding)];
    } else {
      FailedCreateKeeps(s, v, now, w);
    }
  }

  lemma {:induction false} AppendIsQuiet(s: Store, s': Store, place: Place, e: Event)
    requires place in s.matters && s'.matters.Keys == s.matters.Keys && s'.proposals == s.proposals
    requires s'.logs == s.logs[place := LogAt(s.logs, place) + [e]] && !e.ProposalAccepted?
    ensures Quiet(s, s')
  {
    hide Acceptances;
    AcceptancesAppend(LogAt(s.logs, place), e);
  }

  lemma {:induction false} UpdateIsQuiet(s: Store, idText: string, statusText: string, reasonText: string, now: Stamp)
    ensures Quiet(s, UpdateStatus(s, idText, statusText, reasonText, now).0)
  {
    hide UpdateStatus, Scan, Acceptances;
    var place, status, reason := UpdateSets(s, idText, statusText, reasonText, now);
    var (s', r) := UpdateStatus(s, idText, statusText, reasonText, now);
    if r.Ok? {
      AppendIsQuiet(s, s', place, StatusChanged(place.id, now, s.matters[place].status, status, reason));
    }
  }

  lemma {:induction false} ProposeIsQuiet(s: Store, v: ProposalValues, now: Stamp)
    ensures Quiet(s, CreateProposal(s, v, now).0)
  {
    hide CreateProposal, SafeIdentifier, Acceptances;
    ProposeKeeps(s, v, now);
    if CreateProposal(s, v, now).1.Ok? {
      ProposeFilesFresh(s, v, now);
    }
  }

  /** A new proposal never replaces an existing proposal file. */
  lemma {:induction false} ProposeFilesFresh(s: Store, v: ProposalValues, now: Stamp)
    requires CreateProposal(s, v, now).1.Ok?
    ensures var (s', r) := CreateProposal(s, v, now); var file := SafeIdentifier(r.value.id);
      file !in s.proposals && s'.proposals == s.proposals[file := r.value] && r.value.state == Pending
  {
  }

  // ---- Acceptance ----

  lemma {:induction false} AcceptanceSettles(
    s: Store, file: string, idText: string, place: Place, matter: Matter, now: Stamp)
    requires Settled(s) && file in s.proposals && s.proposals[file].state == Pending && SafeIdentifier(idText) == file
    requires place in s.matters && matter.id == place.id && Acceptances(LogAt(s.logs, place)) == []
    ensures Settled(Indexed(AcceptanceRecorded(s, file, idText, place, matter, now)))
  {
    hide Scan, Acceptances, SafeIdentifier;
    var s' := Indexed(AcceptanceRecorded(s, file, idText, place, matter, now));
    AcceptancesAppend(LogAt(s.logs, place), ProposalAccepted(place.id, now, idText));
    assert LogAt(s'.logs, place) == LogAt(s.logs, place) + [ProposalAccepted(place.id, now, idText)];
    assert Acceptances(LogAt(s'.logs, place)) == [idText];
    assert NamesOnly(LogAt(s'.logs, place), file) && IsAcceptedAs(s', file, place);
    forall p <- s'.matters ensures PlaceSettled(s', p) {
      if p != place && Acceptances(LogAt(s.logs, p)) != [] {
        assert PlaceSettled(s, p);
        var g :| NamesOnly(LogAt(s.logs, p), g) && IsAcceptedAs(s, g, p);
        assert NamesOnly(LogAt(s'.logs, p), g) && IsAcceptedAs(s', g, p);
      }
    }
    forall g <- s'.proposals | s'.proposals[g].state.Accepted? ensures ProposalSettled(s', g) {
      if g != file {
        assert ProposalSettled(s, g);
        var p :| IsAcceptedAs(s, g, p) && NamesOnly(LogAt(s.logs, p), g);
        assert p != place;
        assert NamesOnly(LogAt(s'.logs, p), g) && IsAcceptedAs(s', g, p);
      }
    }
  }

  lemma {:induction false} AcceptSettles(s: Store, idText: string, createdAt: Stamp, acceptedAt: Stamp, w: Workflow)
    requires Inv(s) && Settled(s) && NextPlace(s, createdAt) !in s.matters
    ensures Settled(AcceptProposal(s, idText, createdAt, acceptedAt, w).0)
  {
    hide Agrees, Settled, Acceptances, CreateMatter, AcceptProposal, NextPlace, NumberedPlace, Scan, AcceptanceRecorded;
    hide Created, SafeIdentifier, RequiredText;
    var id, file, values := AcceptAdds(s, idText, createdAt, acceptedAt, w);
    CreateIsQuiet(s, values, createdAt, w);
    var (created, made) := CreateMatter(s, values, createdAt, w);
    QuietKeepsSettled(s, created);
    if AcceptProposal(s, idText, createdAt, acceptedAt, w).1.Ok? {
      CreateAdds(s, values, createdAt, w);
      AcceptanceSettles(created, file, id, NextPlace(s, createdAt), made.value, acceptedAt);
    }
  }

  lemma {:induction false} StepSettles(s: Store, op: Op)
    requires Inv(s) && Settled(s) && StaysFresh(s, op)
    ensures Settled(Step(s, op))
  {
    hide Agrees, Settled, Quiet, CreateMatter, UpdateStatus, CreateProposal, AcceptProposal, NextPlace, NumberedPlace;
    hide TakesNumber;
    if (op.Create? || op.Accept?) && !TakesNumber(s, op) {
      RefusedKeeps(s, op);
    } else {
      match op
      case Create(v, now, w) => CreateIsQuiet(s, v, now, w); QuietKeepsSettled(s, Step(s, op));
      case SetStatus(idText, statusText, reasonText, now) =>
        UpdateIsQuiet(s, idText, statusText, reasonText, now);
        QuietKeepsSettled(s, Step(s, op));
      case Propose(v, now) => ProposeIsQuiet(s, v, now); QuietKeepsSettled(s, Step(s, op));
      case Accept(idText, createdAt, acceptedAt, w) => AcceptSettles(s, idText, createdAt, acceptedAt, w);
    }
  }

  /** Within the bound, over every interleaving, acceptance is one to one and logged once. */
  lemma {:induction false} RunSettles(ops: seq<Op>)
    requires WithinBound(ops)
    ensures Settled(Run(EmptyStore(), ops))
    decreases |ops|
  {
    hide Step, Inv, WithinBound, StaysFresh;
    if ops != [] {
      var n := |ops| - 1;
      BoundedPrefix(ops, n);
      RunSettles(ops[..n]);
      RunKeepsInv(ops[..n]);
      StepSettles(Run(EmptyStore(), ops[..n]), ops[n]);
    }
  }

  // ---- A proposal leaves `pending` at most once, with or without the bound ----

  /** The proposal is as before, or was pending and is now accepted. */
  ghost predicate Advances(s: Store, s': Store, file: string)
    requires file in s.proposals
  {
    && file in s'.proposals
    && s'.proposals[file] == s.proposals[file].(state := s'.proposals[file].state)
    && (s'.proposals[file].state != s.proposals[file].state ==>
          s.proposals[file].state == Pending && s'.proposals[file].state.Accepted?)
  }

  lemma {:induction false} StepAdvances(s: Store, op: Op, file: string)
    requires file in s.proposals
    ensures Advances(s, Step(s, op), file)
  {
    hide CreateMatter, UpdateStatus, CreateProposal, AcceptProposal, NextPlace, SafeIdentifier;
    hide Scan, RequiredText, NormalizeStatus;
    match op
    case Create(v, now, w) => CreateKeepsProposals(s, v, now, w);
    case SetStatus(idText, statusText, reasonText, now) =>
      var place, status, reason := UpdateSets(s, idText, statusText, reasonText, now);
    case Propose(v, now) =>
      ProposeKeeps(s, v, now);
      if CreateProposal(s, v, now).1.Ok? { ProposeFilesFresh(s, v, now); }
    case Accept(idText, createdAt, acceptedAt, w) =>
      var id, accepted, values := AcceptAdds(s, idText, createdAt, acceptedAt, w);
      CreateKeepsProposals(s, values, createdAt, w);
  }

  lemma {:induction false} CreateKeepsProposals(s: Store, v: MatterValues, now: Stamp, w: Workflow)
    ensures CreateMatter(s, v, now, w).0.proposals == s.proposals
  {
    hide CreateMatter, NextPlace, Created, Scan, Prepare;
    if CreateMatter(s, v, now, w).1.Ok? {
      CreateAdds(s, v, now, w);
    } else {
      FailedCreateKeeps(s, v, now, w);
    }
  }

  /** Once accepted, a proposal keeps its acceptance over the rest of every run. */
  lemma {:induction false} RunKeepsAcceptance(ops: seq<Op>, i: nat, file: string)
    requires i <= |ops| && file in Run(EmptyStore(), ops[..i]).proposals
    ensures Advances(Run(EmptyStore(), ops[..i]), Run(EmptyStore(), ops), file)
    decreases |ops|
  {
    hide Step;
    if i == |ops| {
      assert ops[..i] == ops;
    } else {
      var n := |ops| - 1;
      assert ops[..n][..i] == ops[..i];
      RunKeepsAcceptance(ops[..n], i, file);
      StepAdvances(Run(EmptyStore(), ops[..n]), ops[n], file);
    }
  }

  // ---- What an acceptance event records ----

  /** The event of an acceptance is the only one in its log, and holds the id as the request spelled it. */
  lemma {:induction false} AcceptanceNamesRequest(
    s: Store, idText: string, createdAt: Stamp, acceptedAt: Stamp, w: Workflow)
    returns (id: string)
    requires Inv(s) && NextPlace(s, createdAt) !in s.matters
    requires AcceptProposal(s, idText, createdAt, acceptedAt, w).1.Ok?
    ensures RequiredText(idText) == Ok(id) && SafeIdentifier(id) in s.proposals
    ensures var log := LogAt(AcceptProposal(s, idText, createdAt, acceptedAt, w).0.logs, NextPlace(s, createdAt));
      && Acceptances(log) == [id]
      && (Acceptances(log) == [s.proposals[SafeIdentifier(id)].id] <==> id == s.proposals[SafeIdentifier(id)].id)
    ensures NextPlace(s, createdAt) in AcceptProposal(s, idText, createdAt, acceptedAt, w).0.matters
  {
    hide Inv, Quiet, Acceptances, CreateMatter, AcceptProposal, NextPlace, Scan, Created, SafeIdentifier, RequiredText;
    InvIsShaped(s);
    var file, values;
    id, file, values := AcceptAdds(s, idText, createdAt, acceptedAt, w);
    CreateIsQuiet(s, values, createdAt, w);
    CreateAdds(s, values, createdAt, w);
    var created, place := CreateMatter(s, values, createdAt, w).0, NextPlace(s, createdAt);
    AcceptancesAppend(LogAt(created.logs, place), ProposalAccepted(place.id, acceptedAt, id));
  }

  lemma {:induction false} AcceptancesOfPrefix(log: seq<Event>, longer: seq<Event>)
    requires log <= longer
    ensures Acceptances(log) <= Acceptances(longer)
    decreases |longer|
  {
    if |log| < |longer| {
      AcceptancesOfPrefix(log, longer[..|longer| - 1]);
    } else {
      assert log == longer;
    }
  }

  /** Within the bound the matter's log goes on naming that request, and no other, to the end of the run. */
  lemma {:induction false} RecordedIdStays(ops: seq<Op>, i: nat) returns (id: string)
    requires WithinBound(ops) && i < |ops| && ops[i].Accept?
    requires var Accept(idText, createdAt, acceptedAt, w) := ops[i];
      AcceptProposal(Run(EmptyStore(), ops[..i]), idText, createdAt, acceptedAt, w).1.Ok?
    ensures RequiredText(ops[i].idText) == Ok(id)
    ensures var place := NextPlace(Run(EmptyStore(), ops[..i]), ops[i].createdAt);
      Acceptances(LogAt(Run(EmptyStore(), ops).logs, place)) == [id]
  {
    hide AcceptProposal, NextPlace, RequiredText, SafeIdentifier, Acceptances, WithinBound, Inv, TakesNumber, Run;
    var before := Run(EmptyStore(), ops[..i]);
    var place := NextPlace(before, ops[i].createdAt);
    BoundedPrefix(ops, i);
    RunKeepsInv(ops[..i]);
    AcceptedTakesNumber(before, ops[i]);
    id := AcceptanceNamesRequest(before, ops[i].idText, ops[i].createdAt, ops[i].acceptedAt, ops[i].workflow);
    assert Run(EmptyStore(), ops[..i + 1]) == Step(before, ops[i]) by { RunNext(ops, i); }
    RunPreserves(ops, i + 1, place);
    AcceptancesOfPrefix(LogAt(Step(before, ops[i]).logs, place), LogAt(Run(EmptyStore(), ops).logs, place));
    RunSettles(ops);
    assert PlaceSettled(Run(EmptyStore(), ops), place);
  }

  lemma {:induction false} RunNext(ops: seq<Op>, i: nat)
    requires i < |ops|
    ensures Run(EmptyStore(), ops[..i + 1]) == Step(Run(EmptyStore(), ops[..i]), ops[i])
  {
    hide Step;
    assert ops[..i + 1][..i] == ops[..i];
  }

  lemma {:induction false} AcceptedTakesNumber(s: Store, op: Op)
    requires op.Accept? && AcceptProposal(s, op.idText, op.createdAt, op.acceptedAt, op.workflow).1.Ok?
    ensures TakesNumber(s, op)
  {
    hide Prepare, RequiredText, SafeIdentifier, NextPlace, NextNumber, Created;
    hide NewMatter, PersonsOf, Scan, AcceptanceRecorded;
    hide OriginalsOf, Attachments;
    var file := SafeIdentifier(RequiredText(op.idText).value);
    PrepareIgnoresFiles(s.proposals[file].values, Attachments(s.proposals[file].sourceFiles));
  }

  // ---- When a pending proposal can be accepted ----

  /** Every value of a proposal and of its files is clean. */
  predicate CleanProposal(p: Proposal) { CleanValues(p.values) && forall f <- p.sourceFiles :: CleanFile(f) }

  ghost predicate ProposalsClean(s: Store) {
    forall file <- s.proposals :: CleanProposal(s.proposals[file])
  }

  /** There is a usecase, every missing title or label has room for its default, and every path fits into a value. */
  predicate Acceptable(p: Proposal) { Complete(p.values) && FilesFit(p.sourceFiles) }

  lemma {:induction false} FilesAttachExactly(s: Store, p: Proposal, now: Stamp, w: Workflow)
    requires CleanProposal(p) && PathsOf(p.sourceFiles) <= s.staged
    ensures OriginalsOf(s, ValuesOf(p), now, w).Ok? <==> FilesFit(p.sourceFiles)
  {
    hide Attach, Attachments, CleanFile, CleanValues, NextPlace, FilesFit;
    StagedAttachedExactly(s.staged, w.files, DocumentId(NextPlace(s, now).id), p.sourceFiles);
  }

  /** The staged files of a pending proposal are always there, so its acceptance fails only for what it holds itself. */
  lemma {:induction false} PendingIsAccepted(
    s: Store, idText: string, id: string, createdAt: Stamp, acceptedAt: Stamp, w: Workflow)
    requires Inv(s) && ProposalsClean(s) && s.demo && RequiredText(idText) == Ok(id) && SafeIdentifier(id) in s.proposals
    requires s.proposals[SafeIdentifier(id)].state == Pending
    ensures var proposal := s.proposals[SafeIdentifier(id)];
      var (s', r) := AcceptProposal(s, idText, createdAt, acceptedAt, w);
      && (r.Ok? <==> Acceptable(proposal))
      && (!Complete(proposal.values) ==> s' == s)
      && (Complete(proposal.values) && !Acceptable(proposal) ==>
            && Prepare(ValuesOf(proposal)).Ok?
            && s' == s.(persons := s.persons + PersonsOf(Prepare(ValuesOf(proposal)).value, NextPlace(s, createdAt).id)))
  {
    hide SafeIdentifier, Agrees, MatterId, Shaped, RequiredText, Prepare, Created, NewMatter, PersonsOf, NextNumber, Scan;
    hide AcceptanceRecorded, OriginalsOf, FilesFit, Attachments, CleanValues, CleanFile, Complete, PathsOf, NextPlace;
    var proposal := s.proposals[SafeIdentifier(id)];
    assert CleanProposal(proposal) && PathsOf(proposal.sourceFiles) <= s.staged;
    PrepareIgnoresFiles(proposal.values, Attachments(proposal.sourceFiles));
    PreparedExactly(proposal.values);
    FilesAttachExactly(s, proposal, createdAt, w);
  }

  lemma {:induction false} TidyIsPlain(s: string)
    requires Tidy(s)
    ensures NameChars(s)
  {
    assert forall k :: 0 <= k < |s| ==> IsIdChar(s[k]);
  }

  lemma {:induction false} ProposalIdIsPlain(s: Store, title: string, day: Day)
    ensures NameChars(NextProposalId(s, title, day))
  {
    hide Tidy, Canonical, NameChars, ProposalBase, DateDigits;
    var base := ProposalBase(DateDigits(day), title);
    ProposalBaseIsTidy(DateDigits(day), title);
    TidyIsPlain(base);
    var k := FirstFree(s.proposals.Keys, base);
    DecimalIsCanonical(k);
    PlainJoins(base, Decimal(k));
  }

  lemma {:induction false} PlainJoins(a: string, b: string)
    requires NameChars(a) && Canonical(b)
    ensures NameChars(a + "-" + b)
  {
    TidyIsPlain(b);
  }

  /** Whatever a filed proposal holds was cleaned, and a blank usecase was not replaced by a default. */
  lemma {:induction false} ProposedIsClean(s: Store, v: ProposalValues, now: Stamp)
    requires CreateProposal(s, v, now).1.Ok?
    ensures var proposal := CreateProposal(s, v, now).1.value;
      CleanProposal(proposal) && proposal.values.usecaseSlug == Strip(Or(v.usecaseSlug, "unterschriftsbeglaubigung"))
  {
    hide CleanValues, CleanFile, NextProposalId, SafeIdentifier, Stage, PathsOf, ReadProposalHeader, ProposedValues;
    var header := ReadProposalHeader(v).value;
    var id := NextProposalId(s, header.title, now.day);
    ProposalIdIsPlain(s, header.title, now.day);
    StagedAreClean(id, v.uploads, v.synthetic, |v.uploads|);
    ProposedValuesAreClean(v, header);
  }

  lemma {:induction false} ProposedValuesAreClean(v: ProposalValues, header: ProposalHeader)
    requires ReadProposalHeader(v) == Ok(header) && ProposedValues(v, header).Ok?
    ensures var values := ProposedValues(v, header).value;
      CleanValues(values) && values.usecaseSlug == Strip(Or(v.usecaseSlug, "unterschriftsbeglaubigung"))
  {
    hide Tight, Strip, NormalizeStatus, ReadSideTexts;
    CleanIsTight(Or(v.title, "Eingang ohne Betreff"), 512);
    CleanIsTight(Or(v.usecaseSlug, "unterschriftsbeglaubigung"), 512);
    CleanIsTight(Or(v.usecaseTitle, "Unterschriftsbeglaubigung"), 512);
    CleanIsTight(v.clientName, 512);
    CleanIsTight(Or(v.participantName, v.clientName), 512);
    CleanIsTight(Or(v.documentTitle, "Eingangsdokument"), 512);
    CleanIsTight(Or(v.documentType, DOCUMENT_TYPE), 512);
    CleanIsTight(Or(v.mediaType, DEFAULT_MEDIA_TYPE), 512);
    CleanIsTight(Or(v.dataClassification, DATA_CLASSIFICATION), 512);
    CleanIsTight(v.statusReason, 512);
    StatusTextReadsBack(NormalizeStatus(v.status).value);
  }

  lemma {:induction false} StepKeepsClean(s: Store, op: Op)
    requires ProposalsClean(s)
    ensures ProposalsClean(Step(s, op))
  {
    hide Step, CreateProposal, CleanProposal, SafeIdentifier;
    var s' := Step(s, op);
    forall file <- s'.proposals ensures CleanProposal(s'.proposals[file]) {
      if file in s.proposals {
        StepAdvances(s, op, file);
        StateIsNoText(s.proposals[file], s'.proposals[file]);
      } else {
        NewProposalIsClean(s, op, file);
      }
    }
  }

  lemma {:induction false} StateIsNoText(p: Proposal, p': Proposal)
    requires p' == p.(state := p'.state)
    ensures CleanProposal(p) ==> CleanProposal(p')
  {
    hide CleanValues, CleanFile;
  }

  lemma {:induction false} NewProposalIsClean(s: Store, op: Op, file: string)
    requires file in Step(s, op).proposals && file !in s.proposals
    ensures CleanProposal(Step(s, op).proposals[file])
  {
    hide CreateMatter, UpdateStatus, CreateProposal, AcceptProposal, NextPlace, SafeIdentifier;
    hide Scan, RequiredText, CleanProposal;
    match op
    case Create(v, now, w) => CreateKeepsProposals(s, v, now, w);
    case SetStatus(idText, statusText, reasonText, now) =>
      var place, status, reason := UpdateSets(s, idText, statusText, reasonText, now);
    case Propose(v, now) =>
      ProposeKeeps(s, v, now);
      ProposeFilesFresh(s, v, now);
      ProposedIsClean(s, v, now);
    case Accept(idText, createdAt, acceptedAt, w) =>
      var id, accepted, values := AcceptAdds(s, idText, createdAt, acceptedAt, w);
      CreateKeepsProposals(s, values, createdAt, w);
  }

  lemma {:induction false} RunKeepsClean(ops: seq<Op>)
    ensures ProposalsClean(Run(EmptyStore(), ops))
    decreases |ops|
  {
    hide Step, CleanProposal;
    if ops != [] {
      RunKeepsClean(ops[..|ops| - 1]);
      StepKeepsClean(Run(EmptyStore(), ops[..|ops| - 1]), ops[|ops| - 1]);
    }
  }

  /**
   * After any run, accepting a pending proposal succeeds exactly when its usecase is not empty, every missing title or
   * label has room for its default, and every path fits into a value. Without room for a title nothing changes.
   */
  lemma {:induction false} PendingIsAcceptedExactly(
    ops: seq<Op>, idText: string, id: string, createdAt: Stamp, acceptedAt: Stamp, w: Workflow)
    requires RequiredText(idText) == Ok(id) && SafeIdentifier(id) in Run(EmptyStore(), ops).proposals
    requires Run(EmptyStore(), ops).proposals[SafeIdentifier(id)].state == Pending
    ensures var s := Run(EmptyStore(), ops); var proposal := s.proposals[SafeIdentifier(id)];
      var (s', r) := AcceptProposal(s, idText, createdAt, acceptedAt, w);
      && (r.Ok? <==> Acceptable(proposal))
      && (!Complete(proposal.values) ==> s' == s)
      && (r.Err? ==> s' == s.(persons := s'.persons))
  {
    hide Run, Inv, RequiredText, SafeIdentifier, AcceptProposal, Acceptable, Complete, CleanProposal, PersonsOf, Prepare;
    RunKeepsInv(ops);
    RunKeepsDemo(ops);
    RunKeepsClean(ops);
    PendingIsAccepted(Run(EmptyStore(), ops), idText, id, createdAt, acceptedAt, w);
  }

  /** A proposal that is not acceptable stays pending in every run, whatever is requested. */
  lemma {:induction false} UnacceptableStaysPending(ops: seq<Op>, i: nat, file: string)
    requires i <= |ops| && file in Run(EmptyStore(), ops[..i]).proposals
    requires var proposal := Run(EmptyStore(), ops[..i]).proposals[file];
      proposal.state == Pending && !Acceptable(proposal)
    ensures file in Run(EmptyStore(), ops).proposals
    ensures Run(EmptyStore(), ops).proposals[file] == Run(EmptyStore(), ops[..i]).proposals[file]
    decreases |ops|
  {
    hide Step, Acceptable, SafeIdentifier, RequiredText;
    if i == |ops| {
      assert ops[..i] == ops;
    } else {
      var n := |ops| - 1;
      assert ops[..n][..i] == ops[..i];
      UnacceptableStaysPending(ops[..n], i, file);
      UnacceptableStepKeeps(ops[..n], ops[n], file);
    }
  }

  lemma {:induction false} UnacceptableStepKeeps(ops: seq<Op>, op: Op, file: string)
    requires var s := Run(EmptyStore(), ops);
      file in s.proposals && s.proposals[file].state == Pending && !Acceptable(s.proposals[file])
    ensures var s, s' := Run(EmptyStore(), ops), Step(Run(EmptyStore(), ops), op);
      file in s'.proposals && s'.proposals[file] == s.proposals[file]
  {
    hide Run, Acceptable, CreateMatter, UpdateStatus, CreateProposal, AcceptProposal;
    hide NextPlace, SafeIdentifier, RequiredText;
    var s := Run(EmptyStore(), ops);
    StepAdvances(s, op, file);
    match op
    case Create(v, now, w) => CreateKeepsProposals(s, v, now, w);
    case SetStatus(idText, statusText, reasonText, now) =>
      var place, status, reason := UpdateSets(s, idText, statusText, reasonText, now);
    case Propose(v, now) =>
      ProposeKeeps(s, v, now);
      if CreateProposal(s, v, now).1.Ok? { ProposeFilesFresh(s, v, now); }
    case Accept(idText, createdAt, acceptedAt, w) =>
      if AcceptProposal(s, idText, createdAt, acceptedAt, w).1.Ok? { AcceptedHasText(s, idText, createdAt, acceptedAt, w); }
      if AcceptProposal(s, idText, createdAt, acceptedAt, w).1.Ok? && SafeIdentifier(RequiredText(idText).value) == file {
        PendingIsAcceptedExactly(ops, idText, RequiredText(idText).value, createdAt, acceptedAt, w);
      } else {
        AcceptTouchesOne(s, idText, createdAt, acceptedAt, w, file);
      }
  }

  lemma {:induction false} AcceptTouchesOne(
    s: Store, idText: string, createdAt: Stamp, acceptedAt: Stamp, w: Workflow, file: string)
    requires file in s.proposals
    requires var r := AcceptProposal(s, idText, createdAt, acceptedAt, w).1;
      r.Ok? ==> RequiredText(idText).Ok? && SafeIdentifier(RequiredText(idText).value) != file
    ensures var s' := AcceptProposal(s, idText, createdAt, acceptedAt, w).0;
      file in s'.proposals && s'.proposals[file] == s.proposals[file]
  {
    hide CreateMatter, AcceptProposal, NextPlace, SafeIdentifier, Scan, RequiredText;
    var id, accepted, values := AcceptAdds(s, idText, createdAt, acceptedAt, w);
    CreateKeepsProposals(s, values, createdAt, w);
  }

  lemma {:induction false} AcceptedHasText(s: Store, idText: string, createdAt: Stamp, acceptedAt: Stamp, w: Workflow)
    requires AcceptProposal(s, idText, createdAt, acceptedAt, w).1.Ok?
    ensures RequiredText(idText).Ok?
    ensures SafeIdentifier(RequiredText(idText).value) in s.proposals
  {
    hide CreateMatter, RequiredText, SafeIdentifier, NextPlace, Scan, AcceptanceRecorded;
  }

  /** A usecase given as blanks only is not replaced by the default: the filed proposal stays pending for ever. */
  lemma {:induction false} BlankUsecaseStaysPending(ops: seq<Op>, i: nat, v: ProposalValues, now: Stamp)
    requires i < |ops| && ops[i] == Propose(v, now) && v.usecaseSlug != "" && Strip(v.usecaseSlug) == ""
    requires CreateProposal(Run(EmptyStore(), ops[..i]), v, now).1.Ok?
    ensures var proposal := CreateProposal(Run(EmptyStore(), ops[..i]), v, now).1.value;
      var end := Run(EmptyStore(), ops);
      SafeIdentifier(proposal.id) in end.proposals && end.proposals[SafeIdentifier(proposal.id)] == proposal
  {
    hide CreateProposal, Run, SafeIdentifier, Strip, CleanProposal, FilesFit;
    var before := Run(EmptyStore(), ops[..i]);
    var proposal := CreateProposal(before, v, now).1.value;
    ProposeFilesFresh(before, v, now);
    ProposedIsClean(before, v, now);
    RunNext(ops, i);
    UnacceptableStaysPending(ops, i + 1, SafeIdentifier(proposal.id));
  }

  function PlainProposal(slug: string): ProposalValues {
    ProposalValues("", slug, "", "", "", "", "", "", "", "", "", "", "", "", "", "", true, [])
  }

  /** Such a request is accepted for filing, and so is one without any value, which can be accepted. */
  lemma {:induction false} PlainProposalIsFiled(s: Store, slug: string, now: Stamp)
    requires s.demo && (slug == "" || slug == " ")
    ensures var r := CreateProposal(s, PlainProposal(slug), now).1; r.Ok? && (Acceptable(r.value) <==> slug == "")
    ensures Strip(" ") == ""
  {
    hide ReadProposalHeader, ProposedValues, NextProposalId, SafeIdentifier, PlainProposal;
    assert Strip(" ") == "" by { assert LStrip(" ") == LStrip(""); }
    assert PlainProposal(slug).uploads == [] by { PlainHasNoUploads(slug); }
    PlainHeader(slug);
    PlainValues(slug, ReadProposalHeader(PlainProposal(slug)).value);
  }

  lemma {:induction false} PlainHasNoUploads(slug: string)
    ensures PlainProposal(slug).uploads == []
  {
  }

  lemma {:induction false} PlainHeader(slug: string)
    requires slug == "" || slug == " "
    ensures ReadProposalHeader(PlainProposal(slug)) == Ok(ProposalHeader("Eingang ohne Betreff",
      if slug == "" then "unterschriftsbeglaubigung" else "", "Unterschriftsbeglaubigung"))
  {
    hide Clean;
    BlankIsClean();
    ProposalDefaultsAreTight();
    DefaultUsecaseIsTight();
    TightIsClean("Eingang ohne Betreff", 512);
    TightIsClean("unterschriftsbeglaubigung", 512);
    TightIsClean("Unterschriftsbeglaubigung", 512);
  }

  lemma {:induction false} PlainValues(slug: string, h: ProposalHeader)
    requires h.title == "Eingang ohne Betreff"
    ensures ProposedValues(PlainProposal(slug), h).Ok?
    ensures var values := ProposedValues(PlainProposal(slug), h).value;
      values.title == h.title && values.documentTitle == "Eingangsdokument" && values.usecaseSlug == h.usecaseSlug
  {
    hide Clean, NormalizeStatus;
    ProposalDefaultsAreTight();
    DefaultWordsAreShort();
    TightIsClean("", 512);
    TightIsClean("Eingang ohne Betreff", 512);
    TightIsClean("Eingangsdokument", 512);
    TightIsClean(DOCUMENT_TYPE, 512);
    TightIsClean(DEFAULT_MEDIA_TYPE, 512);
    TightIsClean(DATA_CLASSIFICATION, 512);
    NoStatusIsOpen();
  }

  lemma {:induction false} BlankIsClean()
    ensures Clean(" ", 512) == Ok("")
  {
    assert LStrip(" ") == LStrip("");
  }

  lemma {:induction false} ProposalDefaultsAreTight()
    ensures Tight("Eingang ohne Betreff") && Tight("Eingangsdokument") && Tight("")
  {
  }

  lemma {:induction false} DefaultUsecaseIsTight()
    ensures Tight("unterschriftsbeglaubigung") && Tight("Unterschriftsbeglaubigung")
  {
  }

  // ---- A differing text in the log ----

  lemma {:induction false} LowerCaseIsTight(id: string)
    requires Tight(id)
    ensures Tight(Lower(id))
  {
  }

  /** The lower-case spelling of an id accepts the proposal just as well, and is what the log then holds. */
  lemma {:induction false} LowerCaseIsRecorded(
    ops: seq<Op>, file: string, createdAt: Stamp, acceptedAt: Stamp, w: Workflow)
    requires var s := Run(EmptyStore(), ops);
      && file in s.proposals && s.proposals[file].state == Pending && Acceptable(s.proposals[file])
      && Short(s.proposals[file].id) && s.proposals[file].id != "" && NextPlace(s, createdAt) !in s.matters
    ensures var s := Run(EmptyStore(), ops);
      var id := s.proposals[file].id; var (s', r) := AcceptProposal(s, Lower(id), createdAt, acceptedAt, w);
      && r.Ok? && Acceptances(LogAt(s'.logs, NextPlace(s, createdAt))) == [Lower(id)]
      && (Acceptances(LogAt(s'.logs, NextPlace(s, createdAt))) == [id] <==> Lower(id) == id)
  {
    hide Run, AcceptProposal, SafeIdentifier, Acceptances, NextPlace, Acceptable, Lower, Clean, Tight, Agrees, Shaped;
    var s := Run(EmptyStore(), ops);
    var id := s.proposals[file].id;
    RunKeepsInv(ops);
    SafeIdentifierIgnoresCase(id);
    LowerCaseIsTight(id);
    LowerKeepsLength(id);
    TightIsClean(Lower(id), 512);
    PendingIsAcceptedExactly(ops, Lower(id), Lower(id), createdAt, acceptedAt, w);
    var named := AcceptanceNamesRequest(s, Lower(id), createdAt, acceptedAt, w);
  }

  lemma {:induction false} LowerKeepsLength(s: string)
    ensures |Lower(s)| == |s|
  {
  }

  /** Every filed proposal has capitals in its id, so its lower-case spelling differs from it. */
  lemma {:induction false} ProposalIdHasCapitals(s: Store, v: ProposalValues, now: Stamp)
    requires CreateProposal(s, v, now).1.Ok?
    ensures Lower(CreateProposal(s, v, now).1.value.id) != CreateProposal(s, v, now).1.value.id
  {
    hide SafeIdentifier, ProposedValues, ReadProposalHeader, DateDigits, Decimal, Stage, PathsOf, Tidy;
    var id := CreateProposal(s, v, now).1.value.id;
    assert id == NextProposalId(s, ReadProposalHeader(v).value.title, now.day);
    assert id[0] == 'I' && Lower(id)[0] == 'i';
  }

  /** In an empty repository the first proposal's lower-case id is accepted, and its log names a text that is not the id. */
  lemma {:induction false} FirstProposalLowered(
    v: ProposalValues, now: Stamp, createdAt: Stamp, acceptedAt: Stamp, w: Workflow)
    requires CreateProposal(EmptyStore(), v, now).1.Ok?
    requires Acceptable(CreateProposal(EmptyStore(), v, now).1.value)
    ensures var id := CreateProposal(EmptyStore(), v, now).1.value.id;
      var s := Run(EmptyStore(), [Propose(v, now)]); var s' := AcceptProposal(s, Lower(id), createdAt, acceptedAt, w).0;
      Acceptances(LogAt(s'.logs, NextPlace(s, createdAt))) == [Lower(id)] != [id]
  {
    hide CreateProposal, AcceptProposal, SafeIdentifier, NextPlace, Acceptable, Lower, Tight, Acceptances, MatterId;
    hide CountCreated, Step;
    var ops := [Propose(v, now)];
    var proposal := CreateProposal(EmptyStore(), v, now).1.value;
    assert Run(EmptyStore(), ops) == CreateProposal(EmptyStore(), v, now).0 by { RunNext(ops, 0); FirstStep(v, now, ops); }
    ProposeFilesFresh(EmptyStore(), v, now);
    ProposalIdHasCapitals(EmptyStore(), v, now);
    FirstIdIsShort(v, now);
    CountsNone(v, now, YearText(createdAt.day));
    NextCreationIsFresh(ops, createdAt);
    LowerCaseIsRecorded(ops, SafeIdentifier(proposal.id), createdAt, acceptedAt, w);
  }

  lemma {:induction false} FirstStep(v: ProposalValues, now: Stamp, ops: seq<Op>)
    requires ops == [Propose(v, now)]
    ensures Run(EmptyStore(), ops) == CreateProposal(EmptyStore(), v, now).0
  {
    hide CreateProposal;
    assert ops[..0] == [];
    assert Run(EmptyStore(), ops[..0]) == EmptyStore();
  }

  lemma {:induction false} CountsNone(v: ProposalValues, now: Stamp, year: string)
    ensures CountCreated([Propose(v, now)], year) == 0
  {
    hide Run;
    assert [Propose(v, now)][..0] == [];
    assert CountCreated([Propose(v, now)][..0], year) == 0;
  }

  lemma {:induction false} FirstIdIsShort(v: ProposalValues, now: Stamp)
    requires CreateProposal(EmptyStore(), v, now).1.Ok?
    ensures var id := CreateProposal(EmptyStore(), v, now).1.value.id; Short(id) && id != ""
  {
    hide SafeIdentifier, ProposedValues, ReadProposalHeader, DateDigits, Decimal, Stage, PathsOf, Tidy, Tight;
    var title := ReadProposalHeader(v).value.title;
    var id := CreateProposal(EmptyStore(), v, now).1.value.id;
    var base := ProposalBase(DateDigits(now.day), title);
    ProposalBaseIsTidy(DateDigits(now.day), title);
    assert id == NextProposalId(EmptyStore(), title, now.day);
    assert FirstFree({}, base) == 1 by { FirstOfNone(base); }
    assert id == base;
    TidyIsTight(base);
    DateDigitsLength(now.day);
    assert |base| <= 57;
  }

  lemma {:induction false} FirstOfNone(base: string)
    requires Tidy(base) && base != ""
    ensures FirstFree({}, base) == 1
  {
    hide SafeIdentifier, Tidy;
    var none: set<string> := {};
    assert IsFirstFree(none, base, FirstFree(none, base));
    assert CandidateFile(base, 1) !in none;
  }

  lemma {:induction false} TidyIsTight(s: string)
    requires Tidy(s)
    ensures Tight(s)
  {
    assert forall k :: 0 <= k < |s| ==> IsIdChar(s[k]);
  }

  lemma {:induction false} DateDigitsLength(day: Day)
    ensures |DateDigits(day)| == 8
  {
    FourDigits(day.year);
    TwoDigits(day.month);
    TwoDigits(day.dayOfMonth);
  }

  lemma {:induction false} TwoDigits(n: nat)
    requires n <= 99
    ensures |Padded(n, 2)| == 2
  {
    assert Power10(1) == 10 && Power10(2) == 100;
    DecimalLength(n, 2, 100);
  }
}
