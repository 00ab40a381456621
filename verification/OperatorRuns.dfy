/** Invariants of the case-file store over every run of the four operations. */
module OperatorRuns {
  import opened Options
  import opened Identifiers
  import opened OperatorRequests
  import opened OperatorFiles
  import opened OperatorStore

  // ---- Runs ----

  datatype Op =
    | Create(values: MatterValues, now: Stamp, workflow: Workflow)
    | SetStatus(idText: string, statusText: string, reasonText: string, now: Stamp)
    | Propose(proposal: ProposalValues, now: Stamp)
    | Accept(idText: string, createdAt: Stamp, acceptedAt: Stamp, workflow: Workflow)

  ghost function Step(s: Store, op: Op): Store {
    match op
    case Create(v, now, w) => CreateMatter(s, v, now, w).0
    case SetStatus(id, status, reason, now) => UpdateStatus(s, id, status, reason, now).0
    case Propose(v, now) => CreateProposal(s, v, now).0
    case Accept(id, createdAt, acceptedAt, w) => AcceptProposal(s, id, createdAt, acceptedAt, w).0
  }

  ghost function Run(s: Store, ops: seq<Op>): Store
    decreases |ops|
  {
    if ops == [] then s else Step(Run(s, ops[..|ops| - 1]), ops[|ops| - 1])
  }

  /** A demo repository without any case file. */
  ghost function EmptyStore(): Store {
    Store(true, map[], map[], map[], map[], map[], map[], map[], {}, Index([], [], []))
  }

  // ---- Event logs ----

  /** The status an event log leads to. */
  ghost function Replay(log: seq<Event>): Option<Status> {
    if log == [] then None
    else match log[|log| - 1]
      case MatterCreated(_, _, status, _) => Some(status)
      case StatusChanged(_, _, _, status, _) => Some(status)
      case ProposalAccepted(_, _, _) => Replay(log[..|log| - 1])
  }

  /** Every status event names the status the events before it lead to. */
  ghost predicate Consistent(log: seq<Event>) {
    forall k :: 0 <= k < |log| && log[k].StatusChanged? ==> Replay(log[..k]) == Some(log[k].previous)
  }

  /** A matter's log begins with its creation, is its own, is consistent, and replays to `status`. */
  ghost predicate TellsStory(log: seq<Event>, id: string, status: Status) {
    && log != [] && log[0].MatterCreated?
    && (forall k :: 0 <= k < |log| ==> log[k].matterId == id)
    && Consistent(log)
    && Replay(log) == Some(status)
  }

  lemma {:induction false} StoryContinues(log: seq<Event>, id: string, status: Status, e: Event, next: Status)
    requires log == [] || TellsStory(log, id, status)
    requires log == [] ==> e.MatterCreated?
    requires e.matterId == id
    requires match e
      case MatterCreated(_, _, st, _) => next == st
      case StatusChanged(_, _, previous, st, _) => previous == status && next == st
      case ProposalAccepted(_, _, _) => next == status
    ensures TellsStory(log + [e], id, next)
  {
    var longer := log + [e];
    assert longer[..|longer| - 1] == log;
    forall k | 0 <= k < |longer| && longer[k].StatusChanged? ensures Replay(longer[..k]) == Some(longer[k].previous) {
      assert longer[..k] == log[..k];
      if k == |log| { assert log[..k] == log; }
    }
  }

  // ---- The invariant that needs no bound ----

  ghost predicate PersonOnFile(s: Store, id: string) {
    id in s.persons && s.persons[id].id == id
  }

  ghost predicate DocumentOnFile(s: Store, id: string, matterId: string) {
    && id in s.documents && s.documents[id].id == id
    && s.documents[id].matterId == matterId && s.documents[id].subjectIds == [ParticipantId(matterId)]
  }

  /** The persons and the document a matter lists are on file and belong to it. */
  ghost predicate Resolves(s: Store, m: Matter) {
    && m.personIds == [ClientId(m.id), ParticipantId(m.id)]
    && m.documentIds == [DocumentId(m.id)]
    && PersonOnFile(s, ClientId(m.id)) && PersonOnFile(s, ParticipantId(m.id))
    && DocumentOnFile(s, DocumentId(m.id), m.id)
  }

  /** The redundant records of one matter agree: its persons, document, checklist and event log. */
  ghost predicate Agrees(s: Store, p: Place) {
    && p in s.matters && p in s.checklists && p in s.logs
    && Resolves(s, s.matters[p])
    && s.checklists[p].binding == s.matters[p].binding
    && TellsStory(s.logs[p], p.id, s.matters[p].status)
  }

  ghost predicate ProposalsStored(s: Store) {
    forall f <- s.proposals ::
      && SafeIdentifier(s.proposals[f].id) == f
      && PathsOf(s.proposals[f].sourceFiles) <= s.staged
  }

  ghost predicate Inv(s: Store) {
    && Shaped(s)
    && (forall p <- s.matters :: Agrees(s, p))
    && ProposalsStored(s)
  }

  function Suffixed(front: string, id: string, back: string): string { front + id + back }

  lemma {:induction false} SuffixedDiffer(front: string, a: string, x: string, b: string, y: string)
    requires a != b && |x| >= 2 && |y| >= 2
    requires |x| == |y| || x[|x| - 2] != y[|y| - 2]
    ensures Suffixed(front, a, x) != Suffixed(front, b, y)
  {
    var s, t := Suffixed(front, a, x), Suffixed(front, b, y);
    assert s[|s| - 2] == x[|x| - 2] && t[|t| - 2] == y[|y| - 2];
    assert a == s[|front|..|front| + |a|] && b == t[|front|..|front| + |b|];
  }

  /** Matters with different ids have different persons and different documents. */
  lemma {:induction false} PersonIdsDiffer(a: string, b: string)
    requires Canonical(a) && Canonical(b) && a != b
    ensures ClientId(a) != ClientId(b) && ClientId(a) != ParticipantId(b)
    ensures ParticipantId(a) != ClientId(b) && ParticipantId(a) != ParticipantId(b)
    ensures DocumentId(a) != DocumentId(b)
  {
    CanonicalIsSafe(a);
    CanonicalIsSafe(b);
    SuffixedDiffer("PER-", a, "-MANDANT", b, "-MANDANT");
    SuffixedDiffer("PER-", a, "-MANDANT", b, "-BETEILIGT");
    SuffixedDiffer("PER-", a, "-BETEILIGT", b, "-MANDANT");
    SuffixedDiffer("PER-", a, "-BETEILIGT", b, "-BETEILIGT");
    SuffixedDiffer("DOC-", a, "-UNTERLAGE", b, "-UNTERLAGE");
  }

  lemma {:induction false} ClientIsNotParticipant(id: string)
    ensures ClientId(id) != ParticipantId(id)
  {
    assert |ClientId(id)| != |ParticipantId(id)|;
  }

  lemma {:induction false} PlaceIdIsCanonical(p: Place)
    requires NumberedPlace(p)
    ensures Canonical(p.id)
  {
    var n: nat :| 1 <= n <= 10000 && p.id == MatterId(p.year, n);
    MatterIdIsCanonical(p.year, n);
  }

  lemma {:induction false} InvIsShaped(s: Store)
    requires Inv(s)
    ensures Shaped(s)
  {
  }

  // ---- The elementary writes keep the invariant ----

  /** Nothing that is still on file was lost. */
  ghost predicate KeepsFiles(s: Store, s': Store, matterId: string) {
    && (PersonOnFile(s, ClientId(matterId)) ==> PersonOnFile(s', ClientId(matterId)))
    && (PersonOnFile(s, ParticipantId(matterId)) ==> PersonOnFile(s', ParticipantId(matterId)))
    && (DocumentOnFile(s, DocumentId(matterId), matterId) ==> DocumentOnFile(s', DocumentId(matterId), matterId))
  }

  lemma {:induction false} Untouched(s: Store, s': Store, q: Place)
    requires Agrees(s, q) && q in s'.matters && q in s'.checklists && q in s'.logs
    requires s'.matters[q] == s.matters[q] && s'.checklists[q] == s.checklists[q] && s'.logs[q] == s.logs[q]
    requires KeepsFiles(s, s', s.matters[q].id)
    ensures Agrees(s', q)
  {
  }

  lemma {:induction false} SameFilesKept(s: Store, s': Store, id: string)
    requires s'.persons == s.persons && s'.documents == s.documents
    ensures KeepsFiles(s, s', id)
  {
  }

  /** Only staged files, proposals and indexes differ. */
  lemma {:induction false} SameRecordsKeepInv(s: Store, s': Store)
    requires Inv(s) && s' == s.(staged := s'.staged, proposals := s'.proposals, index := s'.index) && ProposalsStored(s')
    ensures Inv(s')
  {
    hide Agrees, NumberedPlace, KeepsFiles, ProposalsStored, SafeIdentifier;
    forall q <- s'.matters ensures Agrees(s', q) {
      SameFilesKept(s, s', s.matters[q].id);
      AgreesHasRecords(s, q);
      Untouched(s, s', q);
    }
  }

  lemma {:induction false} AgreesHasRecords(s: Store, q: Place)
    requires Agrees(s, q)
    ensures q in s.matters && q in s.checklists && q in s.logs
  {
  }

  lemma {:induction false} IndexIsRedundant(s: Store, index: Index)
    requires Inv(s)
    ensures Inv(s.(index := index))
  {
    hide Agrees, Shaped, SafeIdentifier;
    assert ProposalsStored(s.(index := index));
    SameRecordsKeepInv(s, s.(index := index));
  }

  lemma {:induction false} PersonsOfAreNamed(s: Store, p: Prepared, id: string, x: string)
    ensures var written := s.(persons := s.persons + PersonsOf(p, id));
      && (PersonOnFile(s, x) ==> PersonOnFile(written, x))
      && PersonOnFile(written, ClientId(id)) && PersonOnFile(written, ParticipantId(id))
  {
    ClientIsNotParticipant(id);
  }

  /** A failed creation still wrote two person files; no matter notices. */
  lemma {:induction false} WritingPersonsKeepsInv(s: Store, p: Prepared, id: string)
    requires Inv(s)
    ensures Inv(s.(persons := s.persons + PersonsOf(p, id)))
  {
    hide Agrees, NumberedPlace, SafeIdentifier, PersonsOf, PersonOnFile, KeepsFiles;
    var s' := s.(persons := s.persons + PersonsOf(p, id));
    forall q <- s'.matters ensures Agrees(s', q) {
      WritingPersonsKeepsFiles(s, p, id, s.matters[q].id);
      AgreesHasRecords(s, q);
      Untouched(s, s', q);
    }
    assert ProposalsStored(s');
  }

  lemma {:induction false} WritingPersonsKeepsFiles(s: Store, p: Prepared, id: string, matterId: string)
    ensures KeepsFiles(s, s.(persons := s.persons + PersonsOf(p, id)), matterId)
  {
    hide PersonsOf, PersonOnFile, SafeIdentifier;
    PersonsOfAreNamed(s, p, id, ClientId(matterId));
    PersonsOfAreNamed(s, p, id, ParticipantId(matterId));
  }

  lemma {:induction false} DocumentIdsDiffer(p: Place, q: Place)
    requires NumberedPlace(p) && NumberedPlace(q) && p != q
    ensures p.id != q.id && DocumentId(p.id) != DocumentId(q.id)
  {
    if p.id == q.id { PlaceIsUnique(p, q); }
    PlaceIdIsCanonical(p);
    PlaceIdIsCanonical(q);
    PersonIdsDiffer(p.id, q.id);
  }

  lemma {:induction false} CreatedResolves(
    s: Store, p: Prepared, place: Place, number: nat, originals: seq<Original>, now: Stamp, w: Workflow)
    ensures Resolves(Created(s, p, place, number, originals, now, w), NewMatter(p, place.id, number, now, w))
  {
    hide SafeIdentifier, PersonsOf, PersonOnFile;
    var s' := Created(s, p, place, number, originals, now, w);
    var withPersons := s.(persons := s.persons + PersonsOf(p, place.id));
    PersonsOfAreNamed(s, p, place.id, "");
    SamePersonOnFile(withPersons, s', ClientId(place.id));
    SamePersonOnFile(withPersons, s', ParticipantId(place.id));
  }

  lemma {:induction false} SamePersonOnFile(s: Store, s': Store, id: string)
    requires s'.persons == s.persons
    ensures PersonOnFile(s', id) <==> PersonOnFile(s, id)
  {
  }

  lemma {:induction false} CreatedTellsStory(
    s: Store, p: Prepared, place: Place, number: nat, originals: seq<Original>, now: Stamp, w: Workflow)
    requires Inv(s)
    ensures TellsStory(LogAt(Created(s, p, place, number, originals, now, w).logs, place), place.id, p.status)
  {
    hide SafeIdentifier, PersonsOf, NumberedPlace, TellsStory, Resolves, NewDocument;
    var matter := NewMatter(p, place.id, number, now, w);
    assert place in s.logs ==> place in s.matters && Agrees(s, place);
    StoryContinues(LogAt(s.logs, place), place.id, if place in s.matters then s.matters[place].status else Open,
      MatterCreated(place.id, now, p.status, matter.binding), p.status);
  }

  lemma {:induction false} CreatedAgrees(
    s: Store, p: Prepared, place: Place, number: nat, originals: seq<Original>, now: Stamp, w: Workflow)
    requires Inv(s)
    ensures Agrees(Created(s, p, place, number, originals, now, w), place)
  {
    hide Inv, Resolves, TellsStory, PersonsOf, NewDocument;
    CreatedResolves(s, p, place, number, originals, now, w);
    CreatedTellsStory(s, p, place, number, originals, now, w);
  }

  lemma {:induction false} CreatedKeepsOthers(
    s: Store, p: Prepared, place: Place, number: nat, originals: seq<Original>, now: Stamp, w: Workflow, q: Place)
    requires Inv(s) && NumberedPlace(place) && q in s.matters && q != place
    ensures Agrees(Created(s, p, place, number, originals, now, w), q)
  {
    hide NumberedPlace, Agrees, KeepsFiles, SafeIdentifier, MatterId;
    var s' := Created(s, p, place, number, originals, now, w);
    CreatedKeepsFiles(s, p, place, number, originals, now, w, q);
    Untouched(s, s', q);
  }

  lemma {:induction false} CreatedKeepsFiles(
    s: Store, p: Prepared, place: Place, number: nat, originals: seq<Original>, now: Stamp, w: Workflow, q: Place)
    requires NumberedPlace(place) && NumberedPlace(q) && q != place
    ensures KeepsFiles(s, Created(s, p, place, number, originals, now, w), q.id)
  {
    var s' := Created(s, p, place, number, originals, now, w);
    PersonsOfAreNamed(s, p, place.id, ClientId(q.id));
    PersonsOfAreNamed(s, p, place.id, ParticipantId(q.id));
    DocumentIdsDiffer(place, q);
    assert s'.persons == s.persons + PersonsOf(p, place.id);
  }

  lemma {:induction false} CreatedRecords(
    s: Store, p: Prepared, place: Place, number: nat, originals: seq<Original>, now: Stamp, w: Workflow)
    ensures var s' := Created(s, p, place, number, originals, now, w);
      && s'.matters == s.matters[place := NewMatter(p, place.id, number, now, w)]
      && s'.checklists.Keys == s.checklists.Keys + {place} && s'.logs.Keys == s.logs.Keys + {place}
      && s'.proposals == s.proposals && s'.staged == s.staged
  {
    hide PersonsOf, NewDocument, NewMatter;
  }

  lemma {:induction false} SameProposalsStored(s: Store, s': Store)
    requires ProposalsStored(s) && s'.proposals == s.proposals && s'.staged == s.staged
    ensures ProposalsStored(s')
  {
    hide SafeIdentifier;
  }

  lemma {:induction false} CreatedKeepsInv(
    s: Store, p: Prepared, place: Place, number: nat, originals: seq<Original>, now: Stamp, w: Workflow)
    requires Inv(s) && NumberedPlace(place)
    ensures Inv(Created(s, p, place, number, originals, now, w))
  {
    hide NumberedPlace, Agrees, Created, ProposalsStored;
    var s' := Created(s, p, place, number, originals, now, w);
    CreatedRecords(s, p, place, number, originals, now, w);
    CreatedAgrees(s, p, place, number, originals, now, w);
    forall q | q in s.matters && q != place ensures Agrees(s', q) {
      CreatedKeepsOthers(s, p, place, number, originals, now, w, q);
    }
    SameProposalsStored(s, s');
    InvFromParts(s, s', place);
  }

  /** The invariant after a write to one place, put together from its parts. */
  lemma {:induction false} InvFromParts(s: Store, s': Store, place: Place)
    requires Inv(s) && NumberedPlace(place)
    requires s'.matters.Keys == s.matters.Keys + {place} && s'.checklists.Keys == s'.logs.Keys == s'.matters.Keys
    requires s'.matters[place].id == place.id
    requires Agrees(s', place) && forall q | q in s.matters && q != place :: s'.matters[q] == s.matters[q] && Agrees(s', q)
    requires ProposalsStored(s')
    ensures Inv(s')
  {
    hide SafeIdentifier, MatterId, Agrees;
    forall q <- s'.matters ensures NumberedPlace(q) && s'.matters[q].id == q.id && Agrees(s', q) {
      assert q == place || q in s.matters;
    }
  }

  /** One more event in the log of an existing matter, with the status it leads to. */
  ghost predicate AppendsEvent(s: Store, s': Store, place: Place, e: Event) {
    && place in s.matters && place in s'.matters && place in s.logs && e.matterId == place.id
    && s'.matters == s.matters[place := s'.matters[place]] && s'.logs == s.logs[place := s.logs[place] + [e]]
    && s'.checklists == s.checklists && s'.persons == s.persons && s'.documents == s.documents
    && var m, m' := s.matters[place], s'.matters[place];
       && m' == m.(status := m'.status, statusReason := m'.statusReason, updatedAt := m'.updatedAt)
       && match e
          case MatterCreated(_, _, _, _) => false
          case StatusChanged(_, _, previous, status, _) => previous == m.status && status == m'.status
          case ProposalAccepted(_, _, _) => m'.status == m.status
  }

  lemma {:induction false} AppendAgrees(s: Store, s': Store, place: Place, e: Event)
    requires Inv(s) && AppendsEvent(s, s', place, e)
    ensures Agrees(s', place)
  {
    assert Agrees(s, place);
    StoryContinues(s.logs[place], place.id, s.matters[place].status, e, s'.matters[place].status);
  }

  lemma {:induction false} AppendKeepsOthers(s: Store, s': Store, place: Place, e: Event, q: Place)
    requires Inv(s) && AppendsEvent(s, s', place, e) && q in s.matters && q != place
    ensures s'.matters[q] == s.matters[q] && Agrees(s', q)
  {
    hide NumberedPlace, Agrees, KeepsFiles, ProposalsStored;
    SameFilesKept(s, s', s.matters[q].id);
    AgreesHasRecords(s, q);
    Untouched(s, s', q);
  }

  lemma {:induction false} AppendKeepsInv(s: Store, s': Store, place: Place, e: Event)
    requires Inv(s) && AppendsEvent(s, s', place, e) && ProposalsStored(s')
    ensures Inv(s')
  {
    hide NumberedPlace, Agrees, ProposalsStored;
    AppendAgrees(s, s', place, e);
    forall q | q in s.matters && q != place ensures s'.matters[q] == s.matters[q] && Agrees(s', q) {
      AppendKeepsOthers(s, s', place, e, q);
    }
    InvFromParts(s, s', place);
  }

  lemma {:induction false} StatusSetKeepsInv(s: Store, place: Place, status: Status, reason: string, now: Stamp)
    requires Inv(s) && place in s.matters
    ensures Inv(StatusSet(s, place, status, reason, now))
  {
    hide SafeIdentifier, MatterId, Agrees;
    AppendKeepsInv(s, StatusSet(s, place, status, reason, now), place,
      StatusChanged(place.id, now, s.matters[place].status, status, reason));
  }

  lemma {:induction false} AcceptanceKeepsInv(
    s: Store, file: string, idText: string, place: Place, matter: Matter, now: Stamp)
    requires Inv(s) && file in s.proposals && place in s.matters
    ensures Inv(AcceptanceRecorded(s, file, idText, place, matter, now))
  {
    hide MatterId, Agrees, SafeIdentifier;
    var s' := AcceptanceRecorded(s, file, idText, place, matter, now);
    assert s'.matters == s.matters[place := s'.matters[place]];
    assert ProposalsStored(s');
    AppendKeepsInv(s, s', place, ProposalAccepted(place.id, now, idText));
  }

  lemma {:induction false} StagingKeepsInv(s: Store, more: set<string>)
    requires Inv(s)
    ensures Inv(s.(staged := s.staged + more))
  {
    hide Agrees, Shaped, SafeIdentifier, PathsOf;
    var s' := s.(staged := s.staged + more);
    assert ProposalsStored(s');
    SameRecordsKeepInv(s, s');
  }

  lemma {:induction false} FilingKeepsInv(s: Store, proposal: Proposal)
    requires Inv(s) && PathsOf(proposal.sourceFiles) <= s.staged
    ensures Inv(s.(proposals := s.proposals[SafeIdentifier(proposal.id) := proposal]))
  {
    hide Agrees, Shaped, SafeIdentifier, PathsOf;
    var s' := s.(proposals := s.proposals[SafeIdentifier(proposal.id) := proposal]);
    assert ProposalsStored(s');
    SameRecordsKeepInv(s, s');
  }

  lemma {:induction false} ProposedKeepsInv(s: Store, v: ProposalValues, now: Stamp)
    requires Inv(s)
    ensures Inv(CreateProposal(s, v, now).0)
  {
    hide Inv, SafeIdentifier, NextProposalId, ProposedValues, ReadProposalHeader, Stage, PathsOf;
    if ReadProposalHeader(v).Ok? {
      var id := NextProposalId(s, ReadProposalHeader(v).value.title, now.day);
      var paths := PathsOf(Stage(id, v.uploads, v.synthetic, |v.uploads|).files);
      var staged := s.(staged := s.staged + paths);
      StagingKeepsInv(s, paths);
      if CreateProposal(s, v, now).1.Ok? {
        FilingKeepsInv(staged, CreateProposal(s, v, now).1.value);
      }
    }
  }

  lemma {:induction false} CreateKeepsInv(s: Store, v: MatterValues, now: Stamp, w: Workflow)
    requires Inv(s)
    ensures Inv(CreateMatter(s, v, now, w).0)
  {
    hide Inv, NextNumber, Created, Scan, SafeIdentifier, MatterId, Prepare, PersonsOf, NewMatter, OriginalsOf;
    NextPlaceIsNumbered(s, now);
    var place := NextPlace(s, now);
    match Prepare(v)
    case Err(_) =>
    case Ok(p) =>
      var number := NextNumber(s, YearText(now.day));
      WritingPersonsKeepsInv(s, p, place.id);
      if OriginalsOf(s, v, now, w).Ok? {
        var originals := OriginalsOf(s, v, now, w).value;
        CreatedKeepsInv(s, p, place, number, originals, now, w);
        var created := Created(s, p, place, number, originals, now, w);
        IndexIsRedundant(created, Scan(created));
      }
  }

  /** A successful creation adds exactly the records of its place. */
  lemma {:induction false} CreateAdds(s: Store, v: MatterValues, now: Stamp, w: Workflow)
    requires CreateMatter(s, v, now, w).1.Ok?
    ensures Prepare(v).Ok? && OriginalsOf(s, v, now, w).Ok?
    ensures var (s', r) := CreateMatter(s, v, now, w); var place := NextPlace(s, now);
      var number := NextNumber(s, YearText(now.day)); var p := Prepare(v).value;
      && r.value == NewMatter(p, place.id, number, now, w)
      && s' == Indexed(Created(s, p, place, number, OriginalsOf(s, v, now, w).value, now, w))
      && s'.matters == s.matters[place := r.value] && s'.proposals == s.proposals && s'.staged == s.staged
      && var event := MatterCreated(place.id, now, p.status, r.value.binding);
      && s'.logs == s.logs[place := LogAt(s.logs, place) + [event]]
      && s'.journal == s.journal[now.day := JournalAt(s.journal, now.day) + [event]]
  {
    hide Scan, NextNumber, MatterId, Prepare, PersonsOf, OriginalsOf;
  }

  /** A creation that fails once its values are prepared leaves its two person files behind; any other changes nothing. */
  lemma {:induction false} FailedCreateKeeps(s: Store, v: MatterValues, now: Stamp, w: Workflow)
    requires CreateMatter(s, v, now, w).1.Err?
    ensures var s' := CreateMatter(s, v, now, w).0; s' == s.(persons := s'.persons)
    ensures !s.demo || Prepare(v).Err? ==> CreateMatter(s, v, now, w).0 == s
    ensures s.demo && Prepare(v).Ok? ==>
      && OriginalsOf(s, v, now, w).Err? && OriginalsOf(s, v, now, w).error == CreateMatter(s, v, now, w).1.error
      && CreateMatter(s, v, now, w).0.persons == s.persons + PersonsOf(Prepare(v).value, NextPlace(s, now).id)
  {
    hide Scan, NextNumber, MatterId, PersonsOf, Prepare, OriginalsOf, Created, NewMatter;
  }

  /** Filing a proposal touches no matter, log or journal. */
  lemma {:induction false} ProposeKeeps(s: Store, v: ProposalValues, now: Stamp)
    ensures var s' := CreateProposal(s, v, now).0; s' == s.(staged := s'.staged, proposals := s'.proposals)
    ensures CreateProposal(s, v, now).1.Err? ==> CreateProposal(s, v, now).0.proposals == s.proposals
  {
    hide NextProposalId, ProposedValues, ReadProposalHeader, SafeIdentifier, Stage, PathsOf;
    var (s', r) := CreateProposal(s, v, now);
    if s.demo && ReadProposalHeader(v).Ok? {
      var id := NextProposalId(s, ReadProposalHeader(v).value.title, now.day);
      var staging := Stage(id, v.uploads, v.synthetic, |v.uploads|);
      if staging.failure.Some? { assert s' == s.(staged := s'.staged); }
    }
  }

  /** A status change either fails without effect or sets the status of the one place the id names. */
  lemma {:induction false} UpdateSets(s: Store, idText: string, statusText: string, reasonText: string, now: Stamp)
    returns (place: Place, status: Status, reason: string)
    ensures var (s', r) := UpdateStatus(s, idText, statusText, reasonText, now);
      && (r.Err? ==> s' == s)
      && (r.Ok? ==>
            && place in s.matters
            && ReadStatusRequest(idText, statusText, reasonText) == Ok(StatusRequest(place.id, status, reason)))
      && (r.Ok? ==> s' == Indexed(StatusSet(s, place, status, reason, now)))
  {
    hide Scan, ReadStatusRequest, StatusSet;
    place, status, reason := Place("", ""), Open, "";
    if UpdateStatus(s, idText, statusText, reasonText, now).1.Ok? {
      var request := ReadStatusRequest(idText, statusText, reasonText).value;
      place, status, reason := FindPlace(s, request.id).value, request.status, request.reason;
    }
  }

  lemma {:induction false} UpdateKeepsInv(s: Store, idText: string, statusText: string, reasonText: string, now: Stamp)
    requires Inv(s)
    ensures Inv(UpdateStatus(s, idText, statusText, reasonText, now).0)
  {
    hide Inv, UpdateStatus, StatusSet, Scan;
    var place, status, reason := UpdateSets(s, idText, statusText, reasonText, now);
    if UpdateStatus(s, idText, statusText, reasonText, now).1.Ok? {
      StatusSetKeepsInv(s, place, status, reason, now);
      var after := StatusSet(s, place, status, reason, now);
      IndexIsRedundant(after, Scan(after));
    }
  }

  /** The proposal file and the values an acceptance request leads to. */
  ghost predicate AcceptsFile(s: Store, idText: string, id: string, file: string, values: MatterValues) {
    && RequiredText(idText) == Ok(id) && file == SafeIdentifier(id)
    && file in s.proposals && s.proposals[file].state == Pending
    && values == ValuesOf(s.proposals[file])
  }

  /** Either nothing was accepted, or a matter was created from the pending proposal and both were recorded. */
  lemma {:induction false} AcceptAdds(s: Store, idText: string, createdAt: Stamp, acceptedAt: Stamp, w: Workflow)
    returns (id: string, file: string, values: MatterValues)
    ensures var (s', r) := AcceptProposal(s, idText, createdAt, acceptedAt, w);
      var (created, made) := CreateMatter(s, values, createdAt, w); var place := NextPlace(s, createdAt);
      if r.Err? then s' == s || (s' == created && made.Err?)
      else
        && AcceptsFile(s, idText, id, file, values) && made.Ok? && r.value == made.value && file in created.proposals
        && s' == Indexed(AcceptanceRecorded(created, file, id, place, r.value, acceptedAt))
  {
    hide CreateMatter, NextPlace, SafeIdentifier, RequiredText, AcceptanceRecorded, Indexed, ValuesOf;
    id := if RequiredText(idText).Ok? then RequiredText(idText).value else "";
    file := SafeIdentifier(id);
    values := if file in s.proposals then ValuesOf(s.proposals[file]) else PlainRequest([]);
    if CreateMatter(s, values, createdAt, w).1.Ok? {
      CreateAdds(s, values, createdAt, w);
    }
  }

  lemma {:induction false} AcceptKeepsInv(s: Store, idText: string, createdAt: Stamp, acceptedAt: Stamp, w: Workflow)
    requires Inv(s)
    ensures Inv(AcceptProposal(s, idText, createdAt, acceptedAt, w).0)
  {
    hide Inv, Scan, SafeIdentifier, AcceptProposal, AcceptanceRecorded, CreateMatter, NextPlace;
    var id, file, values := AcceptAdds(s, idText, createdAt, acceptedAt, w);
    CreateKeepsInv(s, values, createdAt, w);
    var (created, made) := CreateMatter(s, values, createdAt, w);
    if AcceptProposal(s, idText, createdAt, acceptedAt, w).1.Ok? {
      CreateAdds(s, values, createdAt, w);
      var place := NextPlace(s, createdAt);
      AcceptanceKeepsInv(created, file, id, place, made.value, acceptedAt);
      var accepted := AcceptanceRecorded(created, file, id, place, made.value, acceptedAt);
      IndexIsRedundant(accepted, Scan(accepted));
    }
  }

  /** Every operation keeps the invariant, whether it succeeds or not. */
  lemma {:induction false} StepKeepsInv(s: Store, op: Op)
    requires Inv(s)
    ensures Inv(Step(s, op))
  {
    match op
    case Create(v, now, w) => CreateKeepsInv(s, v, now, w);
    case SetStatus(idText, statusText, reasonText, now) => UpdateKeepsInv(s, idText, statusText, reasonText, now);
    case Propose(v, now) => ProposedKeepsInv(s, v, now);
    case Accept(idText, createdAt, acceptedAt, w) => AcceptKeepsInv(s, idText, createdAt, acceptedAt, w);
  }

  lemma {:induction false} RunKeepsInv(ops: seq<Op>)
    ensures Inv(Run(EmptyStore(), ops))
    decreases |ops|
  {
    if ops != [] {
      RunKeepsInv(ops[..|ops| - 1]);
      StepKeepsInv(Run(EmptyStore(), ops[..|ops| - 1]), ops[|ops| - 1]);
    }
  }

  lemma {:induction false} StepKeepsDemo(s: Store, op: Op)
    ensures Step(s, op).demo == s.demo
  {
    hide CreateMatter, UpdateStatus, CreateProposal, AcceptProposal, Created, Scan, Prepare, StatusSet, NextPlace;
    match op
    case Create(v, now, w) => CreateKeepsDemo(s, v, now, w);
    case SetStatus(idText, statusText, reasonText, now) =>
      var place, status, reason := UpdateSets(s, idText, statusText, reasonText, now);
      if place in s.matters { StatusKeepsDemo(s, place, status, reason, now); }
    case Propose(v, now) => ProposeKeeps(s, v, now);
    case Accept(idText, createdAt, acceptedAt, w) =>
      var id, file, values := AcceptAdds(s, idText, createdAt, acceptedAt, w);
      CreateKeepsDemo(s, values, createdAt, w);
  }

  lemma {:induction false} CreateKeepsDemo(s: Store, v: MatterValues, now: Stamp, w: Workflow)
    ensures CreateMatter(s, v, now, w).0.demo == s.demo
  {
    hide Scan, NextPlace, NextNumber, Prepare, NewMatter, NewDocument, PersonsOf, OriginalsOf;
  }

  lemma {:induction false} StatusKeepsDemo(s: Store, place: Place, status: Status, reason: string, now: Stamp)
    requires place in s.matters
    ensures StatusSet(s, place, status, reason, now).demo == s.demo
  {
  }

  lemma {:induction false} RunKeepsDemo(ops: seq<Op>)
    ensures Run(EmptyStore(), ops).demo
    decreases |ops|
  {
    hide Step;
    if ops != [] {
      RunKeepsDemo(ops[..|ops| - 1]);
      StepKeepsDemo(Run(EmptyStore(), ops[..|ops| - 1]), ops[|ops| - 1]);
    }
  }

  // ---- Requests that are refused before a matter is numbered ----

  /** A creation or an acceptance whose values can be prepared, so that a place is chosen and written to. */
  ghost predicate TakesNumber(s: Store, op: Op) {
    match op
    case Create(v, _, _) => s.demo && Prepare(v).Ok?
    case Accept(idText, _, _, _) =>
      && s.demo && RequiredText(idText).Ok?
      && var file := SafeIdentifier(RequiredText(idText).value);
         file in s.proposals && s.proposals[file].state == Pending && Prepare(s.proposals[file].values).Ok?
    case _ => false
  }

  /** The values of a request that takes a number, and the time it is numbered at. */
  ghost function NumberedValues(s: Store, op: Op): (MatterValues, Stamp, Workflow)
    requires TakesNumber(s, op)
  {
    match op
    case Create(v, now, w) => (v, now, w)
    case Accept(idText, createdAt, _, w) =>
      (ValuesOf(s.proposals[SafeIdentifier(RequiredText(idText).value)]), createdAt, w)
  }

  /** The request is numbered and names a file that cannot be attached. */
  ghost predicate StopsHalfway(s: Store, op: Op) {
    && TakesNumber(s, op)
    && var (v, now, w) := NumberedValues(s, op);
       exists i :: 0 <= i < |v.documentFiles| && !Attachable(s.staged, w.files, v.documentFiles[i], i + 1)
  }

  lemma {:induction false} PrepareIgnoresFiles(v: MatterValues, files: seq<FileRef>)
    ensures Prepare(v.(documentFiles := files)) == Prepare(v)
  {
    hide CleanText, Clean, NormalizeStatus, RequiredText;
  }

  /** Any other creation or acceptance request changes nothing. */
  lemma {:induction false} RefusedKeeps(s: Store, op: Op)
    requires (op.Create? || op.Accept?) && !TakesNumber(s, op)
    ensures Step(s, op) == s
  {
    hide Prepare, RequiredText, SafeIdentifier, NextPlace, NextNumber, Created;
    hide NewMatter, PersonsOf, Scan, AcceptanceRecorded;
    hide OriginalsOf, Attachments;
    if op.Accept? && RequiredText(op.idText).Ok? {
      var file := SafeIdentifier(RequiredText(op.idText).value);
      if file in s.proposals {
        PrepareIgnoresFiles(s.proposals[file].values, Attachments(s.proposals[file].sourceFiles));
      }
    }
  }

  lemma {:induction false} NumberedIsPrepared(s: Store, op: Op)
    requires TakesNumber(s, op)
    ensures s.demo && Prepare(NumberedValues(s, op).0).Ok?
  {
    hide Prepare, RequiredText, SafeIdentifier, Attachments;
    if op.Accept? {
      var proposal := s.proposals[SafeIdentifier(RequiredText(op.idText).value)];
      PrepareIgnoresFiles(proposal.values, Attachments(proposal.sourceFiles));
    }
  }

  /** A numbered request creates its matter exactly when all its files can be attached. */
  lemma {:induction false} HalfwayExactly(s: Store, op: Op)
    requires TakesNumber(s, op)
    ensures var (v, now, w) := NumberedValues(s, op);
      StopsHalfway(s, op) <==> CreateMatter(s, v, now, w).1.Err?
  {
    hide TakesNumber, Attachable, Attach, Prepare, NextPlace, NextNumber, Created;
    hide NewMatter, PersonsOf, Scan, NumberedValues;
    var (v, now, w) := NumberedValues(s, op);
    NumberedIsPrepared(s, op);
    AttachedExactly(s.staged, w.files, DocumentId(NextPlace(s, now).id), v.documentFiles, |v.documentFiles|);
  }

  /** Such a request leaves its two person files and nothing else. */
  lemma {:induction false} HalfwayLeavesPersons(s: Store, op: Op)
    requires StopsHalfway(s, op)
    ensures var (v, now, w) := NumberedValues(s, op);
      Prepare(v).Ok? && Step(s, op) == s.(persons := s.persons + PersonsOf(Prepare(v).value, NextPlace(s, now).id))
  {
    hide Attachable, Prepare, NextPlace, CreateMatter, PersonsOf, Scan;
    hide AcceptanceRecorded, SafeIdentifier, RequiredText, ValuesOf;
    var (v, now, w) := NumberedValues(s, op);
    NumberedIsPrepared(s, op);
    HalfwayExactly(s, op);
    FailedCreateKeeps(s, v, now, w);
  }
}
