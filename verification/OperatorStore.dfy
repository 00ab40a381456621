/** scripts/nac_hw_bridge.py: the case-file store behind the local operator web application. */
module OperatorStore {
  import opened Options
  import opened OperatorRequests
  import opened OperatorFiles
  import opened Text
  import opened Identifiers
  import opened Ordering

  // ---- Values ----

  datatype Date = Date(year: nat, month: nat, dayOfMonth: nat)

  /** A calendar date of `datetime`; its year prints with exactly four digits. */
  type Day = d: Date | d.year <= 9999 && 1 <= d.month <= 12 && 1 <= d.dayOfMonth <= 31 witness Date(1, 1, 1)

  /** `_now_utc()`: seconds resolution. */
  datatype Stamp = Stamp(day: Day, second: nat)

  function YearText(day: Day): (t: string)
    ensures |t| == 4 && AllDigits(t)
  {
    ParseInvertsPadded(day.year, 4);
    FourDigits(day.year);
    Padded(day.year, 4)
  }

  /** `timestamp[:10].replace("-", "")`. */
  function DateDigits(day: Day): (t: string)
    ensures t != "" && AllDigits(t)
  {
    ParseInvertsPadded(day.year, 4);
    ParseInvertsPadded(day.month, 2);
    ParseInvertsPadded(day.dayOfMonth, 2);
    Padded(day.year, 4) + Padded(day.month, 2) + Padded(day.dayOfMonth, 2)
  }

  /**
   * What a creation finds around it: the workflow artifacts, and the files, with their names, that a text other than a
   * staged path leads to inside the repository.
   */
  datatype Workflow = Workflow(revisionHash: string, sections: seq<string>, files: map<string, string>)

  datatype Binding = Binding(usecaseSlug: string, workflowVersion: string, revisionHash: string, boundAt: Stamp)
  datatype Checklist = Checklist(binding: Binding, sections: seq<string>)

  datatype Matter = Matter(
    id: string, number: nat, title: string, usecaseSlug: string, status: Status, statusReason: string,
    openedAt: Stamp, updatedAt: Stamp, binding: Binding, personIds: seq<string>, documentIds: seq<string>)
  datatype Person = Person(id: string, displayName: string, role: string)
  datatype Document = Document(
    id: string, matterId: string, title: string, documentType: string, mediaType: string, dataClassification: string,
    metadata: string, subjectIds: seq<string>, originals: seq<Original>)
  datatype DocumentEntry = DocumentEntry(id: string, matterId: string, title: string, documentType: string)

  datatype Event =
    | MatterCreated(matterId: string, at: Stamp, status: Status, binding: Binding)
    | StatusChanged(matterId: string, at: Stamp, previous: Status, status: Status, reason: string)
    | ProposalAccepted(matterId: string, at: Stamp, proposalId: string)

  /** `metadata` is the JSON text of an object. */
  datatype MatterValues = MatterValues(
    usecaseSlug: string, usecaseTitle: string, title: string, clientName: string, participantName: string,
    documentTitle: string, documentType: string, mediaType: string, dataClassification: string, metadata: string,
    status: string, statusReason: string, workflowVersion: string, documentFiles: seq<FileRef>)

  datatype ProposalValues = ProposalValues(
    title: string, usecaseSlug: string, usecaseTitle: string, clientName: string, participantName: string,
    documentTitle: string, documentType: string, mediaType: string, dataClassification: string, metadata: string,
    status: string, statusReason: string, source: string, sourceType: string, summary: string, reviewReason: string,
    synthetic: bool, uploads: seq<Upload>)

  datatype ProposalState = Pending | Accepted(at: Stamp, matterId: string, number: nat)
  datatype Proposal = Proposal(
    id: string, state: ProposalState, createdAt: Stamp, values: MatterValues, sourceFiles: seq<StagedFile>)

  /** `akten/<year>/<id>`. */
  datatype Place = Place(year: string, id: string)

  datatype Index = Index(matters: seq<Matter>, persons: seq<Person>, documents: seq<DocumentEntry>)

  /** The whole repository as a value. */
  datatype Store = Store(
    demo: bool,
    matters: map<Place, Matter>,
    checklists: map<Place, Checklist>,
    logs: map<Place, seq<Event>>,
    persons: map<string, Person>,
    documents: map<string, Document>,
    journal: map<Day, seq<Event>>,
    proposals: map<string, Proposal>,
    staged: set<string>,
    index: Index)

  // ---- Preparing a creation ----

  datatype Prepared = Prepared(
    usecaseSlug: string, title: string, clientName: string, participantName: string, documentTitle: string,
    documentType: string, mediaType: string, dataClassification: string, metadata: string,
    status: Status, statusReason: string, workflowVersion: string)

  const MATTER_SUFFIX := " Demo-Vorgang"
  const DOCUMENT_SUFFIX := " Unterlage"

  const DOCUMENT_TYPE := "input_document"
  const DATA_CLASSIFICATION := "synthetic_document_metadata"

  /** `clean_json_payload`. */
  function CleanMetadata(json: string): Result<string> {
    if |json| > 4096 then Err(TooLong) else Ok(json)
  }

  function Prepare(v: MatterValues): Result<Prepared> {
    var slug :- RequiredText(v.usecaseSlug);
    var usecaseTitle :- CleanText(Or(v.usecaseTitle, slug));
    var title :- CleanText(Or(v.title, usecaseTitle + MATTER_SUFFIX));
    var client :- CleanText(Or(v.clientName, "Demo Mandant"));
    var participant :- CleanText(Or(v.participantName, client));
    var documentTitle :- CleanText(Or(v.documentTitle, usecaseTitle + DOCUMENT_SUFFIX));
    var documentType :- CleanText(Or(v.documentType, DOCUMENT_TYPE));
    var mediaType :- CleanText(Or(v.mediaType, DEFAULT_MEDIA_TYPE));
    var classification :- CleanText(Or(v.dataClassification, DATA_CLASSIFICATION));
    var metadata :- CleanMetadata(v.metadata);
    var status :- NormalizeStatus(v.status);
    var reason :- CleanText(v.statusReason);
    var version :- Clean(Or(v.workflowVersion, "v1"), 64);
    Ok(Prepared(slug, title, client, participant, documentTitle, documentType, mediaType, classification, metadata,
      status, reason, version))
  }

  // ---- Requests whose values are clean already ----

  /** Every value is clean, as those of a stored proposal are; the status is one that is known. */
  predicate CleanValues(v: MatterValues) {
    && Short(v.usecaseSlug) && Short(v.usecaseTitle) && Short(v.title) && Short(v.clientName) && Short(v.participantName)
    && Short(v.documentTitle) && Short(v.documentType) && Short(v.mediaType) && Short(v.dataClassification)
    && |v.metadata| <= 4096 && NormalizeStatus(v.status).Ok? && Short(v.statusReason) && v.workflowVersion == ""
  }

  /** There is a usecase, and every missing title has room for its default. */
  predicate Complete(v: MatterValues) {
    && v.usecaseSlug != ""
    && (v.title == "" ==> |Or(v.usecaseTitle, v.usecaseSlug)| + |MATTER_SUFFIX| <= 512)
    && (v.documentTitle == "" ==> |Or(v.usecaseTitle, v.usecaseSlug)| + |DOCUMENT_SUFFIX| <= 512)
  }

  /** Clean values can be prepared exactly when they are complete. */
  lemma {:induction false} PreparedExactly(v: MatterValues)
    requires CleanValues(v)
    ensures Prepare(v).Ok? <==> Complete(v)
  {
    hide Clean, NormalizeStatus, Tight;
    TightIsClean(v.usecaseSlug, 512);
    DefaultsAreTight();
    DefaultWordsAreShort();
    ShortOr(v.usecaseTitle, v.usecaseSlug);
    var usecaseTitle := Or(v.usecaseTitle, v.usecaseSlug);
    if v.usecaseSlug != "" {
      DefaultTitle(v.title, usecaseTitle, MATTER_SUFFIX);
      DefaultTitle(v.documentTitle, usecaseTitle, DOCUMENT_SUFFIX);
      ShortOr(v.clientName, "Demo Mandant");
      ShortOr(v.participantName, Or(v.clientName, "Demo Mandant"));
      ShortOr(v.documentType, DOCUMENT_TYPE);
      ShortOr(v.mediaType, DEFAULT_MEDIA_TYPE);
      ShortOr(v.dataClassification, DATA_CLASSIFICATION);
      ShortOr(v.statusReason, "");
      TightIsClean("v1", 64);
    }
  }

  lemma {:induction false} DefaultTitle(title: string, front: string, suffix: string)
    requires Short(title) && front != "" && Tight(front)
    requires suffix != "" && Printable(suffix) && !IsSpace(suffix[|suffix| - 1])
    ensures CleanText(Or(title, front + suffix)).Ok? <==> title != "" || |front| + |suffix| <= 512
  {
    hide Clean, IsSpace;
    if title == "" {
      var text := front + suffix;
      assert text[|text| - 1] == suffix[|suffix| - 1];
      TightIsClean(text, 512);
    } else {
      TightIsClean(title, 512);
    }
  }

  lemma {:induction false} DefaultsAreTight()
    ensures Short("Demo Mandant") && Short("") && Tight("v1")
    ensures Printable(MATTER_SUFFIX) && !IsSpace(MATTER_SUFFIX[|MATTER_SUFFIX| - 1])
    ensures Printable(DOCUMENT_SUFFIX) && !IsSpace(DOCUMENT_SUFFIX[|DOCUMENT_SUFFIX| - 1])
  {
  }

  lemma {:induction false} DefaultWordsAreShort()
    ensures Short(DOCUMENT_TYPE) && Short(DATA_CLASSIFICATION) && Short(DEFAULT_MEDIA_TYPE)
  {
    DefaultMediaTypeIsShort();
  }

  /** A request with a usecase and files only; every other value is a default. */
  function PlainRequest(files: seq<FileRef>): MatterValues {
    MatterValues("usecase", "", "", "", "", "", "", "", "", "", "", "", "", files)
  }

  lemma {:induction false} PlainRequestIsPrepared(files: seq<FileRef>)
    ensures Prepare(PlainRequest(files)).Ok?
  {
    hide NormalizeStatus, Prepare;
    NoStatusIsOpen();
    PreparedExactly(PlainRequest(files));
  }

  // ---- Ids and places ----

  function ClientId(matterId: string): string { "PER-" + SafeIdentifier(matterId) + "-MANDANT" }
  function ParticipantId(matterId: string): string { "PER-" + SafeIdentifier(matterId) + "-BETEILIGT" }
  function DocumentId(matterId: string): string { "DOC-" + SafeIdentifier(matterId) + "-UNTERLAGE" }

  ghost function Max(s: set<nat>): (m: nat)
    ensures forall x <- s :: x <= m
    ensures if s == {} then m == 0 else m in s
  {
    if s == {} then 0
    else
      var x :| x in s;
      var m := Max(s - {x});
      assert forall y <- s :: y == x || y in s - {x};
      if s - {x} == {} || m < x then x else m
  }

  ghost function ScannedNumbers(places: set<Place>, year: string): set<nat> {
    set p <- places | p.year == year :: ScannedNumber(year, p.id)
  }

  /** `next_matter_id`: one more than the highest four-digit number among the year's folders. */
  ghost function NextNumber(s: Store, year: string): nat {
    Max(ScannedNumbers(s.matters.Keys, year)) + 1
  }

  ghost function NextPlace(s: Store, now: Stamp): Place {
    var year := YearText(now.day);
    Place(year, MatterId(year, NextNumber(s, year)))
  }

  ghost predicate IsPlaceOf(s: Store, p: Place, id: string) {
    p in s.matters && p.id == id
  }

  /** `find_matter_file`. */
  ghost function FindPlace(s: Store, id: string): Option<Place> {
    if p :| IsPlaceOf(s, p, id) then Some(p) else None
  }

  // ---- Indexes and logs ----

  predicate PlaceLess(a: Place, b: Place) {
    StringLess(a.year, b.year) || (a.year == b.year && StringLess(a.id, b.id))
  }

  function PersonFile(id: string): string { id + ".json" }

  predicate PersonLess(a: string, b: string) { StringLess(PersonFile(a), PersonFile(b)) }

  lemma {:induction false} KeyOrders()
    ensures StrictOrder(PlaceLess) && Total(PlaceLess)
    ensures StrictOrder(PersonLess) && Total(PersonLess)
    ensures StrictOrder(StringLess) && Total(StringLess)
  {
    StringLessIsStrict();
    forall a, b ensures a == b || StringLess(a, b) || StringLess(b, a) { StringLessIsTotal(a, b); }
    forall a: Place ensures !PlaceLess(a, a) {
      assert !StringLess(a.year, a.year) && !StringLess(a.id, a.id);
    }
    forall a: Place, b: Place, c: Place | PlaceLess(a, b) && PlaceLess(b, c) ensures PlaceLess(a, c) {
      assert StringLess(a.year, b.year) && StringLess(b.year, c.year) ==> StringLess(a.year, c.year);
      assert StringLess(a.id, b.id) && StringLess(b.id, c.id) ==> StringLess(a.id, c.id);
    }
    forall a: Place, b: Place ensures a == b || PlaceLess(a, b) || PlaceLess(b, a) {
      StringLessIsTotal(a.year, b.year);
      StringLessIsTotal(a.id, b.id);
    }
    PersonOrder();
  }

  lemma {:induction false} PersonFileIsInjective(a: string, b: string)
    requires PersonFile(a) == PersonFile(b)
    ensures a == b
  {
    assert a == PersonFile(a)[..|PersonFile(a)| - 5] && b == PersonFile(b)[..|PersonFile(b)| - 5];
  }

  lemma {:induction false} PersonOrder()
    ensures StrictOrder(PersonLess) && Total(PersonLess)
  {
    StringLessIsStrict();
    forall a: string, b: string ensures a == b || PersonLess(a, b) || PersonLess(b, a) {
      StringLessIsTotal(PersonFile(a), PersonFile(b));
      if PersonFile(a) == PersonFile(b) { PersonFileIsInjective(a, b); }
    }
    forall a: string ensures !PersonLess(a, a) { assert !StringLess(PersonFile(a), PersonFile(a)); }
    forall a: string, b: string, c: string | PersonLess(a, b) && PersonLess(b, c) ensures PersonLess(a, c) {
      assert StringLess(PersonFile(a), PersonFile(b)) && StringLess(PersonFile(b), PersonFile(c));
    }
  }

  function EntryOf(d: Document): DocumentEntry { DocumentEntry(d.id, d.matterId, d.title, d.documentType) }

  /** What a fresh scan of the record files gives. */
  ghost function Scan(s: Store): Index {
    KeyOrders();
    var documents := InKeyOrder(s.documents, StringLess);
    Index(
      InKeyOrder(s.matters, PlaceLess),
      InKeyOrder(s.persons, PersonLess),
      seq(|documents|, i requires 0 <= i < |documents| => EntryOf(documents[i])))
  }

  ghost function Indexed(s: Store): Store { s.(index := Scan(s)) }

  function LogAt(logs: map<Place, seq<Event>>, p: Place): seq<Event> { if p in logs then logs[p] else [] }
  function JournalAt(journal: map<Day, seq<Event>>, d: Day): seq<Event> { if d in journal then journal[d] else [] }

  /** Appends one event to the matter's own log and to the journal of its day. */
  function Append(s: Store, p: Place, e: Event): Store {
    s.(logs := s.logs[p := LogAt(s.logs, p) + [e]], journal := s.journal[e.at.day := JournalAt(s.journal, e.at.day) + [e]])
  }

  // ---- The four operations as steps on the repository value ----

  function PersonsOf(p: Prepared, id: string): map<string, Person> {
    map[ClientId(id) := Person(ClientId(id), p.clientName, "client")]
       [ParticipantId(id) := Person(ParticipantId(id), p.participantName, "participant")]
  }

  function BindingOf(p: Prepared, w: Workflow, now: Stamp): Binding {
    Binding(p.usecaseSlug, p.workflowVersion, w.revisionHash, now)
  }

  function NewMatter(p: Prepared, id: string, number: nat, now: Stamp, w: Workflow): Matter {
    Matter(id, number, p.title, p.usecaseSlug, p.status, p.statusReason, now, now, BindingOf(p, w, now),
      [ClientId(id), ParticipantId(id)], [DocumentId(id)])
  }

  function NewDocument(p: Prepared, id: string, originals: seq<Original>): Document {
    Document(DocumentId(id), id, p.documentTitle, p.documentType, p.mediaType, p.dataClassification, p.metadata,
      [ParticipantId(id)], originals)
  }

  /** All records of a new matter and its creation event in log and journal. */
  function Created(s: Store, p: Prepared, place: Place, number: nat, originals: seq<Original>, now: Stamp, w: Workflow): Store {
    var matter := NewMatter(p, place.id, number, now, w);
    var written := s.(
      persons := s.persons + PersonsOf(p, place.id),
      documents := s.documents[DocumentId(place.id) := NewDocument(p, place.id, originals)],
      matters := s.matters[place := matter],
      checklists := s.checklists[place := Checklist(matter.binding, w.sections)]);
    Append(written, place, MatterCreated(place.id, now, p.status, matter.binding))
  }

  /** What `attach_document_files` makes of the files a creation names. */
  ghost function OriginalsOf(s: Store, v: MatterValues, now: Stamp, w: Workflow): Result<seq<Original>> {
    Attach(s.staged, w.files, DocumentId(NextPlace(s, now).id), v.documentFiles, |v.documentFiles|)
  }

  /** `create_operator_matter`; a file that cannot be attached is noticed only after the person files were written. */
  ghost function CreateMatter(s: Store, v: MatterValues, now: Stamp, w: Workflow): (Store, Result<Matter>) {
    if !s.demo then (s, Err(NotDemoRepo))
    else match Prepare(v)
      case Err(error) => (s, Err(error))
      case Ok(p) =>
        var place := NextPlace(s, now);
        var number := NextNumber(s, YearText(now.day));
        match OriginalsOf(s, v, now, w)
        case Err(error) => (s.(persons := s.persons + PersonsOf(p, place.id)), Err(error))
        case Ok(originals) =>
          (Indexed(Created(s, p, place, number, originals, now, w)), Ok(NewMatter(p, place.id, number, now, w)))
  }

  /** The matter record and the event a status change writes. */
  function StatusSet(s: Store, place: Place, status: Status, reason: string, now: Stamp): Store
    requires place in s.matters
  {
    var was := s.matters[place];
    var matter := was.(status := status, statusReason := reason, updatedAt := now);
    Append(s.(matters := s.matters[place := matter]), place,
      StatusChanged(place.id, now, was.status, status, reason))
  }

  datatype StatusRequest = StatusRequest(id: string, status: Status, reason: string)

  function ReadStatusRequest(idText: string, statusText: string, reasonText: string): Result<StatusRequest> {
    var id :- RequiredText(idText);
    var status :- NormalizeStatus(statusText);
    var reason :- CleanText(reasonText);
    Ok(StatusRequest(id, status, reason))
  }

  /** `update_operator_matter_status`. */
  ghost function UpdateStatus(s: Store, idText: string, statusText: string, reasonText: string, now: Stamp): (Store, Result<Matter>) {
    if !s.demo then (s, Err(NotDemoRepo))
    else match ReadStatusRequest(idText, statusText, reasonText)
      case Err(error) => (s, Err(error))
      case Ok(request) =>
        match FindPlace(s, request.id)
        case None => (s, Err(NotFound))
        case Some(place) =>
          var after := StatusSet(s, place, request.status, request.reason, now);
          (Indexed(after), Ok(after.matters[place]))
  }

  ghost function FirstFree(files: set<string>, base: string): (k: nat)
    requires Tidy(base) && base != ""
    ensures IsFirstFree(files, base, k)
  {
    FreeExists(files, base, 1);
    var k: nat :| IsFirstFree(files, base, k);
    k
  }

  lemma {:induction false} FreeExists(files: set<string>, base: string, k: nat)
    requires Tidy(base) && base != "" && 1 <= k
    requires forall j :: 1 <= j < k ==> CandidateFile(base, j) in files
    ensures exists r: nat :: IsFirstFree(files, base, r)
    decreases |files| + 2 - k
  {
    if CandidateFile(base, k) !in files {
      assert IsFirstFree(files, base, k);
    } else {
      var taken := TakenCandidates(files, base, k + 1);
      SubsetSize(taken, files);
      FreeExists(files, base, k + 1);
    }
  }

  ghost function NextProposalId(s: Store, title: string, day: Day): string {
    var base := ProposalBase(DateDigits(day), title);
    ProposalBaseIsTidy(DateDigits(day), title);
    Candidate(base, FirstFree(s.proposals.Keys, base))
  }

  datatype ProposalHeader = ProposalHeader(title: string, usecaseSlug: string, usecaseTitle: string)

  function ReadProposalHeader(v: ProposalValues): Result<ProposalHeader> {
    var title :- CleanText(Or(v.title, "Eingang ohne Betreff"));
    var slug :- CleanText(Or(v.usecaseSlug, "unterschriftsbeglaubigung"));
    var usecaseTitle :- CleanText(Or(v.usecaseTitle, "Unterschriftsbeglaubigung"));
    Ok(ProposalHeader(title, slug, usecaseTitle))
  }

  /** Further texts of a proposal: nothing else depends on them and their defaults are clean, but given ones are checked. */
  function ReadSideTexts(v: ProposalValues, h: ProposalHeader): Result<string> {
    var source :- CleanText(v.source);
    var sourceType :- CleanText(v.sourceType);
    var summary :- CleanText(Or(v.summary, h.title));
    var reason :- CleanText(v.reviewReason);
    Ok(summary)
  }

  /** The cleaned values stored in a proposal; the status is already canonical. */
  function ProposedValues(v: ProposalValues, h: ProposalHeader): Result<MatterValues> {
    var client :- CleanText(v.clientName);
    var participant :- CleanText(Or(v.participantName, v.clientName));
    var documentTitle :- CleanText(Or(v.documentTitle, "Eingangsdokument"));
    var documentType :- CleanText(Or(v.documentType, DOCUMENT_TYPE));
    var mediaType :- CleanText(Or(v.mediaType, DEFAULT_MEDIA_TYPE));
    var classification :- CleanText(Or(v.dataClassification, DATA_CLASSIFICATION));
    var status :- NormalizeStatus(v.status);
    var reason :- CleanText(v.statusReason);
    var metadata :- CleanMetadata(v.metadata);
    var summary :- ReadSideTexts(v, h);
    Ok(MatterValues(h.usecaseSlug, h.usecaseTitle, h.title, client, participant, documentTitle, documentType, mediaType,
      classification, metadata, StatusText(status), reason, "", []))
  }

  /** `create_import_proposal`: uploads are staged before the remaining values are checked. */
  ghost function CreateProposal(s: Store, v: ProposalValues, now: Stamp): (Store, Result<Proposal>) {
    if !s.demo then (s, Err(NotDemoRepo))
    else match ReadProposalHeader(v)
      case Err(error) => (s, Err(error))
      case Ok(header) =>
        var id := NextProposalId(s, header.title, now.day);
        var staging := Stage(id, v.uploads, v.synthetic, |v.uploads|);
        var staged := s.(staged := s.staged + PathsOf(staging.files));
        match staging.failure
        case Some(error) => (staged, Err(error))
        case None =>
          match ProposedValues(v, header)
          case Err(error) => (staged, Err(error))
          case Ok(values) =>
            var proposal := Proposal(id, Pending, now, values, staging.files);
            (staged.(proposals := s.proposals[SafeIdentifier(id) := proposal]), Ok(proposal))
  }

  /** The values an accepted proposal becomes a matter with. */
  function ValuesOf(p: Proposal): MatterValues { p.values.(documentFiles := Attachments(p.sourceFiles)) }

  /** Marks the proposal and logs the acceptance under the id the request used. */
  function AcceptanceRecorded(s: Store, file: string, idText: string, place: Place, matter: Matter, now: Stamp): Store
    requires file in s.proposals
  {
    var accepted := s.proposals[file].(state := Accepted(now, matter.id, matter.number));
    Append(s.(proposals := s.proposals[file := accepted]), place, ProposalAccepted(place.id, now, idText))
  }

  /** `accept_import_proposal`; `createdAt` and `acceptedAt` are the two clock readings. */
  ghost function AcceptProposal(s: Store, idText: string, createdAt: Stamp, acceptedAt: Stamp, w: Workflow): (Store, Result<Matter>) {
    if !s.demo then (s, Err(NotDemoRepo))
    else match RequiredText(idText)
      case Err(error) => (s, Err(error))
      case Ok(id) =>
        var file := SafeIdentifier(id);
        if file !in s.proposals then (s, Err(NotFound))
        else if s.proposals[file].state != Pending then (s, Err(AlreadyProcessed))
        else
          var place := NextPlace(s, createdAt);
          var (created, r) := CreateMatter(s, ValuesOf(s.proposals[file]), createdAt, w);
          match r
          case Err(error) => (created, Err(error))
          case Ok(matter) => (Indexed(AcceptanceRecorded(created, file, id, place, matter, acceptedAt)), Ok(matter))
  }

  // ---- What the store's own writes keep true of every place ----

  /** The `n`-th matter folder of a year. */
  ghost predicate Has(s: Store, year: string, n: nat) {
    Place(year, MatterId(year, n)) in s.matters
  }

  ghost predicate IsYear(year: string) { |year| == 4 && AllDigits(year) }

  ghost predicate NumberedPlace(p: Place) {
    IsYear(p.year) && exists n: nat :: 1 <= n <= 10000 && p.id == MatterId(p.year, n)
  }

  ghost predicate Shaped(s: Store) {
    && (forall p <- s.matters :: NumberedPlace(p) && s.matters[p].id == p.id)
    && s.checklists.Keys == s.matters.Keys && s.logs.Keys == s.matters.Keys
  }

  lemma {:induction false} NextNumberIsSmall(s: Store, year: string)
    ensures 1 <= NextNumber(s, year) <= 10000
  {
    var numbers := ScannedNumbers(s.matters.Keys, year);
    forall n <- numbers ensures n <= 9999 {
      var p :| p in s.matters.Keys && p.year == year && n == ScannedNumber(year, p.id);
      FourDigitsAtMost(year, p.id);
    }
  }

  lemma {:induction false} FourDigitsAtMost(year: string, name: string)
    ensures ScannedNumber(year, name) <= 9999
  {
    var front := "UVZ-" + year + "-";
    if |name| == |front| + 4 && name[..|front|] == front && AllDigits(name[|front|..]) {
      var t := name[|front|..];
      assert ParseDecimal(t[..0]) == 0;
      assert t[..1][..0] == t[..0] && t[..2][..1] == t[..1] && t[..3][..2] == t[..2] && t[..3] == t[..|t| - 1];
      assert ParseDecimal(t[..1]) <= 9;
      assert ParseDecimal(t[..2]) <= 99;
      assert ParseDecimal(t[..3]) <= 999;
    }
  }

  /** An id names one place only: the year is part of it. */
  lemma {:induction false} PlaceIsUnique(p: Place, q: Place)
    requires NumberedPlace(p) && NumberedPlace(q) && p.id == q.id
    ensures p == q
  {
    var m: nat :| 1 <= m <= 10000 && p.id == MatterId(p.year, m);
    var n: nat :| 1 <= n <= 10000 && q.id == MatterId(q.year, n);
    MatterIdIsInjective(p.year, m, q.year, n);
  }

  lemma {:induction false} NextPlaceIsNumbered(s: Store, now: Stamp)
    ensures NumberedPlace(NextPlace(s, now))
  {
    NextNumberIsSmall(s, YearText(now.day));
  }

  lemma {:induction false} FindsPlace(s: Store, p: Place)
    requires Shaped(s) && NumberedPlace(p)
    ensures FindPlace(s, p.id) == if p in s.matters then Some(p) else None
  {
    if p in s.matters {
      assert IsPlaceOf(s, p, p.id);
    }
    forall q | IsPlaceOf(s, q, p.id) ensures q == p {
      PlaceIsUnique(p, q);
    }
  }
}
