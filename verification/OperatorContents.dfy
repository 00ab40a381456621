/** What the four operations write, field by field, in terms of the request texts. */
module OperatorContents {
  import opened Options
  import opened Text
  import opened Identifiers
  import opened Ordering
  import opened OperatorRequests
  import opened OperatorFiles
  import opened OperatorStore
  import opened OperatorRuns
  import opened OperatorProposals

  // ---- A creation request, read ----

  function UsecaseTitle(v: MatterValues): string { Taken(v.usecaseTitle, Strip(v.usecaseSlug)) }
  function Title(v: MatterValues): string { Taken(v.title, UsecaseTitle(v) + " Demo-Vorgang") }
  function Client(v: MatterValues): string { Taken(v.clientName, "Demo Mandant") }
  function Participant(v: MatterValues): string { Taken(v.participantName, Client(v)) }
  function DocumentTitle(v: MatterValues): string { Taken(v.documentTitle, UsecaseTitle(v) + " Unterlage") }

  /** Every text of the request can be read, there is a usecase, and the status is a known word. */
  predicate UsableRequest(v: MatterValues) {
    && Usable(v.usecaseSlug, "", 512) && Strip(v.usecaseSlug) != ""
    && Usable(v.usecaseTitle, Strip(v.usecaseSlug), 512)
    && Usable(v.title, UsecaseTitle(v) + " Demo-Vorgang", 512)
    && Usable(v.clientName, "Demo Mandant", 512)
    && Usable(v.participantName, Client(v), 512)
    && Usable(v.documentTitle, UsecaseTitle(v) + " Unterlage", 512)
    && Usable(v.documentType, "input_document", 512)
    && Usable(v.mediaType, "application/octet-stream", 512)
    && Usable(v.dataClassification, "synthetic_document_metadata", 512)
    && |v.metadata| <= 4096
    && (exists status :: MeansStatus(v.status, status))
    && Usable(v.statusReason, "", 512)
    && Usable(v.workflowVersion, "v1", 64)
  }

  /** What preparing makes of each field. */
  predicate PreparedFrom(p: Prepared, v: MatterValues) {
    && p.usecaseSlug == Strip(v.usecaseSlug) && p.title == Title(v)
    && p.clientName == Client(v) && p.participantName == Participant(v)
    && p.documentTitle == DocumentTitle(v) && p.documentType == Taken(v.documentType, "input_document")
    && p.mediaType == Taken(v.mediaType, "application/octet-stream")
    && p.dataClassification == Taken(v.dataClassification, "synthetic_document_metadata") && p.metadata == v.metadata
    && MeansStatus(v.status, p.status) && p.statusReason == Taken(v.statusReason, "")
    && p.workflowVersion == Taken(v.workflowVersion, "v1")
  }

  lemma {:induction false} StatusUsable(given: string)
    ensures NormalizeStatus(given).Ok? <==> exists status :: MeansStatus(given, status)
    ensures NormalizeStatus(given).Ok? ==> MeansStatus(given, NormalizeStatus(given).value)
  {
    hide NormalizeStatus, MeansStatus;
    if NormalizeStatus(given).Ok? { StatusTakes(given, NormalizeStatus(given).value); }
    if status :| MeansStatus(given, status) { StatusTakes(given, status); }
  }

  /** A request can be prepared exactly when it is usable, and then each prepared field is the one the request gives. */
  lemma {:induction false} PreparedReads(v: MatterValues)
    ensures Prepare(v).Ok? <==> UsableRequest(v)
    ensures Prepare(v).Ok? ==> PreparedFrom(Prepare(v).value, v)
  {
    hide Clean, Taken, Usable, Or, NormalizeStatus, MeansStatus, Strip;
    RequiredTakes(v.usecaseSlug);
    var slug := Strip(v.usecaseSlug);
    CleanTakes(v.usecaseTitle, slug, 512);
    CleanTakes(v.title, UsecaseTitle(v) + MATTER_SUFFIX, 512);
    CleanTakes(v.clientName, "Demo Mandant", 512);
    CleanTakes(v.participantName, Client(v), 512);
    CleanTakes(v.documentTitle, UsecaseTitle(v) + DOCUMENT_SUFFIX, 512);
    CleanTakes(v.documentType, DOCUMENT_TYPE, 512);
    CleanTakes(v.mediaType, DEFAULT_MEDIA_TYPE, 512);
    CleanTakes(v.dataClassification, DATA_CLASSIFICATION, 512);
    StatusUsable(v.status);
    CleanTakes(v.statusReason, "", 512);
    NothingGiven(v.statusReason);
    CleanTakes(v.workflowVersion, "v1", 64);
  }

  lemma {:induction false} NothingGiven(given: string)
    ensures Or(given, "") == given
  {
  }

  // ---- Creation ----

  /** The id of the `number`-th matter of the day's year. */
  predicate IsPlaceNumber(place: Place, number: nat, now: Stamp) {
    && place.year == YearText(now.day)
    && place.id == "UVZ-" + place.year + "-" + Padded(number, 4)
  }

  /** The text of a year has four digits and reads as the year. */
  lemma {:induction false} YearIsRead(day: Day)
    ensures ParseDecimal(YearText(day)) == day.year && |YearText(day)| == 4
  {
    ParseInvertsPadded(day.year, 4);
  }

  /** The matter of the request. */
  predicate IsMatterOf(m: Matter, v: MatterValues, place: Place, number: nat, now: Stamp, w: Workflow) {
    && m.id == place.id && m.number == number && m.title == Title(v) && m.usecaseSlug == Strip(v.usecaseSlug)
    && MeansStatus(v.status, m.status) && m.statusReason == Taken(v.statusReason, "")
    && m.openedAt == now && m.updatedAt == now
    && m.binding == Binding(Strip(v.usecaseSlug), Taken(v.workflowVersion, "v1"), w.revisionHash, now)
    && m.personIds == ["PER-" + place.id + "-MANDANT", "PER-" + place.id + "-BETEILIGT"]
    && m.documentIds == ["DOC-" + place.id + "-UNTERLAGE"]
  }

  /** The document of the request, but for its originals. */
  predicate IsDocumentOf(d: Document, v: MatterValues, place: Place) {
    && d.id == "DOC-" + place.id + "-UNTERLAGE" && d.matterId == place.id && d.title == DocumentTitle(v)
    && d.documentType == Taken(v.documentType, "input_document")
    && d.mediaType == Taken(v.mediaType, "application/octet-stream")
    && d.dataClassification == Taken(v.dataClassification, "synthetic_document_metadata")
    && d.metadata == v.metadata && d.subjectIds == ["PER-" + place.id + "-BETEILIGT"]
  }

  /** Records, log and journal after a creation; everything else is as it was. */
  ghost predicate WritesCreation(
    s: Store, s': Store, v: MatterValues, place: Place, number: nat, now: Stamp, w: Workflow, m: Matter, d: Document)
  {
    var client, participant := "PER-" + place.id + "-MANDANT", "PER-" + place.id + "-BETEILIGT";
    var event := MatterCreated(place.id, now, m.status, m.binding);
    && IsMatterOf(m, v, place, number, now, w) && IsDocumentOf(d, v, place)
    && s'.matters == s.matters[place := m]
    && s'.documents == s.documents[d.id := d]
    && s'.persons == s.persons[client := Person(client, Client(v), "client")]
                              [participant := Person(participant, Participant(v), "participant")]
    && s'.checklists == s.checklists[place := Checklist(m.binding, w.sections)]
    && s'.logs == s.logs[place := (if place in s.logs then s.logs[place] else []) + [event]]
    && s'.journal == s.journal[now.day := (if now.day in s.journal then s.journal[now.day] else []) + [event]]
  }

  lemma {:induction false} NumberedIds(place: Place)
    requires NumberedPlace(place)
    ensures ClientId(place.id) == "PER-" + place.id + "-MANDANT" && ParticipantId(place.id) == "PER-" + place.id + "-BETEILIGT"
    ensures DocumentId(place.id) == "DOC-" + place.id + "-UNTERLAGE"
  {
    hide SafeIdentifier, Canonical;
    PlaceIdIsCanonical(place);
    CanonicalIsSafe(place.id);
  }

  lemma {:induction false} MatterIsDescribed(p: Prepared, v: MatterValues, place: Place, number: nat, now: Stamp, w: Workflow)
    requires NumberedPlace(place) && PreparedFrom(p, v)
    ensures IsMatterOf(NewMatter(p, place.id, number, now, w), v, place, number, now, w)
  {
    hide Taken, Strip, MeansStatus, NumberedPlace, ClientId, ParticipantId, DocumentId, Title;
    NumberedIds(place);
  }

  lemma {:induction false} DocumentIsDescribed(p: Prepared, v: MatterValues, place: Place, originals: seq<Original>)
    requires NumberedPlace(place) && PreparedFrom(p, v)
    ensures IsDocumentOf(NewDocument(p, place.id, originals), v, place)
  {
    hide Taken, Strip, MeansStatus, NumberedPlace, ClientId, ParticipantId, DocumentId, DocumentTitle;
    NumberedIds(place);
  }

  lemma {:induction false} PersonsAreDescribed(persons: map<string, Person>, p: Prepared, v: MatterValues, place: Place)
    requires NumberedPlace(place) && PreparedFrom(p, v)
    ensures var client, participant := "PER-" + place.id + "-MANDANT", "PER-" + place.id + "-BETEILIGT";
      persons + PersonsOf(p, place.id) == persons[client := Person(client, Client(v), "client")]
                                                 [participant := Person(participant, Participant(v), "participant")]
  {
    hide Taken, Strip, MeansStatus, NumberedPlace, ClientId, ParticipantId, DocumentId, Client, Participant;
    NumberedIds(place);
  }

  lemma {:induction false} CreatedFields(
    s: Store, p: Prepared, place: Place, number: nat, originals: seq<Original>, now: Stamp, w: Workflow)
    ensures var s', m := Created(s, p, place, number, originals, now, w), NewMatter(p, place.id, number, now, w);
      var event := MatterCreated(place.id, now, m.status, m.binding);
      && s'.matters == s.matters[place := m]
      && s'.documents == s.documents[DocumentId(place.id) := NewDocument(p, place.id, originals)]
      && s'.persons == s.persons + PersonsOf(p, place.id)
      && s'.checklists == s.checklists[place := Checklist(m.binding, w.sections)]
      && s'.logs == s.logs[place := (if place in s.logs then s.logs[place] else []) + [event]]
      && s'.journal == s.journal[now.day := (if now.day in s.journal then s.journal[now.day] else []) + [event]]
  {
    hide PersonsOf, NewDocument, DocumentId, BindingOf;
  }

  lemma {:induction false} CreatedWrites(
    s: Store, v: MatterValues, p: Prepared, place: Place, number: nat, originals: seq<Original>, now: Stamp, w: Workflow)
    requires NumberedPlace(place) && PreparedFrom(p, v)
    ensures var m, d := NewMatter(p, place.id, number, now, w), NewDocument(p, place.id, originals);
      WritesCreation(s, Created(s, p, place, number, originals, now, w), v, place, number, now, w, m, d)
  {
    hide NewMatter, NewDocument, Created, PersonsOf, NumberedPlace, PreparedFrom, IsMatterOf, ClientId, DocumentId;
    hide Client, Participant, ParticipantId;
    NumberedIds(place);
    MatterIsDescribed(p, v, place, number, now, w);
    DocumentIsDescribed(p, v, place, originals);
    PersonsAreDescribed(s.persons, p, v, place);
    CreatedFields(s, p, place, number, originals, now, w);
  }

  /** Every file the request names can be attached. */
  ghost predicate AllAttachable(staged: set<string>, others: map<string, string>, files: seq<FileRef>) {
    forall i :: 0 <= i < |files| ==> Attachable(staged, others, files[i], i + 1)
  }

  /** A creation succeeds exactly for a usable request whose files can all be attached. */
  lemma {:induction false} CreationSucceedsExactly(s: Store, v: MatterValues, now: Stamp, w: Workflow)
    ensures CreateMatter(s, v, now, w).1.Ok? <==>
      s.demo && UsableRequest(v) && AllAttachable(s.staged, w.files, v.documentFiles)
    ensures CreateMatter(s, v, now, w).1.Ok? ==> Prepare(v).Ok? && OriginalsOf(s, v, now, w).Ok?
  {
    hide Prepare, UsableRequest, Attachable, Attach, NextPlace, NextNumber, Created, NewMatter, PersonsOf, Indexed;
    hide PreparedFrom, DocumentId;
    PreparedReads(v);
    AttachedExactly(s.staged, w.files, DocumentId(NextPlace(s, now).id), v.documentFiles, |v.documentFiles|);
  }

  /** One original for each entry that names a source, in order, with its own label, media type and name or the defaults. */
  ghost predicate RecordsSources(originals: seq<Original>, at: seq<nat>, files: seq<FileRef>,
                                 staged: set<string>, others: map<string, string>, documentId: string)
  {
    && NameSources(at, files, |files|) && |originals| == |at|
    && forall k :: 0 <= k < |at| ==>
         IsAttached(originals[k], files[at[k]], at[k] + 1, staged, others, documentId)
  }

  lemma {:induction false} CreationIs(s: Store, v: MatterValues, now: Stamp, w: Workflow)
    requires CreateMatter(s, v, now, w).1.Ok?
    ensures Prepare(v).Ok? && OriginalsOf(s, v, now, w).Ok?
    ensures var (s', r) := CreateMatter(s, v, now, w);
      var p, place, number := Prepare(v).value, NextPlace(s, now), NextNumber(s, YearText(now.day));
      r.value == NewMatter(p, place.id, number, now, w)
      && s' == Indexed(Created(s, p, place, number, OriginalsOf(s, v, now, w).value, now, w))
  {
    hide Scan, NextNumber, NextPlace, MatterId, Prepare, PersonsOf, OriginalsOf, Created, NewMatter;
  }

  lemma {:induction false} CreationRecords(s: Store, v: MatterValues, now: Stamp, w: Workflow) returns (d: Document)
    requires CreateMatter(s, v, now, w).1.Ok?
    ensures IsPlaceNumber(NextPlace(s, now), NextNumber(s, YearText(now.day)), now)
    ensures var (s', r) := CreateMatter(s, v, now, w);
      WritesCreation(s, s', v, NextPlace(s, now), NextNumber(s, YearText(now.day)), now, w, r.value, d)
    ensures Prepare(v).Ok? && OriginalsOf(s, v, now, w).Ok?
    ensures d == NewDocument(Prepare(v).value, NextPlace(s, now).id, OriginalsOf(s, v, now, w).value)
  {
    hide Prepare, Created, Scan, WritesCreation, Attach, NumberedPlace, NewMatter, PreparedFrom, NewDocument, CreateMatter;
    hide NextNumber, NextPlace, IsPlaceNumber;
    CreationIs(s, v, now, w);
    PreparedReads(v);
    NextPlaceIsNumbered(s, now);
    PlaceIsNumber(s, now);
    var place, number := NextPlace(s, now), NextNumber(s, YearText(now.day));
    var originals := OriginalsOf(s, v, now, w).value;
    d := NewDocument(Prepare(v).value, place.id, originals);
    CreatedWrites(s, v, Prepare(v).value, place, number, originals, now, w);
    SameRecordsWritten(s, Created(s, Prepare(v).value, place, number, originals, now, w), v, place, number, now, w,
      NewMatter(Prepare(v).value, place.id, number, now, w), d);
  }

  /** A successful creation writes exactly the records its request describes. */
  lemma {:induction false} CreationWrites(s: Store, v: MatterValues, now: Stamp, w: Workflow)
    returns (place: Place, number: nat, d: Document, at: seq<nat>)
    requires CreateMatter(s, v, now, w).1.Ok?
    ensures place == NextPlace(s, now) && number == NextNumber(s, YearText(now.day)) && IsPlaceNumber(place, number, now)
    ensures var (s', r) := CreateMatter(s, v, now, w);
      WritesCreation(s, s', v, place, number, now, w, r.value, d) && s'.proposals == s.proposals && s'.staged == s.staged
    ensures RecordsSources(d.originals, at, v.documentFiles, s.staged, w.files, d.id)
  {
    hide Prepare, Scan, WritesCreation, OriginalsOf, NewDocument, CreateMatter, NextNumber, NextPlace, RecordsSources;
    hide IsPlaceNumber;
    place, number := NextPlace(s, now), NextNumber(s, YearText(now.day));
    d := CreationRecords(s, v, now, w);
    at := OriginalsAreRecorded(s, v, now, w, d);
    CreateKeepsStaged(s, v, now, w);
    CreateKeepsProposals(s, v, now, w);
  }

  lemma {:induction false} PlaceIsNumber(s: Store, now: Stamp)
    ensures IsPlaceNumber(NextPlace(s, now), NextNumber(s, YearText(now.day)), now)
  {
    hide NextNumber, Padded;
  }

  /** The indexes are no part of it. */
  lemma {:induction false} SameRecordsWritten(
    s: Store, s': Store, v: MatterValues, place: Place, number: nat, now: Stamp, w: Workflow, m: Matter, d: Document)
    requires WritesCreation(s, s', v, place, number, now, w, m, d)
    ensures WritesCreation(s, Indexed(s'), v, place, number, now, w, m, d)
  {
    hide IsMatterOf, IsDocumentOf, Scan, Client, Participant;
  }

  lemma {:induction false} OriginalsAreRecorded(s: Store, v: MatterValues, now: Stamp, w: Workflow, d: Document)
    returns (at: seq<nat>)
    requires Prepare(v).Ok? && OriginalsOf(s, v, now, w).Ok?
    requires d == NewDocument(Prepare(v).value, NextPlace(s, now).id, OriginalsOf(s, v, now, w).value)
    ensures RecordsSources(d.originals, at, v.documentFiles, s.staged, w.files, d.id)
  {
    hide Prepare, Attach, NextPlace, IsAttached, NameSources, Strip, DocumentId, ParticipantId;
    var id := DocumentId(NextPlace(s, now).id);
    at := AttachRecords(s.staged, w.files, id, v.documentFiles, |v.documentFiles|);
    assert d.id == id && d.originals == OriginalsOf(s, v, now, w).value;
  }

  // ---- Status change ----

  /** The three texts can be read. */
  predicate UsableChange(idText: string, statusText: string, reasonText: string) {
    && Usable(idText, "", 512) && Strip(idText) != "" && Usable(reasonText, "", 512)
    && exists status :: MeansStatus(statusText, status)
  }

  ghost predicate HasMatter(s: Store, id: string) { exists p <- s.matters :: p.id == id }

  lemma {:induction false} ChangeReads(idText: string, statusText: string, reasonText: string)
    ensures ReadStatusRequest(idText, statusText, reasonText).Ok? <==> UsableChange(idText, statusText, reasonText)
    ensures ReadStatusRequest(idText, statusText, reasonText).Ok? ==>
      var request := ReadStatusRequest(idText, statusText, reasonText).value;
      request.id == Strip(idText) && MeansStatus(statusText, request.status) && request.reason == Strip(reasonText)
    ensures ReadStatusRequest(idText, statusText, reasonText).Err? ==>
      ReadStatusRequest(idText, statusText, reasonText).error != NotFound
  {
    hide Clean, RequiredText, NormalizeStatus, MeansStatus, Strip, Usable;
    RequiredTakes(idText);
    StatusUsable(statusText);
    CleanTakes(reasonText, "", 512);
    NothingGiven(reasonText);
    NothingTaken(reasonText);
    NeverNotFound(idText, statusText, reasonText);
  }

  lemma {:induction false} NothingTaken(given: string)
    ensures Taken(given, "") == Strip(given)
  {
  }

  lemma {:induction false} NeverNotFound(idText: string, statusText: string, reasonText: string)
    ensures RequiredText(idText).Err? ==> RequiredText(idText).error != NotFound
    ensures NormalizeStatus(statusText).Err? ==> NormalizeStatus(statusText).error != NotFound
    ensures CleanText(reasonText).Err? ==> CleanText(reasonText).error != NotFound
  {
    hide Strip, Lower;
  }

  /** One more event at the end of the matter's log and of its day's journal. */
  ghost predicate WritesEvent(s: Store, s': Store, place: Place, e: Event) {
    && s'.logs == s.logs[place := (if place in s.logs then s.logs[place] else []) + [e]]
    && s'.journal == s.journal[e.at.day := (if e.at.day in s.journal then s.journal[e.at.day] else []) + [e]]
  }

  lemma {:induction false} StatusSetIs(s: Store, place: Place, status: Status, reason: string, now: Stamp)
    requires place in s.matters
    ensures var s', was := StatusSet(s, place, status, reason, now), s.matters[place];
      && s' == s.(matters := s'.matters, logs := s'.logs, journal := s'.journal)
      && s'.matters == s.matters[place := was.(status := status, statusReason := reason, updatedAt := now)]
      && WritesEvent(s, s', place, StatusChanged(place.id, now, was.status, status, reason))
  {
  }

  lemma {:induction false} UpdateIs(s: Store, idText: string, statusText: string, reasonText: string, now: Stamp)
    ensures var (s', r) := UpdateStatus(s, idText, statusText, reasonText, now);
      var read := ReadStatusRequest(idText, statusText, reasonText);
      && (r.Ok? <==> s.demo && read.Ok? && FindPlace(s, read.value.id).Some?)
      && (r == Err(NotFound) && (read.Err? ==> read.error != NotFound) <==>
            s.demo && read.Ok? && FindPlace(s, read.value.id).None?)
      && (r.Err? ==> s' == s)
      && (r.Ok? ==> var place := FindPlace(s, read.value.id).value;
            && place in s.matters && place.id == read.value.id
            && s' == Indexed(StatusSet(s, place, read.value.status, read.value.reason, now))
            && place in s'.matters && r.value == s'.matters[place])
  {
    hide ReadStatusRequest, StatusSet, Scan;
    if ReadStatusRequest(idText, statusText, reasonText).Ok? {
      FoundIsPlace(s, ReadStatusRequest(idText, statusText, reasonText).value.id);
      if FindPlace(s, ReadStatusRequest(idText, statusText, reasonText).value.id).Some? {
        var read := ReadStatusRequest(idText, statusText, reasonText).value;
        StatusSetIs(s, FindPlace(s, read.id).value, read.status, read.reason, now);
      }
    }
  }

  lemma {:induction false} FoundIsPlace(s: Store, id: string)
    ensures FindPlace(s, id).Some? <==> HasMatter(s, id)
    ensures FindPlace(s, id).Some? ==> FindPlace(s, id).value in s.matters && FindPlace(s, id).value.id == id
  {
    if HasMatter(s, id) {
      var p :| p in s.matters && p.id == id;
      assert IsPlaceOf(s, p, id);
    }
  }

  /**
   * A status change succeeds exactly when its three texts can be read and a matter has that id. It then sets the status
   * the word means, the reason and the time, and logs the change from the former status; nothing else changes.
   */
  lemma {:induction false} StatusWrites(s: Store, idText: string, statusText: string, reasonText: string, now: Stamp)
    returns (place: Place)
    ensures var r := UpdateStatus(s, idText, statusText, reasonText, now).1;
      && (r.Ok? <==> s.demo && UsableChange(idText, statusText, reasonText) && HasMatter(s, Strip(idText)))
      && (r == Err(NotFound) <==> s.demo && UsableChange(idText, statusText, reasonText) && !HasMatter(s, Strip(idText)))
    ensures var (s', r) := UpdateStatus(s, idText, statusText, reasonText, now);
      if r.Err? then s' == s
      else
        && place in s.matters && place.id == Strip(idText)
        && MeansStatus(statusText, r.value.status) && r.value.statusReason == Strip(reasonText) && r.value.updatedAt == now
        && r.value == s.matters[place].(status := r.value.status, statusReason := r.value.statusReason, updatedAt := now)
        && s'.matters == s.matters[place := r.value]
        && WritesEvent(s, s', place,
             StatusChanged(place.id, now, s.matters[place].status, r.value.status, r.value.statusReason))
        && s' == s.(matters := s'.matters, logs := s'.logs, journal := s'.journal, index := s'.index)
  {
    hide ReadStatusRequest, StatusSet, Scan, UpdateStatus, FindPlace, UsableChange, Strip, HasMatter, MeansStatus, WritesEvent;
    place := Place("", "");
    ChangeReads(idText, statusText, reasonText);
    UpdateIs(s, idText, statusText, reasonText, now);
    FoundIsPlace(s, Strip(idText));
    if UpdateStatus(s, idText, statusText, reasonText, now).1.Ok? {
      var read := ReadStatusRequest(idText, statusText, reasonText).value;
      place := FindPlace(s, read.id).value;
      StatusSetIs(s, place, read.status, read.reason, now);
      var after := StatusSet(s, place, read.status, read.reason, now);
      SameEvent(s, after, place, StatusChanged(place.id, now, s.matters[place].status, read.status, read.reason));
    }
  }

  lemma {:induction false} SameEvent(s: Store, s': Store, place: Place, e: Event)
    requires WritesEvent(s, s', place, e)
    ensures WritesEvent(s, Indexed(s'), place, e)
  {
    hide Scan;
  }

  // ---- Proposals ----

  /** The upload can be staged. */
  predicate Stageable(u: Upload, synthetic: bool, index: nat) {
    && Usable(u.caption, "Datei " + Decimal(index), 512)
    && Usable(u.filename, "datei-" + Decimal(index), 512)
    && Usable(u.mediaType, "application/octet-stream", 512)
    && !u.content.Unreadable? && (u.content.Readable? ==> synthetic)
  }

  /** The staged file of an upload; only one with content has a path. */
  predicate IsStagedFrom(f: StagedFile, u: Upload, index: nat, proposalId: string) {
    && f.caption == Taken(u.caption, "Datei " + Decimal(index))
    && f.filename == SafeFilename(Taken(u.filename, "datei-" + Decimal(index)))
    && f.mediaType == Taken(u.mediaType, "application/octet-stream")
    && f.path == if u.content.Readable? then "eingang/dateien/" + proposalId + "/" + f.filename else ""
  }

  lemma {:induction false} OneStaged(proposalId: string, u: Upload, synthetic: bool, index: nat)
    ensures var f := StageOne(proposalId, u, synthetic, index);
      (f.Ok? <==> Stageable(u, synthetic, index)) && (f.Ok? ==> IsStagedFrom(f.value, u, index, proposalId))
  {
    hide Clean, SafeFilename, Decimal, Taken, Usable;
    CleanTakes(u.caption, "Datei " + Decimal(index), 512);
    CleanTakes(u.filename, "datei-" + Decimal(index), 512);
    CleanTakes(u.mediaType, DEFAULT_MEDIA_TYPE, 512);
  }

  /** Uploads are staged in order up to the first that cannot be, each as it was given. */
  lemma {:induction false} StagingRecords(proposalId: string, uploads: seq<Upload>, synthetic: bool, n: nat)
    requires n <= |uploads|
    ensures var st := Stage(proposalId, uploads, synthetic, n);
      && |st.files| <= n
      && (forall i :: 0 <= i < |st.files| ==>
            Stageable(uploads[i], synthetic, i + 1) && IsStagedFrom(st.files[i], uploads[i], i + 1, proposalId))
      && (st.failure.None? <==> |st.files| == n)
      && (|st.files| < n ==> !Stageable(uploads[|st.files|], synthetic, |st.files| + 1))
  {
    hide StageOne, Stageable, IsStagedFrom;
    if n > 0 {
      StagingRecords(proposalId, uploads, synthetic, n - 1);
      OneStaged(proposalId, uploads[n - 1], synthetic, n);
    }
  }

  function ProposalTitle(v: ProposalValues): string { Taken(v.title, "Eingang ohne Betreff") }

  predicate UsableHeader(v: ProposalValues) {
    && Usable(v.title, "Eingang ohne Betreff", 512) && Usable(v.usecaseSlug, "unterschriftsbeglaubigung", 512)
    && Usable(v.usecaseTitle, "Unterschriftsbeglaubigung", 512)
  }

  /** The remaining texts of a proposal request. */
  predicate UsableRest(v: ProposalValues) {
    && Usable(v.clientName, "", 512) && Usable(v.participantName, v.clientName, 512)
    && Usable(v.documentTitle, "Eingangsdokument", 512) && Usable(v.documentType, "input_document", 512)
    && Usable(v.mediaType, "application/octet-stream", 512)
    && Usable(v.dataClassification, "synthetic_document_metadata", 512)
    && (exists status :: MeansStatus(v.status, status)) && Usable(v.statusReason, "", 512) && |v.metadata| <= 4096
    && Usable(v.source, "", 512) && Usable(v.sourceType, "", 512) && Usable(v.summary, ProposalTitle(v), 512)
    && Usable(v.reviewReason, "", 512)
  }

  /** The values stored in the proposal are those of the request, or the defaults. */
  predicate HoldsValues(m: MatterValues, v: ProposalValues) {
    && m.usecaseSlug == Taken(v.usecaseSlug, "unterschriftsbeglaubigung")
    && m.usecaseTitle == Taken(v.usecaseTitle, "Unterschriftsbeglaubigung")
    && m.title == ProposalTitle(v)
    && m.clientName == Strip(v.clientName) && m.participantName == Taken(v.participantName, v.clientName)
    && m.documentTitle == Taken(v.documentTitle, "Eingangsdokument")
    && m.documentType == Taken(v.documentType, "input_document")
    && m.mediaType == Taken(v.mediaType, "application/octet-stream")
    && m.dataClassification == Taken(v.dataClassification, "synthetic_document_metadata")
    && m.metadata == v.metadata && m.statusReason == Strip(v.statusReason)
    && (m.status == "open" || m.status == "waiting" || m.status == "completed")
    && (forall status :: MeansStatus(v.status, status) <==> MeansStatus(m.status, status))
    && m.workflowVersion == "" && m.documentFiles == []
  }

  lemma {:induction false} HeaderReads(v: ProposalValues)
    ensures ReadProposalHeader(v).Ok? <==> UsableHeader(v)
    ensures ReadProposalHeader(v).Ok? ==> ReadProposalHeader(v).value == ProposalHeader(ProposalTitle(v),
      Taken(v.usecaseSlug, "unterschriftsbeglaubigung"), Taken(v.usecaseTitle, "Unterschriftsbeglaubigung"))
  {
    hide Clean, Taken, Usable, Or;
    CleanTakes(v.title, "Eingang ohne Betreff", 512);
    CleanTakes(v.usecaseSlug, "unterschriftsbeglaubigung", 512);
    CleanTakes(v.usecaseTitle, "Unterschriftsbeglaubigung", 512);
  }

  lemma {:induction false} SideTextsRead(v: ProposalValues, h: ProposalHeader)
    ensures ReadSideTexts(v, h).Ok? <==> Usable(v.source, "", 512) && Usable(v.sourceType, "", 512)
                                         && Usable(v.summary, h.title, 512) && Usable(v.reviewReason, "", 512)
  {
    hide Clean, Taken, Usable, Or;
    CleanTakes(v.source, "", 512);
    CleanTakes(v.sourceType, "", 512);
    CleanTakes(v.summary, h.title, 512);
    CleanTakes(v.reviewReason, "", 512);
    NothingGiven(v.source);
    NothingGiven(v.sourceType);
    NothingGiven(v.reviewReason);
  }

  /** The stored word is one of three, and means exactly what the given one means. */
  lemma {:induction false} StatusStored(given: string)
    requires NormalizeStatus(given).Ok?
    ensures var word := StatusText(NormalizeStatus(given).value); word == "open" || word == "waiting" || word == "completed"
    ensures forall status ::
      MeansStatus(given, status) <==> MeansStatus(StatusText(NormalizeStatus(given).value), status)
  {
    hide NormalizeStatus, MeansStatus;
    StatusTextReadsBack(NormalizeStatus(given).value);
    forall status ensures
      MeansStatus(given, status) <==> MeansStatus(StatusText(NormalizeStatus(given).value), status)
    {
      StatusTakes(given, status);
      StatusTakes(StatusText(NormalizeStatus(given).value), status);
    }
  }

  lemma {:induction false} RestReads(v: ProposalValues, h: ProposalHeader)
    requires h == ProposalHeader(ProposalTitle(v), Taken(v.usecaseSlug, "unterschriftsbeglaubigung"),
                                 Taken(v.usecaseTitle, "Unterschriftsbeglaubigung"))
    ensures ProposedValues(v, h).Ok? <==> UsableRest(v)
    ensures ProposedValues(v, h).Ok? ==> HoldsValues(ProposedValues(v, h).value, v)
  {
    hide Clean, Taken, Usable, Or, NormalizeStatus, MeansStatus, Strip, ReadSideTexts, StatusText, ProposalTitle;
    CleanTakes(v.clientName, "", 512);
    NothingGiven(v.clientName);
    NothingTaken(v.clientName);
    CleanTakes(v.participantName, v.clientName, 512);
    CleanTakes(v.documentTitle, "Eingangsdokument", 512);
    CleanTakes(v.documentType, DOCUMENT_TYPE, 512);
    CleanTakes(v.mediaType, DEFAULT_MEDIA_TYPE, 512);
    CleanTakes(v.dataClassification, DATA_CLASSIFICATION, 512);
    StatusUsable(v.status);
    if NormalizeStatus(v.status).Ok? { StatusStored(v.status); }
    CleanTakes(v.statusReason, "", 512);
    NothingGiven(v.statusReason);
    NothingTaken(v.statusReason);
    SideTextsRead(v, h);
  }

  /** The id of a new proposal: the day, the start of its title, and a counter if that file is taken. */
  lemma {:induction false} ProposalIdReads(s: Store, title: string, day: Day) returns (k: nat)
    ensures var safe := SafeIdentifier(title);
      var base := "IMP-" + Padded(day.year, 4) + Padded(day.month, 2) + Padded(day.dayOfMonth, 2) + "-"
                  + safe[..if |safe| < 44 then |safe| else 44];
      && IsFirstFree(s.proposals.Keys, base, k)
      && NextProposalId(s, title, day) == if k == 1 then base else base + "-" + Decimal(k)
  {
    hide SafeIdentifier, Padded, Decimal, CandidateFile, AllDigits;
    var base := ProposalBase(DateDigits(day), title);
    ProposalBaseIsTidy(DateDigits(day), title);
    k := FirstFree(s.proposals.Keys, base);
    var safe := SafeIdentifier(title);
    assert safe[..|safe|] == safe;
    var digits := Padded(day.year, 4) + Padded(day.month, 2) + Padded(day.dayOfMonth, 2);
    assert DateDigits(day) == digits;
    var start := safe[..if |safe| < 44 then |safe| else 44];
    assert base == "IMP-" + digits + "-" + start;
    assert "IMP-" + digits == "IMP-" + Padded(day.year, 4) + Padded(day.month, 2) + Padded(day.dayOfMonth, 2);
  }

  /** A proposal request can be filed. */
  predicate Fileable(v: ProposalValues) {
    && UsableHeader(v) && UsableRest(v)
    && forall i :: 0 <= i < |v.uploads| ==> Stageable(v.uploads[i], v.synthetic, i + 1)
  }

  lemma {:induction false} ProposeIs(s: Store, v: ProposalValues, now: Stamp)
    ensures var (s', r) := CreateProposal(s, v, now); var header := ReadProposalHeader(v);
      && s' == s.(staged := s'.staged, proposals := s'.proposals)
      && (!s.demo || header.Err? ==> s' == s && r.Err?)
      && (s.demo && header.Ok? ==>
            var id := NextProposalId(s, header.value.title, now.day);
            var staging := Stage(id, v.uploads, v.synthetic, |v.uploads|);
            && s'.staged == s.staged + PathsOf(staging.files)
            && (r.Ok? <==> staging.failure.None? && ProposedValues(v, header.value).Ok?)
            && (r.Err? ==> s'.proposals == s.proposals)
            && (r.Ok? ==>
                  && r.value == Proposal(id, Pending, now, ProposedValues(v, header.value).value, staging.files)
                  && s'.proposals == s.proposals[SafeIdentifier(id) := r.value]))
  {
    hide NextProposalId, ProposedValues, ReadProposalHeader, SafeIdentifier, Stage, PathsOf;
    ProposeKeeps(s, v, now);
  }

  /** Each upload up to the first that cannot be staged, with the path of those that have content. */
  ghost predicate RecordsUploads(files: seq<StagedFile>, v: ProposalValues, proposalId: string) {
    && |files| <= |v.uploads|
    && (forall i :: 0 <= i < |files| ==> IsStagedFrom(files[i], v.uploads[i], i + 1, proposalId))
    && (|files| < |v.uploads| ==> !Stageable(v.uploads[|files|], v.synthetic, |files| + 1))
  }

  /**
   * A proposal is filed exactly for a request all of whose texts and uploads can be read. It holds the values of the
   * request, or the defaults, and its uploads; a request with a readable header leaves the uploads before the first that
   * cannot be staged on disk in any case.
   */
  lemma {:induction false} ProposalWrites(s: Store, v: ProposalValues, now: Stamp) returns (id: string, files: seq<StagedFile>)
    ensures CreateProposal(s, v, now).1.Ok? <==> s.demo && Fileable(v)
    ensures var s' := CreateProposal(s, v, now).0;
      if !s.demo || !UsableHeader(v) then s' == s
      else
        && id == NextProposalId(s, ProposalTitle(v), now.day) && RecordsUploads(files, v, id)
        && s'.staged == s.staged + (set f <- files | f.path != "" :: f.path)
        && s' == s.(staged := s'.staged, proposals := s'.proposals)
    ensures var (s', r) := CreateProposal(s, v, now);
      if r.Err? then s'.proposals == s.proposals
      else
        && |files| == |v.uploads| && HoldsValues(r.value.values, v)
        && r.value == Proposal(id, Pending, now, r.value.values, files)
        && s'.proposals == s.proposals[SafeIdentifier(id) := r.value]
  {
    hide CreateProposal, NextProposalId, ProposedValues, ReadProposalHeader, SafeIdentifier, Stage, UsableHeader, UsableRest;
    hide Stageable, IsStagedFrom, HoldsValues, ProposalTitle, Taken;
    id, files := "", [];
    HeaderReads(v);
    ProposeIs(s, v, now);
    if s.demo && UsableHeader(v) {
      var header := ReadProposalHeader(v).value;
      RestReads(v, header);
      id := NextProposalId(s, ProposalTitle(v), now.day);
      files := Stage(id, v.uploads, v.synthetic, |v.uploads|).files;
      StagingRecords(id, v.uploads, v.synthetic, |v.uploads|);
    }
  }

  // ---- Acceptance ----

  /** One original for each file of the proposal that has content, in order. */
  ghost predicate RecordsFiles(originals: seq<Original>, at: seq<nat>, files: seq<StagedFile>, documentId: string) {
    && ListsFilled(at, files, |files|) && |originals| == |at|
    && forall k :: 0 <= k < |at| ==> IsOriginalOfStaged(originals[k], files[at[k]], k + 1, documentId)
  }

  lemma {:induction false} AcceptIs(s: Store, idText: string, createdAt: Stamp, acceptedAt: Stamp, w: Workflow)
    requires AcceptProposal(s, idText, createdAt, acceptedAt, w).1.Ok?
    ensures s.demo && RequiredText(idText).Ok?
    ensures var id := RequiredText(idText).value; var file := SafeIdentifier(id);
      && file in s.proposals && s.proposals[file].state == Pending
      && var (created, made) := CreateMatter(s, ValuesOf(s.proposals[file]), createdAt, w);
      && made == AcceptProposal(s, idText, createdAt, acceptedAt, w).1 && file in created.proposals
      && AcceptProposal(s, idText, createdAt, acceptedAt, w).0
         == Indexed(AcceptanceRecorded(created, file, id, NextPlace(s, createdAt), made.value, acceptedAt))
  {
    hide CreateMatter, NextPlace, SafeIdentifier, RequiredText, AcceptanceRecorded, Indexed, ValuesOf;
    var file := SafeIdentifier(RequiredText(idText).value);
    CreateKeepsProposals(s, ValuesOf(s.proposals[file]), createdAt, w);
  }

  lemma {:induction false} AcceptanceRecordedIs(
    s: Store, file: string, idText: string, place: Place, matter: Matter, now: Stamp)
    requires file in s.proposals
    ensures var s' := Indexed(AcceptanceRecorded(s, file, idText, place, matter, now));
      && s'.proposals == s.proposals[file := s.proposals[file].(state := Accepted(now, matter.id, matter.number))]
      && WritesEvent(s, s', place, ProposalAccepted(place.id, now, idText))
      && s' == s.(proposals := s'.proposals, logs := s'.logs, journal := s'.journal, index := s'.index)
  {
    hide Scan;
  }

  lemma {:induction false} ValuesOfKeeps(p: Proposal)
    ensures ValuesOf(p) == p.values.(documentFiles := Attachments(p.sourceFiles))
  {
  }

  /**
   * An accepted proposal becomes the matter its stored values describe, with one original for each of its files that has
   * content; then the proposal names that matter, and log and journal the acceptance.
   */
  lemma {:induction false} AcceptanceWrites(s: Store, idText: string, createdAt: Stamp, acceptedAt: Stamp, w: Workflow)
    returns (file: string, mid: Store, place: Place, number: nat, d: Document, at: seq<nat>)
    requires Inv(s) && ProposalsClean(s) && AcceptProposal(s, idText, createdAt, acceptedAt, w).1.Ok?
    ensures Usable(idText, "", 512) && file == SafeIdentifier(Strip(idText)) && file in s.proposals
    ensures s.proposals[file].state == Pending
    ensures place == NextPlace(s, createdAt) && number == NextNumber(s, YearText(createdAt.day))
    ensures IsPlaceNumber(place, number, createdAt)
    ensures var (s', r) := AcceptProposal(s, idText, createdAt, acceptedAt, w); var p := s.proposals[file];
      && WritesCreation(s, mid, p.values, place, number, createdAt, w, r.value, d)
      && RecordsFiles(d.originals, at, p.sourceFiles, d.id)
      && mid.proposals == s.proposals && mid.staged == s.staged
      && s' == mid.(proposals := s'.proposals, logs := s'.logs, journal := s'.journal, index := s'.index)
      && s'.proposals == s.proposals[file := p.(state := Accepted(acceptedAt, r.value.id, r.value.number))]
      && WritesEvent(mid, s', place, ProposalAccepted(place.id, acceptedAt, Strip(idText)))
  {
    hide CreateMatter, NextPlace, SafeIdentifier, RequiredText, AcceptanceRecorded, Indexed, ValuesOf, AcceptProposal;
    hide NextNumber, WritesCreation, RecordsFiles, Prepare, OriginalsOf, NewDocument, Inv, CleanProposal, Usable, Strip, WritesEvent, IsPlaceNumber;
    AcceptIs(s, idText, createdAt, acceptedAt, w);
    RequiredTakes(idText);
    file := SafeIdentifier(Strip(idText));
    var p := s.proposals[file];
    place, number := NextPlace(s, createdAt), NextNumber(s, YearText(createdAt.day));
    d := CreationRecords(s, ValuesOf(p), createdAt, w);
    CreateKeepsProposals(s, ValuesOf(p), createdAt, w);
    mid := CreateMatter(s, ValuesOf(p), createdAt, w).0;
    var made := CreateMatter(s, ValuesOf(p), createdAt, w).1.value;
    AcceptanceRecordedIs(mid, file, Strip(idText), place, made, acceptedAt);
    CreateKeepsStaged(s, ValuesOf(p), createdAt, w);
    SameValues(s, mid, p, place, number, createdAt, w, made, d);
    at := FilesAreRecorded(s, file, createdAt, w, d);
  }

  lemma {:induction false} CreateKeepsStaged(s: Store, v: MatterValues, now: Stamp, w: Workflow)
    requires CreateMatter(s, v, now, w).1.Ok?
    ensures CreateMatter(s, v, now, w).0.staged == s.staged
  {
    hide CreateMatter, NextPlace, NextNumber, Created, Scan, Prepare, NewMatter, OriginalsOf;
    CreateAdds(s, v, now, w);
  }

  /** The files are no part of the other records. */
  lemma {:induction false} SameValues(
    s: Store, mid: Store, p: Proposal, place: Place, number: nat, now: Stamp, w: Workflow, m: Matter, d: Document)
    requires WritesCreation(s, mid, ValuesOf(p), place, number, now, w, m, d)
    ensures WritesCreation(s, mid, p.values, place, number, now, w, m, d)
  {
    hide Taken, Strip, MeansStatus;
    ValuesOfKeeps(p);
  }

  lemma {:induction false} FilesAreRecorded(s: Store, file: string, now: Stamp, w: Workflow, d: Document) returns (at: seq<nat>)
    requires Inv(s) && ProposalsClean(s) && file in s.proposals
    requires var v := ValuesOf(s.proposals[file]);
      && Prepare(v).Ok? && OriginalsOf(s, v, now, w).Ok?
      && d == NewDocument(Prepare(v).value, NextPlace(s, now).id, OriginalsOf(s, v, now, w).value)
    ensures RecordsFiles(d.originals, at, s.proposals[file].sourceFiles, d.id)
  {
    hide Prepare, Attach, NextPlace, IsOriginalOfStaged, ListsFilled, DocumentId, ParticipantId, CleanFile, CleanValues;
    hide Attachments, Shaped, Agrees;
    var p := s.proposals[file];
    ValuesOfKeeps(p);
    assert CleanProposal(p);
    assert ProposalsStored(s);
    var id := DocumentId(NextPlace(s, now).id);
    at := StagedRecords(s.staged, w.files, id, p.sourceFiles);
  }

  // ---- The indexes ----

  lemma {:induction false} InKeyOrderLists<K(!new), V>(m: map<K, V>, less: (K, K) -> bool) returns (keys: seq<K>)
    requires StrictOrder(less) && Total(less)
    ensures Lists(keys, m.Keys) && Ascending(keys, less) && |InKeyOrder(m, less)| == |keys|
    ensures forall k :: 0 <= k < |keys| ==> keys[k] in m && InKeyOrder(m, less)[k] == m[keys[k]]
  {
    keys := SortedKeys(m.Keys, less);
    SortedListing(AnyOrder(m.Keys), m.Keys, less);
    forall k | 0 <= k < |keys| ensures keys[k] in m { assert keys[k] in keys; }
  }

  /** The indexes list every matter, person and document once, ascending by year and id, by file name, and by id. */
  lemma {:induction false} IndexesList(s: Store) returns (places: seq<Place>, persons: seq<string>, documents: seq<string>)
    ensures var index := Scan(s);
      && Lists(places, s.matters.Keys) && |index.matters| == |places|
      && (forall k :: 0 <= k < |places| ==> places[k] in s.matters && index.matters[k] == s.matters[places[k]])
      && (forall j, k :: 0 <= j < k < |places| ==>
            StringLess(places[j].year, places[k].year)
            || (places[j].year == places[k].year && StringLess(places[j].id, places[k].id)))
      && Lists(persons, s.persons.Keys) && |index.persons| == |persons|
      && (forall k :: 0 <= k < |persons| ==> persons[k] in s.persons && index.persons[k] == s.persons[persons[k]])
      && (forall j, k :: 0 <= j < k < |persons| ==> StringLess(persons[j] + ".json", persons[k] + ".json"))
      && Lists(documents, s.documents.Keys) && |index.documents| == |documents|
      && (forall k :: 0 <= k < |documents| ==> documents[k] in s.documents)
      && (forall k :: 0 <= k < |documents| ==>
            var e, d := index.documents[k], s.documents[documents[k]];
            e.id == d.id && e.matterId == d.matterId && e.title == d.title && e.documentType == d.documentType)
      && (forall j, k :: 0 <= j < k < |documents| ==> StringLess(documents[j], documents[k]))
  {
    hide InKeyOrder, StrictOrder, Total, Lists;
    KeyOrders();
    places := InKeyOrderLists(s.matters, PlaceLess);
    persons := InKeyOrderLists(s.persons, PersonLess);
    documents := InKeyOrderLists(s.documents, StringLess);
  }
}
