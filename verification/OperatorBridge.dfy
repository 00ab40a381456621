/** scripts/nac_hw_bridge.py: the repository object whose records the request handlers overwrite and append to. */
module OperatorBridge {
  import opened Options
  import opened Identifiers
  import opened Ordering
  import opened OperatorRequests
  import opened OperatorFiles
  import opened OperatorStore
  import opened OperatorRuns

  datatype Counts = Counts(open: nat, waiting: nat, completed: nat, total: nat)

  /** How many of the first `n` matters belong to a usecase and have a status. */
  function CountIf(matters: seq<Matter>, slug: string, status: Status): nat {
    if matters == [] then 0
    else
      var m := matters[|matters| - 1];
      CountIf(matters[..|matters| - 1], slug, status) + (if m.usecaseSlug == slug && m.status == status then 1 else 0)
  }

  function CountsOf(matters: seq<Matter>, slug: string): Counts {
    var o, w, c := CountIf(matters, slug, Open), CountIf(matters, slug, Waiting), CountIf(matters, slug, Completed);
    Counts(o, w, c, o + w + c)
  }

  /** The totals of all usecases together. */
  ghost function SumOfTotals(counts: map<string, Counts>): nat {
    if counts == map[] then 0
    else
      var slug :| slug in counts;
      counts[slug].total + SumOfTotals(counts - {slug})
  }

  lemma {:induction false} SumWithout(counts: map<string, Counts>, slug: string)
    requires slug in counts
    ensures SumOfTotals(counts) == counts[slug].total + SumOfTotals(counts - {slug})
    decreases |counts|
  {
    var first :| first in counts && SumOfTotals(counts) == counts[first].total + SumOfTotals(counts - {first});
    if first != slug {
      SumWithout(counts - {first}, slug);
      SumWithout(counts - {slug}, first);
      assert counts - {first} - {slug} == counts - {slug} - {first};
    }
  }

  lemma {:induction false} SumAfterIncrement(counts: map<string, Counts>, slug: string, next: Counts)
    requires next.total == (if slug in counts then counts[slug].total else 0) + 1
    ensures SumOfTotals(counts[slug := next]) == SumOfTotals(counts) + 1
  {
    var counts' := counts[slug := next];
    SumWithout(counts', slug);
    assert counts' - {slug} == counts - {slug};
    if slug in counts {
      SumWithout(counts, slug);
    } else {
      assert counts - {slug} == counts;
    }
  }

  /** One counter per usecase that occurs; each status is counted apart and the total is their sum. */
  ghost predicate IsCounted(counts: map<string, Counts>, matters: seq<Matter>) {
    && counts.Keys == (set m <- matters :: m.usecaseSlug)
    && forall slug :: CountsOf(matters, slug) == BucketOf(counts, slug)
  }

  function BucketOf(counts: map<string, Counts>, slug: string): Counts {
    if slug in counts then counts[slug] else Counts(0, 0, 0, 0)
  }

  function Counted(bucket: Counts, status: Status): Counts {
    var next := match status
      case Open => bucket.(open := bucket.open + 1)
      case Waiting => bucket.(waiting := bucket.waiting + 1)
      case Completed => bucket.(completed := bucket.completed + 1);
    next.(total := bucket.total + 1)
  }

  lemma {:induction false} CountsOfAppend(front: seq<Matter>, m: Matter, slug: string)
    ensures CountsOf(front + [m], slug)
         == if m.usecaseSlug == slug then Counted(CountsOf(front, slug), m.status) else CountsOf(front, slug)
  {
    assert (front + [m])[..|front|] == front;
  }

  method CountMatters(matters: seq<Matter>) returns (counts: map<string, Counts>)
    ensures IsCounted(counts, matters)
    ensures SumOfTotals(counts) == |matters|
  {
    counts := map[];
    for i := 0 to |matters|
      invariant IsCounted(counts, matters[..i])
      invariant SumOfTotals(counts) == i
    {
      var m := matters[i];
      var bucket := Counted(BucketOf(counts, m.usecaseSlug), m.status);
      SumAfterIncrement(counts, m.usecaseSlug, bucket);
      assert matters[..i + 1] == matters[..i] + [m];
      CountedAfter(counts, matters[..i], m);
      counts := counts[m.usecaseSlug := bucket];
    }
    assert matters[..|matters|] == matters;
  }

  lemma {:induction false} CountedAfter(counts: map<string, Counts>, front: seq<Matter>, m: Matter)
    requires IsCounted(counts, front)
    ensures IsCounted(counts[m.usecaseSlug := Counted(BucketOf(counts, m.usecaseSlug), m.status)], front + [m])
  {
    var next := counts[m.usecaseSlug := Counted(BucketOf(counts, m.usecaseSlug), m.status)];
    forall slug: string ensures CountsOf(front + [m], slug) == BucketOf(next, slug) {
      CountsOfAppend(front, m, slug);
      assert CountsOf(front, slug) == BucketOf(counts, slug);
    }
    assert next.Keys == counts.Keys + {m.usecaseSlug};
  }

  method DocumentEntries(files: seq<Document>) returns (entries: seq<DocumentEntry>)
    ensures entries == seq(|files|, i requires 0 <= i < |files| => EntryOf(files[i]))
  {
    entries := [];
    for i := 0 to |files|
      invariant |entries| == i && forall k :: 0 <= k < i ==> entries[k] == EntryOf(files[k])
    {
      entries := entries + [EntryOf(files[i])];
    }
  }

  function RecordsWritten(
    s: Store, p: Prepared, place: Place, matter: Matter, originals: seq<Original>, now: Stamp, w: Workflow): Store
  {
    var written := s.(
      documents := s.documents[DocumentId(place.id) := NewDocument(p, place.id, originals)],
      matters := s.matters[place := matter],
      checklists := s.checklists[place := Checklist(matter.binding, w.sections)]);
    Append(written, place, MatterCreated(place.id, now, p.status, matter.binding))
  }

  /** A creation as the order of its writes: persons, then the other records and the event. */
  lemma {:induction false} CreatedInOrder(
    s: Store, p: Prepared, place: Place, number: nat, originals: seq<Original>, now: Stamp, w: Workflow)
    ensures var withPersons := s.(persons := s.persons + PersonsOf(p, place.id));
      Created(s, p, place, number, originals, now, w)
      == RecordsWritten(withPersons, p, place, NewMatter(p, place.id, number, now, w), originals, now, w)
  {
    hide PersonsOf, NewMatter, NewDocument, Append;
  }

  lemma {:induction false} CreationStops(s: Store, v: MatterValues, now: Stamp, w: Workflow, p: Prepared)
    requires s.demo && Prepare(v) == Ok(p) && OriginalsOf(s, v, now, w).Err?
    ensures CreateMatter(s, v, now, w)
         == (s.(persons := s.persons + PersonsOf(p, NextPlace(s, now).id)), Err(OriginalsOf(s, v, now, w).error))
  {
    hide Prepare, NextPlace, PersonsOf, NewMatter, Created, Indexed, OriginalsOf;
  }

  lemma {:induction false} CreationSucceeds(s: Store, v: MatterValues, now: Stamp, w: Workflow, p: Prepared)
    requires s.demo && Prepare(v) == Ok(p) && OriginalsOf(s, v, now, w).Ok?
    ensures var place, number := NextPlace(s, now), NextNumber(s, YearText(now.day));
      var originals := OriginalsOf(s, v, now, w).value;
      CreateMatter(s, v, now, w)
      == (Indexed(Created(s, p, place, number, originals, now, w)), Ok(NewMatter(p, place.id, number, now, w)))
  {
    hide Prepare, NextPlace, NextNumber, PersonsOf, NewMatter, Created, Indexed, OriginalsOf;
  }

  lemma {:induction false} NothingStaged()
    ensures PathsOf([]) == {}
  {
  }

  lemma {:induction false} StagedPathIsText(proposalId: string, filename: string)
    ensures StagedPath(proposalId, filename) != ""
  {
  }

  /** What stops the staging of one upload. */
  function FirstFailure(
    caption: Result<string>, name: Result<string>, mediaType: Result<string>, content: Content, synthetic: bool)
    : Option<Error>
  {
    if caption.Err? then Some(caption.error)
    else if name.Err? then Some(name.error)
    else if mediaType.Err? then Some(mediaType.error)
    else if content.Unreadable? then Some(UploadUnreadable)
    else if content.Readable? && !synthetic then Some(UploadNotSynthetic)
    else None
  }

  class Repository {
    const demo: bool
    var matters: map<Place, Matter>
    var checklists: map<Place, Checklist>
    var logs: map<Place, seq<Event>>
    var persons: map<string, Person>
    var documents: map<string, Document>
    var journal: map<Day, seq<Event>>
    var proposals: map<string, Proposal>
    var staged: set<string>
    var index: Index

    function Value(): Store
      reads this
    {
      Store(demo, matters, checklists, logs, persons, documents, journal, proposals, staged, index)
    }

    ghost predicate Valid()
      reads this
    {
      Inv(Value())
    }

    constructor ()
      ensures Value() == EmptyStore() && Valid()
    {
      demo := true;
      matters, checklists, logs := map[], map[], map[];
      persons, documents, journal, proposals := map[], map[], map[], map[];
      staged, index := {}, Index([], [], []);
    }

    /** `next_matter_id`: the scan over the year's folders. */
    method NextMatterNumber(year: string) returns (number: nat)
      ensures number == NextNumber(Value(), year)
    {
      var highest := 0;
      var rest := matters.Keys;
      ghost var seen: set<nat> := {};
      while rest != {}
        invariant rest <= matters.Keys
        invariant seen == ScannedNumbers(matters.Keys - rest, year)
        invariant (forall n <- seen :: n <= highest) && (highest == 0 || highest in seen)
      {
        var p :| p in rest;
        assert matters.Keys - (rest - {p}) == (matters.Keys - rest) + {p};
        if p.year == year {
          var found := ScannedNumber(year, p.id);
          if found > highest {
            highest := found;
          }
          seen := seen + {found};
        }
        rest := rest - {p};
      }
      assert matters.Keys - {} == matters.Keys;
      number := highest + 1;
    }

    /** `find_matter_file`: the first folder of that name, in any order. */
    method FindMatterFile(id: string) returns (place: Option<Place>)
      requires Shaped(Value())
      ensures place == FindPlace(Value(), id)
      ensures place.Some? ==> place.value in matters
    {
      hide NumberedPlace;
      var rest := matters.Keys;
      while rest != {}
        invariant rest <= matters.Keys
        invariant forall p :: IsPlaceOf(Value(), p, id) ==> p in rest
      {
        var p :| p in rest;
        if p.id == id {
          FindsPlace(Value(), p);
          return Some(p);
        }
        rest := rest - {p};
      }
      place := None;
    }

    /** `rebuild_operator_indexes`. */
    method RebuildOperatorIndexes()
      modifies this`index
      ensures Value() == Indexed(old(Value()))
    {
      hide InKeyOrder, PlaceLess, PersonLess, StringLess;
      KeyOrders();
      var matterPayloads := ReadInKeyOrder(matters, PlaceLess);
      var personPayloads := ReadInKeyOrder(persons, PersonLess);
      var files := ReadInKeyOrder(documents, StringLess);
      var documentPayloads := DocumentEntries(files);
      index := Index(matterPayloads, personPayloads, documentPayloads);
    }

    /** `append_jsonl` on the matter's log and on the journal of the day. */
    method AppendEvent(place: Place, e: Event)
      modifies this`logs, this`journal
      ensures Value() == Append(old(Value()), place, e)
    {
      logs := logs[place := LogAt(logs, place) + [e]];
      journal := journal[e.at.day := JournalAt(journal, e.at.day) + [e]];
    }

    method CreateOperatorMatter(v: MatterValues, now: Stamp, w: Workflow) returns (r: Result<Matter>)
      requires Valid()
      modifies this
      ensures (Value(), r) == CreateMatter(old(Value()), v, now, w)
      ensures Valid()
    {
      CreateKeepsInv(Value(), v, now, w);
      if !demo {
        return Err(NotDemoRepo);
      }
      var prepared := Prepare(v);
      if prepared.Err? {
        return Err(prepared.error);
      }
      r := WriteMatter(prepared.value, v, now, w);
    }

    /** The writes of a creation, in file order. */
    method WriteMatter(p: Prepared, v: MatterValues, now: Stamp, w: Workflow) returns (r: Result<Matter>)
      requires demo && Prepare(v) == Ok(p)
      modifies this
      ensures (Value(), r) == CreateMatter(old(Value()), v, now, w)
    {
      hide NextNumber, Indexed, SafeIdentifier, MatterId, PersonsOf, NewMatter;
      hide Created, RecordsWritten, Attach, CreateMatter;
      ghost var before := Value();
      var year := YearText(now.day);
      var number := NextMatterNumber(year);
      var place := Place(year, MatterId(year, number));
      persons := persons + PersonsOf(p, place.id);
      var originals := AttachDocumentFiles(staged, w.files, DocumentId(place.id), v.documentFiles);
      assert originals == OriginalsOf(before, v, now, w);
      if originals.Err? {
        CreationStops(before, v, now, w, p);
        return Err(originals.error);
      }
      var matter := NewMatter(p, place.id, number, now, w);
      WriteRecords(p, place, matter, originals.value, now, w);
      CreationSucceeds(before, v, now, w, p);
      CreatedInOrder(before, p, place, number, originals.value, now, w);
      r := Ok(matter);
    }

    /** The document, the matter, its checklist and its first event; then the indexes. */
    method WriteRecords(p: Prepared, place: Place, matter: Matter, originals: seq<Original>, now: Stamp, w: Workflow)
      modifies this
      ensures Value() == Indexed(RecordsWritten(old(Value()), p, place, matter, originals, now, w))
    {
      hide Append, NewDocument, Scan;
      documents := documents[DocumentId(place.id) := NewDocument(p, place.id, originals)];
      matters := matters[place := matter];
      checklists := checklists[place := Checklist(matter.binding, w.sections)];
      AppendEvent(place, MatterCreated(place.id, now, p.status, matter.binding));
      RebuildOperatorIndexes();
    }

    method UpdateOperatorMatterStatus(
      idText: string, statusText: string, reasonText: string, now: Stamp)
      returns (r: Result<Matter>)
      requires Valid()
      modifies this
      ensures (Value(), r) == UpdateStatus(old(Value()), idText, statusText, reasonText, now)
      ensures Valid()
    {
      hide Inv, Shaped, UpdateStatus;
      UpdateKeepsInv(Value(), idText, statusText, reasonText, now);
      InvIsShaped(Value());
      r := ChangeStatus(idText, statusText, reasonText, now);
    }

    method ChangeStatus(idText: string, statusText: string, reasonText: string, now: Stamp) returns (r: Result<Matter>)
      requires Shaped(Value())
      modifies this
      ensures (Value(), r) == UpdateStatus(old(Value()), idText, statusText, reasonText, now)
    {
      hide Shaped, Scan, FindPlace, ReadStatusRequest;
      if !demo {
        return Err(NotDemoRepo);
      }
      var request := ReadStatusRequest(idText, statusText, reasonText);
      if request.Err? {
        return Err(request.error);
      }
      var place := FindMatterFile(request.value.id);
      if place.None? {
        return Err(NotFound);
      }
      SetStatus(place.value, request.value.status, request.value.reason, now);
      r := Ok(matters[place.value]);
    }

    method SetStatus(place: Place, status: Status, reason: string, now: Stamp)
      requires place in matters
      modifies this
      ensures Value() == Indexed(StatusSet(old(Value()), place, status, reason, now))
    {
      hide Scan;
      var matter := matters[place];
      var previous := matter.status;
      matters := matters[place := matter.(status := status, statusReason := reason, updatedAt := now)];
      AppendEvent(place, StatusChanged(place.id, now, previous, status, reason));
      RebuildOperatorIndexes();
    }

    method CreateImportProposal(v: ProposalValues, now: Stamp) returns (r: Result<Proposal>)
      requires Valid()
      modifies this
      ensures (Value(), r) == CreateProposal(old(Value()), v, now)
      ensures Valid()
    {
      hide Inv, CreateProposal;
      ProposedKeepsInv(Value(), v, now);
      r := FileProposal(v, now);
    }

    method FileProposal(v: ProposalValues, now: Stamp) returns (r: Result<Proposal>)
      modifies this
      ensures (Value(), r) == CreateProposal(old(Value()), v, now)
    {
      hide ReadProposalHeader, ProposedValues, SafeIdentifier, NextProposalId, Stage, PathsOf;
      if !demo {
        return Err(NotDemoRepo);
      }
      var header := ReadProposalHeader(v);
      if header.Err? {
        return Err(header.error);
      }
      var id := ProposalId(header.value.title, now.day);
      var files, failure := StageImportSourceFiles(id, v.uploads, v.synthetic);
      if failure.Some? {
        return Err(failure.value);
      }
      var values := ProposedValues(v, header.value);
      if values.Err? {
        return Err(values.error);
      }
      var proposal := Proposal(id, Pending, now, values.value, files);
      proposals := proposals[SafeIdentifier(id) := proposal];
      r := Ok(proposal);
    }

    /** Every upload is written as it comes, so what was staged before a failure stays. */
    method StageImportSourceFiles(proposalId: string, uploads: seq<Upload>, synthetic: bool)
      returns (files: seq<StagedFile>, failure: Option<Error>)
      modifies this`staged
      ensures Staging(files, failure) == Stage(proposalId, uploads, synthetic, |uploads|)
      ensures staged == old(staged) + PathsOf(files)
    {
      hide CleanText, SafeFilename, Decimal, PathsOf, StagedPath;
      files, failure := [], None;
      assert PathsOf([]) == {} by { NothingStaged(); }
      for i := 0 to |uploads|
        invariant failure == None && Staging(files, None) == Stage(proposalId, uploads, synthetic, i)
        invariant staged == old(staged) + PathsOf(files)
      {
        var upload := uploads[i];
        var caption := CleanText(Or(upload.caption, "Datei " + Decimal(i + 1)));
        var name := CleanText(Or(upload.filename, "datei-" + Decimal(i + 1)));
        var mediaType := CleanText(Or(upload.mediaType, DEFAULT_MEDIA_TYPE));
        failure := FirstFailure(caption, name, mediaType, upload.content, synthetic);
        if failure.Some? {
          StageStops(proposalId, uploads, synthetic, i + 1);
          return;
        }
        var filename := SafeFilename(name.value);
        var path := if upload.content.NoContent? then "" else StagedPath(proposalId, filename);
        var file := StagedFile(caption.value, filename, mediaType.value, path);
        PathsOfAppend(files, file);
        assert path != "" <==> upload.content.Readable? by { StagedPathIsText(proposalId, filename); }
        if path != "" {
          staged := staged + {path};
        }
        files := files + [file];
      }
    }

    /** `next_import_proposal_id` on the proposal files of this repository. */
    method ProposalId(title: string, day: Day) returns (id: string)
      ensures id == NextProposalId(Value(), title, day)
    {
      ghost var probes;
      id, probes := NextImportProposalId(proposals.Keys, DateDigits(day), title);
      var base := ProposalBase(DateDigits(day), title);
      ProposalBaseIsTidy(DateDigits(day), title);
      var k := FirstFree(proposals.Keys, base);
      assert k == probes by {
        hide CandidateFile;
        assert !(k < probes) && !(probes < k);
      }
    }

    method AcceptImportProposal(
      idText: string, createdAt: Stamp, acceptedAt: Stamp, w: Workflow)
      returns (r: Result<Matter>)
      requires Valid()
      modifies this
      ensures (Value(), r) == AcceptProposal(old(Value()), idText, createdAt, acceptedAt, w)
      ensures Valid()
    {
      AcceptKeepsInv(Value(), idText, createdAt, acceptedAt, w);
      if !demo {
        return Err(NotDemoRepo);
      }
      var id := RequiredText(idText);
      if id.Err? {
        return Err(id.error);
      }
      var file := SafeIdentifier(id.value);
      if file !in proposals {
        return Err(NotFound);
      }
      if proposals[file].state != Pending {
        return Err(AlreadyProcessed);
      }
      r := AcceptPending(file, id.value, createdAt, acceptedAt, w);
    }

    method AcceptPending(
      file: string, id: string, createdAt: Stamp, acceptedAt: Stamp, w: Workflow)
      returns (r: Result<Matter>)
      requires Valid() && file in proposals
      modifies this
      ensures var before := old(Value());
        var values := ValuesOf(before.proposals[file]);
        var (created, made) := CreateMatter(before, values, createdAt, w);
        && r == made
        && (made.Ok? ==> file in created.proposals)
        && (made.Ok? ==>
              Value() == Indexed(AcceptanceRecorded(created, file, id, NextPlace(before, createdAt), made.value, acceptedAt)))
        && (made.Err? ==> Value() == created)
    {
      hide CreateMatter, NextNumber, Scan, Inv, ValuesOf;
      ghost var before := Value();
      var proposal := proposals[file];
      var values := ValuesOf(proposal);
      r := CreateOperatorMatter(values, createdAt, w);
      if r.Err? {
        return;
      }
      var matter := r.value;
      CreateAdds(before, values, createdAt, w);
      proposals := proposals[file := proposal.(state := Accepted(acceptedAt, matter.id, matter.number))];
      AppendEvent(Place(YearText(createdAt.day), matter.id), ProposalAccepted(matter.id, acceptedAt, id));
      RebuildOperatorIndexes();
    }

    /** `list_operator_matters`: every matter, with per-usecase counters. */
    method ListOperatorMatters() returns (counts: map<string, Counts>, listed: seq<Matter>)
      ensures listed == Scan(Value()).matters && |listed| == |matters|
      ensures IsCounted(counts, listed)
      ensures SumOfTotals(counts) == |matters|
    {
      KeyOrders();
      listed := ReadInKeyOrder(matters, PlaceLess);
      counts := CountMatters(listed);
    }
  }
}
