/** The three index files of the case-file store against a fresh scan of its records. */
module OperatorIndexes {
  import opened Text
  import opened Identifiers
  import opened Ordering
  import opened OperatorRequests
  import opened OperatorFiles
  import opened OperatorStore
  import opened OperatorRuns

  ghost predicate IndexFresh(s: Store) { s.index == Scan(s) }

  /** The step reported success. */
  ghost predicate Succeeds(s: Store, op: Op) {
    match op
    case Create(v, now, w) => CreateMatter(s, v, now, w).1.Ok?
    case SetStatus(id, status, reason, now) => UpdateStatus(s, id, status, reason, now).1.Ok?
    case Propose(v, now) => CreateProposal(s, v, now).1.Ok?
    case Accept(id, createdAt, acceptedAt, w) => AcceptProposal(s, id, createdAt, acceptedAt, w).1.Ok?
  }

  /** The person files a request writes before one of its files cannot be attached; others write none outside the indexes. */
  ghost function Orphans(s: Store, op: Op): map<string, Person> {
    if StopsHalfway(s, op) then
      var (v, now, _) := NumberedValues(s, op);
      NumberedIsPrepared(s, op);
      PersonsOf(Prepare(v).value, NextPlace(s, now).id)
    else map[]
  }

  /** These files are on disk with these very contents. */
  ghost predicate Holds(persons: map<string, Person>, files: map<string, Person>) {
    forall id <- files :: id in persons && persons[id] == files[id]
  }

  lemma {:induction false} IndexedIsFresh(s: Store)
    ensures IndexFresh(Indexed(s))
  {
    hide InKeyOrder;
  }

  /** After every successful creation, status change or acceptance the indexes equal a fresh scan, whatever was before. */
  lemma {:induction false} SuccessReindexes(s: Store, op: Op)
    requires !op.Propose? && Succeeds(s, op)
    ensures IndexFresh(Step(s, op))
  {
    hide IndexFresh, Indexed, CreateMatter, UpdateStatus, AcceptProposal, Created, StatusSet, AcceptanceRecorded, Scan;
    match op
    case Create(v, now, w) =>
      CreateAdds(s, v, now, w);
      var number, originals := NextNumber(s, YearText(now.day)), OriginalsOf(s, v, now, w).value;
      IndexedIsFresh(Created(s, Prepare(v).value, NextPlace(s, now), number, originals, now, w));
    case SetStatus(id, status, reason, now) =>
      var place, to, why := UpdateSets(s, id, status, reason, now);
      IndexedIsFresh(StatusSet(s, place, to, why, now));
    case Accept(idText, createdAt, acceptedAt, w) =>
      var id, file, values := AcceptAdds(s, idText, createdAt, acceptedAt, w);
      var (created, made) := CreateMatter(s, values, createdAt, w);
      IndexedIsFresh(AcceptanceRecorded(created, file, id, NextPlace(s, createdAt), made.value, acceptedAt));
  }

  ghost predicate Reindexes(s: Store, op: Op) {
    !op.Propose? && Succeeds(s, op)
  }

  /** A numbered request reindexes exactly unless it stops halfway. */
  lemma {:induction false} NumberedReindexes(s: Store, op: Op)
    requires TakesNumber(s, op)
    ensures Reindexes(s, op) <==> !StopsHalfway(s, op)
  {
    hide CreateMatter, StopsHalfway, NextPlace, Prepare, SafeIdentifier, RequiredText;
    hide AcceptanceRecorded, Indexed, ValuesOf;
    HalfwayExactly(s, op);
  }

  /** A step that does not reindex changes no indexed record, except for the orphans it writes. */
  lemma {:induction false} UnindexedStep(s: Store, op: Op)
    requires !Reindexes(s, op)
    ensures var s' := Step(s, op);
      && s'.index == s.index && s'.matters == s.matters && s'.documents == s.documents
      && s'.persons == s.persons + Orphans(s, op)
  {
    hide CreateMatter, UpdateStatus, AcceptProposal, CreateProposal, Prepare, PersonsOf;
    hide NextPlace, StopsHalfway, TakesNumber;
    match op
    case SetStatus(id, status, reason, now) =>
      var place, to, why := UpdateSets(s, id, status, reason, now);
      OnlyNumberedStop(s, op);
    case Propose(v, now) =>
      ProposeKeeps(s, v, now);
      OnlyNumberedStop(s, op);
    case _ =>
      if TakesNumber(s, op) {
        NumberedReindexes(s, op);
        HalfwayLeavesPersons(s, op);
      } else {
        RefusedKeeps(s, op);
        OnlyNumberedStop(s, op);
      }
  }

  lemma {:induction false} OnlyNumberedStop(s: Store, op: Op)
    ensures StopsHalfway(s, op) ==> TakesNumber(s, op)
    ensures TakesNumber(s, op) ==> op.Create? || op.Accept?
  {
    hide Prepare, SafeIdentifier, RequiredText;
  }

  /** Indexes of these records without some later person files are fresh exactly when the files say nothing new. */
  lemma {:induction false} FreshExactly(s: Store, persons: map<string, Person>, files: map<string, Person>)
    requires s.persons == persons + files && s.index == Scan(s.(persons := persons))
    ensures IndexFresh(s) <==> Holds(persons, files)
  {
    hide InKeyOrder, StrictOrder, Total;
    KeyOrders();
    if Holds(persons, files) {
      assert persons + files == persons;
      assert s.(persons := persons) == s;
    }
    if IndexFresh(s) {
      assert InKeyOrder(persons, PersonLess) == InKeyOrder(s.persons, PersonLess);
      InKeyOrderTellsMap(persons, s.persons, PersonLess);
      assert forall id <- files :: s.persons[id] == files[id];
    }
  }

  /** Fresh indexes stay fresh through a step exactly when every orphan it writes is already on disk as it is. */
  lemma {:induction false} StepKeepsIndex(s: Store, op: Op)
    requires IndexFresh(s)
    ensures IndexFresh(Step(s, op)) <==> Holds(s.persons, Orphans(s, op))
  {
    hide Step, Succeeds, Scan, Holds, Orphans;
    if Reindexes(s, op) {
      SuccessReindexes(s, op);
      ReindexingLeavesNoOrphans(s, op);
    } else {
      UnindexedStep(s, op);
      RecordsAsBefore(s, Step(s, op), s.persons);
      FreshExactly(Step(s, op), s.persons, Orphans(s, op));
    }
  }

  lemma {:induction false} ReindexingLeavesNoOrphans(s: Store, op: Op)
    requires Reindexes(s, op)
    ensures Orphans(s, op) == map[] && Holds(s.persons, Orphans(s, op))
  {
    hide Reindexes, StopsHalfway, TakesNumber, PersonsOf, NextPlace, Prepare;
    OnlyNumberedStop(s, op);
    if StopsHalfway(s, op) { NumberedReindexes(s, op); }
  }

  lemma {:induction false} RecordsAsBefore(s: Store, s': Store, persons: map<string, Person>)
    requires s'.matters == s.matters && s'.documents == s.documents
    ensures Scan(s'.(persons := persons)) == Scan(s.(persons := persons))
  {
    hide InKeyOrder;
  }

  // ---- Over runs ----

  /** The person files as they were when the run last rebuilt the indexes. */
  ghost function IndexedPersons(ops: seq<Op>): map<string, Person>
    decreases |ops|
  {
    if ops == [] then map[]
    else
      var n := |ops| - 1;
      if Reindexes(Run(EmptyStore(), ops[..n]), ops[n]) then Run(EmptyStore(), ops).persons else IndexedPersons(ops[..n])
  }

  /** What requests that stopped halfway have written since then, the later file winning. */
  ghost function OrphansSince(ops: seq<Op>): map<string, Person>
    decreases |ops|
  {
    if ops == [] then map[]
    else
      var n := |ops| - 1;
      var before := Run(EmptyStore(), ops[..n]);
      if Reindexes(before, ops[n]) then map[] else OrphansSince(ops[..n]) + Orphans(before, ops[n])
  }

  /** At any time the indexes are those of the last rebuilding, and only orphans were written since. */
  lemma {:induction false} RunIndexes(ops: seq<Op>)
    ensures var s := Run(EmptyStore(), ops);
      s.persons == IndexedPersons(ops) + OrphansSince(ops) && s.index == Scan(s.(persons := IndexedPersons(ops)))
    decreases |ops|
  {
    hide Step, Scan, Orphans, Reindexes;
    if ops == [] {
      NothingToIndex();
    } else {
      var n := |ops| - 1;
      var before, s := Run(EmptyStore(), ops[..n]), Run(EmptyStore(), ops);
      RunIndexes(ops[..n]);
      if Reindexes(before, ops[n]) {
        RebuiltFromRecords(before, ops[n]);
      } else {
        UnindexedStep(before, ops[n]);
        RecordsAsBefore(before, s, IndexedPersons(ops[..n]));
      }
    }
  }

  lemma {:induction false} RebuiltFromRecords(s: Store, op: Op)
    requires Reindexes(s, op)
    ensures var s' := Step(s, op); s'.persons == s'.persons + map[] && s'.index == Scan(s'.(persons := s'.persons))
  {
    hide Step, Succeeds, Scan;
    SuccessReindexes(s, op);
    var s' := Step(s, op);
    assert s'.(persons := s'.persons) == s';
  }

  /** After any run the indexes are fresh exactly when every orphan written since they were rebuilt says nothing new. */
  lemma {:induction false} RunKeepsIndex(ops: seq<Op>)
    ensures IndexFresh(Run(EmptyStore(), ops)) <==> Holds(IndexedPersons(ops), OrphansSince(ops))
  {
    hide Run, IndexFresh, Scan, Holds, IndexedPersons, OrphansSince;
    RunIndexes(ops);
    FreshExactly(Run(EmptyStore(), ops), IndexedPersons(ops), OrphansSince(ops));
  }

  lemma {:induction false} NothingToIndex()
    ensures IndexFresh(EmptyStore()) && EmptyStore().persons == map[] + map[]
    ensures EmptyStore().(persons := map[]) == EmptyStore()
  {
    hide SortedKeys;
    KeyOrders();
    var s := EmptyStore();
    assert |InKeyOrder(s.matters, PlaceLess)| == 0;
    assert |InKeyOrder(s.persons, PersonLess)| == 0;
    assert |InKeyOrder(s.documents, StringLess)| == 0;
  }

  /** A request that stops halfway leaves its person files outside the indexes: stale, unless these were there before. */
  lemma {:induction false} OrphansStayUnindexed(s: Store, op: Op)
    requires IndexFresh(s) && StopsHalfway(s, op)
    ensures var s' := Step(s, op); var id := NextPlace(s, NumberedValues(s, op).1).id;
      && s'.index == s.index && s'.matters == s.matters
      && ClientId(id) in s'.persons && ParticipantId(id) in s'.persons
      && (ClientId(id) !in s.persons || ParticipantId(id) !in s.persons ==> !IndexFresh(s'))
  {
    hide CreateMatter, NextPlace, Prepare, Step, IndexFresh, ClientId;
    hide ParticipantId, StopsHalfway, TakesNumber, NumberedValues;
    OnlyNumberedStop(s, op);
    NumberedReindexes(s, op);
    UnindexedStep(s, op);
    StepKeepsIndex(s, op);
  }

  // ---- Requests that stop halfway, and one that does not ----

  lemma {:induction false} FilesOfPlain(files: seq<FileRef>)
    ensures PlainRequest(files).documentFiles == files
  {
  }

  /** In a repository without files, a request with one file that is not attachable makes the indexes stale. */
  lemma {:induction false} FirstOrphans(r: FileRef, now: Stamp, w: Workflow)
    requires !Attachable({}, w.files, r, 1)
    ensures !IndexFresh(Run(EmptyStore(), [Create(PlainRequest([r]), now, w)]))
  {
    hide IndexFresh, Step, Prepare, PlainRequest, NextPlace, Attachable, StopsHalfway;
    var op := Create(PlainRequest([r]), now, w);
    OneFileStops(EmptyStore(), r, now, w);
    NothingToIndex();
    OrphansStayUnindexed(EmptyStore(), op);
    assert [op][..0] == [];
    assert Run(EmptyStore(), [op][..0]) == EmptyStore();
  }

  /** A plain request with one file is numbered, and stops halfway exactly when the file cannot be attached. */
  lemma {:induction false} OneFileStops(s: Store, r: FileRef, now: Stamp, w: Workflow)
    requires s.demo
    ensures var op := Create(PlainRequest([r]), now, w);
      TakesNumber(s, op) && (StopsHalfway(s, op) <==> !Attachable(s.staged, w.files, r, 1))
  {
    hide Prepare, PlainRequest, Attachable;
    var v := PlainRequest([r]);
    PlainRequestIsPrepared([r]);
    FilesOfPlain([r]);
    assert |v.documentFiles| == 1 && v.documentFiles[0] == r;
    var (numbered, _, found) := NumberedValues(s, Create(v, now, w));
    assert numbered == v && found == w;
    if !Attachable(s.staged, w.files, r, 1) {
      assert !Attachable(s.staged, found.files, numbered.documentFiles[0], 0 + 1);
    }
  }

  /** A missing file, and a file that is there but whose label holds a line break or is too long. */
  lemma {:induction false} FilesThatLeaveOrphans(r: FileRef, w: Workflow)
    requires r.source == "x.pdf"
    ensures "x.pdf" !in w.files ==> !Attachable({}, w.files, r, 1)
    ensures r.caption == "a\nb" || r.caption == seq(600, _ => 'a') ==> !Attachable({}, w.files, r, 1)
  {
    hide Strip, OriginalLabel;
    StripOfSolid("x.pdf");
    StripOfSolid("a\nb");
    StripOfSolid(seq(600, _ => 'a'));
    assert "a\nb"[1] == '\n';
  }

  /** A blank source is skipped: such a request succeeds in every demo repository. */
  lemma {:induction false} BlankSourceIsSkipped(s: Store, r: FileRef, now: Stamp, w: Workflow)
    requires s.demo && Strip(r.source) == ""
    ensures IndexFresh(Step(s, Create(PlainRequest([r]), now, w)))
    ensures CreateMatter(s, PlainRequest([r]), now, w).1.Ok?
  {
    hide IndexFresh, Step, Prepare, PlainRequest, NextPlace, Strip, CreateMatter, StopsHalfway, Attachable, TakesNumber;
    var op := Create(PlainRequest([r]), now, w);
    OneFileStops(s, r, now, w);
    assert Attachable(s.staged, w.files, r, 1) by { BlankIsAttachable(s.staged, w.files, r); }
    NumberedReindexes(s, op);
    SuccessReindexes(s, op);
  }

  lemma {:induction false} BlankIsAttachable(staged: set<string>, others: map<string, string>, r: FileRef)
    requires Strip(r.source) == ""
    ensures Attachable(staged, others, r, 1)
  {
    hide Strip;
  }
}
