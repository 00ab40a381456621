/** Matter numbers over runs: consecutive, fresh up to the four-digit bound, and never disturbed below it. */
module OperatorNumbering {
  import opened Options
  import opened Identifiers
  import opened OperatorRequests
  import opened OperatorStore
  import opened OperatorRuns

  function Min(a: nat, b: nat): nat { if a < b then a else b }

  /** The year's matters carry exactly the numbers 1 to `c`, capped at 10000. */
  ghost predicate Numbered(s: Store, year: string, c: nat) {
    forall n: nat :: Has(s, year, n) <==> 1 <= n <= Min(c, 10000)
  }

  /** Does this step create a matter in this year? */
  ghost predicate CreatesIn(s: Store, op: Op, year: string) {
    match op
    case Create(v, now, w) => YearText(now.day) == year && CreateMatter(s, v, now, w).1.Ok?
    case Accept(idText, createdAt, acceptedAt, w) =>
      YearText(createdAt.day) == year && AcceptProposal(s, idText, createdAt, acceptedAt, w).1.Ok?
    case _ => false
  }

  /** How many matters a run creates in a year. */
  ghost function CountCreated(ops: seq<Op>, year: string): nat
    decreases |ops|
  {
    if ops == [] then 0
    else
      var front := ops[..|ops| - 1];
      CountCreated(front, year) + (if CreatesIn(Run(EmptyStore(), front), ops[|ops| - 1], year) then 1 else 0)
  }

  lemma {:induction false} PlaceNumber(s: Store, p: Place) returns (n: nat)
    requires Shaped(s) && p in s.matters
    ensures 1 <= n <= 10000 && p.id == MatterId(p.year, n) && Has(s, p.year, n)
    ensures ScannedNumber(p.year, p.id) == if n <= 9999 then n else 0
  {
    n :| 1 <= n <= 10000 && p.id == MatterId(p.year, n);
    ScanInvertsMatterId(p.year, n);
    assert p == Place(p.year, MatterId(p.year, n));
  }

  /** The scan finds the highest number it can parse, so the next number is one more, but never above 10000. */
  lemma {:induction false} NextNumberIs(s: Store, year: string, c: nat)
    requires Shaped(s) && Numbered(s, year, c)
    ensures NextNumber(s, year) == Min(c + 1, 10000)
  {
    hide MatterId, ScannedNumber, NumberedPlace;
    var numbers := ScannedNumbers(s.matters.Keys, year);
    var top := Min(c, 9999);
    forall k <- numbers ensures k <= top {
      var p :| p in s.matters.Keys && p.year == year && k == ScannedNumber(year, p.id);
      var n := PlaceNumber(s, p);
    }
    if top > 0 {
      assert Has(s, year, top);
      ScanInvertsMatterId(year, top);
      var p := Place(year, MatterId(year, top));
      assert p in s.matters.Keys && ScannedNumber(year, p.id) == top;
      assert top in numbers;
    }
  }

  /** A new place of some year adds its own number to that year, and none to the others. */
  lemma {:induction false} HasAfterCreate(s: Store, s': Store, year: string, number: nat, other: string, n: nat)
    requires IsYear(year) && IsYear(other)
    requires s'.matters.Keys == s.matters.Keys + {Place(year, MatterId(year, number))}
    ensures Has(s', other, n) <==> Has(s, other, n) || (other == year && n == number)
  {
    hide MatterId;
    if Place(other, MatterId(other, n)) == Place(year, MatterId(year, number)) {
      MatterIdIsInjective(other, n, year, number);
    }
  }

  lemma {:induction false} CreateNumbers(s: Store, v: MatterValues, now: Stamp, w: Workflow, year: string, c: nat)
    requires Shaped(s) && IsYear(year) && Numbered(s, year, c)
    ensures var (s', r) := CreateMatter(s, v, now, w);
      Numbered(s', year, if r.Ok? && YearText(now.day) == year then c + 1 else c)
  {
    hide MatterId, CreateMatter, NextNumber, Shaped, Scan, Created;
    var (s', r) := CreateMatter(s, v, now, w);
    if r.Ok? {
      CreateAdds(s, v, now, w);
      var number := NextNumber(s, YearText(now.day));
      forall n: nat ensures Has(s', year, n) <==> Has(s, year, n) || (year == YearText(now.day) && n == number) {
        HasAfterCreate(s, s', YearText(now.day), number, year, n);
      }
      NextNumberIs(s, year, c);
    } else {
      FailedCreateKeeps(s, v, now, w);
      assert forall n: nat :: Has(s', year, n) <==> Has(s, year, n);
    }
  }

  lemma {:induction false} SamePlacesNumber(s: Store, s': Store, year: string, c: nat)
    requires s'.matters.Keys == s.matters.Keys && Numbered(s, year, c)
    ensures Numbered(s', year, c)
  {
    assert forall n: nat :: Has(s', year, n) <==> Has(s, year, n);
  }

  lemma {:induction false} UpdateKeepsPlaces(s: Store, idText: string, statusText: string, reasonText: string, now: Stamp)
    ensures UpdateStatus(s, idText, statusText, reasonText, now).0.matters.Keys == s.matters.Keys
  {
    hide UpdateStatus, Scan;
    var place, status, reason := UpdateSets(s, idText, statusText, reasonText, now);
  }

  lemma {:induction false} AcceptNumbers(
    s: Store, idText: string, createdAt: Stamp, acceptedAt: Stamp, w: Workflow, year: string, c: nat)
    requires Shaped(s) && IsYear(year) && Numbered(s, year, c)
    ensures var (s', r) := AcceptProposal(s, idText, createdAt, acceptedAt, w);
      Numbered(s', year, if r.Ok? && YearText(createdAt.day) == year then c + 1 else c)
  {
    hide Numbered, CreateMatter, AcceptProposal, NextPlace, Shaped, Scan;
    var id, file, values := AcceptAdds(s, idText, createdAt, acceptedAt, w);
    CreateNumbers(s, values, createdAt, w, year, c);
    var (s', r) := AcceptProposal(s, idText, createdAt, acceptedAt, w);
    var (created, made) := CreateMatter(s, values, createdAt, w);
    if s' == created && made.Err? {
      FailedCreateKeeps(s, values, createdAt, w);
      SamePlacesNumber(s, s', year, c);
    } else if r.Ok? {
      CreateAdds(s, values, createdAt, w);
      SamePlacesNumber(created, s', year, if YearText(createdAt.day) == year then c + 1 else c);
    }
  }

  lemma {:induction false} StepNumbers(s: Store, op: Op, year: string, c: nat)
    requires Inv(s) && IsYear(year) && Numbered(s, year, c)
    ensures Numbered(Step(s, op), year, if CreatesIn(s, op, year) then c + 1 else c)
  {
    hide Inv, Numbered, CreateMatter, UpdateStatus, CreateProposal, AcceptProposal, IsYear;
    InvIsShaped(s);
    match op
    case Create(v, now, w) => CreateNumbers(s, v, now, w, year, c);
    case SetStatus(idText, statusText, reasonText, now) =>
      UpdateKeepsPlaces(s, idText, statusText, reasonText, now);
      SamePlacesNumber(s, Step(s, op), year, c);
    case Propose(v, now) =>
      ProposeKeeps(s, v, now);
      SamePlacesNumber(s, Step(s, op), year, c);
    case Accept(idText, createdAt, acceptedAt, w) => AcceptNumbers(s, idText, createdAt, acceptedAt, w, year, c);
  }

  /** The k-th creation of a year gets number k: over every run the numbers are 1 to the count of creations, capped at 10000. */
  lemma {:induction false} RunNumbers(ops: seq<Op>, year: string)
    requires IsYear(year)
    ensures Numbered(Run(EmptyStore(), ops), year, CountCreated(ops, year))
    decreases |ops|
  {
    hide Inv, Step, IsYear, CreatesIn;
    if ops != [] {
      var front := ops[..|ops| - 1];
      RunNumbers(front, year);
      RunKeepsInv(front);
      StepNumbers(Run(EmptyStore(), front), ops[|ops| - 1], year, CountCreated(front, year));
    }
  }

  /** After `k` creations in a year the next one gets number `k + 1`, and its place is new, exactly while `k < 10000`. */
  lemma {:induction false} NextCreationIsFresh(ops: seq<Op>, now: Stamp)
    ensures var s := Run(EmptyStore(), ops); var year := YearText(now.day); var k := CountCreated(ops, year);
      && NextPlace(s, now) == Place(year, MatterId(year, Min(k + 1, 10000)))
      && (NextPlace(s, now) !in s.matters <==> k < 10000)
  {
    hide Inv, Step, MatterId, CountCreated, Run;
    var s, year := Run(EmptyStore(), ops), YearText(now.day);
    RunNumbers(ops, year);
    RunKeepsInv(ops);
    InvIsShaped(s);
    NextNumberIs(s, year, CountCreated(ops, year));
    assert NextPlace(s, now) in s.matters <==> Has(s, year, NextNumber(s, year));
  }

  /** On a taken place (so beyond the bound) a creation replaces the record and starts its log a second time. */
  lemma {:induction false} CreationOverwritesTakenPlace(
    s: Store, v: MatterValues, now: Stamp, w: Workflow, place: Place, e: Event)
    requires Inv(s) && place == NextPlace(s, now) && place in s.matters
    requires CreateMatter(s, v, now, w).1.Ok?
    requires var made := CreateMatter(s, v, now, w).1.value; e == MatterCreated(place.id, now, made.status, made.binding)
    ensures var (s', r) := CreateMatter(s, v, now, w);
      && s'.matters == s.matters[place := r.value]
      && LogAt(s'.logs, place) == LogAt(s.logs, place) + [e]
    ensures LogAt(s.logs, place) != [] && LogAt(s.logs, place)[0].MatterCreated?
  {
    hide CreateMatter, NextPlace, NextNumber, Created, Scan, Resolves, NumberedPlace, MatterId;
    CreateAdds(s, v, now, w);
    assert Agrees(s, place);
  }

  /** The bound is reached: plain creations are numbered one after the other. */
  lemma {:induction false} BoundReached(now: Stamp, w: Workflow, n: nat) returns (ops: seq<Op>)
    ensures CountCreated(ops, YearText(now.day)) == n
    ensures CreateMatter(Run(EmptyStore(), ops), PlainRequest([]), now, w).1.Ok?
  {
    hide Step, PlainRequest, CreateMatter, YearText;
    if n == 0 {
      ops := [];
    } else {
      var front := BoundReached(now, w, n - 1);
      ops := front + [Create(PlainRequest([]), now, w)];
      assert ops[..|ops| - 1] == front;
    }
    RunKeepsDemo(ops);
    PlainRequestSucceeds(Run(EmptyStore(), ops), now, w);
  }

  lemma {:induction false} PlainRequestSucceeds(s: Store, now: Stamp, w: Workflow)
    requires s.demo
    ensures CreateMatter(s, PlainRequest([]), now, w).1.Ok?
  {
    hide Prepare, NextPlace, NextNumber, Created, NewMatter, PersonsOf, Scan;
    PlainRequestIsPrepared([]);
    assert OriginalsOf(s, PlainRequest([]), now, w) == Ok([]);
  }

  /** So there is a run after which a creation succeeds on a place that is taken. */
  lemma {:induction false} TakenPlaceIsReached(now: Stamp, w: Workflow) returns (ops: seq<Op>)
    ensures var s := Run(EmptyStore(), ops);
      && CountCreated(ops, YearText(now.day)) == 10000
      && NextPlace(s, now) in s.matters && CreateMatter(s, PlainRequest([]), now, w).1.Ok?
      && NextPlace(s, now) == NextPlace(CreateMatter(s, PlainRequest([]), now, w).0, now)
  {
    hide CreateMatter, NextPlace, CountCreated, MatterId, YearText, PlainRequest;
    ops := BoundReached(now, w, 10000);
    NextCreationIsFresh(ops, now);
    var more := ops + [Create(PlainRequest([]), now, w)];
    assert more[..|ops|] == ops;
    assert CountCreated(more, YearText(now.day)) == 10001 by { CountsOne(ops, PlainRequest([]), now, w); }
    NextCreationIsFresh(more, now);
  }

  lemma {:induction false} CountsOne(ops: seq<Op>, v: MatterValues, now: Stamp, w: Workflow)
    requires CreateMatter(Run(EmptyStore(), ops), v, now, w).1.Ok?
    ensures CountCreated(ops + [Create(v, now, w)], YearText(now.day)) == CountCreated(ops, YearText(now.day)) + 1
  {
    hide CreateMatter, YearText, Step;
    assert (ops + [Create(v, now, w)])[..|ops|] == ops;
  }

  // ---- Earlier matters stay as they are ----

  /** The step writes to no place that is already taken. */
  ghost predicate StaysFresh(s: Store, op: Op) {
    TakesNumber(s, op) ==>
      match op
      case Create(_, now, _) => NextPlace(s, now) !in s.matters
      case Accept(_, createdAt, _, _) => NextPlace(s, createdAt) !in s.matters
      case _ => true
  }

  /** What creation bound stays bound; the log only grows; the listed persons and document keep their contents. */
  ghost predicate Preserves(s: Store, s': Store, p: Place)
    requires p in s.matters
  {
    && p in s'.matters
    && OnlyStatusDiffers(s.matters[p], s'.matters[p])
    && LogAt(s.logs, p) <= LogAt(s'.logs, p)
    && (p in s.checklists ==> p in s'.checklists && s'.checklists[p] == s.checklists[p])
    && SameAt(s.persons, s'.persons, ClientId(p.id)) && SameAt(s.persons, s'.persons, ParticipantId(p.id))
    && SameAt(s.documents, s'.documents, DocumentId(p.id))
  }

  ghost predicate OnlyStatusDiffers(m: Matter, m': Matter) {
    m' == m.(status := m'.status, statusReason := m'.statusReason, updatedAt := m'.updatedAt)
  }

  ghost predicate SameAt<V>(m: map<string, V>, m': map<string, V>, k: string) {
    k in m ==> k in m' && m'[k] == m[k]
  }

  lemma {:induction false} WritingPersonsSpares(s: Store, p: Prepared, place: Place, q: Place)
    requires NumberedPlace(place) && NumberedPlace(q) && place != q
    ensures var persons := s.persons + PersonsOf(p, place.id);
      SameAt(s.persons, persons, ClientId(q.id)) && SameAt(s.persons, persons, ParticipantId(q.id))
    ensures DocumentId(place.id) != DocumentId(q.id)
  {
    hide MatterId, SafeIdentifier;
    DocumentIdsDiffer(place, q);
    PlaceIdIsCanonical(place);
    PlaceIdIsCanonical(q);
    PersonIdsDiffer(place.id, q.id);
  }

  lemma {:induction false} CreatePreserves(s: Store, v: MatterValues, now: Stamp, w: Workflow, q: Place)
    requires Inv(s) && q in s.matters && NextPlace(s, now) !in s.matters
    ensures Preserves(s, CreateMatter(s, v, now, w).0, q)
  {
    hide MatterId, SafeIdentifier, Agrees, ProposalsStored, Scan, NextNumber, CreateMatter, Prepare, PersonsOf;
    hide NumberedPlace, ClientId, ParticipantId, DocumentId;
    NextPlaceIsNumbered(s, now);
    var (s', r) := CreateMatter(s, v, now, w);
    if r.Ok? {
      CreateAdds(s, v, now, w);
      WritingPersonsSpares(s, Prepare(v).value, NextPlace(s, now), q);
    } else {
      FailedCreateKeeps(s, v, now, w);
      if s.demo && Prepare(v).Ok? {
        WritingPersonsSpares(s, Prepare(v).value, NextPlace(s, now), q);
      }
    }
  }

  lemma {:induction false} PreservesChains(a: Store, b: Store, c: Store, p: Place)
    requires p in a.matters && Agrees(a, p) && p.id == a.matters[p].id
    requires Preserves(a, b, p) && Preserves(b, c, p)
    ensures Preserves(a, c, p)
  {
    hide ClientId, ParticipantId, DocumentId, TellsStory;
  }

  lemma {:induction false} UpdatePreserves(
    s: Store, idText: string, statusText: string, reasonText: string, now: Stamp, q: Place)
    requires q in s.matters
    ensures Preserves(s, UpdateStatus(s, idText, statusText, reasonText, now).0, q)
  {
    hide UpdateStatus, Scan, ClientId, ParticipantId, DocumentId;
    var place, status, reason := UpdateSets(s, idText, statusText, reasonText, now);
  }

  lemma {:induction false} AcceptPreserves(
    s: Store, idText: string, createdAt: Stamp, acceptedAt: Stamp, w: Workflow, q: Place)
    requires Inv(s) && q in s.matters && NextPlace(s, createdAt) !in s.matters
    ensures Preserves(s, AcceptProposal(s, idText, createdAt, acceptedAt, w).0, q)
  {
    hide Inv, Agrees, CreateMatter, AcceptProposal, NextPlace, Scan, ClientId, ParticipantId, DocumentId;
    var id, file, values := AcceptAdds(s, idText, createdAt, acceptedAt, w);
    CreatePreserves(s, values, createdAt, w, q);
  }

  /** A step that stays fresh disturbs no existing matter. */
  lemma {:induction false} StepPreserves(s: Store, op: Op, q: Place)
    requires Inv(s) && q in s.matters && StaysFresh(s, op)
    ensures Preserves(s, Step(s, op), q)
  {
    hide Inv, CreateMatter, CreateProposal, AcceptProposal, UpdateStatus, NextPlace, ClientId, ParticipantId, DocumentId;
    hide TakesNumber;
    if (op.Create? || op.Accept?) && !TakesNumber(s, op) {
      RefusedKeeps(s, op);
      PreservesItself(s, q);
    } else {
      match op
      case Create(v, now, w) => CreatePreserves(s, v, now, w, q);
      case SetStatus(idText, statusText, reasonText, now) => UpdatePreserves(s, idText, statusText, reasonText, now, q);
      case Propose(v, now) => ProposeKeeps(s, v, now);
      case Accept(idText, createdAt, acceptedAt, w) => AcceptPreserves(s, idText, createdAt, acceptedAt, w, q);
    }
  }

  /** The year in which an operation may number a new matter. */
  function CreationYear(op: Op): Option<string> {
    match op
    case Create(_, now, _) => Some(YearText(now.day))
    case Accept(_, createdAt, _, _) => Some(YearText(createdAt.day))
    case _ => None
  }

  /** Every request of the run that takes a number comes while its year has fewer than 10000 matters. */
  ghost predicate WithinBound(ops: seq<Op>) {
    forall j :: 0 <= j < |ops| && CreationYear(ops[j]).Some? && TakesNumber(Run(EmptyStore(), ops[..j]), ops[j]) ==>
      CountCreated(ops[..j], CreationYear(ops[j]).value) < 10000
  }

  lemma {:induction false} BoundedPrefix(ops: seq<Op>, i: nat)
    requires WithinBound(ops) && i <= |ops|
    ensures WithinBound(ops[..i])
    ensures i < |ops| ==> StaysFresh(Run(EmptyStore(), ops[..i]), ops[i])
  {
    hide CountCreated, NextPlace, Run, MatterId, TakesNumber;
    assert forall j :: 0 <= j < i ==> ops[..i][..j] == ops[..j];
    if i < |ops| {
      match ops[i]
      case Create(_, now, _) => NextCreationIsFresh(ops[..i], now);
      case Accept(_, createdAt, _, _) => NextCreationIsFresh(ops[..i], createdAt);
      case _ =>
    }
  }

  /** Within the bound nothing that follows disturbs a matter: binding, checklist, persons and document stay as created. */
  lemma {:induction false} RunPreserves(ops: seq<Op>, i: nat, p: Place)
    requires i <= |ops| && p in Run(EmptyStore(), ops[..i]).matters
    requires WithinBound(ops)
    ensures Preserves(Run(EmptyStore(), ops[..i]), Run(EmptyStore(), ops), p)
    decreases |ops|
  {
    hide Step, WithinBound, StaysFresh, Preserves, Agrees, NumberedPlace;
    var s := Run(EmptyStore(), ops[..i]);
    RunKeepsInv(ops[..i]);
    if i == |ops| {
      assert ops[..i] == ops;
      PreservesItself(s, p);
    } else {
      var n := |ops| - 1;
      var front, op := ops[..n], ops[n];
      assert front[..i] == ops[..i];
      BoundedPrefix(ops, n);
      RunPreserves(front, i, p);
      var mid := Run(EmptyStore(), front);
      RunKeepsInv(front);
      KeepsPlace(s, mid, p);
      StepPreserves(mid, op, p);
      PreservesChains(s, mid, Step(mid, op), p);
    }
  }

  lemma {:induction false} KeepsPlace(s: Store, s': Store, p: Place)
    requires p in s.matters && Preserves(s, s', p)
    ensures p in s'.matters
  {
  }

  lemma {:induction false} PreservesItself(s: Store, p: Place)
    requires p in s.matters
    ensures Preserves(s, s, p)
  {
  }
}
