/** The daily journal of the case-file store holds every matter's own log, in order. */
module OperatorJournal {
  import opened Options
  import opened Identifiers
  import opened OperatorRequests
  import opened OperatorStore
  import opened OperatorRuns

  // ---- Days ----

  predicate DayBefore(a: Day, b: Day) {
    || a.year < b.year
    || (a.year == b.year && a.month < b.month)
    || (a.year == b.year && a.month == b.month && a.dayOfMonth < b.dayOfMonth)
  }

  predicate NotLater(a: Day, b: Day) { a == b || DayBefore(a, b) }

  function StartDay(op: Op): Day {
    match op
    case Create(_, now, _) => now.day
    case SetStatus(_, _, _, now) => now.day
    case Propose(_, now) => now.day
    case Accept(_, createdAt, _, _) => createdAt.day
  }

  function EndDay(op: Op): Day {
    if op.Accept? then op.acceptedAt.day else StartDay(op)
  }

  /** The clock readings of a run never fall back to an earlier day. */
  ghost predicate ClockMoves(ops: seq<Op>) {
    && (forall i :: 0 <= i < |ops| ==> NotLater(StartDay(ops[i]), EndDay(ops[i])))
    && (forall i, j :: 0 <= i < j < |ops| ==> NotLater(EndDay(ops[i]), StartDay(ops[j])))
  }

  // ---- Reading the journal ----

  /** The days of the journal files, in calendar order. */
  ghost predicate Chronological(days: seq<Day>, journal: map<Day, seq<Event>>) {
    && (forall i, j :: 0 <= i < j < |days| ==> DayBefore(days[i], days[j]))
    && (forall d :: d in days <==> d in journal)
  }

  /** The journal files of these days, one after the other. */
  function Flatten(journal: map<Day, seq<Event>>, days: seq<Day>): seq<Event> {
    if days == [] then [] else Flatten(journal, days[..|days| - 1]) + JournalAt(journal, days[|days| - 1])
  }

  function OfMatter(events: seq<Event>, id: string): seq<Event> {
    if events == [] then []
    else
      var e := events[|events| - 1];
      OfMatter(events[..|events| - 1], id) + (if e.matterId == id then [e] else [])
  }

  /** The log of the matter with this id; empty when there is none. */
  ghost function LogOf(s: Store, id: string): seq<Event> {
    match FindPlace(s, id) case None => [] case Some(p) => LogAt(s.logs, p)
  }

  /** In day order and filtered to any id, the journal is that matter's own log. */
  ghost predicate JournalAgrees(s: Store) {
    forall days, id :: Chronological(days, s.journal) ==> OfMatter(Flatten(s.journal, days), id) == LogOf(s, id)
  }

  ghost predicate Until(s: Store, day: Day) {
    forall d <- s.journal :: NotLater(d, day)
  }

  // ---- One appended event ----

  lemma {:induction false} OfMatterAppend(events: seq<Event>, e: Event, id: string)
    ensures OfMatter(events + [e], id) == OfMatter(events, id) + (if e.matterId == id then [e] else [])
  {
    assert (events + [e])[..|events|] == events;
  }

  lemma {:induction false} FlattenIgnoresOtherDays(a: map<Day, seq<Event>>, b: map<Day, seq<Event>>, days: seq<Day>)
    requires forall d <- days :: JournalAt(a, d) == JournalAt(b, d)
    ensures Flatten(a, days) == Flatten(b, days)
    decreases |days|
  {
    if days != [] {
      FlattenIgnoresOtherDays(a, b, days[..|days| - 1]);
    }
  }

  /** A day no other day comes after stands last, and once, in the calendar order. */
  lemma {:induction false} NewestStandsLast(journal: map<Day, seq<Event>>, days: seq<Day>, day: Day)
    requires Chronological(days, journal) && day in journal
    requires forall d <- journal :: NotLater(d, day)
    ensures days != [] && days[|days| - 1] == day && Chronological(days[..|days| - 1], journal - {day})
  {
    assert day in days;
    var k :| 0 <= k < |days| && days[k] == day;
    var n := |days| - 1;
    assert days[n] in days && days[n] in journal;
    assert k == n;
    forall d ensures d in days[..n] <==> d in journal - {day} {
      assert d in days <==> d in days[..n] || d == day;
    }
  }

  /** The day that was written last is the last of the day order; the rest reads as before. */
  lemma {:induction false} FlattenAppend(
    journal: map<Day, seq<Event>>, days: seq<Day>, e: Event)
    returns (before: seq<Day>)
    requires forall d <- journal :: NotLater(d, e.at.day)
    requires Chronological(days, journal[e.at.day := JournalAt(journal, e.at.day) + [e]])
    ensures Chronological(before, journal)
    ensures Flatten(journal[e.at.day := JournalAt(journal, e.at.day) + [e]], days) == Flatten(journal, before) + [e]
  {
    hide DayBefore, Flatten;
    assert NotLater(e.at.day, e.at.day);
    var day := e.at.day;
    var next := journal[day := JournalAt(journal, day) + [e]];
    NewestStandsLast(next, days, day);
    FlattenLast(journal, days, e);
    if day in journal {
      before := days;
      FlattenAtLast(journal, days, day);
    } else {
      before := days[..|days| - 1];
      assert next - {day} == journal;
    }
  }

  lemma {:induction false} FlattenAtLast(journal: map<Day, seq<Event>>, days: seq<Day>, day: Day)
    requires days != [] && days[|days| - 1] == day
    ensures Flatten(journal, days) == Flatten(journal, days[..|days| - 1]) + JournalAt(journal, day)
  {
  }

  lemma {:induction false} FlattenLast(journal: map<Day, seq<Event>>, days: seq<Day>, e: Event)
    requires days != [] && days[|days| - 1] == e.at.day
    requires var next := journal[e.at.day := JournalAt(journal, e.at.day) + [e]];
      Chronological(days[..|days| - 1], next - {e.at.day})
    ensures Flatten(journal[e.at.day := JournalAt(journal, e.at.day) + [e]], days)
         == Flatten(journal, days[..|days| - 1]) + JournalAt(journal, e.at.day) + [e]
  {
    var next := journal[e.at.day := JournalAt(journal, e.at.day) + [e]];
    var rest := days[..|days| - 1];
    forall d <- rest ensures JournalAt(journal, d) == JournalAt(next, d) {
      assert d in next - {e.at.day};
    }
    FlattenIgnoresOtherDays(journal, next, rest);
    FlattenAtLast(next, days, e.at.day);
  }

  /** What an append does to the store, as far as log and journal are concerned. */
  ghost predicate AppendsBoth(s: Store, s': Store, p: Place, e: Event) {
    && Shaped(s) && Shaped(s') && e.matterId == p.id && NumberedPlace(p)
    && s'.matters.Keys == s.matters.Keys + {p}
    && s'.logs == s.logs[p := LogAt(s.logs, p) + [e]]
    && s'.journal == s.journal[e.at.day := JournalAt(s.journal, e.at.day) + [e]]
  }

  lemma {:induction false} LogOfAppend(s: Store, s': Store, p: Place, e: Event, id: string)
    requires AppendsBoth(s, s', p, e)
    ensures LogOf(s', id) == LogOf(s, id) + (if id == p.id then [e] else [])
  {
    hide NumberedPlace, FindPlace;
    FindsPlace(s', p);
    FindsPlace(s, p);
    if id != p.id {
      OtherPlaceStays(s, s', p, id);
    }
  }

  /** A new place answers to no other id. */
  lemma {:induction false} OtherPlaceStays(s: Store, s': Store, p: Place, id: string)
    requires Shaped(s) && Shaped(s') && s'.matters.Keys == s.matters.Keys + {p} && id != p.id
    ensures FindPlace(s', id) == FindPlace(s, id) && FindPlace(s, id) != Some(p)
  {
    hide NumberedPlace;
    assert forall q :: IsPlaceOf(s', q, id) <==> IsPlaceOf(s, q, id);
    if FindPlace(s, id).Some? {
      FindsPlace(s', FindPlace(s, id).value);
    }
  }

  lemma {:induction false} AppendAgrees(s: Store, s': Store, p: Place, e: Event)
    requires AppendsBoth(s, s', p, e) && JournalAgrees(s) && Until(s, e.at.day)
    ensures JournalAgrees(s') && Until(s', e.at.day)
  {
    forall days, id | Chronological(days, s'.journal)
      ensures OfMatter(Flatten(s'.journal, days), id) == LogOf(s', id)
    {
      var before := FlattenAppend(s.journal, days, e);
      OfMatterAppend(Flatten(s.journal, before), e, id);
      LogOfAppend(s, s', p, e, id);
    }
  }

  /** Steps that write no event leave journal and logs alone. */
  lemma {:induction false} SameEventsAgree(s: Store, s': Store)
    requires Shaped(s) && Shaped(s') && s'.matters.Keys == s.matters.Keys && s'.logs == s.logs && s'.journal == s.journal
    requires JournalAgrees(s)
    ensures JournalAgrees(s')
  {
    hide NumberedPlace;
    forall id ensures LogOf(s', id) == LogOf(s, id) {
      assert forall q :: IsPlaceOf(s', q, id) <==> IsPlaceOf(s, q, id);
      if FindPlace(s, id).Some? {
        FindsPlace(s', FindPlace(s, id).value);
      }
    }
  }

  // ---- Every step ----

  lemma {:induction false} CreateAgrees(s: Store, v: MatterValues, now: Stamp, w: Workflow)
    requires Inv(s) && JournalAgrees(s) && Until(s, now.day)
    ensures JournalAgrees(CreateMatter(s, v, now, w).0) && Until(CreateMatter(s, v, now, w).0, now.day)
  {
    hide Agrees, ProposalsStored, NumberedPlace, JournalAgrees, Until, LogOf, CreateMatter, NextPlace, Created, Scan, Prepare;
    hide OriginalsOf, NewMatter, NextNumber, Inv, Shaped;
    var (s', r) := CreateMatter(s, v, now, w);
    InvIsShaped(s);
    CreateKeepsInv(s, v, now, w);
    InvIsShaped(s');
    if r.Ok? {
      CreateAdds(s, v, now, w);
      var p, place := Prepare(v).value, NextPlace(s, now);
      NextPlaceIsNumbered(s, now);
      AppendAgrees(s, s', place, MatterCreated(place.id, now, p.status, r.value.binding));
    } else {
      CreateFailsQuietly(s, v, now, w);
      SameEventsAgree(s, s');
      SameJournalUntil(s, s', now.day);
    }
  }

  lemma {:induction false} CreateFailsQuietly(s: Store, v: MatterValues, now: Stamp, w: Workflow)
    requires CreateMatter(s, v, now, w).1.Err?
    ensures var s' := CreateMatter(s, v, now, w).0;
      s'.matters == s.matters && s'.logs == s.logs && s'.journal == s.journal
  {
    hide CreateMatter;
    FailedCreateKeeps(s, v, now, w);
  }

  lemma {:induction false} SameJournalUntil(s: Store, s': Store, day: Day)
    requires s'.journal == s.journal && Until(s, day)
    ensures Until(s', day)
  {
  }

  lemma {:induction false} UpdateAgrees(s: Store, idText: string, statusText: string, reasonText: string, now: Stamp)
    requires Inv(s) && JournalAgrees(s) && Until(s, now.day)
    ensures var s' := UpdateStatus(s, idText, statusText, reasonText, now).0; JournalAgrees(s') && Until(s', now.day)
  {
    hide Agrees, ProposalsStored, Scan, NumberedPlace, JournalAgrees, LogOf, UpdateStatus;
    UpdateKeepsInv(s, idText, statusText, reasonText, now);
    var place, status, reason := UpdateSets(s, idText, statusText, reasonText, now);
    var (s', r) := UpdateStatus(s, idText, statusText, reasonText, now);
    if r.Ok? {
      AppendAgrees(s, s', place, StatusChanged(place.id, now, s.matters[place].status, status, reason));
    }
  }

  lemma {:induction false} ProposeAgrees(s: Store, v: ProposalValues, now: Stamp)
    requires Inv(s) && JournalAgrees(s)
    ensures JournalAgrees(CreateProposal(s, v, now).0) && CreateProposal(s, v, now).0.journal == s.journal
  {
    hide Agrees, ProposalsStored, MatterId, SafeIdentifier, JournalAgrees, LogOf, CreateProposal;
    ProposeKeeps(s, v, now);
    ProposedKeepsInv(s, v, now);
    SameEventsAgree(s, CreateProposal(s, v, now).0);
  }

  lemma {:induction false} UntilMoves(s: Store, a: Day, b: Day)
    requires Until(s, a) && NotLater(a, b)
    ensures Until(s, b)
  {
  }

  lemma {:induction false} AcceptanceAgrees(
    s: Store, file: string, idText: string, place: Place, matter: Matter, now: Stamp)
    requires Inv(s) && JournalAgrees(s) && Until(s, now.day) && file in s.proposals && place in s.matters
    ensures var s' := Indexed(AcceptanceRecorded(s, file, idText, place, matter, now)); JournalAgrees(s') && Until(s', now.day)
  {
    hide Agrees, ProposalsStored, Scan, NumberedPlace, JournalAgrees, LogOf, NotLater, SafeIdentifier;
    var s' := Indexed(AcceptanceRecorded(s, file, idText, place, matter, now));
    AppendAgrees(s, s', place, ProposalAccepted(place.id, now, idText));
  }

  lemma {:induction false} AcceptAgrees(s: Store, idText: string, createdAt: Stamp, acceptedAt: Stamp, w: Workflow)
    requires Inv(s) && JournalAgrees(s) && Until(s, createdAt.day) && NotLater(createdAt.day, acceptedAt.day)
    ensures var s' := AcceptProposal(s, idText, createdAt, acceptedAt, w).0; JournalAgrees(s') && Until(s', acceptedAt.day)
  {
    hide Inv, Scan, JournalAgrees, Until, CreateMatter, AcceptProposal, NextPlace, AcceptanceRecorded, Created, NotLater;
    var id, file, values := AcceptAdds(s, idText, createdAt, acceptedAt, w);
    CreateAgrees(s, values, createdAt, w);
    CreateKeepsInv(s, values, createdAt, w);
    var created := CreateMatter(s, values, createdAt, w).0;
    UntilMoves(s, createdAt.day, acceptedAt.day);
    UntilMoves(created, createdAt.day, acceptedAt.day);
    var (s', r) := AcceptProposal(s, idText, createdAt, acceptedAt, w);
    if r.Ok? {
      CreateAdds(s, values, createdAt, w);
      AcceptanceAgrees(created, file, id, NextPlace(s, createdAt), r.value, acceptedAt);
    }
  }

  lemma {:induction false} StepAgrees(s: Store, op: Op)
    requires Inv(s) && JournalAgrees(s) && Until(s, StartDay(op)) && NotLater(StartDay(op), EndDay(op))
    ensures JournalAgrees(Step(s, op)) && Until(Step(s, op), EndDay(op))
  {
    hide Inv, JournalAgrees, CreateMatter, UpdateStatus, CreateProposal, AcceptProposal;
    match op
    case Create(v, now, w) => CreateAgrees(s, v, now, w);
    case SetStatus(idText, statusText, reasonText, now) => UpdateAgrees(s, idText, statusText, reasonText, now);
    case Propose(v, now) => ProposeAgrees(s, v, now);
    case Accept(idText, createdAt, acceptedAt, w) => AcceptAgrees(s, idText, createdAt, acceptedAt, w);
  }

  lemma {:induction false} HasMember<T>(xs: seq<T>)
    ensures xs == [] || exists x :: x in xs
  {
    if xs != [] {
      assert xs[0] in xs;
    }
  }

  /** Over every run whose clock does not fall back, the journal and the matters' own logs tell the same. */
  lemma {:induction false} JournalTellsEveryLog(ops: seq<Op>)
    requires ClockMoves(ops)
    ensures JournalAgrees(Run(EmptyStore(), ops))
    ensures ops != [] ==> Until(Run(EmptyStore(), ops), EndDay(ops[|ops| - 1]))
    decreases |ops|
  {
    hide Inv, Step;
    if ops == [] {
      forall days: seq<Day>, id | Chronological(days, EmptyStore().journal)
        ensures OfMatter(Flatten(EmptyStore().journal, days), id) == LogOf(EmptyStore(), id)
      {
        HasMember(days);
      }
    } else {
      var front, op := ops[..|ops| - 1], ops[|ops| - 1];
      JournalTellsEveryLog(front);
      RunKeepsInv(front);
      var s := Run(EmptyStore(), front);
      assert Until(s, StartDay(op)) by {
        if front != [] {
          assert NotLater(EndDay(front[|front| - 1]), StartDay(op));
        }
      }
      StepAgrees(s, op);
    }
  }
}
