/** scripts/onboarding_wizard.py: one session file, filled by many runs of many actors, until it is finalised. */
module Onboarding {
  import opened Options
  import opened Text

  // ---- Policies ----

  datatype Question = Question(id: string, phase: string, prompt: string, modes: seq<string>, requiredRoles: seq<string>)
  datatype Phase = Phase(id: string, title: string)
  datatype Flow = Flow(phases: seq<Phase>, questions: seq<Question>)

  datatype Account = Account(accountId: string, active: bool, principalId: string)
  datatype Principal = Principal(principalId: string, active: bool, technicalRoleIds: seq<string>)
  datatype Registry = Registry(roleAliases: map<string, string>, accounts: seq<Account>, principals: seq<Principal>)

  function NormalizeRole(registry: Registry, role: string): string {
    var key := Lower(Strip(role));
    if key in registry.roleAliases then registry.roleAliases[key] else key
  }

  function NormalizeRoles(registry: Registry, roles: seq<string>): (r: seq<string>)
    ensures |r| == |roles| && forall i :: 0 <= i < |r| ==> r[i] == NormalizeRole(registry, roles[i])
  {
    seq(|roles|, i requires 0 <= i < |roles| => NormalizeRole(registry, roles[i]))
  }

  function FindAccount(accounts: seq<Account>, id: string): Option<Account> {
    if accounts == [] then None
    else if Lower(accounts[0].accountId) == id then Some(accounts[0])
    else FindAccount(accounts[1..], id)
  }

  function FindPrincipal(principals: seq<Principal>, id: string): Option<Principal> {
    if principals == [] then None
    else if principals[0].principalId == id then Some(principals[0])
    else FindPrincipal(principals[1..], id)
  }

  /** Only an active account with a known principal resolves. */
  function ResolveIdentity(registry: Registry, login: string): Option<Principal> {
    match FindAccount(registry.accounts, "github:" + Lower(Strip(login)))
    case None => None
    case Some(account) => if account.active then FindPrincipal(registry.principals, account.principalId) else None
  }

  /** Who may act in the role: an active identity that is registered for it. */
  predicate MayAct(registry: Registry, login: string, role: string) {
    var identity := ResolveIdentity(registry, login);
    identity.Some? && identity.value.active && role in NormalizeRoles(registry, identity.value.technicalRoleIds)
  }

  // ---- The role gate, in terms of the registry's lists ----

  /** The normal form of a role: its alias if it has one. */
  function RoleForm(registry: Registry, role: string): string {
    if Lower(Strip(role)) in registry.roleAliases then registry.roleAliases[Lower(Strip(role))] else Lower(Strip(role))
  }

  /** The first account of the login. */
  ghost predicate IsAccountOf(registry: Registry, login: string, i: nat) {
    && i < |registry.accounts| && Lower(registry.accounts[i].accountId) == "github:" + Lower(Strip(login))
    && forall j :: 0 <= j < i ==> Lower(registry.accounts[j].accountId) != "github:" + Lower(Strip(login))
  }

  /** The first principal with that id. */
  ghost predicate IsPrincipalOf(registry: Registry, id: string, k: nat) {
    && k < |registry.principals| && registry.principals[k].principalId == id
    && forall j :: 0 <= j < k ==> registry.principals[j].principalId != id
  }

  /** The login's account and its principal are active, and the principal lists a technical role of that normal form. */
  ghost predicate Registered(registry: Registry, login: string, role: string) {
    exists i: nat, k: nat, t: nat ::
      && IsAccountOf(registry, login, i) && registry.accounts[i].active
      && IsPrincipalOf(registry, registry.accounts[i].principalId, k) && registry.principals[k].active
      && t < |registry.principals[k].technicalRoleIds|
      && role == RoleForm(registry, registry.principals[k].technicalRoleIds[t])
  }

  /** The question asks for no role, or for one of that normal form. */
  predicate OpenTo(registry: Registry, role: string, q: Question) {
    q.requiredRoles == [] || exists t :: 0 <= t < |q.requiredRoles| && role == RoleForm(registry, q.requiredRoles[t])
  }

  lemma {:induction false} FormIsNormal(registry: Registry, role: string)
    ensures NormalizeRole(registry, role) == RoleForm(registry, role)
  {
  }

  lemma {:induction false} OpenExactly(registry: Registry, role: string, q: Question)
    ensures RoleFits(registry, role, q) <==> OpenTo(registry, role, q)
  {
    hide NormalizeRole, RoleForm;
    InForms(registry, role, q.requiredRoles);
  }

  lemma {:induction false} InForms(registry: Registry, role: string, roles: seq<string>)
    ensures role in NormalizeRoles(registry, roles) <==> exists t :: 0 <= t < |roles| && role == RoleForm(registry, roles[t])
  {
    hide NormalizeRole, RoleForm;
    forall t | 0 <= t < |roles| ensures NormalizeRole(registry, roles[t]) == RoleForm(registry, roles[t]) {
      FormIsNormal(registry, roles[t]);
    }
    if t :| 0 <= t < |roles| && role == RoleForm(registry, roles[t]) {
      assert NormalizeRoles(registry, roles)[t] == role;
    }
  }

  lemma {:induction false} FirstOfAccounts(accounts: seq<Account>, id: string) returns (i: nat)
    ensures FindAccount(accounts, id).Some? ==>
      && i < |accounts| && Lower(accounts[i].accountId) == id && FindAccount(accounts, id).value == accounts[i]
      && forall j :: 0 <= j < i ==> Lower(accounts[j].accountId) != id
    ensures FindAccount(accounts, id).None? ==> forall j :: 0 <= j < |accounts| ==> Lower(accounts[j].accountId) != id
    decreases |accounts|
  {
    hide Lower;
    i := 0;
    if accounts != [] && Lower(accounts[0].accountId) != id {
      var rest := accounts[1..];
      i := FirstOfAccounts(rest, id);
      i := i + 1;
      assert forall j :: 0 < j < |accounts| ==> accounts[j] == rest[j - 1];
    }
  }

  lemma {:induction false} FirstOfPrincipals(principals: seq<Principal>, id: string) returns (k: nat)
    ensures FindPrincipal(principals, id).Some? ==>
      && k < |principals| && principals[k].principalId == id && FindPrincipal(principals, id).value == principals[k]
      && forall j :: 0 <= j < k ==> principals[j].principalId != id
    ensures FindPrincipal(principals, id).None? ==> forall j :: 0 <= j < |principals| ==> principals[j].principalId != id
    decreases |principals|
  {
    k := 0;
    if principals != [] && principals[0].principalId != id {
      var rest := principals[1..];
      k := FirstOfPrincipals(rest, id);
      k := k + 1;
      assert forall j :: 0 < j < |principals| ==> principals[j] == rest[j - 1];
    }
  }

  /** Who may act in a role is exactly who is registered for it. */
  lemma {:induction false} RegisteredExactly(registry: Registry, login: string, role: string)
    ensures MayAct(registry, login, role) <==> Registered(registry, login, role)
  {
    hide FindAccount, FindPrincipal, Lower, Strip, RoleForm, NormalizeRoles;
    var i := FirstOfAccounts(registry.accounts, "github:" + Lower(Strip(login)));
    if FindAccount(registry.accounts, "github:" + Lower(Strip(login))).Some? {
      assert IsAccountOf(registry, login, i);
      OneAccount(registry, login, i);
      var id := registry.accounts[i].principalId;
      var k := FirstOfPrincipals(registry.principals, id);
      if FindPrincipal(registry.principals, id).Some? {
        assert IsPrincipalOf(registry, id, k);
        OnePrincipal(registry, id, k);
        InForms(registry, role, registry.principals[k].technicalRoleIds);
      }
    }
  }

  lemma {:induction false} OneAccount(registry: Registry, login: string, i: nat)
    requires IsAccountOf(registry, login, i)
    ensures forall j :: IsAccountOf(registry, login, j) ==> j == i
  {
    hide Lower, Strip;
  }

  lemma {:induction false} OnePrincipal(registry: Registry, id: string, k: nat)
    requires IsPrincipalOf(registry, id, k)
    ensures forall j :: IsPrincipalOf(registry, id, j) ==> j == k
  {
  }

  // ---- Sessions ----

  datatype Answer = Answer(
    questionId: string, answer: string, actorName: string, actorRole: string, login: string, requiredRoles: seq<string>)

  datatype Session = Session(mode: string, finalized: bool, finalBundle: string, answers: seq<Answer>)

  function InitSession(mode: string): Session { Session(mode, false, "", []) }

  function AnsweredIds(answers: seq<Answer>): set<string> { set a <- answers :: a.questionId }

  /** `answers_by_id`: a later entry replaces an earlier one. */
  function AnswerTo(answers: seq<Answer>, id: string): (r: Option<Answer>)
    ensures r.Some? <==> id in AnsweredIds(answers)
    ensures r.Some? ==> r.value in answers && r.value.questionId == id
  {
    if answers == [] then None
    else
      var last := answers[|answers| - 1];
      if last.questionId == id then Some(last) else AnswerTo(answers[..|answers| - 1], id)
  }

  function RequiredIn(questions: seq<Question>, mode: string): (r: seq<Question>)
    ensures forall q :: q in r <==> q in questions && mode in q.modes
  {
    if questions == [] then []
    else (if mode in questions[0].modes then [questions[0]] else []) + RequiredIn(questions[1..], mode)
  }

  // ---- One run ----

  const MODES := {"founding", "existing"}

  /** The command line takes no other mode; the empty text is none. */
  type VisitMode = m: string | m == "" || m in MODES witness ""

  /** What a contributor brings: an answers file, and the lines typed when asked. */
  datatype Visit = Visit(
    name: string, role: string, login: string, mode: VisitMode, provided: map<string, string>, typed: seq<string>)

  predicate RoleFits(registry: Registry, role: string, q: Question) {
    q.requiredRoles == [] || role in NormalizeRoles(registry, q.requiredRoles)
  }

  function Recorded(v: Visit, role: string, q: Question, answer: string): Answer {
    Answer(q.id, answer, v.name, role, v.login, q.requiredRoles)
  }

  /** The answers a visit adds, question by question; without a further line to read, it breaks off. */
  function Asked(
    registry: Registry, v: Visit, role: string, done: set<string>, qs: seq<Question>, typed: seq<string>): seq<Answer>
  {
    if qs == [] then []
    else
      var q, rest := qs[0], qs[1..];
      if q.id in done || !RoleFits(registry, role, q) then Asked(registry, v, role, done, rest, typed)
      else if q.id in v.provided then
        Kept(v, role, q, Strip(v.provided[q.id])) + Asked(registry, v, role, done, rest, typed)
      else if typed == [] then []
      else Kept(v, role, q, Strip(typed[0])) + Asked(registry, v, role, done, rest, typed[1..])
  }

  /** Blank answers are skipped. */
  function Kept(v: Visit, role: string, q: Question, answer: string): seq<Answer> {
    if answer == "" then [] else [Recorded(v, role, q, answer)]
  }

  /** How many lines a visit is asked for. */
  function LinesNeeded(registry: Registry, v: Visit, role: string, done: set<string>, qs: seq<Question>): nat {
    if qs == [] then 0
    else
      LinesNeeded(registry, v, role, done, qs[..|qs| - 1])
      + if AsksForLine(registry, v, role, done, qs[|qs| - 1]) then 1 else 0
  }

  predicate AsksForLine(registry: Registry, v: Visit, role: string, done: set<string>, q: Question) {
    Concerns(registry, role, done, q) && q.id !in v.provided
  }

  /** The question has no answer yet and is open to the role. */
  predicate Concerns(registry: Registry, role: string, done: set<string>, q: Question) {
    q.id !in done && OpenTo(registry, role, q)
  }

  /** The session file, if there is one, and the bundles written so far. */
  datatype State = State(file: Option<Session>, bundles: map<string, Bundle>)

  datatype PlanLine = Heading(title: string) | Answered(question: Question, answer: Answer) | Open(question: Question)
  datatype Bundle = Bundle(copy: Session, plan: seq<PlanLine>)

  /** The mode a visit works in: its own, else the session's, else the first line typed; the rest of the lines follow. */
  datatype Chosen = Chosen(mode: string, typed: seq<string>) | NoMode

  function ChooseMode(v: Visit, session: Session): Chosen {
    if v.mode != "" then Chosen(v.mode, v.typed)
    else if session.mode != "" then Chosen(session.mode, v.typed)
    else if v.typed == [] then NoMode
    else
      var line := Lower(Strip(v.typed[0]));
      if line in MODES then Chosen(line, v.typed[1..]) else NoMode
  }

  function Loaded(st: State, mode: string): Session {
    match st.file case Some(s) => s case None => InitSession(mode)
  }

  /** `run_start`: nothing is written unless an answer is recorded, not even a mode. */
  function StartRun(registry: Registry, flow: Flow, v: Visit, st: State): State {
    var session, role := Loaded(st, v.mode), NormalizeRole(registry, v.role);
    if session.finalized || !MayAct(registry, v.login, role) then st
    else
      match ChooseMode(v, session)
      case NoMode => st
      case Chosen(mode, typed) =>
        var added := Asked(registry, v, role, AnsweredIds(session.answers), RequiredIn(flow.questions, mode), typed);
        if added == [] then st
        else st.(file := Some(session.(mode := mode, answers := session.answers + added)))
  }

  /** How a run ends: with an exit code, or in the exception of a prompt that finds no further line. */
  datatype Outcome = Exit(code: nat) | EndOfInput

  /** The visit states no mode, and neither does the session. */
  predicate AsksForMode(v: Visit, session: Session) { v.mode == "" && session.mode == "" }

  /** A closed session, a visitor who is not registered for the role, or a first line that names no mode. */
  ghost predicate Refused(registry: Registry, v: Visit, st: State) {
    || (st.file.Some? && st.file.value.finalized)
    || !Registered(registry, v.login, RoleForm(registry, v.role))
    || (AsksForMode(v, Loaded(st, v.mode)) && v.typed != [] && Lower(Strip(v.typed[0])) !in {"founding", "existing"})
  }

  /** The mode of the visit, else the session's, else the first line typed; and the lines left for questions. */
  function ModeOf(v: Visit, session: Session): string {
    if v.mode != "" then v.mode
    else if session.mode != "" then session.mode
    else if v.typed == [] then "" else Lower(Strip(v.typed[0]))
  }

  function LinesLeft(v: Visit, session: Session): seq<string> {
    if AsksForMode(v, session) && v.typed != [] then v.typed[1..] else v.typed
  }

  /** The prompts of the run need more lines than there are. */
  predicate LacksLines(registry: Registry, flow: Flow, v: Visit, st: State) {
    var session := Loaded(st, v.mode);
    if AsksForMode(v, session) && v.typed == [] then true
    else
      |LinesLeft(v, session)| < LinesNeeded(registry, v, RoleForm(registry, v.role), AnsweredIds(session.answers),
        RequiredIn(flow.questions, ModeOf(v, session)))
  }

  // ---- The plan ----

  function PlanOf(session: Session, q: Question): PlanLine {
    match AnswerTo(session.answers, q.id) case Some(a) => Answered(q, a) case None => Open(q)
  }

  /** The lines of one phase: its questions that the mode requires. */
  function PhaseLines(session: Session, phase: string, questions: seq<Question>): seq<PlanLine> {
    if questions == [] then []
    else
      var n := |questions| - 1;
      PhaseLines(session, phase, questions[..n])
      + if questions[n].phase == phase && session.mode in questions[n].modes then [PlanOf(session, questions[n])] else []
  }

  function PlanLines(session: Session, phases: seq<Phase>, questions: seq<Question>): seq<PlanLine> {
    if phases == [] then []
    else
      var n := |phases| - 1;
      PlanLines(session, phases[..n], questions) + [Heading(phases[n].title)] + PhaseLines(session, phases[n].id, questions)
  }

  /** `run_finalize`: the bundle gets a copy of the session as it was, then the session is closed. */
  function FinalizeRun(flow: Flow, dir: string, st: State): State {
    match st.file
    case None => st
    case Some(session) =>
      if session.finalized then st
      else
        State(Some(session.(finalized := true, finalBundle := dir)),
              st.bundles[dir := Bundle(session, PlanLines(session, flow.phases, flow.questions))])
  }

  /** The visit answers the question: it is open to the role, and an answer is brought along or can be typed. */
  predicate Answers(registry: Registry, v: Visit, role: string, done: set<string>, q: Question, typed: seq<string>) {
    q.id !in done && RoleFits(registry, role, q) && (q.id in v.provided || typed != [])
  }

  lemma {:induction false} PassedOver(
    registry: Registry, v: Visit, role: string, done: set<string>, qs: seq<Question>, i: nat, typed: seq<string>)
    requires i < |qs| && (qs[i].id in done || !RoleFits(registry, role, qs[i]))
    ensures Asked(registry, v, role, done, qs[i..], typed) == Asked(registry, v, role, done, qs[i + 1..], typed)
  {
    hide RoleFits, Kept, Strip;
    assert qs[i..][0] == qs[i] && qs[i..][1..] == qs[i + 1..];
  }

  lemma {:induction false} CutOff(
    registry: Registry, v: Visit, role: string, done: set<string>, qs: seq<Question>, i: nat)
    requires i < |qs| && qs[i].id !in done && RoleFits(registry, role, qs[i]) && qs[i].id !in v.provided
    ensures Asked(registry, v, role, done, qs[i..], []) == []
  {
    hide RoleFits, Kept, Strip;
    assert qs[i..][0] == qs[i];
  }

  /** The text and the lines left after answering. */
  function AnswerTaken(v: Visit, q: Question, typed: seq<string>): (string, seq<string>)
    requires q.id in v.provided || typed != []
  {
    if q.id in v.provided then (Strip(v.provided[q.id]), typed) else (Strip(typed[0]), typed[1..])
  }

  lemma {:induction false} AskedNext(
    registry: Registry, v: Visit, role: string, done: set<string>, qs: seq<Question>, i: nat, typed: seq<string>)
    requires i < |qs| && Answers(registry, v, role, done, qs[i], typed)
    ensures var (answer, left) := AnswerTaken(v, qs[i], typed);
      var rest := Asked(registry, v, role, done, qs[i + 1..], left);
      Asked(registry, v, role, done, qs[i..], typed) == if answer == "" then rest else [Recorded(v, role, qs[i], answer)] + rest
  {
    hide RoleFits, Recorded, Strip;
    assert qs[i..][0] == qs[i] && qs[i..][1..] == qs[i + 1..];
    var (answer, left) := AnswerTaken(v, qs[i], typed);
    assert [] + Asked(registry, v, role, done, qs[i + 1..], left) == Asked(registry, v, role, done, qs[i + 1..], left);
  }

  lemma {:induction false} Regrouped<T>(front: seq<T>, x: T, rest: seq<T>)
    ensures front + [x] + rest == front + ([x] + rest)
  {
  }

  lemma {:induction false} AllSaved(loaded: Session, session: Session, added: seq<Answer>)
    requires session.answers + [] == loaded.answers + added && session == loaded.(answers := session.answers)
    ensures session == loaded.(answers := loaded.answers + added)
    ensures |session.answers| == |loaded.answers| <==> added == []
  {
  }

  lemma {:induction false} NothingAsked(
    registry: Registry, v: Visit, role: string, done: set<string>, qs: seq<Question>, typed: seq<string>)
    ensures Asked(registry, v, role, done, qs[|qs|..], typed) == []
  {
  }

  lemma {:induction false} NeededNext(
    registry: Registry, v: Visit, role: string, done: set<string>, qs: seq<Question>, i: nat)
    requires i < |qs|
    ensures LinesNeeded(registry, v, role, done, qs[..i + 1]) ==
      LinesNeeded(registry, v, role, done, qs[..i]) + if AsksForLine(registry, v, role, done, qs[i]) then 1 else 0
  {
    hide AsksForLine;
    assert qs[..i + 1][..i] == qs[..i];
  }

  lemma {:induction false} NeededGrows(
    registry: Registry, v: Visit, role: string, done: set<string>, qs: seq<Question>, i: nat)
    requires i <= |qs|
    ensures LinesNeeded(registry, v, role, done, qs[..i]) <= LinesNeeded(registry, v, role, done, qs)
    decreases |qs| - i
  {
    hide AsksForLine;
    if i < |qs| {
      NeededNext(registry, v, role, done, qs, i);
      NeededGrows(registry, v, role, done, qs, i + 1);
    } else {
      assert qs[..i] == qs;
    }
  }

  lemma {:induction false} NothingNeeded(
    registry: Registry, v: Visit, role: string, done: set<string>, qs: seq<Question>)
    ensures LinesNeeded(registry, v, role, done, qs[..0]) == 0
  {
  }

  lemma {:induction false} PhaseNext(session: Session, phase: string, questions: seq<Question>, j: nat)
    requires j < |questions|
    ensures PhaseLines(session, phase, questions[..j + 1]) == PhaseLines(session, phase, questions[..j])
      + if questions[j].phase == phase && session.mode in questions[j].modes then [PlanOf(session, questions[j])] else []
  {
    hide PlanOf;
    assert questions[..j + 1][..j] == questions[..j];
  }

  lemma {:induction false} PlanNext(session: Session, phases: seq<Phase>, questions: seq<Question>, i: nat)
    requires i < |phases|
    ensures PlanLines(session, phases[..i + 1], questions)
      == PlanLines(session, phases[..i], questions) + [Heading(phases[i].title)] + PhaseLines(session, phases[i].id, questions)
  {
    hide PhaseLines;
    assert phases[..i + 1][..i] == phases[..i];
  }

  lemma {:induction false} NoLinesYet(session: Session, flow: Flow)
    ensures PlanLines(session, flow.phases[..0], flow.questions) == []
  {
  }

  lemma {:induction false} NoQuestionsYet(session: Session, phase: string, questions: seq<Question>)
    ensures PhaseLines(session, phase, questions[..0]) == []
  {
  }

  // ---- The wizard ----

  class Wizard {
    var file: Option<Session>
    var bundles: map<string, Bundle>

    constructor ()
      ensures Current() == State(None, map[])
    {
      file := None;
      bundles := map[];
    }

    function Current(): State
      reads this
    {
      State(file, bundles)
    }

    /** Every answer is saved as it is given, also when a later prompt finds no line; a refusal writes nothing. */
    method RunStart(registry: Registry, flow: Flow, v: Visit) returns (outcome: Outcome)
      modifies this
      ensures Current() == StartRun(registry, flow, v, old(Current()))
      ensures outcome == Exit(1) <==> Refused(registry, v, old(Current()))
      ensures outcome == EndOfInput <==> !Refused(registry, v, old(Current())) && LacksLines(registry, flow, v, old(Current()))
      ensures outcome in {Exit(0), Exit(1), EndOfInput}
      ensures Refused(registry, v, old(Current())) ==> Current() == old(Current())
    {
      hide Asked, MayAct, NormalizeRole, RequiredIn, AnsweredIds, LinesNeeded, Registered, RoleForm;
      FormIsNormal(registry, v.role);
      RegisteredExactly(registry, v.login, RoleForm(registry, v.role));
      var session := Loaded(Current(), v.mode);
      if session.finalized {
        return Exit(1);
      }
      var role := NormalizeRole(registry, v.role);
      if !MayAct(registry, v.login, role) {
        return Exit(1);
      }
      var typed := v.typed;
      if v.mode != "" {
        session := session.(mode := v.mode);
      }
      if session.mode == "" {
        if typed == [] {
          return EndOfInput;
        }
        var line := Lower(Strip(typed[0]));
        if line !in MODES {
          return Exit(1);
        }
        session := session.(mode := line);
        typed := typed[1..];
      }
      assert ChooseMode(v, Loaded(old(Current()), v.mode)) == Chosen(session.mode, typed);
      var cutOff := AskQuestions(registry, v, role, session, RequiredIn(flow.questions, session.mode), typed);
      outcome := if cutOff then EndOfInput else Exit(0);
    }

    method AskQuestions(
      registry: Registry, v: Visit, role: string, loaded: Session, questions: seq<Question>, lines: seq<string>)
      returns (cutOff: bool)
      modifies this
      ensures bundles == old(bundles)
      ensures var added := Asked(registry, v, role, AnsweredIds(loaded.answers), questions, lines);
        file == if added == [] then old(file) else Some(loaded.(answers := loaded.answers + added))
      ensures cutOff <==> |lines| < LinesNeeded(registry, v, role, AnsweredIds(loaded.answers), questions)
    {
      hide RoleFits, OpenTo, Recorded, AnsweredIds, Strip, Asked, LinesNeeded;
      var session, typed := loaded, lines;
      var existing := AnsweredIds(session.answers);
      ghost var all := loaded.answers + Asked(registry, v, role, existing, questions, lines);
      assert questions[0..] == questions;
      NothingNeeded(registry, v, role, existing, questions);
      for i := 0 to |questions|
        invariant bundles == old(bundles)
        invariant session == loaded.(answers := session.answers) && |loaded.answers| <= |session.answers|
        invariant file == if |session.answers| == |loaded.answers| then old(file) else Some(session)
        invariant session.answers + Asked(registry, v, role, existing, questions[i..], typed) == all
        invariant |typed| + LinesNeeded(registry, v, role, existing, questions[..i]) == |lines|
      {
        var q := questions[i];
        OpenExactly(registry, role, q);
        NeededNext(registry, v, role, existing, questions, i);
        if q.id in existing || !RoleFits(registry, role, q) {
          PassedOver(registry, v, role, existing, questions, i, typed);
          continue;
        }
        if q.id !in v.provided && typed == [] {
          CutOff(registry, v, role, existing, questions, i);
          AllSaved(loaded, session, Asked(registry, v, role, existing, questions, lines));
          NeededGrows(registry, v, role, existing, questions, i + 1);
          return true;
        }
        AskedNext(registry, v, role, existing, questions, i, typed);
        var answer;
        if q.id in v.provided {
          answer := Strip(v.provided[q.id]);
        } else {
          answer := Strip(typed[0]);
          typed := typed[1..];
        }
        if answer == "" {
          continue;
        }
        var entry := Recorded(v, role, q, answer);
        Regrouped(session.answers, entry, Asked(registry, v, role, existing, questions[i + 1..], typed));
        session := session.(answers := session.answers + [entry]);
        file := Some(session);
      }
      NothingAsked(registry, v, role, existing, questions, typed);
      AllSaved(loaded, session, Asked(registry, v, role, existing, questions, lines));
      assert questions[..|questions|] == questions;
      cutOff := false;
    }

    method RunFinalize(flow: Flow, dir: string) returns (code: nat)
      modifies this
      ensures Current() == FinalizeRun(flow, dir, old(Current()))
      ensures code == 0 <==> old(file).Some? && !old(file).value.finalized
    {
      if file.None? {
        return 1;
      }
      var session := file.value;
      if session.finalized {
        return 1;
      }
      var plan := ExportPlan(flow, session);
      bundles := bundles[dir := Bundle(session, plan)];
      file := Some(session.(finalized := true, finalBundle := dir));
      code := 0;
    }
  }

  method ExportPlan(flow: Flow, session: Session) returns (lines: seq<PlanLine>)
    ensures lines == PlanLines(session, flow.phases, flow.questions)
  {
    hide PlanOf, PhaseLines, PlanLines;
    NoLinesYet(session, flow);
    lines := [];
    for i := 0 to |flow.phases|
      invariant lines == PlanLines(session, flow.phases[..i], flow.questions)
    {
      var phase := flow.phases[i];
      ghost var before := lines + [Heading(phase.title)];
      PlanNext(session, flow.phases, flow.questions, i);
      NoQuestionsYet(session, phase.id, flow.questions);
      lines := lines + [Heading(phase.title)];
      for j := 0 to |flow.questions|
        invariant lines == before + PhaseLines(session, phase.id, flow.questions[..j])
      {
        var q := flow.questions[j];
        PhaseNext(session, phase.id, flow.questions, j);
        if q.phase == phase.id && session.mode in q.modes {
          lines := lines + [PlanOf(session, q)];
        }
      }
      assert flow.questions[..|flow.questions|] == flow.questions;
    }
    assert flow.phases[..|flow.phases|] == flow.phases;
  }

  method RunStatus(flow: Flow, session: Session) returns (done: nat, total: nat, open: seq<Question>)
    ensures forall q :: q in open <==> q in flow.questions && session.mode in q.modes && q.id !in AnsweredIds(session.answers)
    ensures total == |RequiredIn(flow.questions, session.mode)| == done + |open|
  {
    hide RequiredIn, AnsweredIds;
    var answered := AnsweredIds(session.answers);
    var questions := RequiredIn(flow.questions, session.mode);
    total := |questions|;
    done, open := 0, [];
    for i := 0 to |questions|
      invariant done + |open| == i
      invariant forall q :: q in open <==> q in questions[..i] && q.id !in answered
    {
      if questions[i].id in answered {
        done := done + 1;
      } else {
        open := open + [questions[i]];
      }
    }
    assert questions[..|questions|] == questions;
  }

  // ---- One visit ----

  /** No two questions with one id are both open to the role. */
  predicate OneEach(registry: Registry, role: string, qs: seq<Question>) {
    forall i, j :: 0 <= i < j < |qs| && qs[i].id == qs[j].id ==>
      !(OpenTo(registry, role, qs[i]) && OpenTo(registry, role, qs[j]))
  }

  predicate NoneTwice(answers: seq<Answer>) {
    forall i, j :: 0 <= i < j < |answers| ==> answers[i].questionId != answers[j].questionId
  }

  /** An answer fits the visit: it is to one of the questions, by the visitor, in a role the question asks for. */
  predicate AnswerFits(registry: Registry, v: Visit, role: string, done: set<string>, qs: seq<Question>, a: Answer) {
    && a.answer != "" && a.actorRole == role && a.login == v.login && a.actorName == v.name && a.questionId !in done
    && exists q <- qs :: q.id == a.questionId && a.requiredRoles == q.requiredRoles && OpenTo(registry, role, q)
  }

  lemma {:induction false} AskedFit(
    registry: Registry, v: Visit, role: string, done: set<string>, qs: seq<Question>, typed: seq<string>)
    ensures forall a <- Asked(registry, v, role, done, qs, typed) :: AnswerFits(registry, v, role, done, qs, a)
    decreases |qs|
  {
    hide RoleFits, OpenTo, Strip;
    if qs != [] {
      var q, rest := qs[0], qs[1..];
      OpenExactly(registry, role, q);
      assert q in qs;
      AskedFit(registry, v, role, done, rest, typed);
      if typed != [] { AskedFit(registry, v, role, done, rest, typed[1..]); }
      forall a: Answer | AnswerFits(registry, v, role, done, rest, a) ensures AnswerFits(registry, v, role, done, qs, a) {
        var p :| p in rest && p.id == a.questionId && a.requiredRoles == p.requiredRoles && OpenTo(registry, role, p);
        assert p in qs;
      }
    }
  }

  // ---- Exactly which answers a visit adds ----

  /** The text a visit gives to a question: the one brought along, or the next line after those earlier prompts took. */
  function TextAt(v: Visit, q: Question, earlier: nat, typed: seq<string>): string {
    if q.id in v.provided then Strip(v.provided[q.id]) else if earlier < |typed| then Strip(typed[earlier]) else ""
  }

  /** The visit answers the question at `i`: it concerns the visitor, no prompt before it broke off, and the text is not blank. */
  predicate AnswersAt(
    registry: Registry, v: Visit, role: string, done: set<string>, qs: seq<Question>, i: nat, typed: seq<string>)
    requires i < |qs|
  {
    var earlier := LinesNeeded(registry, v, role, done, qs[..i]);
    Concerns(registry, role, done, qs[i]) && earlier <= |typed| && TextAt(v, qs[i], earlier, typed) != ""
  }

  /** Its record. */
  function AnswerAt(
    registry: Registry, v: Visit, role: string, done: set<string>, qs: seq<Question>, i: nat, typed: seq<string>): Answer
    requires i < |qs|
  {
    var q, earlier := qs[i], LinesNeeded(registry, v, role, done, qs[..i]);
    Answer(q.id, TextAt(v, q, earlier, typed), v.name, role, v.login, q.requiredRoles)
  }

  /** The positions from `from` on at which the visit answers, in order, with their records. */
  ghost predicate AreAnswers(
    answers: seq<Answer>, at: seq<nat>, registry: Registry, v: Visit, role: string, done: set<string>, qs: seq<Question>,
    from: nat, typed: seq<string>)
  {
    && |answers| == |at|
    && (forall k :: 0 <= k < |at| ==> from <= at[k] < |qs| && AnswersAt(registry, v, role, done, qs, at[k], typed))
    && (forall k :: 0 <= k < |at| ==> answers[k] == AnswerAt(registry, v, role, done, qs, at[k], typed))
    && (forall j, k :: 0 <= j < k < |at| ==> at[j] < at[k])
    && (forall i :: from <= i < |qs| && AnswersAt(registry, v, role, done, qs, i, typed) ==> i in at)
  }

  lemma {:induction false} NoAnswerHere(
    answers: seq<Answer>, at: seq<nat>, registry: Registry, v: Visit, role: string, done: set<string>, qs: seq<Question>,
    from: nat, typed: seq<string>)
    requires from < |qs| && AreAnswers(answers, at, registry, v, role, done, qs, from + 1, typed)
    requires !AnswersAt(registry, v, role, done, qs, from, typed)
    ensures AreAnswers(answers, at, registry, v, role, done, qs, from, typed)
  {
    hide AnswersAt, AnswerAt;
  }

  lemma {:induction false} AnswerHere(
    answers: seq<Answer>, at: seq<nat>, registry: Registry, v: Visit, role: string, done: set<string>, qs: seq<Question>,
    from: nat, typed: seq<string>)
    requires from < |qs| && AreAnswers(answers, at, registry, v, role, done, qs, from + 1, typed)
    requires AnswersAt(registry, v, role, done, qs, from, typed)
    ensures AreAnswers([AnswerAt(registry, v, role, done, qs, from, typed)] + answers, [from] + at,
      registry, v, role, done, qs, from, typed)
  {
    hide AnswersAt, AnswerAt;
    var more := [from] + at;
    forall i | from <= i < |qs| && AnswersAt(registry, v, role, done, qs, i, typed) ensures i in more {
      if i > from { assert i in at; }
    }
  }

  /** After a prompt that found no line nothing is answered any more. */
  lemma {:induction false} NothingAfter(
    registry: Registry, v: Visit, role: string, done: set<string>, qs: seq<Question>, from: nat, typed: seq<string>)
    requires from < |qs| && LinesNeeded(registry, v, role, done, qs[..from]) == |typed|
    requires AsksForLine(registry, v, role, done, qs[from])
    ensures AreAnswers([], [], registry, v, role, done, qs, from, typed)
  {
    hide LinesNeeded, AsksForLine, Concerns, Strip;
    NeededNext(registry, v, role, done, qs, from);
    forall i | from <= i < |qs| ensures !AnswersAt(registry, v, role, done, qs, i, typed) {
      if i > from {
        NeededBetween(registry, v, role, done, qs, from + 1, i);
      } else {
        NotBroughtAlong(registry, v, role, done, qs[from]);
      }
    }
  }

  lemma {:induction false} NotBroughtAlong(registry: Registry, v: Visit, role: string, done: set<string>, q: Question)
    requires AsksForLine(registry, v, role, done, q)
    ensures q.id !in v.provided
  {
  }

  lemma {:induction false} NeededBetween(
    registry: Registry, v: Visit, role: string, done: set<string>, qs: seq<Question>, i: nat, j: nat)
    requires i <= j <= |qs|
    ensures LinesNeeded(registry, v, role, done, qs[..i]) <= LinesNeeded(registry, v, role, done, qs[..j])
  {
    hide LinesNeeded;
    assert qs[..j][..i] == qs[..i];
    NeededGrows(registry, v, role, done, qs[..j], i);
  }

  /** What is asked adds exactly the answers the visit gives, in the order of the questions. */
  lemma {:induction false} AskedFrom(
    registry: Registry, v: Visit, role: string, done: set<string>, qs: seq<Question>, from: nat, typed: seq<string>)
    returns (at: seq<nat>)
    requires from <= |qs| && LinesNeeded(registry, v, role, done, qs[..from]) <= |typed|
    ensures var earlier := LinesNeeded(registry, v, role, done, qs[..from]);
      AreAnswers(Asked(registry, v, role, done, qs[from..], typed[earlier..]), at, registry, v, role, done, qs, from, typed)
    decreases |qs| - from
  {
    hide LinesNeeded, Asked, OpenTo, RoleFits, AreAnswers, Strip;
    var earlier := LinesNeeded(registry, v, role, done, qs[..from]);
    if from == |qs| {
      at := [];
      NothingAsked(registry, v, role, done, qs, typed[earlier..]);
      NoneLeft(registry, v, role, done, qs, typed);
    } else {
      var q := qs[from];
      OpenExactly(registry, role, q);
      NeededNext(registry, v, role, done, qs, from);
      if !Concerns(registry, role, done, q) {
        PassedOver(registry, v, role, done, qs, from, typed[earlier..]);
        at := AskedFrom(registry, v, role, done, qs, from + 1, typed);
        NoAnswerHere(Asked(registry, v, role, done, qs[from..], typed[earlier..]), at, registry, v, role, done, qs, from, typed);
      } else if q.id !in v.provided && earlier == |typed| {
        at := [];
        CutOff(registry, v, role, done, qs, from);
        assert typed[earlier..] == [];
        NothingAfter(registry, v, role, done, qs, from, typed);
      } else {
        AskedNext(registry, v, role, done, qs, from, typed[earlier..]);
        var left := AnswerTaken(v, q, typed[earlier..]).1;
        assert left == typed[LinesNeeded(registry, v, role, done, qs[..from + 1])..];
        at := AskedFrom(registry, v, role, done, qs, from + 1, typed);
        assert AnswerTaken(v, q, typed[earlier..]).0 == TextAt(v, q, earlier, typed);
        var later := Asked(registry, v, role, done, qs[from + 1..], left);
        if TextAt(v, q, earlier, typed) == "" {
          NoAnswerHere(later, at, registry, v, role, done, qs, from, typed);
        } else {
          AnswerHere(later, at, registry, v, role, done, qs, from, typed);
          at := [from] + at;
        }
      }
    }
  }

  lemma {:induction false} NoneLeft(
    registry: Registry, v: Visit, role: string, done: set<string>, qs: seq<Question>, typed: seq<string>)
    ensures AreAnswers([], [], registry, v, role, done, qs, |qs|, typed)
  {
  }

  /** A visit adds exactly one answer to each question it answers, in order: to the one asked, by the visitor, as given. */
  lemma {:induction false} AskedExactly(
    registry: Registry, v: Visit, role: string, done: set<string>, qs: seq<Question>, typed: seq<string>)
    returns (at: seq<nat>)
    ensures AreAnswers(Asked(registry, v, role, done, qs, typed), at, registry, v, role, done, qs, 0, typed)
  {
    hide AreAnswers, Asked, LinesNeeded;
    NothingNeeded(registry, v, role, done, qs);
    assert qs[0..] == qs && typed[0..] == typed;
    at := AskedFrom(registry, v, role, done, qs, 0, typed);
  }

  /** The session before a visit: the saved one, else an empty one in the mode of the visit. */
  function Before(v: Visit, st: State): Session {
    if st.file.None? then Session(v.mode, false, "", []) else st.file.value
  }

  /** What the visit adds to the session, if it is admitted and has a mode: its answers to the questions of that mode. */
  ghost predicate Writes(registry: Registry, flow: Flow, v: Visit, st: State, next: State) {
    exists added: seq<Answer>, at: seq<nat> ::
      && WritesAnswers(registry, flow, v, Before(v, st), added, at)
      && next == if added == [] then st else State(Some(With(Before(v, st), ModeOf(v, Before(v, st)), added)), st.bundles)
  }

  ghost predicate WritesAnswers(registry: Registry, flow: Flow, v: Visit, before: Session, added: seq<Answer>, at: seq<nat>) {
    AreAnswers(
      added, at, registry, v, RoleForm(registry, v.role), set a <- before.answers :: a.questionId,
      RequiredIn(flow.questions, ModeOf(v, before)), 0, LinesLeft(v, before))
  }

  function With(before: Session, mode: string, added: seq<Answer>): Session {
    Session(mode, before.finalized, before.finalBundle, before.answers + added)
  }

  /** A visit that is not admitted or finds no mode leaves everything as it was; any other adds exactly its answers. */
  lemma {:induction false} VisitWrites(registry: Registry, flow: Flow, v: Visit, st: State)
    ensures var before, next := Before(v, st), StartRun(registry, flow, v, st);
      if Refused(registry, v, st) || (AsksForMode(v, before) && v.typed == []) then next == st
      else Writes(registry, flow, v, st, next)
  {
    hide Asked, MayAct, NormalizeRole, RequiredIn, LinesNeeded, Registered, RoleForm, AreAnswers, Lower, Strip;
    var before, role := Before(v, st), RoleForm(registry, v.role);
    FormIsNormal(registry, v.role);
    RegisteredExactly(registry, v.login, role);
    if !(Refused(registry, v, st) || (AsksForMode(v, before) && v.typed == [])) {
      var mode, lines := ModeOf(v, before), LinesLeft(v, before);
      assert ChooseMode(v, before) == Chosen(mode, lines);
      var qs := RequiredIn(flow.questions, mode);
      var at := AskedExactly(registry, v, role, AnsweredIds(before.answers), qs, lines);
      var added := Asked(registry, v, role, AnsweredIds(before.answers), qs, lines);
      assert WritesAnswers(registry, flow, v, before, added, at);
    }
  }

  predicate RequiredAt(questions: seq<Question>, mode: string, i: nat)
    requires i < |questions|
  {
    mode in questions[i].modes
  }

  /** The questions from `from` on that a mode requires, in order. */
  ghost predicate AreRequired(r: seq<Question>, at: seq<nat>, questions: seq<Question>, mode: string, from: nat) {
    && |r| == |at|
    && (forall k :: 0 <= k < |at| ==> from <= at[k] < |questions| && RequiredAt(questions, mode, at[k]))
    && (forall k :: 0 <= k < |at| ==> r[k] == questions[at[k]])
    && (forall j, k :: 0 <= j < k < |at| ==> at[j] < at[k])
    && (forall i :: from <= i < |questions| && RequiredAt(questions, mode, i) ==> i in at)
  }

  lemma {:induction false} NotRequiredHere(r: seq<Question>, at: seq<nat>, questions: seq<Question>, mode: string, from: nat)
    requires from < |questions| && AreRequired(r, at, questions, mode, from + 1) && !RequiredAt(questions, mode, from)
    ensures AreRequired(r, at, questions, mode, from)
  {
    hide RequiredAt;
  }

  lemma {:induction false} RequiredHere(r: seq<Question>, at: seq<nat>, questions: seq<Question>, mode: string, from: nat)
    requires from < |questions| && AreRequired(r, at, questions, mode, from + 1) && RequiredAt(questions, mode, from)
    ensures AreRequired([questions[from]] + r, [from] + at, questions, mode, from)
  {
    hide RequiredAt;
    var more := [from] + at;
    forall i | from <= i < |questions| && RequiredAt(questions, mode, i) ensures i in more {
      if i > from { assert i in at; }
    }
  }

  lemma {:induction false} RequiredFrom(questions: seq<Question>, mode: string, from: nat) returns (at: seq<nat>)
    requires from <= |questions|
    ensures AreRequired(RequiredIn(questions[from..], mode), at, questions, mode, from)
    decreases |questions| - from
  {
    hide AreRequired;
    if from == |questions| {
      at := [];
      NoneRequired(questions, mode);
    } else {
      at := RequiredFrom(questions, mode, from + 1);
      assert questions[from..][0] == questions[from] && questions[from..][1..] == questions[from + 1..];
      var rest := RequiredIn(questions[from + 1..], mode);
      assert [] + rest == rest;
      if RequiredAt(questions, mode, from) {
        RequiredHere(rest, at, questions, mode, from);
        at := [from] + at;
      } else {
        NotRequiredHere(rest, at, questions, mode, from);
      }
    }
  }

  lemma {:induction false} NoneRequired(questions: seq<Question>, mode: string)
    ensures AreRequired(RequiredIn(questions[|questions|..], mode), [], questions, mode, |questions|)
  {
  }

  /** The questions of a mode keep their order, and each occurs as often as it is listed. */
  lemma {:induction false} RequiredInOrder(questions: seq<Question>, mode: string) returns (at: seq<nat>)
    ensures AreRequired(RequiredIn(questions, mode), at, questions, mode, 0)
  {
    hide AreRequired;
    assert questions[0..] == questions;
    at := RequiredFrom(questions, mode, 0);
  }

  /** The answer the plan shows is the last one given. */
  lemma {:induction false} AnswerToIsLatest(answers: seq<Answer>, id: string) returns (k: nat)
    requires AnswerTo(answers, id).Some?
    ensures k < |answers| && answers[k] == AnswerTo(answers, id).value && answers[k].questionId == id
    ensures forall j :: k < j < |answers| ==> answers[j].questionId != id
    decreases |answers|
  {
    var n := |answers| - 1;
    if answers[n].questionId == id {
      k := n;
    } else {
      k := AnswerToIsLatest(answers[..n], id);
    }
  }

  /** An answered question stands in the plan with its last answer. */
  lemma {:induction false} PlanShowsAnswers(session: Session, flow: Flow, q: Question, a: Answer)
    ensures Answered(q, a) in PlanLines(session, flow.phases, flow.questions) <==>
      && q in flow.questions && session.mode in q.modes && (exists p <- flow.phases :: p.id == q.phase)
      && exists k :: 0 <= k < |session.answers| && session.answers[k] == a && a.questionId == q.id
           && forall j :: k < j < |session.answers| ==> session.answers[j].questionId != q.id
  {
    hide PlanLines, PhaseLines, AnsweredIds, AnswerTo;
    PlanLinesMeaning(session, flow.phases, flow.questions, Answered(q, a));
    forall p <- flow.phases ensures Answered(q, a) in PhaseLines(session, p.id, flow.questions) <==>
      q in flow.questions && q.phase == p.id && session.mode in q.modes && AnswerTo(session.answers, q.id) == Some(a)
    {
      PhaseLinesMeaning(session, p.id, flow.questions, Answered(q, a));
    }
    if AnswerTo(session.answers, q.id).Some? {
      var k := AnswerToIsLatest(session.answers, q.id);
    } else {
      assert forall j :: 0 <= j < |session.answers| ==> session.answers[j] in session.answers;
      NoneAnswers(session.answers, q.id);
    }
  }

  lemma {:induction false} NoneAnswers(answers: seq<Answer>, id: string)
    requires AnswerTo(answers, id).None?
    ensures forall a <- answers :: a.questionId != id
  {
    assert id !in AnsweredIds(answers);
    assert forall a <- answers :: a.questionId in AnsweredIds(answers);
  }

  lemma {:induction false} AskedOnce(
    registry: Registry, v: Visit, role: string, done: set<string>, qs: seq<Question>, typed: seq<string>)
    requires OneEach(registry, role, qs)
    ensures NoneTwice(Asked(registry, v, role, done, qs, typed))
    decreases |qs|
  {
    hide RoleFits, OpenTo, Strip, NoneTwice;
    if qs == [] {
      NothingTwice();
    } else {
      var q, rest := qs[0], qs[1..];
      OpenExactly(registry, role, q);
      OneEachRest(registry, role, qs);
      AskedOnce(registry, v, role, done, rest, typed);
      NoMoreOf(registry, v, role, done, qs, typed);
      NothingTwice();
      if typed != [] {
        AskedOnce(registry, v, role, done, rest, typed[1..]);
        NoMoreOf(registry, v, role, done, qs, typed[1..]);
      }
      if OpenTo(registry, role, q) {
        OneMore(v, role, q, Strip(if q.id in v.provided then v.provided[q.id] else if typed != [] then typed[0] else ""),
          Asked(registry, v, role, done, rest, if q.id in v.provided || typed == [] then typed else typed[1..]));
      }
    }
  }

  lemma {:induction false} OneEachRest(registry: Registry, role: string, qs: seq<Question>)
    requires OneEach(registry, role, qs) && qs != []
    ensures OneEach(registry, role, qs[1..])
  {
    hide OpenTo;
  }

  /** After a question the role may answer, no answer is to its id again. */
  lemma {:induction false} NoMoreOf(
    registry: Registry, v: Visit, role: string, done: set<string>, qs: seq<Question>, typed: seq<string>)
    requires OneEach(registry, role, qs) && qs != []
    ensures OpenTo(registry, role, qs[0]) ==>
      forall a <- Asked(registry, v, role, done, qs[1..], typed) :: a.questionId != qs[0].id
  {
    hide OpenTo, Asked;
    var rest := qs[1..];
    AskedFit(registry, v, role, done, rest, typed);
    if OpenTo(registry, role, qs[0]) {
      forall a <- Asked(registry, v, role, done, rest, typed) ensures a.questionId != qs[0].id {
        assert AnswerFits(registry, v, role, done, rest, a);
        var p :| p in rest && p.id == a.questionId && a.requiredRoles == p.requiredRoles && OpenTo(registry, role, p);
        var k :| 0 <= k < |rest| && rest[k] == p;
        assert qs[k + 1] == p;
      }
    }
  }

  lemma {:induction false} OneMore(v: Visit, role: string, q: Question, answer: string, later: seq<Answer>)
    requires NoneTwice(later) && forall a <- later :: a.questionId != q.id
    ensures NoneTwice(Kept(v, role, q, answer) + later)
  {
    var all := Kept(v, role, q, answer) + later;
    forall i, j | 0 <= i < j < |all| ensures all[i].questionId != all[j].questionId {
      assert all[j] in later;
    }
  }

  /** A visitor who brings the answer `x` to every question. */
  function Eager(login: string, role: string, mode: VisitMode, qs: seq<Question>): Visit {
    Visit("", role, login, mode, map q <- qs :: q.id := "x", [])
  }

  lemma {:induction false} ProvidesAll(login: string, role: string, mode: VisitMode, qs: seq<Question>)
    ensures var v := Eager(login, role, mode, qs);
      forall q <- qs :: q.id in v.provided && v.provided[q.id] == "x"
  {
  }

  /** Such a visitor answers every question open to the role, in order. */
  lemma {:induction false} EagerAnswers(registry: Registry, v: Visit, role: string, qs: seq<Question>, i: nat, j: nat)
    requires forall q <- qs :: q.id in v.provided && v.provided[q.id] == "x"
    requires i < j < |qs| && OpenTo(registry, role, qs[i]) && OpenTo(registry, role, qs[j]) && qs[i].id == qs[j].id
    ensures !NoneTwice(Asked(registry, v, role, {}, qs, []))
    decreases |qs|
  {
    hide RoleFits, OpenTo, NoneTwice;
    var q, rest := qs[0], qs[1..];
    assert q in qs && forall p <- rest :: p in qs;
    assert Strip("x") == "x" by { StripOfSolid("x"); }
    var later := Asked(registry, v, role, {}, rest, []);
    EagerNext(registry, v, role, qs);
    if i > 0 {
      EagerAnswers(registry, v, role, rest, i - 1, j - 1);
      if OpenTo(registry, role, q) { StillTwice(Kept(v, role, q, "x"), later); }
    } else {
      assert rest[j - 1] == qs[j];
      EagerReaches(registry, v, role, rest, j - 1);
      TwiceNow(Recorded(v, role, q, "x"), later, Recorded(v, role, qs[j], "x"));
    }
  }

  lemma {:induction false} EagerNext(registry: Registry, v: Visit, role: string, qs: seq<Question>)
    requires qs != [] && qs[0].id in v.provided && v.provided[qs[0].id] == "x"
    ensures var later := Asked(registry, v, role, {}, qs[1..], []);
      Asked(registry, v, role, {}, qs, []) ==
        if OpenTo(registry, role, qs[0]) then Kept(v, role, qs[0], "x") + later else later
  {
    hide RoleFits, OpenTo, Strip;
    StripOfSolid("x");
    OpenExactly(registry, role, qs[0]);
  }

  lemma {:induction false} EagerReaches(registry: Registry, v: Visit, role: string, qs: seq<Question>, k: nat)
    requires forall q <- qs :: q.id in v.provided && v.provided[q.id] == "x"
    requires k < |qs| && OpenTo(registry, role, qs[k])
    ensures Recorded(v, role, qs[k], "x") in Asked(registry, v, role, {}, qs, [])
    decreases |qs|
  {
    hide RoleFits, OpenTo, Asked;
    assert qs[0] in qs && forall p <- qs[1..] :: p in qs;
    EagerNext(registry, v, role, qs);
    if k > 0 { EagerReaches(registry, v, role, qs[1..], k - 1); }
  }

  lemma {:induction false} StillTwice(front: seq<Answer>, later: seq<Answer>)
    requires !NoneTwice(later)
    ensures !NoneTwice(front + later)
  {
    var i, j :| 0 <= i < j < |later| && later[i].questionId == later[j].questionId;
    var all := front + later;
    assert all[|front| + i] == later[i] && all[|front| + j] == later[j];
  }

  lemma {:induction false} TwiceNow(a: Answer, later: seq<Answer>, b: Answer)
    requires b in later && a.questionId == b.questionId
    ensures !NoneTwice([a] + later)
  {
    var k :| 0 <= k < |later| && later[k] == b;
    var all := [a] + later;
    assert all[0] == a && all[k + 1] == b;
  }

  /** No visit in a role answers twice, exactly when no two questions with one id are both open to that role. */
  lemma {:induction false} AskedOnceExactly(registry: Registry, role: string, qs: seq<Question>)
    ensures (forall v, done, typed :: NoneTwice(Asked(registry, v, role, done, qs, typed))) <==> OneEach(registry, role, qs)
  {
    hide RoleFits, OpenTo, Asked, NoneTwice;
    if OneEach(registry, role, qs) {
      forall v, done, typed ensures NoneTwice(Asked(registry, v, role, done, qs, typed)) {
        AskedOnce(registry, v, role, done, qs, typed);
      }
    } else {
      var i, j :| 0 <= i < j < |qs| && qs[i].id == qs[j].id
        && OpenTo(registry, role, qs[i]) && OpenTo(registry, role, qs[j]);
      var v := Eager("", role, "", qs);
      ProvidesAll("", role, "", qs);
      EagerAnswers(registry, v, role, qs, i, j);
    }
  }

  /** In every mode, nobody can act in a role to which two questions with one id are open. */
  ghost predicate AsksOnce(registry: Registry, flow: Flow) {
    forall mode, login, role | mode in MODES && Registered(registry, login, RoleForm(registry, role)) ::
      OneEach(registry, RoleForm(registry, role), RequiredIn(flow.questions, mode))
  }

  predicate DistinctIds(questions: seq<Question>) {
    forall i, j :: 0 <= i < j < |questions| ==> questions[i].id != questions[j].id
  }

  /** Distinct ids suffice. */
  lemma {:induction false} DistinctIdsAskOnce(registry: Registry, flow: Flow)
    requires DistinctIds(flow.questions)
    ensures AsksOnce(registry, flow)
  {
    hide RoleForm, Registered, OpenTo;
    forall mode, login, role | mode in MODES && Registered(registry, login, RoleForm(registry, role))
      ensures OneEach(registry, RoleForm(registry, role), RequiredIn(flow.questions, mode))
    {
      RequiredDistinct(flow.questions, mode);
    }
  }

  lemma {:induction false} RequiredDistinct(questions: seq<Question>, mode: string)
    requires DistinctIds(questions)
    ensures DistinctIds(RequiredIn(questions, mode))
    decreases |questions|
  {
    if questions != [] {
      var rest := questions[1..];
      RequiredDistinct(rest, mode);
      forall p <- rest ensures p.id != questions[0].id {
        var k :| 0 <= k < |rest| && rest[k] == p;
        assert questions[k + 1] == p;
      }
    }
  }

  // ---- Any number of runs ----

  /** Each run reads registry and flow afresh. */
  datatype Op = Start(registry: Registry, flow: Flow, visit: Visit) | Finalize(flow: Flow, dir: string)

  function Step(op: Op, st: State): State {
    match op
    case Start(registry, flow, v) => StartRun(registry, flow, v, st)
    case Finalize(flow, dir) => FinalizeRun(flow, dir, st)
  }

  function Runs(ops: seq<Op>, st: State): State {
    if ops == [] then st else Step(ops[|ops| - 1], Runs(ops[..|ops| - 1], st))
  }

  const NO_SESSION := State(None, map[])

  function AnswersOf(st: State): seq<Answer> { if st.file.Some? then st.file.value.answers else [] }

  predicate Finalized(st: State) { st.file.Some? && st.file.value.finalized }

  /** The answer was given in this run: by its visitor, who may act in the role, to a question open to that role. */
  ghost predicate GivenIn(op: Op, a: Answer) {
    && op.Start? && a.answer != "" && a.login == op.visit.login && a.actorName == op.visit.name
    && a.actorRole == RoleForm(op.registry, op.visit.role) && Registered(op.registry, a.login, a.actorRole)
    && exists q <- op.flow.questions ::
         q.id == a.questionId && q.requiredRoles == a.requiredRoles && OpenTo(op.registry, a.actorRole, q)
  }

  /** Each answer was given in one of the runs. */
  ghost predicate AllGiven(ops: seq<Op>, answers: seq<Answer>) {
    forall a <- answers :: exists op <- ops :: GivenIn(op, a)
  }

  /** A session works in one of the two modes. */
  predicate KnownMode(st: State) { st.file.Some? ==> st.file.value.mode in MODES }

  /** A finalised session has its bundle, which holds a copy of it from before it was closed. */
  predicate Bundled(st: State) {
    && (Finalized(st) ==>
          && st.file.value.finalBundle in st.bundles
          && st.bundles[st.file.value.finalBundle].copy == st.file.value.(finalized := false, finalBundle := ""))
    && (st.file.Some? && !st.file.value.finalized ==> st.file.value.finalBundle == "")
  }

  ghost predicate AllAskOnce(ops: seq<Op>) {
    forall op <- ops :: op.Start? ==> AsksOnce(op.registry, op.flow)
  }

  ghost predicate Inv(ops: seq<Op>, st: State) {
    (AllAskOnce(ops) ==> NoneTwice(AnswersOf(st))) && AllGiven(ops, AnswersOf(st)) && Bundled(st) && KnownMode(st)
  }

  lemma {:induction false} NoneTwiceTogether(earlier: seq<Answer>, added: seq<Answer>)
    requires NoneTwice(earlier) && NoneTwice(added) && forall a <- added :: a.questionId !in AnsweredIds(earlier)
    ensures NoneTwice(earlier + added)
  {
    var all := earlier + added;
    forall i, j | 0 <= i < j < |all| ensures all[i].questionId != all[j].questionId {
      if i < |earlier| <= j {
        assert all[i] in earlier && all[j] in added;
      }
    }
  }

  /** A visit adds answers given in it to questions not answered before, and closes nothing. */
  lemma {:induction false} StartAdds(op: Op, st: State) returns (added: seq<Answer>)
    requires op.Start?
    ensures var st' := StartRun(op.registry, op.flow, op.visit, st);
      && AnswersOf(st') == AnswersOf(st) + added
      && (forall a <- added :: GivenIn(op, a) && a.questionId !in AnsweredIds(AnswersOf(st)))
      && (AsksOnce(op.registry, op.flow) && KnownMode(st) ==> NoneTwice(added))
      && (KnownMode(st) ==> KnownMode(st'))
      && (Bundled(st) ==> Bundled(st'))
  {
    hide Asked, MayAct, NormalizeRole, RequiredIn, AnsweredIds, NoneTwice, RoleForm, OpenTo, OneEach, Registered;
    var Start(registry, flow, v) := op;
    var session, role := Loaded(st, v.mode), NormalizeRole(registry, v.role);
    added := [];
    FormIsNormal(registry, v.role);
    RegisteredExactly(registry, v.login, role);
    NothingTwice();
    var chosen := ChooseMode(v, session);
    if !session.finalized && chosen.Chosen? && MayAct(registry, v.login, role) {
      var qs, done := RequiredIn(flow.questions, chosen.mode), AnsweredIds(session.answers);
      added := Asked(registry, v, role, done, qs, chosen.typed);
      AskedFit(registry, v, role, done, qs, chosen.typed);
      if AsksOnce(registry, flow) && KnownMode(st) { AskedOnce(registry, v, role, done, qs, chosen.typed); }
    }
  }

  lemma {:induction false} NothingTwice()
    ensures NoneTwice([])
  {
  }

  lemma {:induction false} AllGivenLater(ops: seq<Op>, op: Op, earlier: seq<Answer>, added: seq<Answer>)
    requires AllGiven(ops, earlier) && forall a <- added :: GivenIn(op, a)
    ensures AllGiven(ops + [op], earlier + added)
  {
    hide GivenIn;
    assert op in ops + [op];
    forall a <- earlier + added ensures exists o <- ops + [op] :: GivenIn(o, a) {
      if a in earlier {
        var o :| o in ops && GivenIn(o, a);
        assert o in ops + [op];
      } else {
        assert GivenIn(op, a);
      }
    }
  }

  lemma {:induction false} StepKeepsInv(ops: seq<Op>, op: Op, st: State)
    requires Inv(ops, st)
    ensures Inv(ops + [op], Step(op, st))
  {
    hide StartRun, AsksOnce, NoneTwice, GivenIn, AllGiven, PlanLines, AnsweredIds;
    if AllAskOnce(ops + [op]) {
      assert op in ops + [op] && forall o <- ops :: o in ops + [op];
    }
    match op
    case Start(registry, flow, v) =>
      var added := StartAdds(op, st);
      if AllAskOnce(ops + [op]) { NoneTwiceTogether(AnswersOf(st), added); }
      AllGivenLater(ops, op, AnswersOf(st), added);
    case Finalize(flow, dir) =>
      AllGivenLater(ops, op, AnswersOf(st), []);
      assert AnswersOf(st) + [] == AnswersOf(st);
  }

  /**
   * After any runs of any actors, each with its own registry and flow: every answer was given in a run whose registry let
   * its author act in a role the question admits, a closed session has its bundle, and flows that ask once leave no
   * question answered twice.
   */
  lemma {:induction false} RunsKeepInv(ops: seq<Op>)
    ensures Inv(ops, Runs(ops, NO_SESSION))
    decreases |ops|
  {
    hide Inv, Step;
    if ops == [] {
      NothingYet();
    } else {
      var n := |ops| - 1;
      RunsKeepInv(ops[..n]);
      assert ops[..n] + [ops[n]] == ops;
      StepKeepsInv(ops[..n], ops[n], Runs(ops[..n], NO_SESSION));
    }
  }

  lemma {:induction false} NothingYet()
    ensures Inv([], NO_SESSION)
  {
  }

  /** A registry and a flow as a run may find them. */
  datatype Setting = Setting(registry: Registry, flow: Flow)

  ghost predicate UsesOnly(ops: seq<Op>, settings: set<Setting>) {
    forall op <- ops :: op.Start? ==> Setting(op.registry, op.flow) in settings
  }

  /** Where a role is open to two questions with one id, a single visit answers both. */
  lemma {:induction false} SharedIdAnswersTwice(registry: Registry, flow: Flow) returns (v: Visit)
    requires !AsksOnce(registry, flow)
    ensures !NoneTwice(AnswersOf(StartRun(registry, flow, v, NO_SESSION)))
  {
    hide StartRun, Asked, Registered, RoleForm, RequiredIn, OpenTo, NoneTwice, Eager;
    var mode, login, asRole :| mode in MODES && Registered(registry, login, RoleForm(registry, asRole))
      && !OneEach(registry, RoleForm(registry, asRole), RequiredIn(flow.questions, mode));
    var role, qs := RoleForm(registry, asRole), RequiredIn(flow.questions, mode);
    var i, j :| 0 <= i < j < |qs| && qs[i].id == qs[j].id
      && OpenTo(registry, role, qs[i]) && OpenTo(registry, role, qs[j]);
    v := Eager(login, asRole, mode, qs);
    ProvidesAll(login, asRole, mode, qs);
    EagerAnswers(registry, v, role, qs, i, j);
    FirstVisit(registry, flow, login, asRole, mode, qs);
  }

  /** The first visit in a mode of its own adds what it is asked. */
  lemma {:induction false} FirstVisit(
    registry: Registry, flow: Flow, login: string, asRole: string, mode: VisitMode, given: seq<Question>)
    requires mode != "" && Registered(registry, login, RoleForm(registry, asRole))
    ensures var v := Eager(login, asRole, mode, given);
      AnswersOf(StartRun(registry, flow, v, NO_SESSION))
      == Asked(registry, v, RoleForm(registry, asRole), {}, RequiredIn(flow.questions, mode), [])
  {
    hide Asked, MayAct, NormalizeRole, RequiredIn, Registered, RoleForm;
    FormIsNormal(registry, asRole);
    RegisteredExactly(registry, login, RoleForm(registry, asRole));
    var v := Eager(login, asRole, mode, given);
    assert AnsweredIds(InitSession(mode).answers) == {};
    assert ChooseMode(v, InitSession(mode)) == Chosen(mode, []);
  }

  /** No runs in these settings ever answer a question twice, exactly when each of the settings asks once. */
  lemma {:induction false} RunsAnswerOnceExactly(settings: set<Setting>)
    ensures (forall ops :: UsesOnly(ops, settings) ==> NoneTwice(AnswersOf(Runs(ops, NO_SESSION))))
      <==> (forall setting <- settings :: AsksOnce(setting.registry, setting.flow))
  {
    hide NoneTwice, AsksOnce, Runs;
    if forall setting <- settings :: AsksOnce(setting.registry, setting.flow) {
      forall ops | UsesOnly(ops, settings) ensures NoneTwice(AnswersOf(Runs(ops, NO_SESSION))) {
        assert AllAskOnce(ops);
        RunsKeepInv(ops);
      }
    } else {
      var setting :| setting in settings && !AsksOnce(setting.registry, setting.flow);
      var v := SharedIdAnswersTwice(setting.registry, setting.flow);
      var ops := [Start(setting.registry, setting.flow, v)];
      OneRun(ops[0]);
      assert UsesOnly(ops, settings);
    }
  }

  lemma {:induction false} OneRun(op: Op)
    ensures Runs([op], NO_SESSION) == Step(op, NO_SESSION)
  {
    hide Step;
    assert [op][..0] == [];
    assert Runs([op][..0], NO_SESSION) == NO_SESSION;
  }

  lemma {:induction false} StepGrows(op: Op, st: State)
    ensures AnswersOf(st) <= AnswersOf(Step(op, st))
    ensures st.file.Some? ==> Step(op, st).file.Some?
    ensures Finalized(st) ==> Step(op, st) == st
    ensures st.file.Some? && Step(op, st).file.value.mode != st.file.value.mode ==>
      |AnswersOf(st)| < |AnswersOf(Step(op, st))|
  {
    hide Asked, MayAct, NormalizeRole, RequiredIn, AnsweredIds, PlanLines, ChooseMode;
  }

  /** Answers are only appended, and once the session is finalised nothing changes any more, neither file nor bundles. */
  lemma {:induction false} RunsGrow(ops: seq<Op>, st: State)
    ensures AnswersOf(st) <= AnswersOf(Runs(ops, st))
    ensures Finalized(st) ==> Runs(ops, st) == st
    decreases |ops|
  {
    hide Step, Finalized;
    if ops != [] {
      var before := Runs(ops[..|ops| - 1], st);
      RunsGrow(ops[..|ops| - 1], st);
      StepGrows(ops[|ops| - 1], before);
    }
  }

  lemma {:induction false} RunsConcat(a: seq<Op>, b: seq<Op>, st: State)
    ensures Runs(a + b, st) == Runs(b, Runs(a, st))
    decreases |b|
  {
    hide Step;
    if b == [] {
      assert a + b == a;
    } else {
      RunsConcat(a, b[..|b| - 1], st);
      assert (a + b)[..|a + b| - 1] == a + b[..|b| - 1];
    }
  }

  /** The bundle of a finalised session keeps exactly its final answers, whatever runs follow. */
  lemma {:induction false} BundleKeepsFinalAnswers(before: seq<Op>, after: seq<Op>)
    requires Finalized(Runs(before, NO_SESSION))
    ensures var end := Runs(before + after, NO_SESSION);
      && end == Runs(before, NO_SESSION)
      && Finalized(end) && end.file.value.finalBundle in end.bundles
      && end.bundles[end.file.value.finalBundle].copy.answers == AnswersOf(end)
      && (AllAskOnce(before) ==> NoneTwice(AnswersOf(end)))
  {
    hide Runs, AllAskOnce, NoneTwice, AllGiven;
    RunsKeepInv(before);
    RunsConcat(before, after, NO_SESSION);
    RunsGrow(after, Runs(before, NO_SESSION));
  }

  // ---- The plan and the status agree ----

  lemma {:induction false} PhaseLinesMeaning(session: Session, phase: string, questions: seq<Question>, line: PlanLine)
    ensures line in PhaseLines(session, phase, questions) <==>
      exists q <- questions :: q.phase == phase && session.mode in q.modes && line == PlanOf(session, q)
    decreases |questions|
  {
    hide PlanOf;
    if questions != [] {
      var front, last := questions[..|questions| - 1], questions[|questions| - 1];
      PhaseLinesMeaning(session, phase, front, line);
      assert forall q :: q in questions <==> q in front || q == last;
    }
  }

  lemma {:induction false} PlanLinesMeaning(
    session: Session, phases: seq<Phase>, questions: seq<Question>, line: PlanLine)
    requires !line.Heading?
    ensures line in PlanLines(session, phases, questions) <==>
      exists p <- phases :: line in PhaseLines(session, p.id, questions)
    decreases |phases|
  {
    hide PhaseLines;
    if phases != [] {
      var front, last := phases[..|phases| - 1], phases[|phases| - 1];
      PlanLinesMeaning(session, front, questions, line);
      assert forall p :: p in phases <==> p in front || p == last;
    }
  }

  /** The plan lists a question as open exactly when the mode requires it, a phase holds it and no answer has its id. */
  lemma {:induction false} PlanShowsOpenQuestions(session: Session, flow: Flow, q: Question)
    ensures Open(q) in PlanLines(session, flow.phases, flow.questions) <==>
      && q in flow.questions && session.mode in q.modes && q.id !in AnsweredIds(session.answers)
      && exists p <- flow.phases :: p.id == q.phase
  {
    hide PlanLines, PhaseLines, AnsweredIds, AnswerTo;
    PlanLinesMeaning(session, flow.phases, flow.questions, Open(q));
    forall p <- flow.phases ensures Open(q) in PhaseLines(session, p.id, flow.questions) <==>
      q in flow.questions && q.phase == p.id && session.mode in q.modes && q.id !in AnsweredIds(session.answers)
    {
      PhaseLinesMeaning(session, p.id, flow.questions, Open(q));
    }
  }

  /** Where every question has its phase, the exported plan has an open line exactly when the status has an open question. */
  lemma {:induction false} PlanAgreesWithStatus(session: Session, flow: Flow, open: seq<Question>)
    requires forall q <- flow.questions :: exists p <- flow.phases :: p.id == q.phase
    requires forall q :: q in open <==> q in flow.questions && session.mode in q.modes && q.id !in AnsweredIds(session.answers)
    ensures forall q :: Open(q) in PlanLines(session, flow.phases, flow.questions) <==> q in open
  {
    hide PlanLines, AnsweredIds;
    forall q ensures Open(q) in PlanLines(session, flow.phases, flow.questions) <==> q in open {
      PlanShowsOpenQuestions(session, flow, q);
    }
  }
}
