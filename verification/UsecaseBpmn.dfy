/** scripts/generate_usecase_bpmn.py: the steps of a usecase, and the model rendered from a list of steps. */
module UsecaseBpmn {
  import opened BpmnTree
  import Identifiers

  datatype Step = Step(
    elementId: string, kind: Tag, name: string, role: string, channel: string,
    dataClass: string, approval: string, evidence: string,
    plugin: string := "", localExecution: bool := false)

  /** Labels are kept word by word and channels token by token; this puts the text of the script back together. */
  function Joined(parts: seq<string>, mark: char): string {
    if parts == [] then "" else if |parts| == 1 then parts[0] else parts[0] + [mark] + Joined(parts[1..], mark)
  }

  function Words(ws: seq<string>): string { Joined(ws, ' ') }

  function Channels(ts: seq<string>): string { Joined(ts, ';') }

  // ---- The kinds of usecases ----

  const ONLINE := "online-gmbh-gruendung"

  const REGISTER_SLUGS := {
    "geschaeftsanteilsuebertragung-gmbh", "gesellschafterbeschluss-gmbh-ug", "handelsregisteranmeldung",
    "online-gmbh-gruendung", "vereinsregisteranmeldung"
  }
  const LAND_REGISTER_SLUGS := {
    "bautraegervertrag", "grundschuld-hypothekenbestellung", "grundstueckskaufvertrag", "immobilienkaufvertrag",
    "loeschungsbewilligung-grundbuchloeschung", "schenkungsvertrag-uebertragungsvertrag", "teilungserklaerung-weg",
    "vollmacht-immobilien-gesellschaftsgeschaefte"
  }
  const COURT_OR_ESTATE_SLUGS := {
    "adoption-familienrechtliche-erklaerungen", "erbausschlagung", "erbscheinsantrag-nachlass",
    "pflichtteilsverzicht-erbverzicht", "testament", "testament-erbvertrag", "vorsorgevollmacht-patientenverfuegung"
  }
  const CARD_SLUGS := {
    "bautraegervertrag", "grundschuld-hypothekenbestellung", "immobilienkaufvertrag",
    "loeschungsbewilligung-grundbuchloeschung", "teilungserklaerung-weg", "vollmacht-immobilien-gesellschaftsgeschaefte"
  }

  predicate Register(slug: string) { slug in REGISTER_SLUGS }
  predicate LandRegister(slug: string) { slug in LAND_REGISTER_SLUGS }
  predicate CourtOrEstate(slug: string) { slug in COURT_OR_ESTATE_SLUGS }
  predicate LastWill(slug: string) { slug in {"testament", "testament-erbvertrag"} }
  predicate Precaution(slug: string) { slug == "vorsorgevollmacht-patientenverfuegung" }
  predicate RequiresXnpCheck(slug: string) { Register(slug) || slug in CARD_SLUGS }

  // ---- Channels and labels by kind ----

  function IntakeChannel(slug: string): seq<string> {
    if Register(slug) then ["email", "phone", "register_portal"]
    else if LandRegister(slug) then ["personal", "email", "phone", "post"]
    else if CourtOrEstate(slug) then ["personal", "email", "phone", "post", "fax"]
    else ["personal", "email", "phone", "fax"]
  }

  function DocumentsChannel(slug: string): seq<string> {
    if Register(slug) then ["register_portal", "email", "internal"]
    else if LandRegister(slug) then ["land_register_portal", "email", "post", "internal"]
    else if CourtOrEstate(slug) then ["email", "fax", "post", "court", "internal"]
    else ["email", "fax", "post", "internal"]
  }

  function DraftChannel(slug: string): seq<string> {
    if Register(slug) then ["email", "register_portal", "internal"]
    else if LandRegister(slug) then ["email", "post", "land_register_portal", "internal"]
    else if CourtOrEstate(slug) then ["email", "fax", "post", "personal", "internal"]
    else ["email", "fax", "post", "internal"]
  }

  function IdentityChannel(slug: string): seq<string> {
    if Register(slug) then ["personal", "qualified_e_signature", "xnp_local"] else ["personal", "paper_signature"]
  }

  function SignatureChannel(slug: string): seq<string> {
    if Register(slug) then ["paper_signature", "qualified_e_signature", "xnp_local"] else ["personal", "paper_signature"]
  }

  function SubmissionChannel(slug: string): seq<string> {
    if Register(slug) then ["xnp_local", "register_portal", "qualified_e_signature"]
    else if LandRegister(slug) then ["land_register_portal", "post", "email"]
    else if LastWill(slug) then ["post", "fax", "court", "ben"]
    else if Precaution(slug) then ["post", "fax", "email", "authority"]
    else if CourtOrEstate(slug) then ["post", "fax", "court", "email"]
    else ["email", "fax", "post"]
  }

  function FollowUpChannel(slug: string): seq<string> {
    if Register(slug) then ["register_portal", "email", "internal"]
    else if LandRegister(slug) then ["land_register_portal", "email", "internal"]
    else if CourtOrEstate(slug) then ["court", "email", "internal"]
    else ["email", "internal"]
  }

  function DocumentsLabel(slug: string): seq<string> {
    if Register(slug) then ["Registerstand", "und", "Anlagen", "prüfen"]
    else if LandRegister(slug) then ["Grundbuchstand", "und", "Unterlagen", "prüfen"]
    else if LastWill(slug) then ["Verfügungen", "und", "Verwahrungsweg", "prüfen"]
    else if slug == "erbscheinsantrag-nachlass" then ["Nachlassangaben", "und", "Nachweise", "prüfen"]
    else ["Unterlagen", "und", "Nachweise", "prüfen"]
  }

  function DraftLabel(slug: string): seq<string> {
    if Register(slug) then ["Anmeldung", "und", "Anlagen", "entwerfen"]
    else if LandRegister(slug) then ["Urkundenentwurf", "und", "Vollzugshinweise", "abstimmen"]
    else ["Entwurf", "und", "Abstimmung", "erstellen"]
  }

  function DeedLabel(slug: string): seq<string> {
    if Register(slug) then ["Beglaubigung", "oder", "Beurkundung", "durchführen"]
    else if slug == "unterschriftsbeglaubigung" then ["Unterschrift", "öffentlich", "beglaubigen"]
    else ["Beurkundung", "oder", "Erklärung", "durchführen"]
  }

  function SubmissionLabel(slug: string): seq<string> {
    if Register(slug) then ["Registereinreichung", "ausführen"]
    else if LandRegister(slug) then ["Vollzug", "und", "Grundbuchkommunikation", "ausführen"]
    else if LastWill(slug) then ["Verwahrung", "und", "Benachrichtigung", "ausführen"]
    else if Precaution(slug) then ["Registrierung", "oder", "Versand", "ausführen"]
    else ["Einreichung", "oder", "Versand", "ausführen"]
  }

  // ---- Steps ----

  const XNP_CHECK := "Task_XnpArbeitsplatzPruefen"

  const NOTARIAT := "Notariat"
  const CLERK := "Notariatsfachkraft"
  const NOTARY := "Notarin/Notar"

  function Start(name: seq<string>, channel: seq<string>): Step {
    Step("StartEvent_VorgangAnlegen", StartEvent, Words(name), NOTARIAT, Channels(channel), "metadata", "none", "none")
  }

  function End(name: seq<string>): Step {
    Step("EndEvent_Abgeschlossen", EndEvent, Words(name), NOTARIAT, Channels(["internal"]), "metadata", "none", "required")
  }

  function User(elementId: string, name: seq<string>, role: string, channel: seq<string>,
                dataClass: string := "confidential_placeholder"): Step {
    Step(elementId, UserTask, Words(name), role, Channels(channel), dataClass, "human", "required")
  }

  function Manual(elementId: string, name: seq<string>, role: string, channel: seq<string>, approval: string := "human"): Step {
    Step(elementId, ManualTask, Words(name), role, Channels(channel), "confidential_placeholder", approval, "required")
  }

  function Rule(elementId: string, name: seq<string>, channel: seq<string>): Step {
    Step(elementId, BusinessRuleTask, Words(name), NOTARIAT, Channels(channel), "metadata", "human", "required")
  }

  function Send(elementId: string, name: seq<string>, channel: seq<string>): Step {
    Step(elementId, SendTask, Words(name), CLERK, Channels(channel), "metadata", "human", "required")
  }

  const CHECK := Step(
    XNP_CHECK, ServiceTask, Words(["Karte,", "XNP", "und", "Signaturpfad", "lokal", "prüfen"]), "IT-Betrieb",
    Channels(["xnp_local"]), "metadata", "none", "required", "nac-cyberjack-rfid", true)

  /** The workstation check goes in before the fourth step online, before the fifth elsewhere. */
  function WithXnpCheck(slug: string, steps: seq<Step>): seq<Step> {
    var insertAfter := if slug == ONLINE then 3 else 4;
    if |steps| < insertAfter then steps + [CHECK] else steps[..insertAfter] + [CHECK] + steps[insertAfter..]
  }

  function OnlineSteps(): seq<Step> {
    [ Start(["Vorgang", "im", "Online-Verfahren", "übernehmen"], ["notary_app", "email"]),
      User("Task_SachbearbeitungZuweisen", ["Sachbearbeitung", "und", "Aktenzeichen", "zuweisen"], NOTARIAT,
        ["notary_app", "internal"], "metadata"),
      Rule("Task_FormUndRegisterPruefen", ["Gründung,", "Satzung", "und", "Registerroute", "prüfen"],
        ["register_portal", "internal"]),
      User("Task_UnterlagenAbgleichen", ["Gründer,", "Kapital", "und", "Unterlagen", "abgleichen"], CLERK,
        ["notary_app", "email", "register_portal"]),
      Manual("Task_VideokonferenzVorbereiten", ["Videokonferenz", "und", "Signaturfähigkeit", "vorbereiten"], CLERK,
        ["video", "notary_app", "qualified_e_signature"]),
      Manual("Task_OnlineBeurkundung", ["Online-Beurkundung", "durchführen"], NOTARY,
        ["video", "qualified_e_signature", "notary_app"], "four_eyes"),
      Send("Task_RegisterEinreichen", ["Registerpaket", "digital", "einreichen"],
        ["xnp_local", "register_portal", "qualified_e_signature"]),
      User("Task_NachweiseNachhalten", ["Registerrückläufe", "und", "Nachweise", "nachhalten"], CLERK,
        ["register_portal", "email", "internal"]),
      End(["Vorgang", "abgeschlossen"])
    ]
  }

  function UsualSteps(slug: string): seq<Step> {
    [ Start(["Vorgang", "anlegen"], IntakeChannel(slug)),
      User("Task_AuftragAufnehmen", ["Auftrag", "und", "Beteiligte", "aufnehmen"], CLERK, IntakeChannel(slug)),
      Rule("Task_FormFristenPruefen", ["Zuständigkeit,", "Form", "und", "Fristen", "prüfen"], ["internal"]),
      User("Task_UnterlagenPruefen", DocumentsLabel(slug), CLERK, DocumentsChannel(slug)),
      User("Task_EntwurfAbstimmen", DraftLabel(slug), CLERK, DraftChannel(slug)),
      Manual("Task_IdentitaetVertretung", ["Identität", "und", "Vertretung", "prüfen"], NOTARY, IdentityChannel(slug)),
      Manual("Task_Beurkundung", DeedLabel(slug), NOTARY, SignatureChannel(slug), "four_eyes"),
      Send("Task_EinreichungVersand", SubmissionLabel(slug), SubmissionChannel(slug)),
      User("Task_NachweiseNachhalten", ["Nachweis", "und", "Fristen", "nachhalten"], CLERK, FollowUpChannel(slug)),
      End(["Vorgang", "abgeschlossen"])
    ]
  }

  function BuildSteps(slug: string): seq<Step> {
    if slug == ONLINE then WithXnpCheck(slug, OnlineSteps())
    else if RequiresXnpCheck(slug) then WithXnpCheck(slug, UsualSteps(slug))
    else UsualSteps(slug)
  }

  // ---- Rendering ----

  datatype Box = Box(x: int, y: int, width: int, height: int)

  /** `f"Flow_{index:02d}"`. */
  function FlowId(index: nat): string { "Flow_" + Identifiers.Padded(index, 2) }

  function FlowCount(steps: seq<Step>): nat { if steps == [] then 0 else |steps| - 1 }

  function LineElement(tag: Tag, text: string): Element { Element(tag, map[], map[], text, []) }

  /** The attributes a step always has, then its plugin and local execution if any, then its graph. */
  function StepAttrs(s: Step, slug: string): map<Attr, string> {
    map[Id := s.elementId, Name := s.name, Role := s.role, Channel := s.channel,
        DataClass := s.dataClass, Approval := s.approval, Evidence := s.evidence, KgRef := slug]
    + (if s.plugin != "" then map[Plugin := s.plugin] else map[])
    + (if s.localExecution then map[LocalExecution := "true"] else map[])
  }

  /** A step names the flow that enters it, except the first, and the one that leaves it, except the last. */
  function StepElement(steps: seq<Step>, i: nat, slug: string): Element
    requires i < |steps|
  {
    Element(steps[i].kind, StepAttrs(steps[i], slug), map[], "",
      (if i > 0 then [LineElement(Incoming, FlowId(i - 1))] else [])
      + (if i + 1 < |steps| then [LineElement(Outgoing, FlowId(i))] else []))
  }

  function FlowElement(steps: seq<Step>, k: nat): Element
    requires k + 1 < |steps|
  {
    Element(SequenceFlow,
      map[Id := FlowId(k), SourceRef := steps[k].elementId, TargetRef := steps[k + 1].elementId], map[], "", [])
  }

  function StepElements(steps: seq<Step>, slug: string, n: nat): (r: seq<Element>)
    requires n <= |steps|
    ensures |r| == n && forall i :: 0 <= i < n ==> r[i] == StepElement(steps, i, slug)
  {
    if n == 0 then [] else StepElements(steps, slug, n - 1) + [StepElement(steps, n - 1, slug)]
  }

  function FlowElements(steps: seq<Step>, n: nat): (r: seq<Element>)
    requires n <= FlowCount(steps)
    ensures |r| == n && forall k :: 0 <= k < n ==> r[k] == FlowElement(steps, k)
  {
    if n == 0 then [] else FlowElements(steps, n - 1) + [FlowElement(steps, n - 1)]
  }

  const DOCUMENTATION := LineElement(Documentation, "Generiert aus usecase-lokalem KG. Keine Mandatswerte im Repo.")

  function ProcessElement(slug: string, title: string, safe: string, steps: seq<Step>): Element {
    Element(Process,
      map[Id := "Process_" + safe, Name := title, IsExecutable := "false", Profile := "nac-bpmn/v0.1",
          Owner := "funktion8 / ofunk", Binding := "Git Pull Request"], map[], "",
      [DOCUMENTATION] + StepElements(steps, slug, |steps|) + FlowElements(steps, FlowCount(steps)))
  }

  function BoxAt(index: nat, kind: Tag): Box {
    if kind == StartEvent || kind == EndEvent then Box(130 + index * 215, 160, 36, 36) else Box(115 + index * 215, 138, 160, 80)
  }

  /** `step_layout` keeps one box per id; a later step with the same id replaces an earlier one. */
  function LayoutUpTo(steps: seq<Step>, n: nat): (m: map<string, Box>)
    requires n <= |steps|
    ensures forall i :: 0 <= i < n ==> steps[i].elementId in m
  {
    if n == 0 then map[] else LayoutUpTo(steps, n - 1)[steps[n - 1].elementId := BoxAt(n - 1, steps[n - 1].kind)]
  }

  function Layout(steps: seq<Step>): (m: map<string, Box>)
    ensures forall i :: 0 <= i < |steps| ==> steps[i].elementId in m
  {
    LayoutUpTo(steps, |steps|)
  }

  function ShapeElement(id: string, b: Box): Element {
    Element(Shape, map[Id := "Shape_" + id, BpmnElement := id], map[], "",
      [Element(Bounds, map[], map[X := b.x, Y := b.y, Width := b.width, Height := b.height], "", [])])
  }

  function Point(x: int, y: int): Element { Element(Waypoint, map[], map[X := x, Y := y], "", []) }

  /** From the middle of the source's right side to the middle of the target's left side. */
  function EdgeElement(flow: string, from: Box, to: Box): Element {
    Element(Edge, map[Id := "Edge_" + flow, BpmnElement := flow], map[], "",
      [Point(from.x + from.width, from.y + from.height / 2), Point(to.x, to.y + to.height / 2)])
  }

  function Shapes(steps: seq<Step>, n: nat): (r: seq<Element>)
    requires n <= |steps|
    ensures |r| == n
    ensures forall i :: 0 <= i < n ==> r[i] == ShapeElement(steps[i].elementId, Layout(steps)[steps[i].elementId])
  {
    if n == 0 then []
    else Shapes(steps, n - 1) + [ShapeElement(steps[n - 1].elementId, Layout(steps)[steps[n - 1].elementId])]
  }

  function Edges(steps: seq<Step>, n: nat): (r: seq<Element>)
    requires n <= FlowCount(steps)
    ensures |r| == n
    ensures forall k :: 0 <= k < n ==>
      r[k] == EdgeElement(FlowId(k), Layout(steps)[steps[k].elementId], Layout(steps)[steps[k + 1].elementId])
  {
    if n == 0 then []
    else
      Edges(steps, n - 1)
      + [EdgeElement(FlowId(n - 1), Layout(steps)[steps[n - 1].elementId], Layout(steps)[steps[n].elementId])]
  }

  function DiagramElement(safe: string, steps: seq<Step>): Element {
    Element(Diagram, map[Id := "BPMNDiagram_" + safe], map[], "",
      [Element(Plane, map[Id := "BPMNPlane_" + safe, BpmnElement := "Process_" + safe], map[], "",
         Shapes(steps, |steps|) + Edges(steps, FlowCount(steps)))])
  }

  const TARGET_NS := "https://github.com/notariat8/NaC/bpmn/notariat/usecases"

  function Rendered(slug: string, title: string, safe: string, steps: seq<Step>): Element {
    Element(Definitions, map[Id := "Definitions_" + safe, TargetNamespace := TARGET_NS], map[], "",
      [ProcessElement(slug, title, safe, steps), DiagramElement(safe, steps)])
  }

  method StepLayout(steps: seq<Step>) returns (bounds: map<string, Box>)
    ensures bounds == Layout(steps)
  {
    bounds := map[];
    for index := 0 to |steps|
      invariant bounds == LayoutUpTo(steps, index)
    {
      var step := steps[index];
      if step.kind == StartEvent || step.kind == EndEvent {
        bounds := bounds[step.elementId := Box(130 + index * 215, 160, 36, 36)];
      } else {
        bounds := bounds[step.elementId := Box(115 + index * 215, 138, 160, 80)];
      }
    }
  }

  /** Appends the steps, the flows, the shapes and the edges in the order of the script; `safe` is `safe_id(slug)`. */
  method RenderBpmn(slug: string, title: string, safe: string, steps: seq<Step>) returns (root: Element)
    ensures root == Rendered(slug, title, safe, steps)
  {
    hide StepElement, FlowElement, DiagramElement;
    var children := [DOCUMENTATION];
    for index := 0 to |steps|
      invariant children == [DOCUMENTATION] + StepElements(steps, slug, index)
    {
      children := children + [StepElement(steps, index, slug)];
    }
    for k := 0 to FlowCount(steps)
      invariant children == [DOCUMENTATION] + StepElements(steps, slug, |steps|) + FlowElements(steps, k)
    {
      children := children + [FlowElement(steps, k)];
    }
    var diagram := RenderDiagram(safe, steps);
    var process := Element(Process,
      map[Id := "Process_" + safe, Name := title, IsExecutable := "false", Profile := "nac-bpmn/v0.1",
          Owner := "funktion8 / ofunk", Binding := "Git Pull Request"], map[], "", children);
    root := Element(Definitions, map[Id := "Definitions_" + safe, TargetNamespace := TARGET_NS], map[], "", [process, diagram]);
  }

  method RenderDiagram(safe: string, steps: seq<Step>) returns (diagram: Element)
    ensures diagram == DiagramElement(safe, steps)
  {
    hide ShapeElement, EdgeElement, Layout, FlowId, BoxAt;
    var layout := StepLayout(steps);
    var drawn: seq<Element> := [];
    for index := 0 to |steps|
      invariant drawn == Shapes(steps, index)
    {
      var id := steps[index].elementId;
      drawn := drawn + [ShapeElement(id, layout[id])];
    }
    for k := 0 to FlowCount(steps)
      invariant drawn == Shapes(steps, |steps|) + Edges(steps, k)
    {
      drawn := drawn + [EdgeElement(FlowId(k), layout[steps[k].elementId], layout[steps[k + 1].elementId])];
    }
    diagram := Element(Diagram, map[Id := "BPMNDiagram_" + safe], map[], "",
      [Element(Plane, map[Id := "BPMNPlane_" + safe, BpmnElement := "Process_" + safe], map[], "", drawn)]);
  }
}
