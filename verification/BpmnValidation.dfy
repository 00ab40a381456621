/** scripts/validate_bpmn_models.py: the two checks of a BPMN model. */
module BpmnValidation {
  import opened Text
  import opened BpmnTree

  const NAC_PROFILE := "nac-bpmn/v0.1"

  const FORBIDDEN_NAME_PARTS := ["passwort", "password", "pin", "secret", "token", "api-key", "apikey"]

  const ALLOWED_DATA_CLASSES := {"metadata", "public_reference", "confidential_placeholder", "no_mandate_data"}
  const ALLOWED_APPROVALS := {"none", "human", "four_eyes"}
  const ALLOWED_EVIDENCE := {"none", "optional", "required"}
  const ALLOWED_DURATION_BANDS := {
    "same_day_or_internal", "short_party_turnaround", "standard_external", "extended_external", "statutory_or_exceptional"
  }
  const ALLOWED_CHANNELS := {
    "authority", "ben", "court", "email", "fax", "github", "internal", "land_register_portal", "notary_app",
    "paper_signature", "personal", "phone", "post", "qualified_e_signature", "register_portal", "tax_portal", "video",
    "xnotar_xjustiz", "xnp_local"
  }

  /** One constructor per message; `at` is the id the message names. */
  datatype Error =
    | WrongRoot | NoProcess | ProcessWithoutId | ProcessWithoutName(at: string)
    | UnknownSource(at: string, ref: string) | UnknownTarget(at: string, ref: string)
    | NoStart(at: string) | NoEnd(at: string)
    | NodeWithoutName(at: string) | ForbiddenName(at: string, part: string) | UnlabelledPath(at: string, flow: string)
    | WrongProfile(at: string) | NoOwner(at: string) | NoBinding(at: string) | NoDiagram(at: string)
    | NoRole(at: string) | NoChannel(at: string) | BadChannel(at: string, tokens: set<string>)
    | BadDataClass(at: string, value: string) | BadApproval(at: string, value: string) | BadEvidence(at: string, value: string)
    | NoKgRef(at: string) | BadDurationBand(at: string) | BadCriticalPath(at: string)
    | NotLocal(at: string) | FourEyesWithoutData(at: string)

  function When(bad: bool, e: Error): seq<Error> { if bad then [e] else [] }

  // ---- Names and channels ----

  predicate PartAt(s: string, part: string, i: nat) { i + |part| <= |s| && s[i..i + |part|] == part }

  predicate Contains(s: string, part: string) {
    exists i :: 0 <= i <= |s| && PartAt(s, part, i)
  }

  /** The first forbidden part of the lowered name, from `k` on; the length when there is none. */
  function FirstForbidden(name: string, k: nat): (i: nat)
    requires k <= |FORBIDDEN_NAME_PARTS|
    ensures k <= i <= |FORBIDDEN_NAME_PARTS|
    ensures forall j :: k <= j < i ==> !Contains(Lower(name), FORBIDDEN_NAME_PARTS[j])
    ensures i < |FORBIDDEN_NAME_PARTS| ==> Contains(Lower(name), FORBIDDEN_NAME_PARTS[i])
    decreases |FORBIDDEN_NAME_PARTS| - k
  {
    if k == |FORBIDDEN_NAME_PARTS| || Contains(Lower(name), FORBIDDEN_NAME_PARTS[k]) then k else FirstForbidden(name, k + 1)
  }

  predicate NoForbiddenPart(name: string) {
    forall part <- FORBIDDEN_NAME_PARTS :: !Contains(Lower(name), part)
  }

  function StripAll(parts: seq<string>): seq<string> {
    if parts == [] then []
    else (if Strip(parts[0]) != "" then [Strip(parts[0])] else []) + StripAll(parts[1..])
  }

  /** An absent value has no tokens, and neither has an empty one. */
  function SplitChannelTokens(value: string): seq<string> {
    if value == "" then [] else StripAll(SplitOn(value, ';'))
  }

  function Elements<T>(s: seq<T>): set<T> { set x <- s }

  // ---- The basic check ----

  function NameErrors(node: Element): seq<Error> {
    var name := Get(node, Name);
    var k := FirstForbidden(name, 0);
    When(name == "", NodeWithoutName(Get(node, Id)))
    + if k < |FORBIDDEN_NAME_PARTS| then [ForbiddenName(Get(node, Id), FORBIDDEN_NAME_PARTS[k])] else []
  }

  function RefErrors(ids: set<string>, flow: Element): seq<Error> {
    When(Get(flow, SourceRef) !in ids, UnknownSource(Get(flow, Id), Get(flow, SourceRef)))
    + When(Get(flow, TargetRef) !in ids, UnknownTarget(Get(flow, Id), Get(flow, TargetRef)))
  }

  function OutgoingIds(es: seq<Element>): seq<string> {
    if es == [] then []
    else (if es[0].tag == Outgoing && es[0].text != "" then [es[0].text] else []) + OutgoingIds(es[1..])
  }

  /** The label of the last flow with that id; later entries replace earlier ones. */
  function LabelOf(flows: seq<Element>, id: string): string {
    if flows == [] then ""
    else
      var last := flows[|flows| - 1];
      if Get(last, Id) == id then Get(last, Name) else LabelOf(flows[..|flows| - 1], id)
  }

  function PathErrors(flows: seq<Element>, gateway: string, outgoing: seq<string>): seq<Error> {
    if outgoing == [] then []
    else
      var n := |outgoing| - 1;
      PathErrors(flows, gateway, outgoing[..n]) + When(LabelOf(flows, outgoing[n]) == "", UnlabelledPath(gateway, outgoing[n]))
  }

  function GatewayErrors(flows: seq<Element>, node: Element): seq<Error> {
    var outgoing := OutgoingIds(node.children);
    if IsDecision(node.tag) && |outgoing| > 1 then PathErrors(flows, Get(node, Id), outgoing) else []
  }

  // The errors of several elements, in order.

  function AllRefErrors(ids: set<string>, flows: seq<Element>): seq<Error> {
    if flows == [] then [] else AllRefErrors(ids, flows[..|flows| - 1]) + RefErrors(ids, flows[|flows| - 1])
  }

  function AllNameErrors(nodes: seq<Element>): seq<Error> {
    if nodes == [] then [] else AllNameErrors(nodes[..|nodes| - 1]) + NameErrors(nodes[|nodes| - 1])
  }

  function AllGatewayErrors(flows: seq<Element>, nodes: seq<Element>): seq<Error> {
    if nodes == [] then [] else AllGatewayErrors(flows, nodes[..|nodes| - 1]) + GatewayErrors(flows, nodes[|nodes| - 1])
  }

  function ProcessErrors(process: Element): seq<Error> {
    var id := Get(process, Id);
    When(id == "", ProcessWithoutId)
    + When(Get(process, Name) == "", ProcessWithoutName(id))
    + AllRefErrors(Ids(process), SequenceFlows(process))
    + When(ChildrenByTag(process, StartEvent) == [], NoStart(id))
    + When(ChildrenByTag(process, EndEvent) == [], NoEnd(id))
    + AllNameErrors(FlowNodes(process))
    + AllGatewayErrors(SequenceFlows(process), FlowNodes(process))
  }

  function AllProcessErrors(processes: seq<Element>): seq<Error> {
    if processes == [] then []
    else AllProcessErrors(processes[..|processes| - 1]) + ProcessErrors(processes[|processes| - 1])
  }

  function BasicErrors(root: Element): seq<Error> {
    if root.tag != Definitions then [WrongRoot]
    else
      var processes := ChildrenByTag(root, Process);
      When(processes == [], NoProcess) + AllProcessErrors(processes)
  }

  lemma {:induction false} NextProcess(processes: seq<Element>, i: nat)
    requires i < |processes|
    ensures AllProcessErrors(processes[..i + 1]) == AllProcessErrors(processes[..i]) + ProcessErrors(processes[i])
  {
    hide ProcessErrors;
    assert processes[..i + 1][..i] == processes[..i];
  }

  lemma {:induction false} NextName(nodes: seq<Element>, i: nat)
    requires i < |nodes|
    ensures AllNameErrors(nodes[..i + 1]) == AllNameErrors(nodes[..i]) + NameErrors(nodes[i])
  {
    hide NameErrors;
    assert nodes[..i + 1][..i] == nodes[..i];
  }

  lemma {:induction false} BothEmpty<T>(a: seq<T>, b: seq<T>)
    ensures a + b == [] <==> a == [] && b == []
  {
  }

  lemma {:induction false} Grouped<T>(a: seq<T>, b: seq<T>, c: seq<T>)
    ensures a + b + c == a + (b + c)
  {
  }

  method ValidateBasicBpmn(root: Element) returns (errors: seq<Error>)
    ensures errors == BasicErrors(root)
    ensures errors == [] <==> BasicOk(root)
  {
    hide ProcessErrors, BasicOk, AllProcessErrors, ChildrenByTag;
    NoBasicErrors(root);
    if root.tag != Definitions {
      return [WrongRoot];
    }
    errors := [];
    var processes := ChildrenByTag(root, Process);
    if processes == [] {
      errors := errors + [NoProcess];
    }
    ghost var head := errors;
    assert AllProcessErrors(processes[..0]) == [] by { NoProcesses(processes); }
    for i := 0 to |processes|
      invariant errors == head + AllProcessErrors(processes[..i])
    {
      var more := CheckProcess(processes[i]);
      NextProcess(processes, i);
      Grouped(head, AllProcessErrors(processes[..i]), more);
      errors := errors + more;
    }
    assert processes[..|processes|] == processes;
  }

  lemma {:induction false} NoProcesses(processes: seq<Element>)
    ensures AllProcessErrors(processes[..0]) == []
  {
  }

  method CheckProcess(process: Element) returns (errors: seq<Error>)
    ensures errors == ProcessErrors(process)
  {
    hide AllNameErrors, AllRefErrors, AllGatewayErrors, Ids, FlowNodes, SequenceFlows, ChildrenByTag;
    var id := Get(process, Id);
    errors := [];
    if id == "" {
      errors := errors + [ProcessWithoutId];
    }
    if Get(process, Name) == "" {
      errors := errors + [ProcessWithoutName(id)];
    }
    assert errors == When(id == "", ProcessWithoutId) + When(Get(process, Name) == "", ProcessWithoutName(id));
    var refs := CheckRefs(Ids(process), SequenceFlows(process));
    errors := errors + refs;
    ghost var before := errors;
    if ChildrenByTag(process, StartEvent) == [] {
      errors := errors + [NoStart(id)];
    }
    assert errors == before + When(ChildrenByTag(process, StartEvent) == [], NoStart(id));
    before := errors;
    if ChildrenByTag(process, EndEvent) == [] {
      errors := errors + [NoEnd(id)];
    }
    assert errors == before + When(ChildrenByTag(process, EndEvent) == [], NoEnd(id));
    var names := CheckNames(FlowNodes(process));
    errors := errors + names;
    var paths := CheckGateways(SequenceFlows(process), FlowNodes(process));
    errors := errors + paths;
  }

  method CheckRefs(ids: set<string>, flows: seq<Element>) returns (errors: seq<Error>)
    ensures errors == AllRefErrors(ids, flows)
  {
    errors := [];
    for i := 0 to |flows|
      invariant errors == AllRefErrors(ids, flows[..i])
    {
      var flow := flows[i];
      assert flows[..i + 1][..i] == flows[..i];
      if Get(flow, SourceRef) !in ids {
        errors := errors + [UnknownSource(Get(flow, Id), Get(flow, SourceRef))];
      }
      if Get(flow, TargetRef) !in ids {
        errors := errors + [UnknownTarget(Get(flow, Id), Get(flow, TargetRef))];
      }
    }
    assert flows[..|flows|] == flows;
  }

  method CheckNames(nodes: seq<Element>) returns (errors: seq<Error>)
    ensures errors == AllNameErrors(nodes)
  {
    hide FirstForbidden, AllNameErrors;
    errors := [];
    assert AllNameErrors([]) == [] by { NoNameErrors([]); }
    assert nodes[..0] == [];
    for i := 0 to |nodes|
      invariant errors == AllNameErrors(nodes[..i])
    {
      var node := nodes[i];
      ghost var before := errors;
      NextName(nodes, i);
      if Get(node, Name) == "" {
        errors := errors + [NodeWithoutName(Get(node, Id))];
      }
      var k := FirstForbidden(Get(node, Name), 0);
      if k < |FORBIDDEN_NAME_PARTS| {
        errors := errors + [ForbiddenName(Get(node, Id), FORBIDDEN_NAME_PARTS[k])];
      }
      assert errors == before + NameErrors(node);
    }
    assert nodes[..|nodes|] == nodes;
  }

  method CheckGateways(flows: seq<Element>, nodes: seq<Element>) returns (errors: seq<Error>)
    ensures errors == AllGatewayErrors(flows, nodes)
  {
    hide PathErrors, OutgoingIds, IsDecision;
    errors := [];
    for i := 0 to |nodes|
      invariant errors == AllGatewayErrors(flows, nodes[..i])
    {
      var node := nodes[i];
      assert nodes[..i + 1][..i] == nodes[..i];
      if IsDecision(node.tag) {
        var outgoing := OutgoingIds(node.children);
        if |outgoing| > 1 {
          var paths := CheckPaths(flows, Get(node, Id), outgoing);
          errors := errors + paths;
        }
      }
    }
    assert nodes[..|nodes|] == nodes;
  }

  method CheckPaths(flows: seq<Element>, gateway: string, outgoing: seq<string>) returns (errors: seq<Error>)
    ensures errors == PathErrors(flows, gateway, outgoing)
  {
    var flowNames: map<string, string> := map[];
    for i := 0 to |flows|
      invariant forall id :: (if id in flowNames then flowNames[id] else "") == LabelOf(flows[..i], id)
    {
      flowNames := flowNames[Get(flows[i], Id) := Get(flows[i], Name)];
      assert flows[..i + 1][..i] == flows[..i];
    }
    assert flows[..|flows|] == flows;
    errors := [];
    for i := 0 to |outgoing|
      invariant errors == PathErrors(flows, gateway, outgoing[..i])
    {
      var id := outgoing[i];
      assert outgoing[..i + 1][..i] == outgoing[..i];
      if (if id in flowNames then flowNames[id] else "") == "" {
        errors := errors + [UnlabelledPath(gateway, id)];
      }
    }
    assert outgoing[..|outgoing|] == outgoing;
  }

  // ---- What passing the basic check means ----

  predicate RefsKnown(ids: set<string>, flow: Element) { Get(flow, SourceRef) in ids && Get(flow, TargetRef) in ids }

  predicate NameOk(node: Element) { Get(node, Name) != "" && NoForbiddenPart(Get(node, Name)) }

  predicate PathsLabelled(flows: seq<Element>, node: Element) {
    IsDecision(node.tag) && |OutgoingIds(node.children)| > 1 ==> AllLabelled(flows, OutgoingIds(node.children))
  }

  predicate ProcessOk(process: Element) {
    && Get(process, Id) != "" && Get(process, Name) != ""
    && (forall f <- SequenceFlows(process) :: RefsKnown(Ids(process), f))
    && (exists e <- process.children :: e.tag == StartEvent)
    && (exists e <- process.children :: e.tag == EndEvent)
    && (forall n <- FlowNodes(process) :: NameOk(n) && PathsLabelled(SequenceFlows(process), n))
  }

  predicate BasicOk(root: Element) {
    && root.tag == Definitions
    && (exists p <- root.children :: p.tag == Process)
    && (forall p <- root.children :: p.tag == Process ==> ProcessOk(p))
  }

  lemma {:induction false} NoRefErrors(ids: set<string>, flows: seq<Element>)
    ensures AllRefErrors(ids, flows) == [] <==> forall f <- flows :: RefsKnown(ids, f)
    decreases |flows|
  {
    hide RefErrors, RefsKnown;
    if flows != [] {
      var front, last := flows[..|flows| - 1], flows[|flows| - 1];
      NoRefErrors(ids, front);
      assert RefErrors(ids, last) == [] <==> RefsKnown(ids, last) by { RefErrorMeaning(ids, last); }
      assert forall f :: f in flows <==> f in front || f == last;
    }
  }

  lemma {:induction false} RefErrorMeaning(ids: set<string>, flow: Element)
    ensures RefErrors(ids, flow) == [] <==> RefsKnown(ids, flow)
  {
  }

  lemma {:induction false} NameErrorMeaning(node: Element)
    ensures NameErrors(node) == [] <==> NameOk(node)
  {
    hide Contains;
  }

  lemma {:induction false} NoNameErrors(nodes: seq<Element>)
    ensures AllNameErrors(nodes) == [] <==> forall n <- nodes :: NameOk(n)
    decreases |nodes|
  {
    hide NameErrors, NameOk;
    if nodes != [] {
      var front, last := nodes[..|nodes| - 1], nodes[|nodes| - 1];
      NoNameErrors(front);
      NameErrorMeaning(last);
      assert forall n :: n in nodes <==> n in front || n == last;
    }
  }

  predicate AllLabelled(flows: seq<Element>, outgoing: seq<string>) {
    forall id <- outgoing :: LabelOf(flows, id) != ""
  }

  lemma {:induction false} NoPathErrors(flows: seq<Element>, gateway: string, outgoing: seq<string>)
    ensures PathErrors(flows, gateway, outgoing) == [] <==> AllLabelled(flows, outgoing)
    decreases |outgoing|
  {
    hide LabelOf;
    if outgoing != [] {
      var front, last := outgoing[..|outgoing| - 1], outgoing[|outgoing| - 1];
      NoPathErrors(flows, gateway, front);
      BothEmpty(PathErrors(flows, gateway, front), When(LabelOf(flows, last) == "", UnlabelledPath(gateway, last)));
      assert outgoing == front + [last];
    }
  }

  lemma {:induction false} GatewayErrorMeaning(flows: seq<Element>, node: Element)
    ensures GatewayErrors(flows, node) == [] <==> PathsLabelled(flows, node)
  {
    hide IsDecision, OutgoingIds, AllLabelled, PathErrors;
    NoPathErrors(flows, Get(node, Id), OutgoingIds(node.children));
  }

  lemma {:induction false} NoGatewayErrors(flows: seq<Element>, nodes: seq<Element>)
    ensures AllGatewayErrors(flows, nodes) == [] <==> forall n <- nodes :: PathsLabelled(flows, n)
    decreases |nodes|
  {
    hide GatewayErrors, PathsLabelled;
    if nodes != [] {
      var front, last := nodes[..|nodes| - 1], nodes[|nodes| - 1];
      NoGatewayErrors(flows, front);
      GatewayErrorMeaning(flows, last);
      BothEmpty(AllGatewayErrors(flows, front), GatewayErrors(flows, last));
      assert forall n :: n in nodes <==> n in front || n == last;
    }
  }

  lemma {:induction false} NoProcessErrors(process: Element)
    ensures ProcessErrors(process) == [] <==> ProcessOk(process)
  {
    hide AllNameErrors, AllRefErrors, AllGatewayErrors, Ids, FlowNodes, SequenceFlows, RefsKnown, NameOk, PathsLabelled;
    NoRefErrors(Ids(process), SequenceFlows(process));
    NoNameErrors(FlowNodes(process));
    NoGatewayErrors(SequenceFlows(process), FlowNodes(process));
    HasTag(process.children, StartEvent);
    HasTag(process.children, EndEvent);
  }

  lemma {:induction false} HasTag(es: seq<Element>, tag: Tag)
    ensures WithTag(es, tag) != [] <==> exists e <- es :: e.tag == tag
  {
    if WithTag(es, tag) != [] {
      assert WithTag(es, tag)[0] in es;
    }
  }

  lemma {:induction false} NoneWrong(processes: seq<Element>)
    ensures AllProcessErrors(processes) == [] <==> forall p <- processes :: ProcessOk(p)
    decreases |processes|
  {
    hide ProcessErrors, ProcessOk;
    if processes != [] {
      var front, last := processes[..|processes| - 1], processes[|processes| - 1];
      NoneWrong(front);
      NoProcessErrors(last);
      assert forall p :: p in processes <==> p in front || p == last;
    }
  }

  /** The basic check reports nothing exactly for the models it is meant to let through. */
  lemma {:induction false} NoBasicErrors(root: Element)
    ensures BasicErrors(root) == [] <==> BasicOk(root)
  {
    hide AllProcessErrors, ProcessOk;
    NoneWrong(ChildrenByTag(root, Process));
    HasTag(root.children, Process);
  }

  // ---- The NaC profile ----

  function WhoAndHow(node: Element): seq<Error> {
    var at := Get(node, Id);
    var channels := SplitChannelTokens(Get(node, Channel));
    var invalid := Elements(channels) - ALLOWED_CHANNELS;
    When(Get(node, Role) == "", NoRole(at))
    + When(channels == [], NoChannel(at))
    + When(invalid != {}, BadChannel(at, invalid))
  }

  function WhatAndWhy(node: Element): seq<Error> {
    var at := Get(node, Id);
    When(Get(node, DataClass) !in ALLOWED_DATA_CLASSES, BadDataClass(at, Get(node, DataClass)))
    + When(Get(node, Approval) !in ALLOWED_APPROVALS, BadApproval(at, Get(node, Approval)))
    + When(Get(node, Evidence) !in ALLOWED_EVIDENCE, BadEvidence(at, Get(node, Evidence)))
    + When(Get(node, KgRef) == "", NoKgRef(at))
  }

  predicate DurationOk(node: Element) { DurationBand in node.attrs ==> node.attrs[DurationBand] in ALLOWED_DURATION_BANDS }

  predicate CriticalOk(node: Element) { CriticalPath in node.attrs ==> node.attrs[CriticalPath] in {"true", "false"} }

  predicate LocalOk(node: Element) { node.tag == ServiceTask ==> Get(node, LocalExecution) == "true" }

  predicate FourEyesOk(node: Element) {
    !(IsTask(node.tag) && Get(node, DataClass) == "no_mandate_data" && Get(node, Approval) == "four_eyes")
  }

  function WhenAndWhere(node: Element): seq<Error> {
    var at := Get(node, Id);
    When(!DurationOk(node), BadDurationBand(at))
    + When(!CriticalOk(node), BadCriticalPath(at))
    + When(!LocalOk(node), NotLocal(at))
    + When(!FourEyesOk(node), FourEyesWithoutData(at))
  }

  function ProfileErrors(node: Element): seq<Error> { WhoAndHow(node) + WhatAndWhy(node) + WhenAndWhere(node) }

  function AllProfileErrors(nodes: seq<Element>): seq<Error> {
    if nodes == [] then [] else AllProfileErrors(nodes[..|nodes| - 1]) + ProfileErrors(nodes[|nodes| - 1])
  }

  /** A process without a profile is none of this check's business. */
  function NacErrors(drawn: bool, process: Element): seq<Error> {
    var at := Get(process, Id);
    if Profile !in process.attrs then []
    else
      When(process.attrs[Profile] != NAC_PROFILE, WrongProfile(at))
      + When(Get(process, Owner) == "", NoOwner(at))
      + When(Get(process, Binding) == "", NoBinding(at))
      + When(!drawn, NoDiagram(at))
      + AllProfileErrors(FlowNodes(process))
  }

  function AllNacErrors(drawn: bool, processes: seq<Element>): seq<Error> {
    if processes == [] then []
    else AllNacErrors(drawn, processes[..|processes| - 1]) + NacErrors(drawn, processes[|processes| - 1])
  }

  function NacProfileErrors(root: Element): seq<Error> {
    AllNacErrors(ChildrenByTag(root, Diagram) != [], ChildrenByTag(root, Process))
  }

  method ValidateNacProfile(root: Element) returns (errors: seq<Error>)
    ensures errors == NacProfileErrors(root)
    ensures errors == [] <==> NacOk(root)
  {
    hide NacErrors, NacOk, ChildrenByTag;
    NoNacErrors(root);
    errors := [];
    var diagrams := ChildrenByTag(root, Diagram);
    var processes := ChildrenByTag(root, Process);
    for i := 0 to |processes|
      invariant errors == AllNacErrors(diagrams != [], processes[..i])
    {
      var more := CheckNacProcess(diagrams != [], processes[i]);
      assert processes[..i + 1][..i] == processes[..i];
      errors := errors + more;
    }
    assert processes[..|processes|] == processes;
  }

  method CheckNacProcess(drawn: bool, process: Element) returns (errors: seq<Error>)
    ensures errors == NacErrors(drawn, process)
  {
    hide AllProfileErrors, FlowNodes;
    errors := [];
    if Profile !in process.attrs {
      return;
    }
    var at := Get(process, Id);
    if process.attrs[Profile] != NAC_PROFILE {
      errors := errors + [WrongProfile(at)];
    }
    if Get(process, Owner) == "" {
      errors := errors + [NoOwner(at)];
    }
    if Get(process, Binding) == "" {
      errors := errors + [NoBinding(at)];
    }
    if !drawn {
      errors := errors + [NoDiagram(at)];
    }
    var nodeErrors := CheckProfiles(FlowNodes(process));
    errors := errors + nodeErrors;
  }

  method CheckProfiles(nodes: seq<Element>) returns (errors: seq<Error>)
    ensures errors == AllProfileErrors(nodes)
  {
    hide ProfileErrors;
    errors := [];
    for i := 0 to |nodes|
      invariant errors == AllProfileErrors(nodes[..i])
    {
      var more := CheckProfile(nodes[i]);
      assert nodes[..i + 1][..i] == nodes[..i];
      errors := errors + more;
    }
    assert nodes[..|nodes|] == nodes;
  }

  method CheckProfile(node: Element) returns (errors: seq<Error>)
    ensures errors == ProfileErrors(node)
  {
    hide WhoAndHow, WhatAndWhy, WhenAndWhere;
    errors := CheckWhoAndHow(node);
    var more := CheckWhatAndWhy(node);
    errors := errors + more;
    more := CheckWhenAndWhere(node);
    errors := errors + more;
  }

  method CheckWhoAndHow(node: Element) returns (errors: seq<Error>)
    ensures errors == WhoAndHow(node)
  {
    hide SplitChannelTokens, Elements, Get;
    errors := [];
    if Get(node, Role) == "" {
      errors := errors + [NoRole(Get(node, Id))];
    }
    var channels := SplitChannelTokens(Get(node, Channel));
    if channels == [] {
      errors := errors + [NoChannel(Get(node, Id))];
    }
    var invalid := Elements(channels) - ALLOWED_CHANNELS;
    if invalid != {} {
      errors := errors + [BadChannel(Get(node, Id), invalid)];
    }
  }

  method CheckWhatAndWhy(node: Element) returns (errors: seq<Error>)
    ensures errors == WhatAndWhy(node)
  {
    hide Get;
    var dataClass, approval, evidence := Get(node, DataClass), Get(node, Approval), Get(node, Evidence);
    errors := [];
    if dataClass !in ALLOWED_DATA_CLASSES {
      errors := errors + [BadDataClass(Get(node, Id), dataClass)];
    }
    if approval !in ALLOWED_APPROVALS {
      errors := errors + [BadApproval(Get(node, Id), approval)];
    }
    if evidence !in ALLOWED_EVIDENCE {
      errors := errors + [BadEvidence(Get(node, Id), evidence)];
    }
    if Get(node, KgRef) == "" {
      errors := errors + [NoKgRef(Get(node, Id))];
    }
  }

  method CheckWhenAndWhere(node: Element) returns (errors: seq<Error>)
    ensures errors == WhenAndWhere(node)
  {
    hide DurationOk, CriticalOk, LocalOk, FourEyesOk, Get;
    errors := [];
    if !DurationOk(node) {
      errors := errors + [BadDurationBand(Get(node, Id))];
    }
    if !CriticalOk(node) {
      errors := errors + [BadCriticalPath(Get(node, Id))];
    }
    if !LocalOk(node) {
      errors := errors + [NotLocal(Get(node, Id))];
    }
    if !FourEyesOk(node) {
      errors := errors + [FourEyesWithoutData(Get(node, Id))];
    }
  }

  /** `validate_file` for a file that parses. */
  method ValidateModel(root: Element) returns (errors: seq<Error>)
    ensures errors == BasicErrors(root) + NacProfileErrors(root)
    ensures errors == [] <==> BasicOk(root) && NacOk(root)
  {
    errors := ValidateBasicBpmn(root);
    var more := ValidateNacProfile(root);
    BothEmpty(errors, more);
    errors := errors + more;
  }

  // ---- What passing the profile check means ----

  predicate ChannelsOk(value: string) {
    SplitChannelTokens(value) != [] && forall t <- SplitChannelTokens(value) :: t in ALLOWED_CHANNELS
  }

  predicate ProfileOk(node: Element) {
    && Get(node, Role) != "" && ChannelsOk(Get(node, Channel))
    && Get(node, DataClass) in ALLOWED_DATA_CLASSES
    && Get(node, Approval) in ALLOWED_APPROVALS
    && Get(node, Evidence) in ALLOWED_EVIDENCE
    && Get(node, KgRef) != ""
    && DurationOk(node) && CriticalOk(node) && LocalOk(node) && FourEyesOk(node)
  }

  predicate NacProcessOk(drawn: bool, process: Element) {
    Profile in process.attrs ==>
      && process.attrs[Profile] == NAC_PROFILE
      && Get(process, Owner) != "" && Get(process, Binding) != "" && drawn
      && forall n <- FlowNodes(process) :: ProfileOk(n)
  }

  predicate NacOk(root: Element) {
    forall p <- root.children :: p.tag == Process ==> NacProcessOk(exists d <- root.children :: d.tag == Diagram, p)
  }

  lemma {:induction false} ProfileErrorMeaning(node: Element)
    ensures ProfileErrors(node) == [] <==> ProfileOk(node)
  {
    hide SplitChannelTokens, DurationOk, CriticalOk, LocalOk, FourEyesOk;
    BothEmpty(WhoAndHow(node), WhatAndWhy(node));
    BothEmpty(WhoAndHow(node) + WhatAndWhy(node), WhenAndWhere(node));
    ChannelMeaning(SplitChannelTokens(Get(node, Channel)));
    assert WhoAndHow(node) == [] <==> Get(node, Role) != "" && ChannelsOk(Get(node, Channel));
    assert WhenAndWhere(node) == [] <==> DurationOk(node) && CriticalOk(node) && LocalOk(node) && FourEyesOk(node);
  }

  lemma {:induction false} ChannelMeaning(tokens: seq<string>)
    ensures Elements(tokens) - ALLOWED_CHANNELS == {} <==> forall t <- tokens :: t in ALLOWED_CHANNELS
  {
    var allowed := ALLOWED_CHANNELS;
    if Elements(tokens) - allowed == {} {
      forall t <- tokens ensures t in allowed {
        assert t in Elements(tokens);
        assert t !in Elements(tokens) - allowed;
      }
    }
  }

  lemma {:induction false} NoProfileErrors(nodes: seq<Element>)
    ensures AllProfileErrors(nodes) == [] <==> forall n <- nodes :: ProfileOk(n)
    decreases |nodes|
  {
    hide ProfileErrors, ProfileOk;
    if nodes != [] {
      var front, last := nodes[..|nodes| - 1], nodes[|nodes| - 1];
      NoProfileErrors(front);
      ProfileErrorMeaning(last);
      assert forall n :: n in nodes <==> n in front || n == last;
    }
  }

  lemma {:induction false} NacErrorMeaning(drawn: bool, process: Element)
    ensures NacErrors(drawn, process) == [] <==> NacProcessOk(drawn, process)
  {
    hide AllProfileErrors, FlowNodes, ProfileOk;
    NoProfileErrors(FlowNodes(process));
  }

  lemma {:induction false} NoneOffProfile(drawn: bool, processes: seq<Element>)
    ensures AllNacErrors(drawn, processes) == [] <==> forall p <- processes :: NacProcessOk(drawn, p)
    decreases |processes|
  {
    hide NacErrors, NacProcessOk;
    if processes != [] {
      var front, last := processes[..|processes| - 1], processes[|processes| - 1];
      NoneOffProfile(drawn, front);
      NacErrorMeaning(drawn, last);
      assert forall p :: p in processes <==> p in front || p == last;
    }
  }

  lemma {:induction false} NoNacErrors(root: Element)
    ensures NacProfileErrors(root) == [] <==> NacOk(root)
  {
    hide AllNacErrors, NacProcessOk;
    HasTag(root.children, Diagram);
    NoneOffProfile(ChildrenByTag(root, Diagram) != [], ChildrenByTag(root, Process));
  }
}
