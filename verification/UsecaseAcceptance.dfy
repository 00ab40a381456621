/** The validator of scripts/validate_bpmn_models.py on what scripts/generate_usecase_bpmn.py renders. */
module UsecaseAcceptance {
  import opened BpmnTree
  import opened BpmnValidation
  import opened UsecaseBpmn

  /** A legal step has an id and is no sequence flow; if its kind is a flow node, it brings along what a node must have. */
  predicate StepLegal(s: Step) {
    s.elementId != "" && s.kind != SequenceFlow && (IsFlowNode(s.kind) ==> NodeComplete(s))
  }

  predicate NodeComplete(s: Step) {
    && s.name != "" && NoForbiddenPart(s.name)
    && s.role != "" && ChannelsOk(s.channel)
    && s.dataClass in ALLOWED_DATA_CLASSES && s.approval in ALLOWED_APPROVALS && s.evidence in ALLOWED_EVIDENCE
    && (s.kind == ServiceTask ==> s.localExecution)
    && !(IsTask(s.kind) && s.dataClass == "no_mandate_data" && s.approval == "four_eyes")
  }

  predicate StepsLegal(steps: seq<Step>) {
    && (exists s <- steps :: s.kind == StartEvent)
    && (exists s <- steps :: s.kind == EndEvent)
    && AllLegal(steps)
  }

  // ---- The rendered process, element by element ----

  lemma {:induction false} Parts(doc: Element, nodes: seq<Element>, flows: seq<Element>)
    requires doc.tag == Documentation
    requires (forall e <- nodes :: IsFlowNode(e.tag)) && (forall e <- flows :: e.tag == SequenceFlow)
    ensures NodesOf([doc] + nodes + flows) == nodes && WithTag([doc] + nodes + flows, SequenceFlow) == flows
  {
    hide NodesOf, WithTag;
    NodesOfConcat([doc] + nodes, flows);
    NodesOfConcat([doc], nodes);
    NoNodes([doc]);
    AllNodes(nodes);
    NoNodes(flows);
    WithTagConcat([doc] + nodes, flows, SequenceFlow);
    WithTagConcat([doc], nodes, SequenceFlow);
    NoneOfTag([doc], SequenceFlow);
    NoneOfTag(nodes, SequenceFlow);
    AllOfTag(flows, SequenceFlow);
  }

  lemma {:induction false} ProcessParts(slug: string, title: string, safe: string, steps: seq<Step>)
    requires forall s <- steps :: IsFlowNode(s.kind)
    ensures var p := ProcessElement(slug, title, safe, steps);
      && FlowNodes(p) == StepElements(steps, slug, |steps|)
      && SequenceFlows(p) == FlowElements(steps, FlowCount(steps))
  {
    hide StepAttrs, IsFlowNode, NodesOf, WithTag;
    var nodes, flows := StepElements(steps, slug, |steps|), FlowElements(steps, FlowCount(steps));
    forall e <- nodes ensures IsFlowNode(e.tag) {
      var i :| 0 <= i < |nodes| && nodes[i] == e;
      assert steps[i] in steps;
    }
    FlowTags(steps);
    Parts(DOCUMENTATION, nodes, flows);
  }

  lemma {:induction false} AttrsOfStep(s: Step, slug: string, a: Attr)
    ensures var m := StepAttrs(s, slug);
      && Id in m && m[Id] == s.elementId && Name in m && m[Name] == s.name && Role in m && m[Role] == s.role
      && Channel in m && m[Channel] == s.channel && DataClass in m && m[DataClass] == s.dataClass
      && Approval in m && m[Approval] == s.approval && Evidence in m && m[Evidence] == s.evidence
      && KgRef in m && m[KgRef] == slug && DurationBand !in m && CriticalPath !in m
      && (LocalExecution in m <==> s.localExecution) && (s.localExecution ==> m[LocalExecution] == "true")
  {
  }

  predicate NodeFine(flows: seq<Element>, n: Element) { NameOk(n) && PathsLabelled(flows, n) && ProfileOk(n) }

  predicate NodesFine(flows: seq<Element>, nodes: seq<Element>) { forall n <- nodes :: NodeFine(flows, n) }

  predicate IdsGiven(steps: seq<Step>) { forall s <- steps :: s.elementId != "" }

  predicate RefsAllKnown(ids: set<string>, flows: seq<Element>) { forall f <- flows :: RefsKnown(ids, f) }

  predicate AllLegal(steps: seq<Step>) { forall s <- steps :: StepLegal(s) }

  lemma {:induction false} NodeLegal(steps: seq<Step>, i: nat, slug: string, flows: seq<Element>)
    requires i < |steps|
    ensures NodeFine(flows, StepElement(steps, i, slug)) <==> NodeComplete(steps[i]) && slug != ""
  {
    hide StepAttrs, NoForbiddenPart, ChannelsOk, IsTask;
    AttrsOfStep(steps[i], slug, Id);
    AtMostOneWayOut(steps, i, slug);
  }

  lemma {:induction false} AtMostOneWayOut(steps: seq<Step>, i: nat, slug: string)
    requires i < |steps|
    ensures |OutgoingIds(StepElement(steps, i, slug).children)| <= 1
  {
    hide StepAttrs, FlowId;
    var es := StepElement(steps, i, slug).children;
    assert |es| <= 2 && (|es| == 2 ==> es[0].tag == Incoming);
    if |es| == 2 {
      assert OutgoingIds(es) == OutgoingIds(es[1..]);
      assert OutgoingIds(es[1..][1..]) == [];
    } else if |es| == 1 {
      assert OutgoingIds(es[1..]) == [];
    }
  }

  lemma {:induction false} IdsOfSteps(slug: string, title: string, safe: string, steps: seq<Step>, i: nat)
    requires (forall s <- steps :: InBpmnNamespace(s.kind)) && i < |steps|
    ensures steps[i].elementId in Ids(ProcessElement(slug, title, safe, steps)) <==> steps[i].elementId != ""
  {
    hide InBpmnNamespace, FlowElement;
    var p := ProcessElement(slug, title, safe, steps);
    var node := StepElement(steps, i, slug);
    assert p.children[i + 1] == StepElements(steps, slug, |steps|)[i] == node;
    assert node in p.children && steps[i] in steps;
    assert node in AllProcessChildren(p);
    AttrsOfStep(steps[i], slug, Id);
  }

  /** The flows of a rendered process refer to known elements exactly when no step lacks an id. */
  lemma {:induction false} FlowsKnown(slug: string, title: string, safe: string, steps: seq<Step>)
    requires (forall s <- steps :: InBpmnNamespace(s.kind)) && |steps| >= 2
    ensures var p := ProcessElement(slug, title, safe, steps);
      RefsAllKnown(Ids(p), FlowElements(steps, FlowCount(steps))) <==> IdsGiven(steps)
  {
    hide InBpmnNamespace, Ids, ProcessElement, RefsAllKnown, IdsGiven;
    var ids := Ids(ProcessElement(slug, title, safe, steps));
    forall i | 0 <= i < |steps| ensures steps[i].elementId in ids <==> steps[i].elementId != "" {
      IdsOfSteps(slug, title, safe, steps, i);
    }
    if RefsAllKnown(ids, FlowElements(steps, FlowCount(steps))) { KnownRefsGiveIds(steps, ids); }
    if IdsGiven(steps) { GivenIdsAreKnown(steps, ids); }
  }

  /** Every step is an end of some flow. */
  lemma {:induction false} KnownRefsGiveIds(steps: seq<Step>, ids: set<string>)
    requires |steps| >= 2 && RefsAllKnown(ids, FlowElements(steps, FlowCount(steps)))
    requires forall i :: 0 <= i < |steps| ==> (steps[i].elementId in ids <==> steps[i].elementId != "")
    ensures IdsGiven(steps)
  {
    hide FlowId;
    var flows := FlowElements(steps, FlowCount(steps));
    forall i | 0 <= i < |steps| ensures steps[i].elementId != "" {
      var k := if i + 1 < |steps| then i else i - 1;
      assert flows[k] in flows && flows[k] == FlowElement(steps, k);
      assert RefsKnown(ids, flows[k]);
    }
  }

  lemma {:induction false} GivenIdsAreKnown(steps: seq<Step>, ids: set<string>)
    requires |steps| >= 2 && IdsGiven(steps)
    requires forall i :: 0 <= i < |steps| ==> (steps[i].elementId in ids <==> steps[i].elementId != "")
    ensures RefsAllKnown(ids, FlowElements(steps, FlowCount(steps)))
  {
    hide FlowId;
    var flows := FlowElements(steps, FlowCount(steps));
    forall f <- flows ensures RefsKnown(ids, f) {
      var k :| 0 <= k < |flows| && flows[k] == f;
      assert steps[k] in steps && steps[k + 1] in steps;
    }
  }

  predicate TagAmong(es: seq<Element>, kind: Tag) { exists e <- es :: e.tag == kind }

  predicate HasKind(steps: seq<Step>, kind: Tag) { exists s <- steps :: s.kind == kind }

  lemma {:induction false} TagAmongParts(doc: Element, nodes: seq<Element>, flows: seq<Element>, kind: Tag)
    requires doc.tag != kind && forall f <- flows :: f.tag != kind
    ensures TagAmong([doc] + nodes + flows, kind) <==> TagAmong(nodes, kind)
  {
    var all := [doc] + nodes + flows;
    assert forall e :: e in all <==> e == doc || e in nodes || e in flows;
  }

  lemma {:induction false} SameTags(nodes: seq<Element>, steps: seq<Step>, kind: Tag)
    requires |nodes| == |steps| && forall i :: 0 <= i < |steps| ==> nodes[i].tag == steps[i].kind
    ensures TagAmong(nodes, kind) <==> HasKind(steps, kind)
  {
    if HasKind(steps, kind) {
      var s :| s in steps && s.kind == kind;
      var i :| 0 <= i < |steps| && steps[i] == s;
      assert nodes[i] in nodes;
    }
    if TagAmong(nodes, kind) {
      var e :| e in nodes && e.tag == kind;
      var i :| 0 <= i < |nodes| && nodes[i] == e;
      assert steps[i] in steps;
    }
  }

  lemma {:induction false} KindAmongSteps(steps: seq<Step>, slug: string, kind: Tag)
    ensures TagAmong(StepElements(steps, slug, |steps|), kind) <==> HasKind(steps, kind)
  {
    hide StepElement, StepElements, TagAmong, HasKind;
    var nodes := StepElements(steps, slug, |steps|);
    forall i | 0 <= i < |steps| ensures nodes[i].tag == steps[i].kind { StepTag(steps, i, slug); }
    SameTags(nodes, steps, kind);
  }

  lemma {:induction false} KindsAppear(slug: string, title: string, safe: string, steps: seq<Step>, kind: Tag)
    requires kind in {StartEvent, EndEvent}
    ensures TagAmong(ProcessElement(slug, title, safe, steps).children, kind) <==> HasKind(steps, kind)
  {
    hide StepElements, FlowElements, TagAmong, HasKind;
    var p := ProcessElement(slug, title, safe, steps);
    FlowTags(steps);
    TagAmongParts(DOCUMENTATION, StepElements(steps, slug, |steps|), FlowElements(steps, FlowCount(steps)), kind);
    KindAmongSteps(steps, slug, kind);
  }

  lemma {:induction false} FlowTags(steps: seq<Step>)
    ensures forall f <- FlowElements(steps, FlowCount(steps)) :: f.tag == SequenceFlow
  {
    hide FlowId;
    var flows := FlowElements(steps, FlowCount(steps));
    forall f <- flows ensures f.tag == SequenceFlow {
      var k :| 0 <= k < |flows| && flows[k] == f;
    }
  }

  predicate NoneFlow(steps: seq<Step>) { forall s <- steps :: s.kind != SequenceFlow }

  /** The nodes among the rendered steps are fine, every step has an id and none is a flow, exactly for legal steps. */
  lemma {:induction false} NodesLegal(slug: string, steps: seq<Step>, flows: seq<Element>)
    requires HasKind(steps, StartEvent)
    ensures NodesFine(flows, NodesOf(StepElements(steps, slug, |steps|))) && IdsGiven(steps) && NoneFlow(steps)
      <==> AllLegal(steps) && slug != ""
  {
    hide NodeFine, NodeComplete, StepElement, NodesOf, IsTask;
    var all := StepElements(steps, slug, |steps|);
    var nodes := NodesOf(all);
    forall i | 0 <= i < |steps|
      ensures all[i].tag == steps[i].kind && (NodeFine(flows, all[i]) <==> NodeComplete(steps[i]) && slug != "")
    {
      StepTag(steps, i, slug);
      NodeLegal(steps, i, slug, flows);
    }
    if NodesFine(flows, nodes) && IdsGiven(steps) && NoneFlow(steps) {
      forall i | 0 <= i < |steps| ensures StepLegal(steps[i]) && (IsFlowNode(steps[i].kind) ==> slug != "") {
        assert all[i] in all && steps[i] in steps;
        assert IsFlowNode(steps[i].kind) ==> all[i] in nodes;
      }
      StartIsNode(steps);
    }
    if AllLegal(steps) && slug != "" {
      forall n <- nodes ensures NodeFine(flows, n) {
        var i :| 0 <= i < |steps| && all[i] == n;
        assert steps[i] in steps;
      }
    }
  }

  lemma {:induction false} StepTag(steps: seq<Step>, i: nat, slug: string)
    requires i < |steps|
    ensures StepElement(steps, i, slug).tag == steps[i].kind
  {
    hide StepAttrs, FlowId;
  }

  lemma {:induction false} StartIsNode(steps: seq<Step>)
    requires HasKind(steps, StartEvent)
    ensures exists i :: 0 <= i < |steps| && IsFlowNode(steps[i].kind)
  {
    var s :| s in steps && s.kind == StartEvent;
    var i :| 0 <= i < |steps| && steps[i] == s;
    assert IsFlowNode(steps[i].kind);
  }

  lemma {:induction false} PartsOfAny(slug: string, title: string, safe: string, steps: seq<Step>)
    ensures var p := ProcessElement(slug, title, safe, steps); var all := StepElements(steps, slug, |steps|);
      && FlowNodes(p) == NodesOf(all)
      && SequenceFlows(p) == WithTag(all, SequenceFlow) + FlowElements(steps, FlowCount(steps))
  {
    hide NodesOf, WithTag, StepElements, FlowElements;
    FlowTags(steps);
    Filtered(DOCUMENTATION, StepElements(steps, slug, |steps|), FlowElements(steps, FlowCount(steps)));
  }

  lemma {:induction false} Filtered(doc: Element, all: seq<Element>, flows: seq<Element>)
    requires doc.tag == Documentation && forall f <- flows :: f.tag == SequenceFlow
    ensures NodesOf([doc] + all + flows) == NodesOf(all)
    ensures WithTag([doc] + all + flows, SequenceFlow) == WithTag(all, SequenceFlow) + flows
  {
    hide NodesOf, WithTag;
    NodesOfConcat([doc] + all, flows);
    NodesOfConcat([doc], all);
    WithTagConcat([doc] + all, flows, SequenceFlow);
    WithTagConcat([doc], all, SequenceFlow);
    NoNodes(flows);
    NoNodes([doc]);
    NoneOfTag([doc], SequenceFlow);
    AllOfTag(flows, SequenceFlow);
  }

  /** A step rendered as a sequence flow refers to nothing, so the references are known exactly when there is none. */
  lemma {:induction false} RefsOfAny(slug: string, title: string, safe: string, steps: seq<Step>)
    ensures var p := ProcessElement(slug, title, safe, steps);
      RefsAllKnown(Ids(p), SequenceFlows(p))
      <==> NoneFlow(steps) && RefsAllKnown(Ids(p), FlowElements(steps, FlowCount(steps)))
  {
    hide FlowElements, StepElement, ProcessElement, SequenceFlows;
    var p := ProcessElement(slug, title, safe, steps);
    var all := StepElements(steps, slug, |steps|);
    PartsOfAny(slug, title, safe, steps);
    var strays := WithTag(all, SequenceFlow);
    forall i | 0 <= i < |steps| ensures all[i].tag == steps[i].kind && !RefsKnown(Ids(p), all[i]) {
      StepTag(steps, i, slug);
      StepRefersToNothing(steps, i, slug);
    }
    if NoneFlow(steps) {
      forall e <- all ensures e.tag != SequenceFlow {
        var i :| 0 <= i < |all| && all[i] == e;
        assert steps[i] in steps;
      }
      NoneOfTag(all, SequenceFlow);
      assert [] + FlowElements(steps, FlowCount(steps)) == FlowElements(steps, FlowCount(steps));
    } else {
      var s :| s in steps && s.kind == SequenceFlow;
      var i :| 0 <= i < |steps| && steps[i] == s;
      assert all[i] in strays && all[i] in SequenceFlows(p);
    }
  }

  lemma {:induction false} StepRefersToNothing(steps: seq<Step>, i: nat, slug: string)
    requires i < |steps|
    ensures Get(StepElement(steps, i, slug), SourceRef) == ""
  {
    hide FlowId;
  }

  lemma {:induction false} OnlyProcess(slug: string, title: string, safe: string, steps: seq<Step>)
    ensures var root := Rendered(slug, title, safe, steps);
      && (BasicOk(root) <==> ProcessOk(ProcessElement(slug, title, safe, steps)))
      && (NacOk(root) <==> NacProcessOk(true, ProcessElement(slug, title, safe, steps)))
  {
    hide ProcessOk, NacProcessOk, StepElements, FlowElements, Shapes, Edges;
    var root := Rendered(slug, title, safe, steps);
    var p := ProcessElement(slug, title, safe, steps);
    assert root.children[0] == p && root.children[1].tag == Diagram;
    assert p in root.children && root.children[1] in root.children;
    assert forall e :: e in root.children && e.tag == Process <==> e == p;
  }

  /**
   * Both checks accept what is rendered from any list of steps, of whatever kinds, exactly when there are a slug and a
   * title, a start and an end, and every step is legal. (Every kind is written as an element of the BPMN namespace.)
   */
  lemma {:induction false} AcceptedExactly(slug: string, title: string, safe: string, steps: seq<Step>)
    requires forall s <- steps :: InBpmnNamespace(s.kind)
    ensures var root := Rendered(slug, title, safe, steps);
      BasicErrors(root) == [] && NacProfileErrors(root) == [] <==> slug != "" && title != "" && StepsLegal(steps)
  {
    hide BasicErrors, NacProfileErrors, BasicOk, NacOk, Rendered;
    var root := Rendered(slug, title, safe, steps);
    NoBasicErrors(root);
    NoNacErrors(root);
    OnlyProcess(slug, title, safe, steps);
    ProcessAccepted(slug, title, safe, steps);
  }

  lemma {:induction false} ProcessAccepted(slug: string, title: string, safe: string, steps: seq<Step>)
    requires forall s <- steps :: InBpmnNamespace(s.kind)
    ensures var p := ProcessElement(slug, title, safe, steps);
      ProcessOk(p) && NacProcessOk(true, p) <==> slug != "" && title != "" && StepsLegal(steps)
  {
    hide AllLegal, NodesFine, IdsGiven, RefsAllKnown, Ids, InBpmnNamespace, HasKind, ProcessOk, NacProcessOk, ProcessElement;
    hide FlowElements, StepElements, NoneFlow, NodesOf;
    var p := ProcessElement(slug, title, safe, steps);
    PartsOfAny(slug, title, safe, steps);
    ProcessFacts(slug, title, safe, steps);
    KindFacts(steps);
    if HasKind(steps, StartEvent) && HasKind(steps, EndEvent) {
      NodesLegal(slug, steps, SequenceFlows(p));
      RefsOfAny(slug, title, safe, steps);
      TwoSteps(steps);
      FlowsKnown(slug, title, safe, steps);
    }
  }

  lemma {:induction false} KindFacts(steps: seq<Step>)
    ensures StepsLegal(steps) <==> HasKind(steps, StartEvent) && HasKind(steps, EndEvent) && AllLegal(steps)
  {
    hide AllLegal;
  }

  /** Both checks on one process that carries a complete profile. */
  lemma {:induction false} ProfiledProcess(p: Element)
    requires Get(p, Id) != "" && Profile in p.attrs && p.attrs[Profile] == NAC_PROFILE
    requires Get(p, Owner) != "" && Get(p, Binding) != ""
    ensures ProcessOk(p) && NacProcessOk(true, p) <==>
      && Get(p, Name) != "" && RefsAllKnown(Ids(p), SequenceFlows(p))
      && TagAmong(p.children, StartEvent) && TagAmong(p.children, EndEvent)
      && NodesFine(SequenceFlows(p), FlowNodes(p))
  {
    hide NameOk, PathsLabelled, ProfileOk, Ids, SequenceFlows, FlowNodes, RefsKnown, Get;
    FineNodes(SequenceFlows(p), FlowNodes(p));
  }

  lemma {:induction false} ProcessAttrs(slug: string, title: string, safe: string, steps: seq<Step>)
    ensures var p := ProcessElement(slug, title, safe, steps);
      && Get(p, Id) != "" && Get(p, Name) == title && Profile in p.attrs && p.attrs[Profile] == NAC_PROFILE
      && Get(p, Owner) != "" && Get(p, Binding) != ""
  {
    hide StepElements, FlowElements;
  }

  lemma {:induction false} ProcessFacts(slug: string, title: string, safe: string, steps: seq<Step>)
    ensures var p := ProcessElement(slug, title, safe, steps);
      ProcessOk(p) && NacProcessOk(true, p) <==>
        && title != "" && RefsAllKnown(Ids(p), SequenceFlows(p)) && HasKind(steps, StartEvent) && HasKind(steps, EndEvent)
        && NodesFine(SequenceFlows(p), FlowNodes(p))
  {
    hide ProcessOk, NacProcessOk, Ids, SequenceFlows, FlowNodes, NodesFine, RefsAllKnown, ProcessElement, TagAmong, HasKind;
    KindsAppear(slug, title, safe, steps, StartEvent);
    KindsAppear(slug, title, safe, steps, EndEvent);
    ProcessAttrs(slug, title, safe, steps);
    ProfiledProcess(ProcessElement(slug, title, safe, steps));
  }

  lemma {:induction false} FineNodes(flows: seq<Element>, nodes: seq<Element>)
    ensures NodesFine(flows, nodes)
      <==> (forall n <- nodes :: NameOk(n) && PathsLabelled(flows, n)) && (forall n <- nodes :: ProfileOk(n))
  {
    hide NameOk, PathsLabelled, ProfileOk;
  }

  lemma {:induction false} TwoSteps(steps: seq<Step>)
    requires HasKind(steps, StartEvent) && HasKind(steps, EndEvent)
    ensures |steps| >= 2
  {
    var s :| s in steps && s.kind == StartEvent;
    var e :| e in steps && e.kind == EndEvent;
    var i :| 0 <= i < |steps| && steps[i] == s;
    var j :| 0 <= j < |steps| && steps[j] == e;
    assert i != j;
  }
}
