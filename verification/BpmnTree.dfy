/** BPMN models as element trees: what the generator writes and the validator reads. */
module BpmnTree {

  datatype Tag =
    | Definitions | Process | Documentation | SequenceFlow | Incoming | Outgoing
    | StartEvent | EndEvent
    | Task | UserTask | ManualTask | ServiceTask | BusinessRuleTask | ScriptTask | SendTask | ReceiveTask | CallActivity
    | SubProcess | ExclusiveGateway | InclusiveGateway | ParallelGateway | EventBasedGateway
    | Diagram | Plane | Shape | Edge | Bounds | Waypoint
    | OtherBpmn(name: string)
    | Foreign(name: string)

  datatype Attr =
    | Id | Name | SourceRef | TargetRef | BpmnElement | TargetNamespace | IsExecutable
    | Profile | Owner | Binding | Role | Channel | DataClass | Approval | Evidence | Plugin | LocalExecution | KgRef
    | DurationBand | CriticalPath

  /** The numeric attributes of the diagram. */
  datatype Measure = X | Y | Width | Height

  datatype Element = Element(
    tag: Tag, attrs: map<Attr, string>, measures: map<Measure, int>, text: string, children: seq<Element>)

  /** `attrib.get(a)` where only its truth or a comparison with a non-empty text is asked. */
  function Get(e: Element, a: Attr): string { if a in e.attrs then e.attrs[a] else "" }

  predicate IsTask(tag: Tag) {
    tag in {Task, UserTask, ManualTask, ServiceTask, BusinessRuleTask, ScriptTask, SendTask, ReceiveTask, CallActivity}
  }

  predicate IsFlowNode(tag: Tag) {
    || IsTask(tag)
    || tag in {StartEvent, EndEvent, SubProcess, ExclusiveGateway, InclusiveGateway, ParallelGateway, EventBasedGateway}
  }

  /** The gateways whose several outgoing paths need labels. */
  predicate IsDecision(tag: Tag) { tag in {ExclusiveGateway, InclusiveGateway, EventBasedGateway} }

  predicate InBpmnNamespace(tag: Tag) {
    IsFlowNode(tag) || tag.OtherBpmn? || tag in {Definitions, Process, Documentation, SequenceFlow, Incoming, Outgoing}
  }

  function WithTag(es: seq<Element>, tag: Tag): (r: seq<Element>)
    ensures forall e :: e in r <==> e in es && e.tag == tag
  {
    if es == [] then [] else (if es[0].tag == tag then [es[0]] else []) + WithTag(es[1..], tag)
  }

  function ChildrenByTag(parent: Element, tag: Tag): seq<Element> { WithTag(parent.children, tag) }

  function AllProcessChildren(process: Element): set<Element> {
    set e <- process.children | InBpmnNamespace(e.tag)
  }

  function NodesOf(es: seq<Element>): (r: seq<Element>)
    ensures forall e :: e in r <==> e in es && IsFlowNode(e.tag)
  {
    if es == [] then [] else (if IsFlowNode(es[0].tag) then [es[0]] else []) + NodesOf(es[1..])
  }

  function FlowNodes(process: Element): seq<Element> { NodesOf(process.children) }

  function SequenceFlows(process: Element): seq<Element> { ChildrenByTag(process, SequenceFlow) }

  /** The non-empty ids of a process's children. */
  function Ids(process: Element): set<string> {
    set e <- AllProcessChildren(process) | Get(e, Id) != "" :: Get(e, Id)
  }

  lemma {:induction false} WithTagConcat(a: seq<Element>, b: seq<Element>, tag: Tag)
    ensures WithTag(a + b, tag) == WithTag(a, tag) + WithTag(b, tag)
    decreases |a|
  {
    if a == [] {
      assert a + b == b;
    } else {
      assert (a + b)[1..] == a[1..] + b;
      WithTagConcat(a[1..], b, tag);
    }
  }

  lemma {:induction false} NodesOfConcat(a: seq<Element>, b: seq<Element>)
    ensures NodesOf(a + b) == NodesOf(a) + NodesOf(b)
    decreases |a|
  {
    if a == [] {
      assert a + b == b;
    } else {
      assert (a + b)[1..] == a[1..] + b;
      NodesOfConcat(a[1..], b);
    }
  }

  lemma {:induction false} AllOfTag(es: seq<Element>, tag: Tag)
    requires forall e <- es :: e.tag == tag
    ensures WithTag(es, tag) == es
    decreases |es|
  {
    if es != [] { AllOfTag(es[1..], tag); }
  }

  lemma {:induction false} NoneOfTag(es: seq<Element>, tag: Tag)
    requires forall e <- es :: e.tag != tag
    ensures WithTag(es, tag) == []
    decreases |es|
  {
    if es != [] { NoneOfTag(es[1..], tag); }
  }

  lemma {:induction false} AllNodes(es: seq<Element>)
    requires forall e <- es :: IsFlowNode(e.tag)
    ensures NodesOf(es) == es
    decreases |es|
  {
    if es != [] { AllNodes(es[1..]); }
  }

  lemma {:induction false} NoNodes(es: seq<Element>)
    requires forall e <- es :: !IsFlowNode(e.tag)
    ensures NodesOf(es) == []
    decreases |es|
  {
    if es != [] { NoNodes(es[1..]); }
  }
}
