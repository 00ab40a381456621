/** What the two checks of scripts/validate_bpmn_models.py demand of a model, element by element and word by word. */
module BpmnConformance {
  import opened Text
  import opened BpmnTree
  import opened BpmnValidation

  // ---- One node ----

  /** The element is a flow node of the BPMN namespace. */
  predicate IsNode(e: Element) {
    e.tag in {
      StartEvent, EndEvent, Task, UserTask, ManualTask, ServiceTask, BusinessRuleTask, ScriptTask, SendTask, ReceiveTask,
      CallActivity, SubProcess, ExclusiveGateway, InclusiveGateway, ParallelGateway, EventBasedGateway}
  }

  /** The name is visible and holds no hint at a secret, in any mixture of capitals. */
  ghost predicate NameConforms(n: Element) {
    && Get(n, Name) != ""
    && forall part <- {"passwort", "password", "pin", "secret", "token", "api-key", "apikey"} ::
         !Holds(Lower(Get(n, Name)), part)
  }

  ghost predicate Holds(text: string, part: string) { exists i: nat, j: nat :: i <= j <= |text| && text[i..j] == part }

  /** The `k`-th child names an outgoing flow. */
  predicate LeadsOut(n: Element, k: nat) {
    k < |n.children| && n.children[k].tag == Outgoing && n.children[k].text != ""
  }

  ghost predicate TwoWays(n: Element) { exists j: nat, k: nat :: j < k && LeadsOut(n, j) && LeadsOut(n, k) }

  /** The last flow with that id has a label. */
  ghost predicate Labelled(flows: seq<Element>, id: string) {
    exists k: nat :: IsLastOf(flows, id, k) && Get(flows[k], Name) != ""
  }

  ghost predicate IsLastOf(flows: seq<Element>, id: string, k: nat) {
    && k < |flows| && Get(flows[k], Id) == id
    && forall j :: k < j < |flows| ==> Get(flows[j], Id) != id
  }

  /** A gateway that decides between two ways out has a label on each. */
  ghost predicate WaysConform(flows: seq<Element>, n: Element) {
    n.tag in {ExclusiveGateway, InclusiveGateway, EventBasedGateway} && TwoWays(n)
    ==> forall k: nat :: LeadsOut(n, k) ==> Labelled(flows, n.children[k].text)
  }

  /** A channel: what stands between two semicolons, without blanks. */
  ghost predicate IsChannel(value: string, t: string) {
    t != "" && exists part :: IsPart(value, ';', part) && t == Strip(part)
  }

  /** Role, channels, data class, approval, evidence and graph are given and permitted; the optional ones if given. */
  ghost predicate ProfileConforms(n: Element) {
    && Get(n, Role) != ""
    && (exists t :: IsChannel(Get(n, Channel), t))
    && (forall t :: IsChannel(Get(n, Channel), t) ==> t in {
          "authority", "ben", "court", "email", "fax", "github", "internal", "land_register_portal", "notary_app",
          "paper_signature", "personal", "phone", "post", "qualified_e_signature", "register_portal", "tax_portal", "video",
          "xnotar_xjustiz", "xnp_local"})
    && Get(n, DataClass) in {"metadata", "public_reference", "confidential_placeholder", "no_mandate_data"}
    && Get(n, Approval) in {"none", "human", "four_eyes"}
    && Get(n, Evidence) in {"none", "optional", "required"}
    && Get(n, KgRef) != ""
    && (DurationBand in n.attrs ==> n.attrs[DurationBand] in {
          "same_day_or_internal", "short_party_turnaround", "standard_external", "extended_external",
          "statutory_or_exceptional"})
    && (CriticalPath in n.attrs ==> n.attrs[CriticalPath] == "true" || n.attrs[CriticalPath] == "false")
    && (n.tag == ServiceTask ==> Get(n, LocalExecution) == "true")
    && (Get(n, Approval) == "four_eyes" && Get(n, DataClass) == "no_mandate_data" ==> n.tag !in {
          Task, UserTask, ManualTask, ServiceTask, BusinessRuleTask, ScriptTask, SendTask, ReceiveTask, CallActivity})
  }

  // ---- One process and the model ----

  /** Some child of the process in the BPMN namespace has that id. */
  ghost predicate Known(process: Element, id: string) {
    id != "" && exists e <- process.children :: Get(e, Id) == id && IsBpmn(e)
  }

  predicate IsBpmn(e: Element) {
    IsNode(e) || e.tag.OtherBpmn? || e.tag in {Definitions, Process, Documentation, SequenceFlow, Incoming, Outgoing}
  }

  ghost predicate ProcessConforms(process: Element) {
    && Get(process, Id) != "" && Get(process, Name) != ""
    && (exists e <- process.children :: e.tag == StartEvent)
    && (exists e <- process.children :: e.tag == EndEvent)
    && (forall f <- process.children :: f.tag == SequenceFlow ==>
          Known(process, Get(f, SourceRef)) && Known(process, Get(f, TargetRef)))
    && (forall n <- process.children :: IsNode(n) ==> NameConforms(n) && WaysConform(SequenceFlows(process), n))
  }

  ghost predicate ProfiledConforms(root: Element, process: Element) {
    Profile in process.attrs ==>
      && process.attrs[Profile] == "nac-bpmn/v0.1" && Get(process, Owner) != "" && Get(process, Binding) != ""
      && (exists d <- root.children :: d.tag == Diagram)
      && forall n <- process.children :: IsNode(n) ==> ProfileConforms(n)
  }

  /** A model both checks let through. */
  ghost predicate Conforms(root: Element) {
    && root.tag == Definitions && (exists p <- root.children :: p.tag == Process)
    && forall p <- root.children :: p.tag == Process ==> ProcessConforms(p) && ProfiledConforms(root, p)
  }

  // ---- The checks demand exactly this ----

  lemma {:induction false} NodeExactly(e: Element)
    ensures IsFlowNode(e.tag) <==> IsNode(e)
  {
  }

  lemma {:induction false} PartExactly(s: string, part: string)
    ensures Contains(s, part) <==> Holds(s, part)
  {
    if Contains(s, part) {
      var i: nat :| i <= |s| && PartAt(s, part, i);
      assert s[i..i + |part|] == part;
    }
    if Holds(s, part) {
      var i: nat, j: nat :| i <= j <= |s| && s[i..j] == part;
      assert PartAt(s, part, i);
    }
  }

  lemma {:induction false} NameExactly(n: Element)
    ensures NameOk(n) <==> NameConforms(n)
  {
    hide Contains, Holds, Get, Lower;
    SamePartsForbidden();
    forall part: string ensures Contains(Lower(Get(n, Name)), part) <==> Holds(Lower(Get(n, Name)), part) {
      PartExactly(Lower(Get(n, Name)), part);
    }
  }

  lemma {:induction false} SamePartsForbidden()
    ensures forall part :: part in FORBIDDEN_NAME_PARTS <==>
      part in {"passwort", "password", "pin", "secret", "token", "api-key", "apikey"}
  {
  }

  lemma {:induction false} OutgoingMembers(es: seq<Element>, id: string)
    ensures id in OutgoingIds(es) <==>
      exists k :: 0 <= k < |es| && es[k].tag == Outgoing && es[k].text != "" && es[k].text == id
    decreases |es|
  {
    if es != [] {
      var rest := es[1..];
      OutgoingMembers(rest, id);
      assert forall k :: 0 < k < |es| ==> es[k] == rest[k - 1];
      if k :| 0 <= k < |rest| && rest[k].tag == Outgoing && rest[k].text != "" && rest[k].text == id {
        assert es[k + 1] == rest[k];
      }
    }
  }

  predicate Out(e: Element) { e.tag == Outgoing && e.text != "" }

  lemma {:induction false} SomeOutgoing(es: seq<Element>)
    ensures OutgoingIds(es) != [] <==> exists k :: 0 <= k < |es| && Out(es[k])
    decreases |es|
  {
    if es != [] {
      var rest := es[1..];
      SomeOutgoing(rest);
      if k :| 0 <= k < |rest| && Out(rest[k]) { assert es[k + 1] == rest[k]; }
      if k :| 0 < k < |es| && Out(es[k]) { assert rest[k - 1] == es[k]; }
    }
  }

  lemma {:induction false} TwoOutgoing(es: seq<Element>)
    ensures |OutgoingIds(es)| > 1 <==> exists j, k :: 0 <= j < k < |es| && Out(es[j]) && Out(es[k])
    decreases |es|
  {
    if es != [] {
      var rest := es[1..];
      TwoOutgoing(rest);
      SomeOutgoing(rest);
      hide OutgoingIds;
      OneFirst(es);
    }
  }

  /** Two ways out are the first and another, or two among the rest. */
  lemma {:induction false} OneFirst(es: seq<Element>)
    requires es != []
    ensures (exists j, k :: 0 <= j < k < |es| && Out(es[j]) && Out(es[k])) <==>
      (Out(es[0]) && exists k :: 0 <= k < |es[1..]| && Out(es[1..][k]))
      || exists j, k :: 0 <= j < k < |es[1..]| && Out(es[1..][j]) && Out(es[1..][k])
  {
    hide Out;
    var rest := es[1..];
    if k :| 0 <= k < |rest| && Out(rest[k]) { assert es[k + 1] == rest[k]; }
    if j, k :| 0 <= j < k < |rest| && Out(rest[j]) && Out(rest[k]) {
      assert es[j + 1] == rest[j] && es[k + 1] == rest[k];
    }
    if j, k :| 0 <= j < k < |es| && Out(es[j]) && Out(es[k]) {
      assert rest[k - 1] == es[k];
      if j > 0 { assert rest[j - 1] == es[j]; }
    }
  }

  lemma {:induction false} LabelExactly(flows: seq<Element>, id: string)
    ensures LabelOf(flows, id) != "" <==> Labelled(flows, id)
    decreases |flows|
  {
    hide Get;
    if flows != [] {
      var n := |flows| - 1;
      LabelExactly(flows[..n], id);
      if Get(flows[n], Id) == id {
        assert IsLastOf(flows, id, n);
      } else {
        forall k: nat ensures IsLastOf(flows, id, k) <==> IsLastOf(flows[..n], id, k) { LastBefore(flows, id, k); }
        hide IsLastOf;
      }
    }
  }

  lemma {:induction false} LastBefore(flows: seq<Element>, id: string, k: nat)
    requires flows != [] && Get(flows[|flows| - 1], Id) != id
    ensures IsLastOf(flows, id, k) <==> IsLastOf(flows[..|flows| - 1], id, k)
    ensures IsLastOf(flows, id, k) ==> k < |flows| - 1
  {
    hide Get;
    var front := flows[..|flows| - 1];
    assert forall j :: 0 <= j < |front| ==> front[j] == flows[j];
  }

  lemma {:induction false} WaysExactly(flows: seq<Element>, n: Element)
    ensures PathsLabelled(flows, n) <==> WaysConform(flows, n)
  {
    hide LabelOf, Labelled, OutgoingIds;
    var ids := OutgoingIds(n.children);
    forall id ensures LabelOf(flows, id) != "" <==> Labelled(flows, id) { LabelExactly(flows, id); }
    forall id ensures id in ids <==> exists k: nat :: LeadsOut(n, k) && n.children[k].text == id {
      OutgoingMembers(n.children, id);
      if k: nat :| LeadsOut(n, k) && n.children[k].text == id {
        assert n.children[k].tag == Outgoing;
      }
      if k :| 0 <= k < |n.children| && n.children[k].tag == Outgoing && n.children[k].text != "" && n.children[k].text == id {
        assert LeadsOut(n, k);
      }
    }
    assert |ids| > 1 <==> TwoWays(n) by { TwoWaysExactly(n); }
  }

  lemma {:induction false} TwoWaysExactly(n: Element)
    ensures |OutgoingIds(n.children)| > 1 <==> TwoWays(n)
  {
    hide OutgoingIds;
    var es := n.children;
    TwoOutgoing(es);
    if j, k :| 0 <= j < k < |es| && Out(es[j]) && Out(es[k]) {
      assert LeadsOut(n, j) && LeadsOut(n, k);
    }
    if TwoWays(n) {
      var j: nat, k: nat :| j < k && LeadsOut(n, j) && LeadsOut(n, k);
      assert Out(es[j]) && Out(es[k]);
    }
  }

  lemma {:induction false} StripAllMembers(parts: seq<string>, t: string)
    ensures t in StripAll(parts) <==> t != "" && exists p <- parts :: t == Strip(p)
    decreases |parts|
  {
    hide Strip;
    if parts != [] {
      StripAllMembers(parts[1..], t);
      assert parts[0] in parts && forall p :: p in parts <==> p == parts[0] || p in parts[1..];
    }
  }

  lemma {:induction false} ChannelExactly(value: string, t: string)
    ensures t in SplitChannelTokens(value) <==> IsChannel(value, t)
  {
    hide Strip, SplitOn, IsPart, StripAll;
    StripAllMembers(SplitOn(value, ';'), t);
    forall p ensures p in SplitOn(value, ';') <==> IsPart(value, ';', p) { PartsAreBetween(value, ';', p); }
    if value == "" { NoChannel(t); }
  }

  lemma {:induction false} NoChannel(t: string)
    ensures !IsChannel("", t)
  {
    hide Strip;
    forall part | IsPart("", ';', part) ensures Strip(part) == "" {
      assert part == "";
      NothingToStrip();
    }
  }

  lemma {:induction false} NothingToStrip()
    ensures Strip("") == ""
  {
  }

  lemma {:induction false} ProfileExactly(n: Element)
    ensures ProfileOk(n) <==> ProfileConforms(n)
  {
    hide SplitChannelTokens, IsChannel, Get;
    var value := Get(n, Channel);
    var tokens := SplitChannelTokens(value);
    forall t ensures t in tokens <==> IsChannel(value, t) { ChannelExactly(value, t); }
    assert tokens != [] <==> exists t :: t in tokens by { if tokens != [] { assert tokens[0] in tokens; } }
  }

  lemma {:induction false} KnownExactly(process: Element, id: string)
    ensures id in Ids(process) <==> Known(process, id)
  {
    hide IsFlowNode, IsNode, Get;
    forall e: Element ensures IsFlowNode(e.tag) <==> IsNode(e) { NodeExactly(e); }
  }

  lemma {:induction false} RefsExactly(process: Element)
    ensures (forall f <- SequenceFlows(process) :: RefsKnown(Ids(process), f)) <==>
      forall f <- process.children :: f.tag == SequenceFlow ==>
        Known(process, Get(f, SourceRef)) && Known(process, Get(f, TargetRef))
  {
    hide Ids, Known, Get;
    forall id ensures id in Ids(process) <==> Known(process, id) { KnownExactly(process, id); }
    assert forall f :: f in SequenceFlows(process) <==> f in process.children && f.tag == SequenceFlow;
  }

  lemma {:induction false} NodesExactly(process: Element)
    ensures (forall n <- FlowNodes(process) :: NameOk(n) && PathsLabelled(SequenceFlows(process), n)) <==>
      forall n <- process.children :: IsNode(n) ==> NameConforms(n) && WaysConform(SequenceFlows(process), n)
  {
    hide NameOk, NameConforms, PathsLabelled, WaysConform, IsNode, IsFlowNode, SequenceFlows;
    forall n: Element ensures (IsFlowNode(n.tag) <==> IsNode(n)) && (NameOk(n) <==> NameConforms(n))
      ensures PathsLabelled(SequenceFlows(process), n) <==> WaysConform(SequenceFlows(process), n)
    {
      NodeExactly(n);
      NameExactly(n);
      WaysExactly(SequenceFlows(process), n);
    }
    assert forall n :: n in FlowNodes(process) <==> n in process.children && IsFlowNode(n.tag);
  }

  lemma {:induction false} ProcessExactly(process: Element)
    ensures ProcessOk(process) <==> ProcessConforms(process)
  {
    hide Ids, Known, NameOk, NameConforms, PathsLabelled, WaysConform, IsNode, FlowNodes, SequenceFlows, RefsKnown, Get;
    RefsExactly(process);
    NodesExactly(process);
  }

  lemma {:induction false} ProfiledExactly(root: Element, process: Element)
    ensures NacProcessOk(exists d <- root.children :: d.tag == Diagram, process) <==> ProfiledConforms(root, process)
  {
    hide ProfileOk, ProfileConforms, IsNode, IsFlowNode, Get;
    forall n: Element ensures (IsFlowNode(n.tag) <==> IsNode(n)) && (ProfileOk(n) <==> ProfileConforms(n)) {
      NodeExactly(n);
      ProfileExactly(n);
    }
    assert forall n :: n in FlowNodes(process) <==> n in process.children && IsFlowNode(n.tag);
  }

  /** The two checks report nothing exactly for the models that conform. */
  lemma {:induction false} ChecksDemandExactly(root: Element)
    ensures BasicErrors(root) == [] && NacProfileErrors(root) == [] <==> Conforms(root)
  {
    hide BasicErrors, NacProfileErrors, ProcessOk, ProcessConforms, NacProcessOk, ProfiledConforms;
    NoBasicErrors(root);
    NoNacErrors(root);
    forall p <- root.children
      ensures ProcessOk(p) <==> ProcessConforms(p)
      ensures NacProcessOk(exists d <- root.children :: d.tag == Diagram, p) <==> ProfiledConforms(root, p)
    {
      ProcessExactly(p);
      ProfiledExactly(root, p);
    }
  }
}
