/** The diagram of a rendered model: boxes apart, edges straight. */
module UsecaseLayout {
  import opened BpmnTree
  import opened UsecaseBpmn
  import opened UsecaseRuns
  import Identifiers

  // ---- Reading the diagram back ----

  function Measured(e: Element, m: Measure): int { if m in e.measures then e.measures[m] else 0 }

  /** The box drawn for a shape. */
  function BoxOf(shape: Element): Box {
    var b := if shape.children == [] then shape else shape.children[0];
    Box(Measured(b, X), Measured(b, Y), Measured(b, Width), Measured(b, Height))
  }

  predicate Overlap(a: Box, b: Box) {
    a.x < b.x + b.width && b.x < a.x + a.width && a.y < b.y + b.height && b.y < a.y + a.height
  }

  predicate NoOverlap(shapes: seq<Element>) {
    forall i, j :: 0 <= i < j < |shapes| ==> !Overlap(BoxOf(shapes[i]), BoxOf(shapes[j]))
  }

  function PlaneOf(diagram: Element): Element
  {
    if diagram.children == [] then diagram else diagram.children[0]
  }

  function ShapesOf(diagram: Element): seq<Element> { WithTag(PlaneOf(diagram).children, Shape) }

  function EdgesOf(diagram: Element): seq<Element> { WithTag(PlaneOf(diagram).children, Edge) }

  lemma {:induction false} EdgeOfFlow(flow: string, from: Box, to: Box)
    ensures Get(EdgeElement(flow, from, to), BpmnElement) == flow && EdgeElement(flow, from, to).tag == Edge
  {
  }

  lemma {:induction false} ShapeTags(steps: seq<Step>)
    ensures forall s <- Shapes(steps, |steps|) :: s.tag == Shape
  {
    hide Layout;
    var shapes := Shapes(steps, |steps|);
    forall s <- shapes ensures s.tag == Shape {
      var i :| 0 <= i < |shapes| && shapes[i] == s;
      assert shapes[i].tag == Shape;
    }
  }

  lemma {:induction false} EdgeTags(steps: seq<Step>)
    ensures forall e <- Edges(steps, FlowCount(steps)) :: e.tag == Edge
  {
    hide Layout, FlowId, EdgeElement;
    var edges := Edges(steps, FlowCount(steps));
    forall e <- edges ensures e.tag == Edge {
      var k :| 0 <= k < |edges| && edges[k] == e;
      EdgeOfFlow(FlowId(k), Layout(steps)[steps[k].elementId], Layout(steps)[steps[k + 1].elementId]);
    }
  }

  lemma {:induction false} DiagramParts(safe: string, steps: seq<Step>)
    ensures ShapesOf(DiagramElement(safe, steps)) == Shapes(steps, |steps|)
    ensures EdgesOf(DiagramElement(safe, steps)) == Edges(steps, FlowCount(steps))
  {
    hide WithTag, Shapes, Edges;
    ShapeTags(steps);
    EdgeTags(steps);
    TwoTags(Shapes(steps, |steps|), Edges(steps, FlowCount(steps)));
  }

  lemma {:induction false} TwoTags(shapes: seq<Element>, edges: seq<Element>)
    requires (forall s <- shapes :: s.tag == Shape) && (forall e <- edges :: e.tag == Edge)
    ensures WithTag(shapes + edges, Shape) == shapes && WithTag(shapes + edges, Edge) == edges
  {
    hide WithTag;
    WithTagConcat(shapes, edges, Shape);
    WithTagConcat(shapes, edges, Edge);
    AllOfTag(shapes, Shape);
    NoneOfTag(edges, Shape);
    NoneOfTag(shapes, Edge);
    AllOfTag(edges, Edge);
  }

  // ---- Boxes ----

  lemma {:induction false} LayoutOfUnique(steps: seq<Step>, n: nat, i: nat)
    requires UniqueIds(steps) && i < n <= |steps|
    ensures LayoutUpTo(steps, n)[steps[i].elementId] == BoxAt(i, steps[i].kind)
    decreases n
  {
    if i < n - 1 {
      LayoutOfUnique(steps, n - 1, i);
    }
  }

  lemma {:induction false} BoxesApart(i: nat, j: nat, a: Tag, b: Tag)
    requires i < j
    ensures !Overlap(BoxAt(i, a), BoxAt(j, b))
  {
  }

  lemma {:induction false} BoxOfShape(id: string, b: Box)
    ensures BoxOf(ShapeElement(id, b)) == b
  {
  }

  lemma {:induction false} EveryBoxHasArea(steps: seq<Step>, n: nat, id: string)
    requires n <= |steps| && id in LayoutUpTo(steps, n)
    ensures Overlap(LayoutUpTo(steps, n)[id], LayoutUpTo(steps, n)[id])
    decreases n
  {
    if n > 0 && id != steps[n - 1].elementId {
      EveryBoxHasArea(steps, n - 1, id);
    }
  }

  lemma {:induction false} ShapeBoxes(steps: seq<Step>)
    ensures forall i :: 0 <= i < |steps| ==> BoxOf(Shapes(steps, |steps|)[i]) == Layout(steps)[steps[i].elementId]
  {
    hide BoxOf, Layout;
    forall i | 0 <= i < |steps| ensures BoxOf(Shapes(steps, |steps|)[i]) == Layout(steps)[steps[i].elementId] {
      BoxOfShape(steps[i].elementId, Layout(steps)[steps[i].elementId]);
    }
  }

  lemma {:induction false} UniqueIdsKeepApart(steps: seq<Step>)
    requires UniqueIds(steps)
    ensures NoOverlap(Shapes(steps, |steps|))
  {
    hide BoxAt, Overlap, BoxOf, Layout, UniqueIds;
    ShapeBoxes(steps);
    forall i, j | 0 <= i < j < |steps| ensures !Overlap(BoxOf(Shapes(steps, |steps|)[i]), BoxOf(Shapes(steps, |steps|)[j])) {
      UniqueBox(steps, i);
      UniqueBox(steps, j);
      BoxesApart(i, j, steps[i].kind, steps[j].kind);
    }
  }

  lemma {:induction false} SharedIdsOverlap(steps: seq<Step>)
    requires NoOverlap(Shapes(steps, |steps|))
    ensures UniqueIds(steps)
  {
    hide Overlap, BoxOf, Layout;
    ShapeBoxes(steps);
    forall i, j | 0 <= i < j < |steps| ensures steps[i].elementId != steps[j].elementId {
      SelfOverlap(steps, i);
      assert !Overlap(BoxOf(Shapes(steps, |steps|)[i]), BoxOf(Shapes(steps, |steps|)[j]));
    }
  }

  /** No two shapes overlap exactly when no two steps share an id, for any number of steps. */
  lemma {:induction false} ShapesApartExactly(safe: string, steps: seq<Step>)
    ensures NoOverlap(ShapesOf(DiagramElement(safe, steps))) <==> UniqueIds(steps)
  {
    hide ShapesOf, DiagramElement, UniqueIds, NoOverlap;
    DiagramParts(safe, steps);
    if UniqueIds(steps) { UniqueIdsKeepApart(steps); }
    if NoOverlap(Shapes(steps, |steps|)) { SharedIdsOverlap(steps); }
  }

  lemma {:induction false} UniqueBox(steps: seq<Step>, i: nat)
    requires UniqueIds(steps) && i < |steps|
    ensures Layout(steps)[steps[i].elementId] == BoxAt(i, steps[i].kind)
  {
    LayoutOfUnique(steps, |steps|, i);
  }

  lemma {:induction false} SelfOverlap(steps: seq<Step>, i: nat)
    requires i < |steps|
    ensures Overlap(Layout(steps)[steps[i].elementId], Layout(steps)[steps[i].elementId])
  {
    EveryBoxHasArea(steps, |steps|, steps[i].elementId);
  }

  // ---- Edges ----

  lemma {:induction false} FlowIdIsInjective(j: nat, k: nat)
    ensures FlowId(j) == FlowId(k) ==> j == k
  {
    if FlowId(j) == FlowId(k) {
      assert FlowId(j)[5..] == Identifiers.Padded(j, 2) && FlowId(k)[5..] == Identifiers.Padded(k, 2);
      Identifiers.ParseInvertsPadded(j, 2);
      Identifiers.ParseInvertsPadded(k, 2);
    }
  }

  /** From the middle of the source's right side to the middle of the target's left side, level, to the right. */
  predicate RunsStraight(edge: Element, source: Box, target: Box) {
    && |edge.children| == 2
    && var a, b := edge.children[0], edge.children[1];
    && Measured(a, X) == source.x + source.width && Measured(b, X) == target.x
    && 2 * (Measured(a, Y) - source.y) == source.height && 2 * (Measured(b, Y) - target.y) == target.height
    && Measured(a, Y) == Measured(b, Y)
    && Measured(a, X) < Measured(b, X)
  }

  lemma {:induction false} BoxesLineUp(a: nat, b: nat, s: Tag, t: Tag, flow: string)
    ensures RunsStraight(EdgeElement(flow, BoxAt(a, s), BoxAt(b, t)), BoxAt(a, s), BoxAt(b, t)) <==> a < b
  {
  }

  /** The last of the first `n` steps with that id, if there is one: the step that decides the box of the id. */
  function LastWith(steps: seq<Step>, n: nat, id: string): int
    requires n <= |steps|
  {
    if n == 0 then -1 else if steps[n - 1].elementId == id then n - 1 else LastWith(steps, n - 1, id)
  }

  lemma {:induction false} LastDecidesBox(steps: seq<Step>, n: nat, i: nat)
    requires i < n <= |steps|
    ensures var l := LastWith(steps, n, steps[i].elementId);
      i <= l < n && LayoutUpTo(steps, n)[steps[i].elementId] == BoxAt(l, steps[l].kind)
    decreases n
  {
    hide BoxAt;
    if i < n - 1 && steps[n - 1].elementId != steps[i].elementId {
      LastDecidesBox(steps, n - 1, i);
    }
  }

  function Last(steps: seq<Step>, i: nat): int
    requires i < |steps|
  {
    LastWith(steps, |steps|, steps[i].elementId)
  }

  lemma {:induction false} ShapeOf(steps: seq<Step>, i: nat, shape: Element)
    requires i < |steps| && shape in Shapes(steps, |steps|) && Get(shape, BpmnElement) == steps[i].elementId
    ensures BoxOf(shape) == Layout(steps)[steps[i].elementId]
  {
    hide BoxAt, BoxOf, Layout;
    var shapes := Shapes(steps, |steps|);
    var k :| 0 <= k < |shapes| && shapes[k] == shape;
    assert steps[k].elementId == steps[i].elementId;
    BoxOfShape(steps[i].elementId, Layout(steps)[steps[i].elementId]);
  }

  lemma {:induction false} EdgeOf(steps: seq<Step>, k: nat, edge: Element)
    requires k < FlowCount(steps) && edge in Edges(steps, FlowCount(steps)) && Get(edge, BpmnElement) == FlowId(k)
    ensures edge == EdgeElement(FlowId(k), Layout(steps)[steps[k].elementId], Layout(steps)[steps[k + 1].elementId])
  {
    hide Layout, FlowId, EdgeElement, Get;
    var edges := Edges(steps, FlowCount(steps));
    var j :| 0 <= j < |edges| && edges[j] == edge;
    EdgeOfFlow(FlowId(j), Layout(steps)[steps[j].elementId], Layout(steps)[steps[j + 1].elementId]);
    FlowIdIsInjective(j, k);
  }

  /** An edge, its flow, and shapes of the flow's two ends. */
  predicate Connects(edge: Element, flow: Element, source: Element, target: Element) {
    && Get(edge, BpmnElement) == Get(flow, Id)
    && Get(source, BpmnElement) == Get(flow, SourceRef) && Get(target, BpmnElement) == Get(flow, TargetRef)
  }

  /** The edge of a flow runs straight exactly when the boxes of its ends are those of steps in this order. */
  lemma {:induction false} EdgeRunsStraight(steps: seq<Step>, k: nat, edge: Element, source: Element, target: Element)
    requires k < FlowCount(steps) && edge in Edges(steps, FlowCount(steps))
    requires Connects(edge, FlowElement(steps, k), source, target)
    requires source in Shapes(steps, |steps|) && target in Shapes(steps, |steps|)
    ensures RunsStraight(edge, BoxOf(source), BoxOf(target)) <==> Last(steps, k) < Last(steps, k + 1)
  {
    hide BoxAt, BoxOf, RunsStraight, FlowId, Shapes, EdgeElement, Edges;
    EdgeOf(steps, k, edge);
    LastDecidesBox(steps, |steps|, k);
    LastDecidesBox(steps, |steps|, k + 1);
    ShapeOf(steps, k, source);
    ShapeOf(steps, k + 1, target);
    var a, b := Last(steps, k), Last(steps, k + 1);
    BoxesLineUp(a, b, steps[a].kind, steps[b].kind, FlowId(k));
  }

  /** Every edge of the diagram runs straight between the shapes of the two ends of its flow. */
  ghost predicate AllStraight(flows: seq<Element>, diagram: Element) {
    forall flow <- flows, edge <- EdgesOf(diagram), source <- ShapesOf(diagram), target <- ShapesOf(diagram) ::
      Connects(edge, flow, source, target) ==> RunsStraight(edge, BoxOf(source), BoxOf(target))
  }

  predicate LastsAscend(steps: seq<Step>) { forall k :: 0 <= k < FlowCount(steps) ==> Last(steps, k) < Last(steps, k + 1) }

  lemma {:induction false} OwnLast(steps: seq<Step>, n: nat, i: nat)
    requires UniqueIds(steps) && i < n <= |steps|
    ensures LastWith(steps, n, steps[i].elementId) == i
    decreases n
  {
    if i < n - 1 { OwnLast(steps, n - 1, i); }
  }

  /** The last indices can only ascend to the end one by one, so each step is the last of its id. */
  lemma {:induction false} AscentIsOwn(steps: seq<Step>, i: nat)
    requires LastsAscend(steps) && i < |steps|
    ensures Last(steps, i) == i
    decreases |steps| - i
  {
    hide LastWith;
    LastDecidesBox(steps, |steps|, i);
    if i + 1 < |steps| { AscentIsOwn(steps, i + 1); }
  }

  lemma {:induction false} LastsAscendExactly(steps: seq<Step>)
    ensures LastsAscend(steps) <==> UniqueIds(steps)
  {
    hide LastWith;
    if UniqueIds(steps) {
      forall k | 0 <= k < FlowCount(steps) ensures Last(steps, k) < Last(steps, k + 1) {
        OwnLast(steps, |steps|, k);
        OwnLast(steps, |steps|, k + 1);
      }
    }
    if LastsAscend(steps) {
      forall i, j | 0 <= i < j < |steps| ensures steps[i].elementId != steps[j].elementId {
        AscentIsOwn(steps, i);
        AscentIsOwn(steps, j);
      }
    }
  }

  /** For any steps every edge runs straight, level and to the right, exactly when no two steps share an id. */
  lemma {:induction false} EdgesRunStraight(safe: string, steps: seq<Step>)
    ensures AllStraight(FlowElements(steps, FlowCount(steps)), DiagramElement(safe, steps)) <==> UniqueIds(steps)
  {
    hide Shapes, Edges, DiagramElement, ShapesOf, EdgesOf, UniqueIds, LastsAscend, AllStraight, FlowElements;
    DiagramParts(safe, steps);
    LastsAscendExactly(steps);
    if LastsAscend(steps) { AscentIsStraight(safe, steps); }
    if AllStraight(FlowElements(steps, FlowCount(steps)), DiagramElement(safe, steps)) { StraightIsAscent(safe, steps); }
  }

  lemma {:induction false} AscentIsStraight(safe: string, steps: seq<Step>)
    requires LastsAscend(steps)
    ensures AllStraight(FlowElements(steps, FlowCount(steps)), DiagramElement(safe, steps))
  {
    hide Shapes, Edges, DiagramElement, ShapesOf, EdgesOf, Connects, RunsStraight, BoxOf, FlowElement, LastWith;
    DiagramParts(safe, steps);
    var flows, edges, shapes := FlowElements(steps, FlowCount(steps)), Edges(steps, FlowCount(steps)), Shapes(steps, |steps|);
    forall flow <- flows, edge <- edges, source <- shapes, target <- shapes | Connects(edge, flow, source, target)
      ensures RunsStraight(edge, BoxOf(source), BoxOf(target))
    {
      var k :| 0 <= k < |flows| && flows[k] == flow;
      EdgeRunsStraight(steps, k, edge, source, target);
    }
  }

  lemma {:induction false} StraightIsAscent(safe: string, steps: seq<Step>)
    requires AllStraight(FlowElements(steps, FlowCount(steps)), DiagramElement(safe, steps))
    ensures LastsAscend(steps)
  {
    hide Shapes, Edges, DiagramElement, ShapesOf, EdgesOf, Connects, RunsStraight, BoxOf, LastWith, FlowElement;
    DiagramParts(safe, steps);
    var flows, edges, shapes := FlowElements(steps, FlowCount(steps)), Edges(steps, FlowCount(steps)), Shapes(steps, |steps|);
    forall k | 0 <= k < FlowCount(steps) ensures Last(steps, k) < Last(steps, k + 1) {
      assert flows[k] in flows && edges[k] in edges && shapes[k] in shapes && shapes[k + 1] in shapes;
      OwnParts(steps, k);
      EdgeRunsStraight(steps, k, edges[k], shapes[k], shapes[k + 1]);
    }
  }

  lemma {:induction false} ShapeNames(id: string, b: Box)
    ensures Get(ShapeElement(id, b), BpmnElement) == id
  {
  }

  lemma {:induction false} OwnParts(steps: seq<Step>, k: nat)
    requires k < FlowCount(steps)
    ensures Connects(Edges(steps, FlowCount(steps))[k], FlowElement(steps, k),
      Shapes(steps, |steps|)[k], Shapes(steps, |steps|)[k + 1])
  {
    hide Layout, FlowId, Edges, Shapes, EdgeElement, ShapeElement;
    ShapeNames(steps[k].elementId, Layout(steps)[steps[k].elementId]);
    ShapeNames(steps[k + 1].elementId, Layout(steps)[steps[k + 1].elementId]);
    EdgeOfFlow(FlowId(k), Layout(steps)[steps[k].elementId], Layout(steps)[steps[k + 1].elementId]);
  }
}
