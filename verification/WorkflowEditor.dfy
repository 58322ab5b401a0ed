/** The graph editor: its transitions, what every sequence of edits keeps, and what can then still be wrong. */
module WorkflowEditor {
  import opened Foundations
  import opened GraphSearch
  import opened SimpleWorkflow
  import opened Sorting

  // ---------- the catalogue ----------

  /** A coordinate as a number the editor may be handed: a finite one, or an infinity or NaN. */
  datatype Coordinate = Finite(value: real) | NotFinite

  datatype Position = Position(x: Coordinate, y: Coordinate)

  datatype EditorNode = EditorNode(id: string, kind: NodeType, required: bool, position: Position)

  datatype EditorEdge = EditorEdge(id: string, source: string, target: string, edgeType: string)

  function TemplateId(kind: NodeType): string {
    match kind
    case ReplaySource => "replay-source"
    case BarBuilder => "bar-builder"
    case StrategyTrigger => "strategy-trigger"
    case RiskCheck => "risk-check"
    case ApprovalTicket => "approval-ticket"
    case FakeBroker => "fake-broker"
    case PositionUpdate => "position-update"
    case Alert => "alert"
    case AuditSink => "audit-sink"
    case _ => ""
  }

  function At(x: int, y: int): Position {
    Position(Finite(x as real), Finite(y as real))
  }

  function TemplatePosition(kind: NodeType): Position {
    match kind
    case ReplaySource => At(0, 110)
    case BarBuilder => At(250, 110)
    case StrategyTrigger => At(500, 110)
    case RiskCheck => At(750, 0)
    case ApprovalTicket => At(750, 220)
    case FakeBroker => At(1000, 110)
    case PositionUpdate => At(1250, 20)
    case Alert => At(1250, 210)
    case _ => At(1500, 110)
  }

  function Template(kind: NodeType): EditorNode {
    EditorNode(TemplateId(kind), kind, true, TemplatePosition(kind))
  }

  function NewEdge(source: string, target: string): EditorEdge {
    EditorEdge(source + "-to-" + target, source, target, "workflow")
  }

  /** The place of a type in the catalogue; types outside it come last. */
  function CatalogueIndex(kind: NodeType): int {
    if Supported(kind) then StageOf(kind) else 9
  }

  predicate EarlierInCatalogue(a: EditorNode, b: EditorNode) {
    CatalogueIndex(a.kind) < CatalogueIndex(b.kind)
  }

  // ---------- the state and its transitions ----------

  datatype Selection = NodeSelected(id: string) | EdgeSelected(id: string)

  datatype EditorState = EditorState(nodes: seq<EditorNode>, edges: seq<EditorEdge>, selection: Option<Selection>)

  datatype Rejection =
    | DuplicateConnection | DuplicateNode | InvalidPosition | NothingSelected | SelfConnection | UnknownEdge
    | UnknownEndpoint | UnknownNode | UnsupportedConnection | UnsupportedNodeType

  datatype Mutation = Mutation(state: EditorState, changed: bool, reason: Option<Rejection>)

  function Changed(state: EditorState): Mutation {
    Mutation(state, true, None)
  }

  function Unchanged(state: EditorState, reason: Option<Rejection>): Mutation {
    Mutation(state, false, reason)
  }

  const INITIAL := EditorState(
    [Template(ReplaySource), Template(BarBuilder), Template(StrategyTrigger), Template(RiskCheck), Template(ApprovalTicket),
     Template(FakeBroker), Template(PositionUpdate), Template(Alert), Template(AuditSink)],
    [NewEdge("replay-source", "bar-builder"), NewEdge("bar-builder", "strategy-trigger"),
     NewEdge("strategy-trigger", "risk-check"), NewEdge("risk-check", "approval-ticket"),
     NewEdge("approval-ticket", "fake-broker"), NewEdge("fake-broker", "position-update"),
     NewEdge("position-update", "alert"), NewEdge("alert", "audit-sink")],
    None)

  predicate HasNode(s: EditorState, id: string) {
    exists i :: 0 <= i < |s.nodes| && s.nodes[i].id == id
  }

  predicate HasEdge(s: EditorState, id: string) {
    exists i :: 0 <= i < |s.edges| && s.edges[i].id == id
  }

  predicate Connects(s: EditorState, source: string, target: string) {
    exists i :: 0 <= i < |s.edges| && s.edges[i].source == source && s.edges[i].target == target
  }

  function AddNode(s: EditorState, kind: NodeType): Mutation {
    if !Supported(kind) then Unchanged(s, Some(UnsupportedNodeType))
    else if HasNode(s, TemplateId(kind)) || exists i :: 0 <= i < |s.nodes| && s.nodes[i].kind == kind
    then Unchanged(s, Some(DuplicateNode))
    else Changed(EditorState(SortBy(s.nodes + [Template(kind)], EarlierInCatalogue), s.edges, Some(NodeSelected(TemplateId(kind)))))
  }

  function WithoutNode(nodes: seq<EditorNode>, id: string): (r: seq<EditorNode>)
    ensures forall n :: n in r <==> n in nodes && n.id != id
  {
    if nodes == [] then [] else
    WithoutNode(nodes[..|nodes| - 1], id) + if nodes[|nodes| - 1].id == id then [] else [nodes[|nodes| - 1]]
  }

  function WithoutEdges(edges: seq<EditorEdge>, ids: set<string>): (r: seq<EditorEdge>)
    ensures forall e :: e in r <==> e in edges && e.id !in ids
  {
    if edges == [] then [] else
    WithoutEdges(edges[..|edges| - 1], ids) + if edges[|edges| - 1].id in ids then [] else [edges[|edges| - 1]]
  }

  function RemoveNode(s: EditorState, id: string): Mutation {
    if !HasNode(s, id) then Unchanged(s, Some(UnknownNode)) else
    var removed := set e | e in s.edges && (e.source == id || e.target == id) :: e.id;
    var deselect := s.selection.Some? && (s.selection.value.id == id || (s.selection.value.EdgeSelected? && s.selection.value.id in removed));
    Changed(EditorState(WithoutNode(s.nodes, id), WithoutEdges(s.edges, removed), if deselect then None else s.selection))
  }

  function MovedNodes(nodes: seq<EditorNode>, id: string, position: Position): (r: seq<EditorNode>)
    ensures |r| == |nodes|
    ensures forall i :: 0 <= i < |r| ==> r[i] == if nodes[i].id == id then nodes[i].(position := position) else nodes[i]
  {
    seq(|nodes|, i requires 0 <= i < |nodes| => if nodes[i].id == id then nodes[i].(position := position) else nodes[i])
  }

  /** The first node with the id, as `Array.prototype.find` looks for it. */
  function FirstNode(nodes: seq<EditorNode>, id: string): Option<EditorNode> {
    if nodes == [] then None else if nodes[0].id == id then Some(nodes[0]) else FirstNode(nodes[1..], id)
  }

  function MoveNode(s: EditorState, id: string, position: Position): Mutation {
    if position.x.NotFinite? || position.y.NotFinite? then Unchanged(s, Some(InvalidPosition)) else
    var node := FirstNode(s.nodes, id);
    if node.None? then Unchanged(s, Some(UnknownNode))
    else if node.value.position == position then Unchanged(s, None)
    else Changed(s.(nodes := MovedNodes(s.nodes, id, position)))
  }

  function Connect(s: EditorState, source: string, target: string, edgeType: string): Mutation {
    if edgeType != "workflow" then Unchanged(s, Some(UnsupportedConnection))
    else if !HasNode(s, source) || !HasNode(s, target) then Unchanged(s, Some(UnknownEndpoint))
    else if source == target then Unchanged(s, Some(SelfConnection))
    else if Connects(s, source, target) then Unchanged(s, Some(DuplicateConnection))
    else
      var e := NewEdge(source, target);
      Changed(EditorState(s.nodes, s.edges + [e], Some(EdgeSelected(e.id))))
  }

  function RemoveEdge(s: EditorState, id: string): Mutation {
    if !HasEdge(s, id) then Unchanged(s, Some(UnknownEdge))
    else Changed(EditorState(s.nodes, WithoutEdges(s.edges, {id}), if s.selection == Some(EdgeSelected(id)) then None else s.selection))
  }

  predicate Selectable(s: EditorState, sel: Selection) {
    match sel
    case NodeSelected(id) => HasNode(s, id)
    case EdgeSelected(id) => HasEdge(s, id)
  }

  function Select(s: EditorState, selection: Option<Selection>): EditorState {
    if selection.Some? && !Selectable(s, selection.value) then s else s.(selection := selection)
  }

  function RemoveSelected(s: EditorState): Mutation {
    if s.selection.None? then Unchanged(s, Some(NothingSelected)) else
    match s.selection.value
    case NodeSelected(id) => RemoveNode(s, id)
    case EdgeSelected(id) => RemoveEdge(s, id)
  }

  predicate ConnectionAllowed(s: EditorState, source: Option<string>, target: Option<string>) {
    if source.None? || target.None? || source.value == "" || target.value == "" then false
    else Connect(s, source.value, target.value, "workflow").changed
  }

  datatype Edit =
    | AddEdit(kind: NodeType)
    | RemoveNodeEdit(nodeId: string)
    | MoveEdit(moved: string, position: Position)
    | ConnectEdit(source: string, target: string, edgeType: string)
    | RemoveEdgeEdit(edgeId: string)
    | SelectEdit(selection: Option<Selection>)
    | RemoveSelectedEdit
    | ResetEdit

  function Apply(s: EditorState, edit: Edit): EditorState {
    match edit
    case AddEdit(kind) => AddNode(s, kind).state
    case RemoveNodeEdit(id) => RemoveNode(s, id).state
    case MoveEdit(id, position) => MoveNode(s, id, position).state
    case ConnectEdit(source, target, edgeType) => Connect(s, source, target, edgeType).state
    case RemoveEdgeEdit(id) => RemoveEdge(s, id).state
    case SelectEdit(selection) => Select(s, selection)
    case RemoveSelectedEdit => RemoveSelected(s).state
    case ResetEdit => INITIAL
  }

  function Edited(s: EditorState, edits: seq<Edit>): EditorState {
    if edits == [] then s else Apply(Edited(s, edits[..|edits| - 1]), edits[|edits| - 1])
  }

  // ---------- what every edit keeps ----------

  /** Every node comes strictly earlier in the catalogue than the next, so no type repeats. */
  ghost predicate InCatalogueOrder(nodes: seq<EditorNode>) {
    Rising(nodes, EarlierInCatalogue)
  }

  ghost predicate UniqueIds(nodes: seq<EditorNode>) {
    forall m, n :: m in nodes && n in nodes && m.id == n.id ==> m == n
  }

  predicate SafeNode(n: EditorNode) {
    Supported(n.kind) && n.id != "" && n.required
  }

  ghost predicate TidyNodes(nodes: seq<EditorNode>) {
    && InCatalogueOrder(nodes) && UniqueIds(nodes)
    && forall n :: n in nodes ==> SafeNode(n)
  }

  ghost predicate NamesNode(nodes: seq<EditorNode>, id: string) {
    exists n :: n in nodes && n.id == id
  }

  predicate SamePair(a: EditorEdge, b: EditorEdge) {
    a.source == b.source && a.target == b.target
  }

  /** A workflow edge between two different existing nodes, under its usual id. */
  ghost predicate EdgeFits(nodes: seq<EditorNode>, e: EditorEdge) {
    e == NewEdge(e.source, e.target) && e.source != e.target && NamesNode(nodes, e.source) && NamesNode(nodes, e.target)
  }

  ghost predicate NoPairTwice(edges: seq<EditorEdge>) {
    forall i, j :: 0 <= i < j < |edges| ==> !SamePair(edges[i], edges[j])
  }

  ghost predicate TidyEdges(nodes: seq<EditorNode>, edges: seq<EditorEdge>) {
    (forall e :: e in edges ==> EdgeFits(nodes, e)) && NoPairTwice(edges)
  }

  ghost predicate Tidy(s: EditorState) {
    && TidyNodes(s.nodes) && TidyEdges(s.nodes, s.edges)
    && (s.selection.Some? ==> Selectable(s, s.selection.value))
  }

  lemma StagesDiffer(a: NodeType, b: NodeType)
    requires Supported(a) && Supported(b) && CatalogueIndex(a) == CatalogueIndex(b)
    ensures a == b
  {
  }

  /** Catalogue order compares any two of these nodes. */
  lemma CatalogueOrders(nodes: seq<EditorNode>, t: EditorNode)
    requires TidyNodes(nodes) && Supported(t.kind) && forall n :: n in nodes ==> n.kind != t.kind
    ensures StrictlyOrders(EarlierInCatalogue, iset n | n in nodes || n == t)
  {
    var among := iset n | n in nodes || n == t;
    forall x, y | x in among && y in among && x != y ensures EarlierInCatalogue(x, y) || EarlierInCatalogue(y, x) {
      if x in nodes && y in nodes {
        var i :| 0 <= i < |nodes| && nodes[i] == x;
        var j :| 0 <= j < |nodes| && nodes[j] == y;
        assert i < j ==> EarlierInCatalogue(nodes[i], nodes[j]);
        assert j < i ==> EarlierInCatalogue(nodes[j], nodes[i]);
      } else if CatalogueIndex(x.kind) == CatalogueIndex(y.kind) {
        StagesDiffer(x.kind, y.kind);
      }
    }
  }

  lemma RisingIsOrdered(nodes: seq<EditorNode>)
    requires InCatalogueOrder(nodes)
    ensures Ordered(nodes, EarlierInCatalogue)
  {
    forall i, j | 0 <= i < j < |nodes| ensures !EarlierInCatalogue(nodes[j], nodes[i]) {
      assert EarlierInCatalogue(nodes[i], nodes[j]);
    }
  }

  lemma TemplateIdsHaveNoArrow(kind: NodeType)
    requires Supported(kind)
    ensures '>' !in TemplateId(kind)
  {
  }

  lemma TemplatesAreSafe(kind: NodeType)
    requires Supported(kind)
    ensures SafeNode(Template(kind)) && Template(kind).id == TemplateId(kind) && !HasArrow(TemplateId(kind))
  {
    TemplateIdsHaveNoArrow(kind);
    var id := TemplateId(kind);
    assert id != "";
    hide TemplateId, TemplatePosition;
    forall i | 0 <= i < |id| ensures id[i] != '>' {
      assert id[i] in id;
    }
  }

  /** The stage of a catalogue id, told from its length and first letter. */
  function StageOfId(id: string): int {
    if id == "" then 9
    else if |id| == 13 then 0
    else if |id| == 11 then (if id[0] == 'b' then 1 else 5)
    else if |id| == 16 then 2
    else if |id| == 10 then (if id[0] == 'r' then 3 else 8)
    else if |id| == 15 then (if id[0] == 'a' then 4 else 6)
    else 7
  }

  lemma TemplateIdsDiffer(kind: NodeType)
    requires Supported(kind)
    ensures StageOfId(TemplateId(kind)) == StageOf(kind)
  {
  }

  lemma AddedUniqueIds(nodes: seq<EditorNode>, t: EditorNode, after: seq<EditorNode>)
    requires UniqueIds(nodes) && forall n :: n in nodes ==> n.id != t.id
    requires forall n :: n in after <==> n in nodes || n == t
    ensures UniqueIds(after)
  {
  }

  lemma SafeIsSupported(t: EditorNode)
    requires SafeNode(t)
    ensures Supported(t.kind)
  {
  }

  /** The catalogue sort puts a new node in its place. */
  lemma AddedNodesAreTidy(nodes: seq<EditorNode>, t: EditorNode)
    requires TidyNodes(nodes) && SafeNode(t) && forall n :: n in nodes ==> n.kind != t.kind && n.id != t.id
    ensures TidyNodes(SortBy(nodes + [t], EarlierInCatalogue))
    ensures forall n :: n in SortBy(nodes + [t], EarlierInCatalogue) <==> n in nodes || n == t
  {
    hide SafeNode, StrictlyOrders, Ordered, UniqueIds, Rising;
    assert Supported(t.kind) by { SafeIsSupported(t); }
    CatalogueOrders(nodes, t);
    RisingIsOrdered(nodes);
    assert (nodes + [t])[..|nodes|] == nodes;
    SortingOrdered(nodes, EarlierInCatalogue);
    InsertRises(nodes, t, EarlierInCatalogue, iset n | n in nodes || n == t);
    AddedUniqueIds(nodes, t, SortBy(nodes + [t], EarlierInCatalogue));
  }

  lemma {:induction false} WithoutNodeRises(nodes: seq<EditorNode>, id: string)
    requires InCatalogueOrder(nodes)
    ensures InCatalogueOrder(WithoutNode(nodes, id))
  {
    if nodes != [] {
      var front, last := nodes[..|nodes| - 1], nodes[|nodes| - 1];
      assert nodes == front + [last];
      forall i, j | 0 <= i < j < |front| ensures EarlierInCatalogue(front[i], front[j]) {
        assert EarlierInCatalogue(nodes[i], nodes[j]);
      }
      WithoutNodeRises(front, id);
      var r := WithoutNode(front, id);
      forall i | 0 <= i < |r| ensures EarlierInCatalogue(r[i], last) {
        assert r[i] in r;
        var k :| 0 <= k < |front| && front[k] == r[i];
        assert EarlierInCatalogue(nodes[k], nodes[|front|]);
      }
    }
  }

  lemma {:induction false} WithoutEdgesNoPairTwice(edges: seq<EditorEdge>, ids: set<string>)
    requires NoPairTwice(edges)
    ensures NoPairTwice(WithoutEdges(edges, ids))
  {
    if edges != [] {
      var front, last := edges[..|edges| - 1], edges[|edges| - 1];
      assert edges == front + [last];
      forall i, j | 0 <= i < j < |front| ensures !SamePair(front[i], front[j]) {
        assert !SamePair(edges[i], edges[j]);
      }
      WithoutEdgesNoPairTwice(front, ids);
      var r := WithoutEdges(front, ids);
      forall i | 0 <= i < |r| ensures !SamePair(r[i], last) {
        assert r[i] in r;
        var k :| 0 <= k < |front| && front[k] == r[i];
        assert !SamePair(edges[k], edges[|front|]);
      }
    }
  }

  lemma EdgesStayTidy(nodes: seq<EditorNode>, after: seq<EditorNode>, edges: seq<EditorEdge>)
    requires TidyEdges(nodes, edges) && forall id :: NamesNode(nodes, id) ==> NamesNode(after, id)
    ensures TidyEdges(after, edges)
  {
    forall e | e in edges ensures EdgeFits(after, e) {
      assert EdgeFits(nodes, e);
    }
  }

  lemma AddKeepsTidy(s: EditorState, kind: NodeType)
    requires Tidy(s)
    ensures Tidy(AddNode(s, kind).state)
  {
    if AddNode(s, kind).changed {
      var t := Template(kind);
      TemplatesAreSafe(kind);
      hide Template, TemplateId, SafeNode;
      forall n | n in s.nodes ensures n.kind != t.kind && n.id != t.id {
        var i :| 0 <= i < |s.nodes| && s.nodes[i] == n;
      }
      AddedNodesAreTidy(s.nodes, t);
      hide TidyNodes, TidyEdges, SortBy, EarlierInCatalogue;
      var after := AddNode(s, kind).state;
      assert t in after.nodes;
      HasNodeNames(after, t.id);
      forall id | NamesNode(s.nodes, id) ensures NamesNode(after.nodes, id) {
        var n :| n in s.nodes && n.id == id;
        assert n in after.nodes;
      }
      EdgesStayTidy(s.nodes, after.nodes, s.edges);
    }
  }

  lemma RemoveNodeKeepsTidy(s: EditorState, id: string)
    requires Tidy(s)
    ensures Tidy(RemoveNode(s, id).state)
  {
    if HasNode(s, id) {
      var after := RemoveNode(s, id).state;
      WithoutNodeRises(s.nodes, id);
      assert NoPairTwice(s.edges);
      var removed := set e | e in s.edges && (e.source == id || e.target == id) :: e.id;
      WithoutEdgesNoPairTwice(s.edges, removed);
      forall other | NamesNode(s.nodes, other) && other != id ensures NamesNode(after.nodes, other) {
        var n :| n in s.nodes && n.id == other;
        assert n in after.nodes;
      }
      forall e | e in after.edges ensures e.source != id && e.target != id {
        assert e in s.edges;
      }
      if after.selection.Some? {
        RemainingIsSelectable(s, id, removed);
      }
    }
  }

  lemma RemainingIsSelectable(s: EditorState, id: string, removed: set<string>)
    requires s.selection.Some? && Selectable(s, s.selection.value)
    requires s.selection.value.id != id && (s.selection.value.EdgeSelected? ==> s.selection.value.id !in removed)
    ensures Selectable(EditorState(WithoutNode(s.nodes, id), WithoutEdges(s.edges, removed), s.selection), s.selection.value)
  {
    var after := EditorState(WithoutNode(s.nodes, id), WithoutEdges(s.edges, removed), s.selection);
    match s.selection.value
    case NodeSelected(kept) =>
      var i :| 0 <= i < |s.nodes| && s.nodes[i].id == kept;
      assert s.nodes[i] in after.nodes;
    case EdgeSelected(kept) =>
      var i :| 0 <= i < |s.edges| && s.edges[i].id == kept;
      assert s.edges[i] in after.edges;
  }

  lemma MovedNodesAreTidy(nodes: seq<EditorNode>, id: string, position: Position)
    requires TidyNodes(nodes)
    ensures TidyNodes(MovedNodes(nodes, id, position))
  {
    var after := MovedNodes(nodes, id, position);
    hide UniqueIds, MovedNodes;
    forall i, j | 0 <= i < j < |after| ensures EarlierInCatalogue(after[i], after[j]) {
      assert EarlierInCatalogue(nodes[i], nodes[j]);
    }
    forall n | n in after ensures SafeNode(n) {
      var i :| 0 <= i < |after| && after[i] == n;
      assert SafeNode(nodes[i]);
    }
    MovedIdsAreUnique(nodes, id, position);
  }

  lemma MovedIdsAreUnique(nodes: seq<EditorNode>, id: string, position: Position)
    requires UniqueIds(nodes)
    ensures UniqueIds(MovedNodes(nodes, id, position))
  {
    var after := MovedNodes(nodes, id, position);
    hide MovedNodes;
    forall m, n | m in after && n in after && m.id == n.id ensures m == n {
      var i :| 0 <= i < |after| && after[i] == m;
      var j :| 0 <= j < |after| && after[j] == n;
      assert nodes[i] in nodes && nodes[j] in nodes && nodes[i].id == nodes[j].id;
      assert nodes[i] == nodes[j] && after[i] == after[j];
    }
  }

  lemma MovedNames(nodes: seq<EditorNode>, id: string, position: Position, other: string)
    requires NamesNode(nodes, other)
    ensures NamesNode(MovedNodes(nodes, id, position), other)
  {
    var n :| n in nodes && n.id == other;
    var i :| 0 <= i < |nodes| && nodes[i] == n;
    assert MovedNodes(nodes, id, position)[i] in MovedNodes(nodes, id, position);
  }

  lemma MoveKeepsTidy(s: EditorState, id: string, position: Position)
    requires Tidy(s)
    ensures Tidy(MoveNode(s, id, position).state)
  {
    var after := s.(nodes := MovedNodes(s.nodes, id, position));
    hide TidyNodes, TidyEdges, MovedNodes;
    MovedNodesAreTidy(s.nodes, id, position);
    forall other | NamesNode(s.nodes, other) ensures NamesNode(after.nodes, other) {
      MovedNames(s.nodes, id, position, other);
    }
    EdgesStayTidy(s.nodes, after.nodes, s.edges);
    forall other ensures HasNode(s, other) ==> HasNode(after, other) {
      HasNodeNames(s, other);
      HasNodeNames(after, other);
    }
  }

  lemma ConnectKeepsTidy(s: EditorState, source: string, target: string, edgeType: string)
    requires Tidy(s)
    ensures Tidy(Connect(s, source, target, edgeType).state)
  {
    if Connect(s, source, target, edgeType).changed {
      var e := NewEdge(source, target);
      var after := Connect(s, source, target, edgeType).state;
      HasNodeNames(s, source);
      HasNodeNames(s, target);
      assert after.edges[|s.edges|].id == e.id;
      hide TidyNodes;
      forall i | 0 <= i < |s.edges| ensures !SamePair(s.edges[i], e) {
        assert !(s.edges[i].source == source && s.edges[i].target == target);
      }
    }
  }

  lemma HasNodeNames(s: EditorState, id: string)
    ensures HasNode(s, id) <==> NamesNode(s.nodes, id)
  {
    if HasNode(s, id) {
      var i :| 0 <= i < |s.nodes| && s.nodes[i].id == id;
      assert s.nodes[i] in s.nodes;
    }
  }

  lemma RemoveEdgeKeepsTidy(s: EditorState, id: string)
    requires Tidy(s)
    ensures Tidy(RemoveEdge(s, id).state)
  {
    if HasEdge(s, id) {
      var after := RemoveEdge(s, id).state;
      assert NoPairTwice(s.edges);
      WithoutEdgesNoPairTwice(s.edges, {id});
      if after.selection.Some? && after.selection.value.EdgeSelected? {
        var i :| 0 <= i < |s.edges| && s.edges[i].id == after.selection.value.id;
        assert s.edges[i] in after.edges;
      }
    }
  }

  lemma InitialNode(k: nat)
    requires k < |INITIAL.nodes|
    ensures |INITIAL.nodes| == |STAGES| && INITIAL.nodes[k] == Template(STAGES[k]) && StageOf(STAGES[k]) == k
  {
  }

  lemma InitialEdge(k: nat)
    requires k < |INITIAL.edges|
    ensures |INITIAL.edges| == |STAGES| - 1
    ensures INITIAL.edges[k] == NewEdge(TemplateId(STAGES[k]), TemplateId(STAGES[k + 1]))
  {
    hide Template, NewEdge;
  }

  lemma InitialEdgeFits(k: nat)
    requires k < |INITIAL.edges|
    requires TemplateId(STAGES[k]) != TemplateId(STAGES[k + 1])
    ensures EdgeFits(INITIAL.nodes, INITIAL.edges[k]) && INITIAL.edges[k].source == TemplateId(STAGES[k])
  {
    hide INITIAL, STAGES, TemplateId, TemplatePosition;
    InitialSizes();
    InitialEdge(k);
    InitialNode(k);
    InitialNode(k + 1);
    assert INITIAL.nodes[k] in INITIAL.nodes && INITIAL.nodes[k + 1] in INITIAL.nodes;
  }

  lemma InitialNodesAreTidy()
    ensures TidyNodes(INITIAL.nodes)
    ensures forall k, l :: 0 <= k < l < |STAGES| ==> TemplateId(STAGES[k]) != TemplateId(STAGES[l])
  {
    assert |INITIAL.nodes| == |STAGES|;
    hide TemplateId, TemplatePosition, INITIAL;
    forall k | 0 <= k < |INITIAL.nodes|
      ensures INITIAL.nodes[k] == Template(STAGES[k]) && CatalogueIndex(STAGES[k]) == k && SafeNode(INITIAL.nodes[k])
      ensures StageOfId(TemplateId(STAGES[k])) == k
    {
      InitialNode(k);
      TemplatesAreSafe(STAGES[k]);
      TemplateIdsDiffer(STAGES[k]);
    }
  }

  lemma InitialSizes()
    ensures |INITIAL.edges| == |STAGES| - 1 && |INITIAL.nodes| == |STAGES| && INITIAL.selection.None?
  {
  }

  lemma InitialIsTidy()
    ensures Tidy(INITIAL)
  {
    hide TidyNodes, TemplateId, TemplatePosition, INITIAL, STAGES, EdgeFits;
    InitialSizes();
    InitialNodesAreTidy();
    forall k | 0 <= k < |INITIAL.edges|
      ensures EdgeFits(INITIAL.nodes, INITIAL.edges[k]) && INITIAL.edges[k].source == TemplateId(STAGES[k])
    {
      assert k < k + 1 < |STAGES| && TemplateId(STAGES[k]) != TemplateId(STAGES[k + 1]);
      InitialEdgeFits(k);
    }
  }

  lemma ApplyKeepsTidy(s: EditorState, edit: Edit)
    requires Tidy(s)
    ensures Tidy(Apply(s, edit))
  {
    hide Tidy, INITIAL, AddNode, RemoveNode, MoveNode, Connect, RemoveEdge, Select;
    match edit
    case AddEdit(kind) => AddKeepsTidy(s, kind);
    case RemoveNodeEdit(id) => RemoveNodeKeepsTidy(s, id);
    case MoveEdit(id, position) => MoveKeepsTidy(s, id, position);
    case ConnectEdit(source, target, edgeType) => ConnectKeepsTidy(s, source, target, edgeType);
    case RemoveEdgeEdit(id) => RemoveEdgeKeepsTidy(s, id);
    case SelectEdit(selection) => SelectKeepsTidy(s, selection);
    case RemoveSelectedEdit =>
      if s.selection.Some? {
        RemoveNodeKeepsTidy(s, s.selection.value.id);
        RemoveEdgeKeepsTidy(s, s.selection.value.id);
      }
    case ResetEdit => InitialIsTidy();
  }

  lemma SelectKeepsTidy(s: EditorState, selection: Option<Selection>)
    requires Tidy(s)
    ensures Tidy(Select(s, selection))
  {
  }

  /** After every sequence of edits from a tidy state the state is tidy; the initial state is. */
  lemma {:induction false} EditsKeepTidy(s: EditorState, edits: seq<Edit>)
    requires Tidy(s)
    ensures Tidy(Edited(s, edits))
  {
    hide Tidy, Apply;
    if edits != [] {
      EditsKeepTidy(s, edits[..|edits| - 1]);
      ApplyKeepsTidy(Edited(s, edits[..|edits| - 1]), edits[|edits| - 1]);
    }
  }

  // ---------- ids without the separator ----------

  /** No id holds the "->" by which the validator separates the ends of an edge. */
  ghost predicate NoArrows(nodes: seq<EditorNode>) {
    forall n :: n in nodes ==> !HasArrow(n.id)
  }

  lemma ApplyKeepsNoArrows(s: EditorState, edit: Edit)
    requires NoArrows(s.nodes)
    ensures NoArrows(Apply(s, edit).nodes)
  {
    hide HasArrow, Template, TemplateId, INITIAL;
    match edit
    case AddEdit(kind) =>
      if Supported(kind) {
        TemplatesAreSafe(kind);
      }
    case ResetEdit => InitialHasNoArrows();
    case MoveEdit(id, position) =>
      forall n | n in MovedNodes(s.nodes, id, position) ensures !HasArrow(n.id) {
        var i :| 0 <= i < |s.nodes| && MovedNodes(s.nodes, id, position)[i] == n;
        assert s.nodes[i] in s.nodes;
      }
    case _ =>
  }

  lemma InitialHasNoArrows()
    ensures NoArrows(INITIAL.nodes)
  {
    InitialSizes();
    hide INITIAL, HasArrow, STAGES, TemplateId, TemplatePosition;
    forall k | 0 <= k < |INITIAL.nodes| ensures !HasArrow(INITIAL.nodes[k].id) {
      InitialNode(k);
      TemplatesAreSafe(STAGES[k]);
    }
  }

  /** Edits never bring the separator into an id. */
  lemma {:induction false} EditsKeepNoArrows(s: EditorState, edits: seq<Edit>)
    requires NoArrows(s.nodes)
    ensures NoArrows(Edited(s, edits).nodes)
  {
    hide NoArrows, Apply;
    if edits != [] {
      EditsKeepNoArrows(s, edits[..|edits| - 1]);
      ApplyKeepsNoArrows(Edited(s, edits[..|edits| - 1]), edits[|edits| - 1]);
    }
  }

  lemma ConnectChanges(s: EditorState, source: string, target: string)
    ensures var r := Connect(s, source, target, "workflow");
            && (r.changed <==> r.state != s)
            && !Connect(r.state, source, target, "workflow").changed
            && (r.changed ==> HasNode(s, source) && HasNode(s, target))
  {
    hide HasNode;
    var r := Connect(s, source, target, "workflow");
    if r.changed {
      var e := r.state.edges[|s.edges|];
      assert e.source == source && e.target == target;
      assert Connects(r.state, source, target);
    }
  }

  lemma TidyNamesAreGiven(s: EditorState, id: string)
    requires TidyNodes(s.nodes) && HasNode(s, id)
    ensures id != ""
  {
    hide InCatalogueOrder, UniqueIds;
    var i :| 0 <= i < |s.nodes| && s.nodes[i].id == id;
    assert s.nodes[i] in s.nodes && SafeNode(s.nodes[i]);
  }

  /** The check the canvas asks first agrees with the edit itself, and a connection is never offered twice. */
  lemma AllowedExactlyWhenConnecting(s: EditorState, source: string, target: string)
    requires Tidy(s)
    ensures var next := Apply(s, ConnectEdit(source, target, "workflow"));
            && (ConnectionAllowed(s, Some(source), Some(target)) <==> next != s)
            && !ConnectionAllowed(next, Some(source), Some(target))
  {
    hide TidyNodes, TidyEdges, Connect, HasNode;
    ConnectChanges(s, source, target);
    if Connect(s, source, target, "workflow").changed {
      TidyNamesAreGiven(s, source);
      TidyNamesAreGiven(s, target);
    }
  }
}
