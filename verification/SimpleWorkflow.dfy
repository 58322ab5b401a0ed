/** The validator of the nine-stage simulation workflow, and exactly which graphs it accepts. */
module SimpleWorkflow {
  import opened Foundations
  import opened GraphSearch

  /** The supported node types, the unsafe action types, and any other text. */
  datatype NodeType =
    | ReplaySource | BarBuilder | StrategyTrigger | RiskCheck | ApprovalTicket
    | FakeBroker | PositionUpdate | Alert | AuditSink
    | UnsafeAction(name: string)
    | OtherType(name: string)

  datatype Node = Node(id: string, kind: NodeType)

  datatype WorkflowEdge = WorkflowEdge(source: string, target: string, edgeType: Option<string>)
  {
    predicate IsWorkflow() {
      edgeType.None? || edgeType.value == "workflow"
    }
  }

  /** The required path, stage by stage; it names every supported type once. */
  const STAGES: seq<NodeType> := [
    ReplaySource, BarBuilder, StrategyTrigger, RiskCheck, ApprovalTicket, FakeBroker, PositionUpdate, Alert, AuditSink]

  const REQUIRED: seq<NodeType> := [RiskCheck, ApprovalTicket, AuditSink]

  predicate Supported(kind: NodeType) {
    !kind.UnsafeAction? && !kind.OtherType?
  }

  /** The text by which the validator compares edges. */
  function Key(source: string, target: string): string {
    source + "->" + target
  }

  function Ids(nodes: seq<Node>): (r: seq<string>)
    ensures |r| == |nodes| && forall i :: 0 <= i < |r| ==> r[i] == nodes[i].id
  {
    seq(|nodes|, i requires 0 <= i < |nodes| => nodes[i].id)
  }

  function Kinds(nodes: seq<Node>): (r: seq<NodeType>)
    ensures |r| == |nodes| && forall i :: 0 <= i < |r| ==> r[i] == nodes[i].kind
  {
    seq(|nodes|, i requires 0 <= i < |nodes| => nodes[i].kind)
  }

  function Keys(edges: seq<WorkflowEdge>): (r: seq<string>)
    ensures |r| == |edges| && forall i :: 0 <= i < |r| ==> r[i] == Key(edges[i].source, edges[i].target)
  {
    seq(|edges|, i requires 0 <= i < |edges| => Key(edges[i].source, edges[i].target))
  }

  function Pairs(edges: seq<WorkflowEdge>): (r: seq<Edge>)
    ensures |r| == |edges| && forall i :: 0 <= i < |r| ==> r[i] == (edges[i].source, edges[i].target)
  {
    seq(|edges|, i requires 0 <= i < |edges| => (edges[i].source, edges[i].target))
  }

  function Matching(nodes: seq<Node>, kind: NodeType): seq<Node> {
    if nodes == [] then [] else
    (if nodes[0].kind == kind then [nodes[0]] else []) + Matching(nodes[1..], kind)
  }

  // ---------- problems ----------

  datatype Problem =
    | DuplicateNodeId(id: string)
    | DuplicateNodeType(kind: NodeType)
    | DuplicateEdge(key: string)
    | MissingRequiredNode(kind: NodeType)
    | UnsafeActionNode(node: Node)
    | UnsupportedNode(node: Node)
    | UnsupportedEdgeType(edge: WorkflowEdge)
    | UnknownEdgeEndpoint(edge: WorkflowEdge)
    | CycleDetected
    | RequiredPathMissing

  ghost predicate OccursTwice<T>(values: seq<T>, v: T) {
    exists i, j :: 0 <= i < j < |values| && values[i] == v && values[j] == v
  }

  /** A workflow edge whose key is that of these two ids. */
  ghost predicate KeyPresent(edges: seq<WorkflowEdge>, source: string, target: string) {
    exists e :: e in edges && e.IsWorkflow() && Key(e.source, e.target) == Key(source, target)
  }

  /** The stages `k` and `k + 1` have named nodes and an edge between them. */
  ghost predicate StageJoined(nodes: seq<Node>, edges: seq<WorkflowEdge>, k: nat)
    requires k + 1 < |STAGES|
    requires |Matching(nodes, STAGES[k])| == 1 && |Matching(nodes, STAGES[k + 1])| == 1
  {
    var source, target := Matching(nodes, STAGES[k])[0].id, Matching(nodes, STAGES[k + 1])[0].id;
    source != "" && target != "" && KeyPresent(edges, source, target)
  }

  ghost predicate RequiredPath(nodes: seq<Node>, edges: seq<WorkflowEdge>) {
    && (forall k :: 0 <= k < |STAGES| ==> |Matching(nodes, STAGES[k])| == 1)
    && (forall k :: 0 <= k < |STAGES| - 1 ==> StageJoined(nodes, edges, k))
  }

  ghost predicate IsProblem(nodes: seq<Node>, edges: seq<WorkflowEdge>, p: Problem) {
    match p
    case DuplicateNodeId(id) => OccursTwice(Ids(nodes), id)
    case DuplicateNodeType(kind) => OccursTwice(Kinds(nodes), kind)
    case DuplicateEdge(key) => OccursTwice(Keys(edges), key)
    case MissingRequiredNode(kind) => kind in REQUIRED && kind !in Kinds(nodes)
    case UnsafeActionNode(node) => node in nodes && node.kind.UnsafeAction?
    case UnsupportedNode(node) => node in nodes && node.kind.OtherType?
    case UnsupportedEdgeType(edge) => edge in edges && !edge.IsWorkflow()
    case UnknownEdgeEndpoint(edge) => edge in edges && (edge.source !in Ids(nodes) || edge.target !in Ids(nodes))
    case CycleDetected => HasDirectedCycle(Ids(nodes), Pairs(edges))
    case RequiredPathMissing => !RequiredPath(nodes, edges)
  }

  /** The values that occur more than once, in the order their first repetition is met. */
  method DuplicateValues<T(==)>(values: seq<T>) returns (duplicates: seq<T>)
    ensures forall v :: v in duplicates <==> OccursTwice(values, v)
  {
    var seen: set<T> := {};
    duplicates := [];
    for i := 0 to |values|
      invariant seen == Elements(values[..i])
      invariant forall v :: v in duplicates <==> OccursTwice(values[..i], v)
    {
      assert values[..i + 1] == values[..i] + [values[i]];
      OneMoreValue(values[..i], values[i]);
      if values[i] in seen && values[i] !in duplicates {
        duplicates := duplicates + [values[i]];
      }
      seen := seen + {values[i]};
    }
    assert values[..|values|] == values;
  }

  lemma OneMoreValue<T>(values: seq<T>, x: T)
    ensures forall v :: OccursTwice(values + [x], v) <==> OccursTwice(values, v) || (v == x && x in values)
    ensures Elements(values + [x]) == Elements(values) + {x}
  {
    var longer := values + [x];
    forall v ensures OccursTwice(longer, v) <==> OccursTwice(values, v) || (v == x && x in values) {
      if OccursTwice(longer, v) && !(v == x && x in values) {
        var i, j :| 0 <= i < j < |longer| && longer[i] == v && longer[j] == v;
        assert j < |values| && values[i] == v && values[j] == v;
      }
      if OccursTwice(values, v) {
        var i, j :| 0 <= i < j < |values| && values[i] == v && values[j] == v;
        assert longer[i] == v && longer[j] == v;
      }
      if v == x && x in values {
        var i :| 0 <= i < |values| && values[i] == x;
        assert longer[i] == x && longer[|values|] == x;
      }
    }
  }

  /** Whether the required path is complete. */
  method HasRequiredSimulationPath(nodes: seq<Node>, edges: seq<WorkflowEdge>) returns (complete: bool)
    ensures complete <==> RequiredPath(nodes, edges)
  {
    hide Matching, Key;
    var idByStage: seq<string> := [];
    for k := 0 to |STAGES|
      invariant |idByStage| == k
      invariant forall j :: 0 <= j < k ==> |Matching(nodes, STAGES[j])| == 1 && idByStage[j] == Matching(nodes, STAGES[j])[0].id
    {
      var matching := Matching(nodes, STAGES[k]);
      if |matching| != 1 {
        return false;
      }
      idByStage := idByStage + [matching[0].id];
    }
    var safeKeys := set e | e in edges && e.IsWorkflow() :: Key(e.source, e.target);
    for k := 0 to |STAGES| - 1
      invariant forall j :: 0 <= j < k ==> StageJoined(nodes, edges, j)
    {
      var source, target := idByStage[k], idByStage[k + 1];
      if source == "" || target == "" || Key(source, target) !in safeKeys {
        assert !StageJoined(nodes, edges, k);
        return false;
      }
    }
    return true;
  }

  method ReportRepetitions(nodes: seq<Node>, edges: seq<WorkflowEdge>) returns (errors: seq<Problem>)
    ensures forall p :: p in errors <==>
                          (p.DuplicateNodeId? || p.DuplicateNodeType? || p.DuplicateEdge?) && IsProblem(nodes, edges, p)
  {
    errors := [];
    var duplicateIds := DuplicateValues(Ids(nodes));
    for i := 0 to |duplicateIds|
      invariant forall p :: p in errors <==> p.DuplicateNodeId? && p.id in duplicateIds[..i]
    {
      errors := errors + [DuplicateNodeId(duplicateIds[i])];
    }
    assert duplicateIds[..|duplicateIds|] == duplicateIds;
    ghost var ids := errors;
    var duplicateKinds := DuplicateValues(Kinds(nodes));
    for i := 0 to |duplicateKinds|
      invariant forall p :: p in errors <==> p in ids || (p.DuplicateNodeType? && p.kind in duplicateKinds[..i])
    {
      errors := errors + [DuplicateNodeType(duplicateKinds[i])];
    }
    assert duplicateKinds[..|duplicateKinds|] == duplicateKinds;
    ghost var kinds := errors;
    var duplicateKeys := DuplicateValues(Keys(edges));
    for i := 0 to |duplicateKeys|
      invariant forall p :: p in errors <==> p in kinds || (p.DuplicateEdge? && p.key in duplicateKeys[..i])
    {
      errors := errors + [DuplicateEdge(duplicateKeys[i])];
    }
    assert duplicateKeys[..|duplicateKeys|] == duplicateKeys;
  }

  method ReportNodes(nodes: seq<Node>, ghost edges: seq<WorkflowEdge>) returns (errors: seq<Problem>)
    ensures forall p :: p in errors <==>
                          (p.MissingRequiredNode? || p.UnsafeActionNode? || p.UnsupportedNode?) && IsProblem(nodes, edges, p)
  {
    errors := [];
    for i := 0 to |REQUIRED|
      invariant forall p :: p in errors <==> p.MissingRequiredNode? && p.kind in REQUIRED[..i] && p.kind !in Kinds(nodes)
    {
      if REQUIRED[i] !in Kinds(nodes) {
        errors := errors + [MissingRequiredNode(REQUIRED[i])];
      }
    }
    assert REQUIRED[..|REQUIRED|] == REQUIRED;
    ghost var missing := errors;
    for i := 0 to |nodes|
      invariant forall p :: p in errors <==>
                              || p in missing
                              || (p.UnsafeActionNode? && p.node in nodes[..i] && p.node.kind.UnsafeAction?)
                              || (p.UnsupportedNode? && p.node in nodes[..i] && p.node.kind.OtherType?)
    {
      if nodes[i].kind.UnsafeAction? {
        errors := errors + [UnsafeActionNode(nodes[i])];
      } else if !Supported(nodes[i].kind) {
        errors := errors + [UnsupportedNode(nodes[i])];
      }
    }
    assert nodes[..|nodes|] == nodes;
  }

  method ReportEdges(nodes: seq<Node>, edges: seq<WorkflowEdge>) returns (errors: seq<Problem>)
    ensures forall p :: p in errors <==> (p.UnsupportedEdgeType? || p.UnknownEdgeEndpoint?) && IsProblem(nodes, edges, p)
  {
    errors := [];
    for i := 0 to |edges|
      invariant forall p :: p in errors <==>
                              || (p.UnsupportedEdgeType? && p.edge in edges[..i] && !p.edge.IsWorkflow())
                              || (p.UnknownEdgeEndpoint? && p.edge in edges[..i] && (p.edge.source !in Ids(nodes) || p.edge.target !in Ids(nodes)))
    {
      if !edges[i].IsWorkflow() {
        errors := errors + [UnsupportedEdgeType(edges[i])];
      }
      if edges[i].source !in Ids(nodes) || edges[i].target !in Ids(nodes) {
        errors := errors + [UnknownEdgeEndpoint(edges[i])];
      }
    }
    assert edges[..|edges|] == edges;
  }

  /** Reports exactly the problems the graph has; the graph is valid when there are none. */
  method Validate(nodes: seq<Node>, edges: seq<WorkflowEdge>) returns (errors: seq<Problem>)
    ensures forall p :: p in errors <==> IsProblem(nodes, edges, p)
    ensures errors == [] <==> Valid(nodes, edges)
  {
    hide HasDirectedCycle, RequiredPath, OccursTwice, REQUIRED;
    var repetitions := ReportRepetitions(nodes, edges);
    var nodeErrors := ReportNodes(nodes, edges);
    var edgeErrors := ReportEdges(nodes, edges);
    errors := repetitions + nodeErrors + edgeErrors;
    var cyclic, _ := HasCycle(Ids(nodes), Pairs(edges));
    if cyclic {
      errors := errors + [CycleDetected];
    }
    var complete := HasRequiredSimulationPath(nodes, edges);
    if !complete {
      errors := errors + [RequiredPathMissing];
    }
    assert errors != [] ==> errors[0] in errors;
  }

  // ---------- exactly which graphs are valid ----------

  ghost predicate Valid(nodes: seq<Node>, edges: seq<WorkflowEdge>) {
    forall p :: !IsProblem(nodes, edges, p)
  }

  predicate HasArrow(id: string) {
    exists i :: 0 <= i < |id| - 1 && id[i] == '-' && id[i + 1] == '>'
  }

  ghost predicate ArrowFree(nodes: seq<Node>) {
    forall n :: n in nodes ==> !HasArrow(n.id)
  }

  /** `order` names the one node of each stage: nine distinct, non-empty ids, and no other node. */
  ghost predicate IsLineup(nodes: seq<Node>, order: seq<string>) {
    && |order| == |STAGES| == |nodes|
    && Distinct(order)
    && forall k :: 0 <= k < |order| ==> order[k] != "" && Node(order[k], STAGES[k]) in nodes
  }

  /** The edge leads from an earlier stage to a later one. */
  ghost predicate LeadsForward(order: seq<string>, e: WorkflowEdge) {
    exists a, b :: 0 <= a < b < |order| && e.source == order[a] && e.target == order[b]
  }

  ghost predicate Joined(edges: seq<WorkflowEdge>, source: string, target: string) {
    (source, target) in Pairs(edges)
  }

  ghost predicate EdgesFollow(edges: seq<WorkflowEdge>, order: seq<string>) {
    && Distinct(Pairs(edges))
    && (forall e :: e in edges ==> e.IsWorkflow() && LeadsForward(order, e))
    && (forall k :: 0 <= k < |order| - 1 ==> Joined(edges, order[k], order[k + 1]))
  }

  /** Nine stages in a line, every edge forward, every neighbouring pair joined. */
  ghost predicate IsLinear(nodes: seq<Node>, edges: seq<WorkflowEdge>) {
    exists order :: IsLineup(nodes, order) && EdgesFollow(edges, order)
  }

  /** The first arrow in a key is the separator, when the source has none. */
  lemma KeysAreInjective(s: string, t: string, u: string, v: string)
    requires !HasArrow(s) && !HasArrow(u)
    ensures Key(s, t) == Key(u, v) <==> s == u && t == v
  {
    if Key(s, t) == Key(u, v) {
      SeparatorIsFirst(s, t, u, v);
      SeparatorIsFirst(u, v, s, t);
      assert s == Key(s, t)[..|s|] && u == Key(u, v)[..|u|];
      assert t == Key(s, t)[|s| + 2..] && v == Key(u, v)[|u| + 2..];
    }
  }

  lemma SeparatorIsFirst(s: string, t: string, u: string, v: string)
    requires !HasArrow(s) && Key(s, t) == Key(u, v)
    ensures |s| <= |u|
  {
    var key := Key(s, t);
    assert Key(u, v)[|u|] == '-' && Key(u, v)[|u| + 1] == '>';
    assert forall i :: 0 <= i < |s| ==> key[i] == s[i];
    assert key[|s|] == '-';
  }

  lemma {:induction false} MatchingIsExact(nodes: seq<Node>, kind: NodeType)
    ensures forall n :: n in Matching(nodes, kind) <==> n in nodes && n.kind == kind
    ensures OccursTwice(Kinds(nodes), kind) <==> |Matching(nodes, kind)| >= 2
    ensures kind in Kinds(nodes) <==> |Matching(nodes, kind)| >= 1
  {
    if nodes != [] {
      hide OccursTwice;
      var rest := nodes[1..];
      MatchingIsExact(rest, kind);
      assert nodes == [nodes[0]] + rest;
      assert Kinds(nodes) == [nodes[0].kind] + Kinds(rest);
      TwiceAtFront(nodes[0].kind, Kinds(rest), kind);
    }
  }

  lemma TwiceAtFront<T>(x: T, values: seq<T>, v: T)
    ensures OccursTwice([x] + values, v) <==> OccursTwice(values, v) || (x == v && v in values)
  {
    var all := [x] + values;
    if OccursTwice(all, v) {
      var i, j :| 0 <= i < j < |all| && all[i] == v && all[j] == v;
      assert values[j - 1] == v;
      if i > 0 {
        assert values[i - 1] == v;
      }
    }
    if OccursTwice(values, v) {
      var i, j :| 0 <= i < j < |values| && values[i] == v && values[j] == v;
      assert all[i + 1] == v && all[j + 1] == v;
    }
    if x == v && v in values {
      var i :| 0 <= i < |values| && values[i] == v;
      assert all[0] == v && all[i + 1] == v;
    }
  }

  lemma NoRepetitionIsDistinct<T(!new)>(values: seq<T>)
    ensures Distinct(values) <==> forall v :: !OccursTwice(values, v)
  {
    if forall v :: !OccursTwice(values, v) {
      forall i, j | 0 <= i < j < |values| ensures values[i] != values[j] {
        assert !OccursTwice(values, values[i]);
      }
    }
  }

  function StageOf(kind: NodeType): (k: int)
    ensures Supported(kind) <==> 0 <= k < 9
  {
    match kind
    case ReplaySource => 0
    case BarBuilder => 1
    case StrategyTrigger => 2
    case RiskCheck => 3
    case ApprovalTicket => 4
    case FakeBroker => 5
    case PositionUpdate => 6
    case Alert => 7
    case AuditSink => 8
    case _ => -1
  }

  lemma StagesAreTheSupportedTypes()
    ensures Distinct(STAGES)
    ensures forall kind :: kind in STAGES <==> Supported(kind)
  {
    assert forall k :: 0 <= k < |STAGES| ==> StageOf(STAGES[k]) == k;
    forall kind | Supported(kind) ensures kind in STAGES {
      assert STAGES[StageOf(kind)] == kind;
    }
  }
}
