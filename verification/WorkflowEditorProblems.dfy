/** What a validator can still find wrong with a graph the editor produced. */
module WorkflowEditorProblems {
  import opened Foundations
  import opened GraphSearch
  import opened SimpleWorkflow
  import opened WorkflowEditor
  import SimpleWorkflowShape

  function GraphNodes(nodes: seq<EditorNode>): (r: seq<Node>)
    ensures |r| == |nodes| && forall i :: 0 <= i < |r| ==> r[i] == Node(nodes[i].id, nodes[i].kind)
  {
    seq(|nodes|, i requires 0 <= i < |nodes| => Node(nodes[i].id, nodes[i].kind))
  }

  function GraphEdges(edges: seq<EditorEdge>): (r: seq<WorkflowEdge>)
    ensures |r| == |edges|
    ensures forall i :: 0 <= i < |r| ==> r[i] == WorkflowEdge(edges[i].source, edges[i].target, Some(edges[i].edgeType))
  {
    seq(|edges|, i requires 0 <= i < |edges| => WorkflowEdge(edges[i].source, edges[i].target, Some(edges[i].edgeType)))
  }

  lemma NodesHaveNoProblem(nodes: seq<EditorNode>, edges: seq<EditorEdge>, p: Problem)
    requires TidyNodes(nodes)
    requires p.DuplicateNodeId? || p.DuplicateNodeType? || p.UnsafeActionNode? || p.UnsupportedNode?
    ensures !IsProblem(GraphNodes(nodes), GraphEdges(edges), p)
  {
    var graph := GraphNodes(nodes);
    forall i, j | 0 <= i < j < |nodes| ensures nodes[i].kind != nodes[j].kind && nodes[i].id != nodes[j].id {
      assert EarlierInCatalogue(nodes[i], nodes[j]);
      assert nodes[i] in nodes && nodes[j] in nodes;
    }
    forall n | n in graph ensures Supported(n.kind) {
      var i :| 0 <= i < |graph| && graph[i] == n;
      assert SafeNode(nodes[i]);
    }
  }

  lemma EdgeEnds(nodes: seq<EditorNode>, e: EditorEdge)
    requires EdgeFits(nodes, e)
    ensures e.edgeType == "workflow"
    ensures e.source in Ids(GraphNodes(nodes)) && e.target in Ids(GraphNodes(nodes))
  {
    var m :| m in nodes && m.id == e.source;
    var n :| n in nodes && n.id == e.target;
    var i :| 0 <= i < |nodes| && nodes[i] == m;
    var j :| 0 <= j < |nodes| && nodes[j] == n;
    assert Ids(GraphNodes(nodes))[i] == e.source && Ids(GraphNodes(nodes))[j] == e.target;
  }

  lemma EdgesHaveNoProblem(nodes: seq<EditorNode>, edges: seq<EditorEdge>, p: Problem)
    requires TidyEdges(nodes, edges) && (p.UnsupportedEdgeType? || p.UnknownEdgeEndpoint?)
    ensures !IsProblem(GraphNodes(nodes), GraphEdges(edges), p)
  {
    hide EdgeFits;
    forall i | 0 <= i < |edges|
      ensures edges[i].edgeType == "workflow"
      ensures edges[i].source in Ids(GraphNodes(nodes)) && edges[i].target in Ids(GraphNodes(nodes))
    {
      EdgeEnds(nodes, edges[i]);
    }
  }

  /**
    Nothing can be wrong with a tidy graph but a missing required node, a cycle, a gap in the required
    path, or two different edges that share their key.
   */
  lemma OnlyFourProblems(s: EditorState, p: Problem)
    requires Tidy(s) && IsProblem(GraphNodes(s.nodes), GraphEdges(s.edges), p)
    ensures p.MissingRequiredNode? || p.CycleDetected? || p.RequiredPathMissing?
            || (p.DuplicateEdge? && !Distinct(Keys(GraphEdges(s.edges))))
  {
    hide IsProblem, TidyNodes, TidyEdges;
    if p.DuplicateNodeId? || p.DuplicateNodeType? || p.UnsafeActionNode? || p.UnsupportedNode? {
      NodesHaveNoProblem(s.nodes, s.edges, p);
    }
    if p.UnsupportedEdgeType? || p.UnknownEdgeEndpoint? {
      EdgesHaveNoProblem(s.nodes, s.edges, p);
    }
    if p.DuplicateEdge? {
      RepeatedKey(GraphNodes(s.nodes), GraphEdges(s.edges), p.key);
    }
  }

  lemma RepeatedKey(nodes: seq<Node>, edges: seq<WorkflowEdge>, key: string)
    ensures IsProblem(nodes, edges, DuplicateEdge(key)) ==> !Distinct(Keys(edges))
  {
  }

  lemma SourceHasNoArrow(nodes: seq<EditorNode>, e: EditorEdge)
    requires NoArrows(nodes) && EdgeFits(nodes, e)
    ensures !HasArrow(e.source)
  {
  }

  lemma NoArrowsKeysDiffer(nodes: seq<EditorNode>, edges: seq<EditorEdge>)
    requires NoArrows(nodes) && TidyEdges(nodes, edges)
    ensures Distinct(Keys(GraphEdges(edges)))
  {
    hide NoArrows, EdgeFits, HasArrow, Key;
    var graph := GraphEdges(edges);
    forall i, j | 0 <= i < j < |edges| ensures Keys(graph)[i] != Keys(graph)[j] {
      SourceHasNoArrow(nodes, edges[i]);
      SourceHasNoArrow(nodes, edges[j]);
      KeysAreInjective(edges[i].source, edges[i].target, edges[j].source, edges[j].target);
      assert !SamePair(edges[i], edges[j]);
    }
  }

  /**
    Whatever edits follow the initial graph, the validator can only report a missing required node, a
    cycle, or a gap in the required path.
   */
  lemma OnlyThreeProblems(edits: seq<Edit>, p: Problem)
    requires var s := Edited(INITIAL, edits); IsProblem(GraphNodes(s.nodes), GraphEdges(s.edges), p)
    ensures p.MissingRequiredNode? || p.CycleDetected? || p.RequiredPathMissing?
  {
    hide IsProblem, NoArrows, Edited, INITIAL, TidyNodes, TidyEdges;
    InitialIsTidy();
    EditsKeepTidy(INITIAL, edits);
    InitialHasNoArrows();
    EditsKeepNoArrows(INITIAL, edits);
    var s := Edited(INITIAL, edits);
    NoArrowsKeysDiffer(s.nodes, s.edges);
    OnlyFourProblems(s, p);
  }

  /** A tidy graph is valid exactly when it has no cycle, its required path is complete, and no two edges share a key. */
  lemma TidyValidExactlyWhen(s: EditorState)
    requires Tidy(s)
    ensures var nodes, edges := GraphNodes(s.nodes), GraphEdges(s.edges);
            Valid(nodes, edges) <==>
              !HasDirectedCycle(Ids(nodes), Pairs(edges)) && RequiredPath(nodes, edges) && Distinct(Keys(edges))
  {
    hide Tidy, RequiredPath, HasDirectedCycle;
    var nodes, edges := GraphNodes(s.nodes), GraphEdges(s.edges);
    if Valid(nodes, edges) {
      assert !IsProblem(nodes, edges, CycleDetected) && !IsProblem(nodes, edges, RequiredPathMissing);
      SimpleWorkflowShape.ValidKeysDiffer(nodes, edges);
    }
    if !HasDirectedCycle(Ids(nodes), Pairs(edges)) && RequiredPath(nodes, edges) && Distinct(Keys(edges)) {
      forall p ensures !IsProblem(nodes, edges, p) {
        if IsProblem(nodes, edges, p) {
          OnlyFourProblems(s, p);
          if p.MissingRequiredNode? {
            PathNeedsNode(nodes, edges, p.kind);
          }
        }
      }
    }
  }

  lemma PathNeedsNode(nodes: seq<Node>, edges: seq<WorkflowEdge>, kind: NodeType)
    requires RequiredPath(nodes, edges) && kind in REQUIRED
    ensures kind in Kinds(nodes)
  {
    hide Matching, Kinds, StageJoined;
    assert STAGES[3] == RiskCheck && STAGES[4] == ApprovalTicket && STAGES[8] == AuditSink;
    assert |Matching(nodes, STAGES[3])| == 1 && |Matching(nodes, STAGES[4])| == 1 && |Matching(nodes, STAGES[8])| == 1;
    MatchingIsExact(nodes, kind);
  }

  // ---------- the initial graph is valid ----------

  function InitialOrder(): (r: seq<string>)
    ensures |r| == |STAGES| && forall k :: 0 <= k < |r| ==> r[k] == TemplateId(STAGES[k])
  {
    seq(|STAGES|, k requires 0 <= k < |STAGES| => TemplateId(STAGES[k]))
  }

  lemma InitialLineup()
    ensures IsLineup(GraphNodes(INITIAL.nodes), InitialOrder())
    ensures ArrowFree(GraphNodes(INITIAL.nodes))
  {
    InitialSizes();
    InitialNodesAreTidy();
    InitialHasNoArrows();
    hide INITIAL, STAGES, TemplateId, TemplatePosition, HasArrow;
    var nodes, order := GraphNodes(INITIAL.nodes), InitialOrder();
    forall k | 0 <= k < |order| ensures nodes[k] == Node(order[k], STAGES[k]) && order[k] != "" && !HasArrow(order[k]) {
      InitialNode(k);
      assert SafeNode(INITIAL.nodes[k]);
    }
    forall i, j | 0 <= i < j < |order| ensures order[i] != order[j] {
      assert TemplateId(STAGES[i]) != TemplateId(STAGES[j]);
    }
  }

  lemma InitialEdgeFollows(k: nat)
    requires k < |INITIAL.edges|
    ensures |INITIAL.edges| == |STAGES| - 1
    ensures var order := InitialOrder();
            && GraphEdges(INITIAL.edges)[k] == WorkflowEdge(order[k], order[k + 1], Some("workflow"))
            && LeadsForward(order, GraphEdges(INITIAL.edges)[k])
  {
    hide INITIAL, STAGES, TemplateId;
    InitialEdge(k);
    var order := InitialOrder();
    var e := GraphEdges(INITIAL.edges)[k];
    assert 0 <= k < k + 1 < |order| && e.source == order[k] && e.target == order[k + 1];
  }

  lemma InitialEdgesFollow()
    ensures EdgesFollow(GraphEdges(INITIAL.edges), InitialOrder())
  {
    hide INITIAL, STAGES, TemplateId, LeadsForward;
    InitialSizes();
    InitialNodesAreTidy();
    var edges, order := GraphEdges(INITIAL.edges), InitialOrder();
    forall e | e in edges ensures e.IsWorkflow() && LeadsForward(order, e) {
      var k :| 0 <= k < |edges| && edges[k] == e;
      InitialEdgeFollows(k);
    }
    forall i, j | 0 <= i < j < |edges| ensures Pairs(edges)[i] != Pairs(edges)[j] {
      InitialEdgeFollows(i);
      InitialEdgeFollows(j);
      assert TemplateId(STAGES[i]) != TemplateId(STAGES[j]);
    }
    forall k | 0 <= k < |order| - 1 ensures Joined(edges, order[k], order[k + 1]) {
      InitialEdgeFollows(k);
      assert Pairs(edges)[k] == (order[k], order[k + 1]);
    }
  }

  /** The editor starts from a valid graph. */
  lemma InitialIsValid()
    ensures Valid(GraphNodes(INITIAL.nodes), GraphEdges(INITIAL.edges))
  {
    hide INITIAL, IsLineup, EdgesFollow, ArrowFree, Valid;
    InitialLineup();
    InitialEdgesFollow();
    assert IsLinear(GraphNodes(INITIAL.nodes), GraphEdges(INITIAL.edges));
    SimpleWorkflowShape.ValidExactlyWhenLinear(GraphNodes(INITIAL.nodes), GraphEdges(INITIAL.edges));
  }
}
