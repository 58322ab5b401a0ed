/** Validity does not depend on the order of the nodes, nor on whether edges spell out their type. */
module SimpleWorkflowReordering {
  import opened Foundations
  import opened GraphSearch
  import opened SimpleWorkflow
  import SimpleWorkflowShape

  ghost predicate SameNodes(a: seq<Node>, b: seq<Node>) {
    |a| == |b| && forall n :: n in a <==> n in b
  }

  ghost predicate SameEdges(a: seq<WorkflowEdge>, b: seq<WorkflowEdge>) {
    && Pairs(a) == Pairs(b)
    && (forall e :: e in a ==> e.IsWorkflow()) && (forall e :: e in b ==> e.IsWorkflow())
  }

  lemma SameIdsAndKinds(a: seq<Node>, b: seq<Node>)
    requires SameNodes(a, b)
    ensures Elements(Ids(a)) == Elements(Ids(b)) && Elements(Kinds(a)) == Elements(Kinds(b))
  {
    IdsWithin(a, b);
    IdsWithin(b, a);
  }

  lemma IdsWithin(a: seq<Node>, b: seq<Node>)
    requires forall n :: n in a ==> n in b
    ensures forall id :: id in Ids(a) ==> id in Ids(b)
    ensures forall kind :: kind in Kinds(a) ==> kind in Kinds(b)
  {
    forall i | 0 <= i < |a| ensures Ids(a)[i] in Ids(b) && Kinds(a)[i] in Kinds(b) {
      assert a[i] in b;
      var j :| 0 <= j < |b| && b[j] == a[i];
      assert Ids(b)[j] == Ids(a)[i] && Kinds(b)[j] == Kinds(a)[i];
    }
  }

  lemma ReorderedStayDistinct(a: seq<Node>, b: seq<Node>)
    requires SameNodes(a, b) && Distinct(Ids(a)) && Distinct(Kinds(a))
    ensures Distinct(Ids(b)) && Distinct(Kinds(b))
  {
    SameIdsAndKinds(a, b);
    DistinctIffFullSize(Ids(a));
    DistinctIffFullSize(Ids(b));
    DistinctIffFullSize(Kinds(a));
    DistinctIffFullSize(Kinds(b));
  }

  lemma ReorderedMatching(a: seq<Node>, b: seq<Node>, kind: NodeType)
    requires SameNodes(a, b) && Distinct(Kinds(b)) && |Matching(a, kind)| == 1
    ensures |Matching(b, kind)| == 1 && Matching(b, kind)[0] == Matching(a, kind)[0]
  {
    hide Matching, OccursTwice, Distinct, Kinds;
    MatchingIsExact(a, kind);
    MatchingIsExact(b, kind);
    NoRepetitionIsDistinct(Kinds(b));
    assert Matching(a, kind)[0] in Matching(a, kind);
    assert Matching(a, kind)[0] in Matching(b, kind);
  }

  lemma SameKeyPresent(a: seq<WorkflowEdge>, b: seq<WorkflowEdge>, source: string, target: string)
    requires SameEdges(a, b) && KeyPresent(a, source, target)
    ensures KeyPresent(b, source, target)
  {
    var e :| e in a && e.IsWorkflow() && Key(e.source, e.target) == Key(source, target);
    var i :| 0 <= i < |a| && a[i] == e;
    assert Pairs(a)[i] == Pairs(b)[i] && b[i] in b;
  }

  lemma ReorderedPath(a: seq<Node>, b: seq<Node>, edges: seq<WorkflowEdge>, edges': seq<WorkflowEdge>)
    requires SameNodes(a, b) && SameEdges(edges, edges') && Distinct(Kinds(b)) && RequiredPath(a, edges)
    ensures RequiredPath(b, edges')
  {
    hide STAGES, Matching, Key, KeyPresent;
    forall k | 0 <= k < |STAGES|
      ensures |Matching(b, STAGES[k])| == 1 && Matching(b, STAGES[k])[0] == Matching(a, STAGES[k])[0]
    {
      ReorderedMatching(a, b, STAGES[k]);
    }
    forall k | 0 <= k < |STAGES| - 1 ensures StageJoined(b, edges', k) {
      assert |Matching(b, STAGES[k + 1])| == 1 && StageJoined(a, edges, k);
      SameKeyPresent(edges, edges', Matching(a, STAGES[k])[0].id, Matching(a, STAGES[k + 1])[0].id);
    }
  }

  lemma ReorderedCycle(a: seq<string>, b: seq<string>, edges: seq<Edge>)
    requires Elements(a) == Elements(b) && HasDirectedCycle(a, edges)
    ensures HasDirectedCycle(b, edges)
  {
    assert forall id :: id in a <==> id in Elements(a);
    assert forall id :: id in b <==> id in Elements(b);
    var walk :| IsCycle(a, edges, walk);
    forall k | 0 <= k < |walk| - 1 ensures Joins(b, edges, walk[k], walk[k + 1]) {
      assert Joins(a, edges, walk[k], walk[k + 1]);
    }
    assert IsCycle(b, edges, walk);
  }

  lemma ReorderedHasNoProblem(a: seq<Node>, b: seq<Node>, edges: seq<WorkflowEdge>, edges': seq<WorkflowEdge>, p: Problem)
    requires SameNodes(a, b) && SameEdges(edges, edges') && Distinct(Ids(b)) && Distinct(Kinds(b))
    requires !p.RequiredPathMissing? && !p.CycleDetected?
    requires Valid(a, edges)
    ensures !IsProblem(b, edges', p)
  {
    NoRepetitionIsDistinct(Ids(b));
    NoRepetitionIsDistinct(Kinds(b));
    SameIdsAndKinds(a, b);
    assert !IsProblem(a, edges, p);
    match p
    case DuplicateEdge(key) =>
      assert Keys(edges) == Keys(edges') by {
        forall i | 0 <= i < |edges| ensures i < |edges'| && Keys(edges)[i] == Keys(edges')[i] {
          assert Pairs(edges)[i] == Pairs(edges')[i];
        }
        assert |Pairs(edges)| == |Pairs(edges')|;
      }
    case UnknownEdgeEndpoint(e) => EndpointsKnown(a, b, edges, edges', e);
    case MissingRequiredNode(kind) => assert kind in Elements(Kinds(a)) <==> kind in Elements(Kinds(b));
    case _ =>
  }

  lemma EndpointsKnown(a: seq<Node>, b: seq<Node>, edges: seq<WorkflowEdge>, edges': seq<WorkflowEdge>, e: WorkflowEdge)
    requires SameNodes(a, b) && SameEdges(edges, edges') && Valid(a, edges)
    ensures !IsProblem(b, edges', UnknownEdgeEndpoint(e))
  {
    IdsWithin(a, b);
    if e in edges' {
      var i :| 0 <= i < |edges'| && edges'[i] == e;
      assert Pairs(edges)[i] == Pairs(edges')[i];
      assert edges[i] in edges && !IsProblem(a, edges, UnknownEdgeEndpoint(edges[i]));
    }
  }

  /** A valid graph stays valid when its nodes are listed in another order and its edges drop or spell out their type. */
  lemma ReorderedStaysValid(a: seq<Node>, b: seq<Node>, edges: seq<WorkflowEdge>, edges': seq<WorkflowEdge>)
    requires SameNodes(a, b) && SameEdges(edges, edges') && Valid(a, edges)
    ensures Valid(b, edges')
  {
    SimpleWorkflowShape.ValidHasNineNodes(a, edges);
    forall kind ensures !OccursTwice(Kinds(a), kind) {
      assert !IsProblem(a, edges, DuplicateNodeType(kind));
    }
    assert !IsProblem(a, edges, CycleDetected);
    NoRepetitionIsDistinct(Kinds(a));
    ReorderedStayDistinct(a, b);
    ReorderedPath(a, b, edges, edges');
    SameIdsAndKinds(a, b);
    hide HasDirectedCycle, SameNodes, SameEdges, RequiredPath;
    assert !HasDirectedCycle(Ids(b), Pairs(edges')) by {
      if HasDirectedCycle(Ids(b), Pairs(edges')) {
        assert Pairs(edges) == Pairs(edges') by { EdgesPair(edges, edges'); }
        ReorderedCycle(Ids(b), Ids(a), Pairs(edges'));
      }
    }
    forall p ensures !IsProblem(b, edges', p) {
      if !p.RequiredPathMissing? && !p.CycleDetected? {
        ReorderedHasNoProblem(a, b, edges, edges', p);
      }
    }
  }

  lemma EdgesPair(a: seq<WorkflowEdge>, b: seq<WorkflowEdge>)
    requires SameEdges(a, b)
    ensures Pairs(a) == Pairs(b)
  {
  }
}
