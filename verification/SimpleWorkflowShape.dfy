/** Exactly which graphs the nine-stage validator accepts. */
module SimpleWorkflowShape {
  import opened Foundations
  import opened GraphSearch
  import opened SimpleWorkflow

  // ---------- what a line-up fixes ----------

  function LineupNodes(order: seq<string>): (r: seq<Node>)
    requires |order| == |STAGES|
    ensures |r| == |order| && forall k :: 0 <= k < |r| ==> r[k] == Node(order[k], STAGES[k])
  {
    seq(|order|, k requires 0 <= k < |order| => Node(order[k], STAGES[k]))
  }

  /** A line-up accounts for every node, and each exactly once. */
  lemma LineupIsAllNodes(nodes: seq<Node>, order: seq<string>)
    requires IsLineup(nodes, order)
    ensures Distinct(nodes)
    ensures forall n :: n in nodes <==> n in LineupNodes(order)
  {
    var line := LineupNodes(order);
    forall i, j | 0 <= i < j < |line| ensures line[i] != line[j] {
      assert order[i] != order[j];
    }
    HoldsExactly(nodes, line);
  }

  /** A node of a line-up is the node of one stage. */
  lemma LineupPlace(nodes: seq<Node>, order: seq<string>, n: Node) returns (a: nat)
    requires IsLineup(nodes, order) && n in nodes
    ensures a < |STAGES| && n == Node(order[a], STAGES[a])
  {
    hide STAGES, Distinct;
    LineupIsAllNodes(nodes, order);
    var line := LineupNodes(order);
    a :| 0 <= a < |line| && line[a] == n;
  }

  lemma LineupNodesDiffer(nodes: seq<Node>, order: seq<string>, i: nat, j: nat)
    requires IsLineup(nodes, order) && i < j < |nodes|
    ensures nodes[i].id != nodes[j].id && nodes[i].kind != nodes[j].kind
  {
    hide STAGES;
    LineupIsAllNodes(nodes, order);
    StagesAreTheSupportedTypes();
    assert nodes[i] in nodes && nodes[j] in nodes && nodes[i] != nodes[j];
    var a := LineupPlace(nodes, order, nodes[i]);
    var b := LineupPlace(nodes, order, nodes[j]);
    assert a != b;
    assert STAGES[a] != STAGES[b] && order[a] != order[b];
  }

  lemma LineupNodeIsListed(nodes: seq<Node>, order: seq<string>, n: Node)
    requires IsLineup(nodes, order) && n in nodes
    ensures Supported(n.kind) && n.id in order
  {
    hide STAGES, Distinct;
    StagesAreTheSupportedTypes();
    var a := LineupPlace(nodes, order, n);
    assert order[a] in order && STAGES[a] in STAGES;
  }

  lemma LineupStageIsThere(nodes: seq<Node>, order: seq<string>, k: nat)
    requires IsLineup(nodes, order) && k < |order|
    ensures order[k] in Ids(nodes) && STAGES[k] in Kinds(nodes)
  {
    hide STAGES, Distinct;
    assert Node(order[k], STAGES[k]) in nodes;
    var i :| 0 <= i < |nodes| && nodes[i] == Node(order[k], STAGES[k]);
    assert Ids(nodes)[i] == order[k] && Kinds(nodes)[i] == STAGES[k];
  }

  lemma LineupIsDistinct(nodes: seq<Node>, order: seq<string>)
    requires IsLineup(nodes, order)
    ensures Distinct(Ids(nodes)) && Distinct(Kinds(nodes))
  {
    hide STAGES, IsLineup;
    forall i, j | 0 <= i < j < |nodes| ensures Ids(nodes)[i] != Ids(nodes)[j] && Kinds(nodes)[i] != Kinds(nodes)[j] {
      LineupNodesDiffer(nodes, order, i, j);
    }
  }

  lemma LineupIdsAreListed(nodes: seq<Node>, order: seq<string>)
    requires IsLineup(nodes, order)
    ensures forall id :: id in Ids(nodes) ==> id in order
  {
    hide STAGES, IsLineup, Supported;
    forall i | 0 <= i < |nodes| ensures Ids(nodes)[i] in order {
      LineupNodeIsListed(nodes, order, nodes[i]);
    }
  }

  lemma LineupHasNoRepetition(nodes: seq<Node>, order: seq<string>)
    requires IsLineup(nodes, order)
    ensures Distinct(Ids(nodes)) && Distinct(Kinds(nodes))
    ensures forall n :: n in nodes ==> Supported(n.kind)
    ensures forall id :: id in Ids(nodes) <==> id in order
    ensures forall k :: 0 <= k < |STAGES| ==> STAGES[k] in Kinds(nodes)
  {
    assert |order| == |STAGES|;
    hide STAGES, IsLineup, Supported, Distinct, Ids, Kinds;
    LineupIsDistinct(nodes, order);
    LineupIdsAreListed(nodes, order);
    forall n | n in nodes ensures Supported(n.kind) {
      LineupNodeIsListed(nodes, order, n);
    }
    forall k | 0 <= k < |order| ensures order[k] in Ids(nodes) && STAGES[k] in Kinds(nodes) {
      LineupStageIsThere(nodes, order, k);
    }
  }

  lemma LineupMatching(nodes: seq<Node>, order: seq<string>, k: nat)
    requires IsLineup(nodes, order) && k < |STAGES|
    ensures Matching(nodes, STAGES[k]) == [Node(order[k], STAGES[k])]
  {
    LineupHasNoRepetition(nodes, order);
    NoRepetitionIsDistinct(Kinds(nodes));
    MatchingIsExact(nodes, STAGES[k]);
    var found := Matching(nodes, STAGES[k]);
    assert Node(order[k], STAGES[k]) in found;
    assert |found| == 1;
  }

  lemma LineupPath(nodes: seq<Node>, edges: seq<WorkflowEdge>, order: seq<string>)
    requires IsLineup(nodes, order)
    requires forall k :: 0 <= k < |order| - 1 ==> KeyPresent(edges, order[k], order[k + 1])
    ensures RequiredPath(nodes, edges)
  {
    forall k | 0 <= k < |STAGES| ensures |Matching(nodes, STAGES[k])| == 1 {
      LineupMatching(nodes, order, k);
    }
    forall k | 0 <= k < |STAGES| - 1 ensures StageJoined(nodes, edges, k) {
      LineupMatching(nodes, order, k);
      LineupMatching(nodes, order, k + 1);
      assert order[k] != "" && order[k + 1] != "";
    }
  }

  /** Along a walk whose edges all lead forward, stages strictly rise. */
  lemma {:induction false} StagesRise(nodes: seq<string>, edges: seq<WorkflowEdge>, order: seq<string>, walk: seq<string>, from: nat)
    requires Distinct(order) && forall e :: e in edges ==> LeadsForward(order, e)
    requires IsWalk(nodes, Pairs(edges), walk) && |walk| >= 2
    requires from < |order| && walk[0] == order[from]
    ensures exists to :: from < to < |order| && walk[|walk| - 1] == order[to]
  {
    assert Joins(nodes, Pairs(edges), walk[0], walk[1]);
    var i :| 0 <= i < |edges| && Pairs(edges)[i] == (walk[0], walk[1]);
    assert LeadsForward(order, edges[i]);
    var a, b :| 0 <= a < b < |order| && edges[i].source == order[a] && edges[i].target == order[b];
    assert a == from;
    if |walk| > 2 {
      var rest := walk[1..];
      forall k | 0 <= k < |rest| - 1 ensures Joins(nodes, Pairs(edges), rest[k], rest[k + 1]) {
        assert rest[k] == walk[k + 1] && rest[k + 1] == walk[k + 2];
      }
      StagesRise(nodes, edges, order, rest, b);
    }
  }

  lemma ForwardIsAcyclic(nodes: seq<string>, edges: seq<WorkflowEdge>, order: seq<string>)
    requires Distinct(order) && forall e :: e in edges ==> LeadsForward(order, e)
    requires forall id :: id in nodes ==> id in order
    ensures !HasDirectedCycle(nodes, Pairs(edges))
  {
    forall walk ensures !IsCycle(nodes, Pairs(edges), walk) {
      if IsCycle(nodes, Pairs(edges), walk) {
        assert Joins(nodes, Pairs(edges), walk[0], walk[1]);
        var from :| 0 <= from < |order| && order[from] == walk[0];
        StagesRise(nodes, edges, order, walk, from);
      }
    }
  }

  /** Everything but the edge keys: a line-up whose edges are workflow edges leading forward. */
  lemma LineupHasNoOtherProblem(nodes: seq<Node>, edges: seq<WorkflowEdge>, order: seq<string>, p: Problem)
    requires IsLineup(nodes, order)
    requires forall e :: e in edges ==> e.IsWorkflow() && LeadsForward(order, e)
    requires forall k :: 0 <= k < |order| - 1 ==> KeyPresent(edges, order[k], order[k + 1])
    requires Distinct(Keys(edges))
    ensures !IsProblem(nodes, edges, p)
  {
    LineupHasNoRepetition(nodes, order);
    NoRepetitionIsDistinct(Ids(nodes));
    NoRepetitionIsDistinct(Kinds(nodes));
    NoRepetitionIsDistinct(Keys(edges));
    match p
    case MissingRequiredNode(kind) =>
      assert STAGES[3] in Kinds(nodes) && STAGES[4] in Kinds(nodes) && STAGES[8] in Kinds(nodes);
    case CycleDetected => ForwardIsAcyclic(Ids(nodes), edges, order);
    case RequiredPathMissing => LineupPath(nodes, edges, order);
    case _ =>
  }

  lemma JoinedHasKey(edges: seq<WorkflowEdge>, source: string, target: string)
    requires Joined(edges, source, target) && forall e :: e in edges ==> e.IsWorkflow()
    ensures KeyPresent(edges, source, target)
  {
    var i :| 0 <= i < |edges| && Pairs(edges)[i] == (source, target);
    assert edges[i] in edges;
  }

  // ---------- edges that share a key ----------

  function Neighbours(order: seq<string>): (r: seq<Edge>)
    ensures |r| == (if order == [] then 0 else |order| - 1)
    ensures forall k :: 0 <= k < |r| ==> r[k] == (order[k], order[k + 1])
  {
    if order == [] then [] else seq(|order| - 1, k requires 0 <= k < |order| - 1 => (order[k], order[k + 1]))
  }

  predicate SharesKey(p: Edge, q: Edge) {
    p != q && Key(p.0, p.1) == Key(q.0, q.1)
  }

  /** Some edge has the key of a different pair: of another edge, or of two neighbouring stages. */
  predicate Clash(edges: seq<WorkflowEdge>, order: seq<string>) {
    exists p, q :: p in Pairs(edges) && q in Pairs(edges) + Neighbours(order) && SharesKey(p, q)
  }

  lemma NoClashTellsApart(edges: seq<WorkflowEdge>, order: seq<string>)
    requires Distinct(Pairs(edges)) && !Clash(edges, order)
    ensures Distinct(Keys(edges))
  {
    var pairs := Pairs(edges);
    forall i, j | 0 <= i < j < |edges| ensures Keys(edges)[i] != Keys(edges)[j] {
      assert pairs[i] in pairs && pairs[j] in pairs + Neighbours(order);
      assert !SharesKey(pairs[i], pairs[j]);
    }
  }

  lemma LinearWithoutClashIsValid(nodes: seq<Node>, edges: seq<WorkflowEdge>, order: seq<string>)
    requires IsLineup(nodes, order) && EdgesFollow(edges, order) && !Clash(edges, order)
    ensures Valid(nodes, edges)
  {
    hide Clash;
    NoClashTellsApart(edges, order);
    forall k | 0 <= k < |order| - 1 ensures KeyPresent(edges, order[k], order[k + 1]) {
      assert Joined(edges, order[k], order[k + 1]);
      JoinedHasKey(edges, order[k], order[k + 1]);
    }
    forall p ensures !IsProblem(nodes, edges, p) {
      LineupHasNoOtherProblem(nodes, edges, order, p);
    }
  }

  lemma ValidKeysDiffer(nodes: seq<Node>, edges: seq<WorkflowEdge>)
    requires Valid(nodes, edges)
    ensures Distinct(Keys(edges))
  {
    forall v ensures !OccursTwice(Keys(edges), v) { assert !IsProblem(nodes, edges, DuplicateEdge(v)); }
    NoRepetitionIsDistinct(Keys(edges));
  }

  lemma DistinctKeysShareNone(edges: seq<WorkflowEdge>, p: Edge, q: Edge)
    requires Distinct(Keys(edges)) && p in Pairs(edges) && q in Pairs(edges)
    ensures !SharesKey(p, q)
  {
    var i :| 0 <= i < |edges| && Pairs(edges)[i] == p;
    var j :| 0 <= j < |edges| && Pairs(edges)[j] == q;
    assert Keys(edges)[i] == Key(p.0, p.1) && Keys(edges)[j] == Key(q.0, q.1);
  }

  lemma ValidAndLinearHasNoClash(nodes: seq<Node>, edges: seq<WorkflowEdge>, order: seq<string>)
    requires Valid(nodes, edges) && EdgesFollow(edges, order)
    ensures !Clash(edges, order)
  {
    ValidKeysDiffer(nodes, edges);
    forall p, q | p in Pairs(edges) && q in Pairs(edges) + Neighbours(order) ensures !SharesKey(p, q) {
      if q in Neighbours(order) {
        var k :| 0 <= k < |Neighbours(order)| && Neighbours(order)[k] == q;
        assert Joined(edges, order[k], order[k + 1]);
      }
      DistinctKeysShareNone(edges, p, q);
    }
  }

  // ---------- what validity fixes ----------

  ghost function OrderOf(nodes: seq<Node>): (r: seq<string>)
    requires forall k :: 0 <= k < |STAGES| ==> |Matching(nodes, STAGES[k])| == 1
    ensures |r| == |STAGES| && forall k :: 0 <= k < |r| ==> r[k] == Matching(nodes, STAGES[k])[0].id
  {
    seq(|STAGES|, k requires 0 <= k < |STAGES| => Matching(nodes, STAGES[k])[0].id)
  }

  lemma ValidHasNineNodes(nodes: seq<Node>, edges: seq<WorkflowEdge>)
    requires Valid(nodes, edges)
    ensures RequiredPath(nodes, edges)
    ensures Distinct(Ids(nodes)) && |nodes| == |STAGES|
    ensures forall n :: n in nodes ==> Supported(n.kind)
  {
    assert !IsProblem(nodes, edges, RequiredPathMissing);
    forall v ensures !OccursTwice(Ids(nodes), v) { assert !IsProblem(nodes, edges, DuplicateNodeId(v)); }
    forall v ensures !OccursTwice(Kinds(nodes), v) { assert !IsProblem(nodes, edges, DuplicateNodeType(v)); }
    NoRepetitionIsDistinct(Ids(nodes));
    NoRepetitionIsDistinct(Kinds(nodes));
    forall n | n in nodes ensures Supported(n.kind) {
      assert !IsProblem(nodes, edges, UnsafeActionNode(n)) && !IsProblem(nodes, edges, UnsupportedNode(n));
    }
    StagesAreTheSupportedTypes();
    forall kind ensures kind in Kinds(nodes) <==> kind in STAGES {
      if kind in Kinds(nodes) {
        var i :| 0 <= i < |nodes| && Kinds(nodes)[i] == kind;
        assert nodes[i] in nodes;
      }
      if kind in STAGES {
        var k :| 0 <= k < |STAGES| && STAGES[k] == kind;
        assert |Matching(nodes, STAGES[k])| == 1;
        MatchingIsExact(nodes, kind);
      }
    }
    DistinctIffFullSize(Kinds(nodes));
    DistinctIffFullSize(STAGES);
    assert Elements(Kinds(nodes)) == Elements(STAGES);
  }

  lemma ValidHasLineup(nodes: seq<Node>, edges: seq<WorkflowEdge>)
    requires Valid(nodes, edges)
    ensures RequiredPath(nodes, edges) && IsLineup(nodes, OrderOf(nodes))
  {
    ValidHasNineNodes(nodes, edges);
    var order := OrderOf(nodes);
    forall k | 0 <= k < |order| ensures order[k] != "" && Node(order[k], STAGES[k]) in nodes {
      MatchingIsExact(nodes, STAGES[k]);
      assert Matching(nodes, STAGES[k])[0] in Matching(nodes, STAGES[k]);
      if k < |STAGES| - 1 {
        assert StageJoined(nodes, edges, k);
      } else {
        assert StageJoined(nodes, edges, k - 1);
      }
    }
    StagesAreTheSupportedTypes();
    forall a, b | 0 <= a < b < |order| ensures order[a] != order[b] {
      var i :| 0 <= i < |nodes| && nodes[i] == Node(order[a], STAGES[a]);
      var j :| 0 <= j < |nodes| && nodes[j] == Node(order[b], STAGES[b]);
      assert STAGES[a] != STAGES[b];
      assert Ids(nodes)[i] == order[a] && Ids(nodes)[j] == order[b];
      assert if i < j then Ids(nodes)[i] != Ids(nodes)[j] else Ids(nodes)[j] != Ids(nodes)[i];
    }
  }

  lemma ValidJoinsNeighbours(nodes: seq<Node>, edges: seq<WorkflowEdge>, k: nat)
    requires Valid(nodes, edges) && RequiredPath(nodes, edges) && k < |STAGES| - 1
    requires !Clash(edges, OrderOf(nodes))
    ensures Joined(edges, OrderOf(nodes)[k], OrderOf(nodes)[k + 1])
  {
    var order := OrderOf(nodes);
    assert StageJoined(nodes, edges, k);
    var e :| e in edges && e.IsWorkflow() && Key(e.source, e.target) == Key(order[k], order[k + 1]);
    var j :| 0 <= j < |edges| && edges[j] == e;
    hide IsProblem, Valid, RequiredPath, STAGES;
    assert Pairs(edges)[j] in Pairs(edges) && Neighbours(order)[k] in Pairs(edges) + Neighbours(order);
    assert !SharesKey(Pairs(edges)[j], Neighbours(order)[k]);
  }

  /** A backward edge would close a cycle through the stages in between. */
  lemma BackwardEdgeClosesCycle(nodes: seq<string>, edges: seq<Edge>, order: seq<string>, a: nat, b: nat)
    requires b <= a < |order| && (order[a], order[b]) in edges
    requires forall k :: 0 <= k < |order| ==> order[k] in nodes
    requires forall k :: 0 <= k < |order| - 1 ==> (order[k], order[k + 1]) in edges
    ensures HasDirectedCycle(nodes, edges)
  {
    var walk := order[b..a + 1] + [order[b]];
    forall k | 0 <= k < |walk| - 1 ensures Joins(nodes, edges, walk[k], walk[k + 1]) {
      if k < a - b {
        assert walk[k] == order[b + k] && walk[k + 1] == order[b + k + 1];
      }
    }
    assert IsCycle(nodes, edges, walk);
  }

  lemma ValidEdgeLeadsForward(nodes: seq<Node>, edges: seq<WorkflowEdge>, order: seq<string>, e: WorkflowEdge)
    requires Valid(nodes, edges) && IsLineup(nodes, order) && e in edges
    requires forall k :: 0 <= k < |order| - 1 ==> Joined(edges, order[k], order[k + 1])
    ensures LeadsForward(order, e)
  {
    assert !IsProblem(nodes, edges, UnknownEdgeEndpoint(e)) && !IsProblem(nodes, edges, CycleDetected);
    LineupHasNoRepetition(nodes, order);
    hide IsProblem, Valid;
    var a :| 0 <= a < |order| && order[a] == e.source;
    var b :| 0 <= b < |order| && order[b] == e.target;
    var j :| 0 <= j < |edges| && edges[j] == e;
    assert Pairs(edges)[j] == (order[a], order[b]);
    if b <= a {
      BackwardEdgeClosesCycle(Ids(nodes), Pairs(edges), order, a, b);
    }
  }

  lemma ValidWithoutClashIsLinear(nodes: seq<Node>, edges: seq<WorkflowEdge>)
    requires Valid(nodes, edges) && RequiredPath(nodes, edges) && !Clash(edges, OrderOf(nodes))
    ensures IsLinear(nodes, edges)
  {
    ValidHasLineup(nodes, edges);
    var order := OrderOf(nodes);
    forall k | 0 <= k < |order| - 1 ensures Joined(edges, order[k], order[k + 1]) {
      ValidJoinsNeighbours(nodes, edges, k);
    }
    forall e | e in edges ensures e.IsWorkflow() && LeadsForward(order, e) {
      assert !IsProblem(nodes, edges, UnsupportedEdgeType(e));
      ValidEdgeLeadsForward(nodes, edges, order, e);
    }
    ValidKeysDiffer(nodes, edges);
    forall i, j | 0 <= i < j < |edges| ensures Pairs(edges)[i] != Pairs(edges)[j] {
      assert Keys(edges)[i] != Keys(edges)[j];
    }
    assert EdgesFollow(edges, order);
  }

  /** A graph has at most one line-up, and the stage order is it. */
  lemma LineupIsOrder(nodes: seq<Node>, order: seq<string>)
    requires IsLineup(nodes, order)
    ensures forall k :: 0 <= k < |STAGES| ==> |Matching(nodes, STAGES[k])| == 1
    ensures OrderOf(nodes) == order
  {
    forall k | 0 <= k < |STAGES| ensures Matching(nodes, STAGES[k]) == [Node(order[k], STAGES[k])] {
      LineupMatching(nodes, order, k);
    }
  }

  /**
    A graph the validator accepts is nine stages in a line exactly when no edge shares its key with a
    different pair.
   */
  lemma ValidIsLinearExactlyWhen(nodes: seq<Node>, edges: seq<WorkflowEdge>)
    requires Valid(nodes, edges)
    ensures RequiredPath(nodes, edges)
    ensures IsLinear(nodes, edges) <==> !Clash(edges, OrderOf(nodes))
  {
    ValidHasNineNodes(nodes, edges);
    hide Clash, EdgesFollow, IsLineup, IsProblem;
    if IsLinear(nodes, edges) {
      var order :| IsLineup(nodes, order) && EdgesFollow(edges, order);
      LineupIsOrder(nodes, order);
      ValidAndLinearHasNoClash(nodes, edges, order);
    }
    if !Clash(edges, OrderOf(nodes)) {
      ValidWithoutClashIsLinear(nodes, edges);
    }
  }

  /**
    A graph that is nine stages in a line is accepted exactly when no edge shares its key with a
    different pair.
   */
  lemma LinearIsValidExactlyWhen(nodes: seq<Node>, edges: seq<WorkflowEdge>, order: seq<string>)
    requires IsLineup(nodes, order) && EdgesFollow(edges, order)
    ensures Valid(nodes, edges) <==> !Clash(edges, order)
  {
    hide Clash, EdgesFollow, IsLineup, Valid;
    if Valid(nodes, edges) {
      ValidAndLinearHasNoClash(nodes, edges, order);
    }
    if !Clash(edges, order) {
      LinearWithoutClashIsValid(nodes, edges, order);
    }
  }

  lemma NoArrowNoClash(nodes: seq<Node>, edges: seq<WorkflowEdge>, order: seq<string>)
    requires ArrowFree(nodes) && IsLineup(nodes, order) && forall e :: e in edges ==> e.source in order
    ensures !Clash(edges, order)
  {
    forall k | 0 <= k < |order| ensures !HasArrow(order[k]) {
      assert Node(order[k], STAGES[k]) in nodes;
    }
    hide STAGES, HasArrow, IsLineup;
    assert forall id :: id in order ==> !HasArrow(id);
    forall p, q | p in Pairs(edges) && q in Pairs(edges) + Neighbours(order) ensures !SharesKey(p, q) {
      SourceIsListed(edges, order, p);
      SourceIsListed(edges, order, q);
      KeysAreInjective(p.0, p.1, q.0, q.1);
    }
  }

  lemma SourceIsListed(edges: seq<WorkflowEdge>, order: seq<string>, p: Edge)
    requires p in Pairs(edges) + Neighbours(order) && forall e :: e in edges ==> e.source in order
    ensures p.0 in order
  {
    if p in Pairs(edges) {
      var i :| 0 <= i < |edges| && Pairs(edges)[i] == p;
      assert edges[i] in edges;
    }
  }

  /**
    With ids that hold no "->" no key can clash, so the validator accepts a graph exactly when it is
    nine stages in a line: one node of each type with distinct non-empty ids, no edge repeated, only
    workflow edges, every edge leading strictly forward, every neighbouring pair joined.
   */
  lemma ValidExactlyWhenLinear(nodes: seq<Node>, edges: seq<WorkflowEdge>)
    requires ArrowFree(nodes)
    ensures Valid(nodes, edges) <==> IsLinear(nodes, edges)
  {
    hide Clash, ArrowFree;
    if Valid(nodes, edges) {
      ValidHasLineup(nodes, edges);
      forall e | e in edges ensures e.source in OrderOf(nodes) {
        assert !IsProblem(nodes, edges, UnknownEdgeEndpoint(e));
        LineupHasNoRepetition(nodes, OrderOf(nodes));
      }
      NoArrowNoClash(nodes, edges, OrderOf(nodes));
      ValidWithoutClashIsLinear(nodes, edges);
    }
    if IsLinear(nodes, edges) {
      var order :| IsLineup(nodes, order) && EdgesFollow(edges, order);
      forall e | e in edges ensures e.source in order {
        assert LeadsForward(order, e);
      }
      NoArrowNoClash(nodes, edges, order);
      LinearWithoutClashIsValid(nodes, edges, order);
    }
  }

  // ---------- the required path is the only topological order ----------

  ghost predicate Before(listing: seq<string>, u: string, v: string) {
    exists a, b :: 0 <= a < b < |listing| && listing[a] == u && listing[b] == v
  }

  lemma {:induction false} NoEarlierThan(listing: seq<string>, order: seq<string>, k: nat, position: nat)
    requires forall i :: 0 <= i < |order| - 1 ==> Before(listing, order[i], order[i + 1])
    requires Distinct(listing) && k < |order| && position < |listing| && listing[position] == order[k]
    ensures position >= k
  {
    if k > 0 {
      assert Before(listing, order[k - 1], order[k - 1 + 1]);
      var a, b :| 0 <= a < b < |listing| && listing[a] == order[k - 1] && listing[b] == order[k];
      NoEarlierThan(listing, order, k - 1, a);
    }
  }

  lemma {:induction false} NoLaterThan(listing: seq<string>, order: seq<string>, k: nat, position: nat)
    requires forall i :: 0 <= i < |order| - 1 ==> Before(listing, order[i], order[i + 1])
    requires Distinct(listing) && |listing| == |order| && k < |order|
    requires position < |listing| && listing[position] == order[k]
    ensures position <= k
    decreases |order| - k
  {
    if k < |order| - 1 {
      assert Before(listing, order[k], order[k + 1]);
      var a, b :| 0 <= a < b < |listing| && listing[a] == order[k] && listing[b] == order[k + 1];
      NoLaterThan(listing, order, k + 1, b);
    }
  }

  /** Any listing of the nine ids that puts every edge's source before its target is the stage order. */
  lemma OnlyTopologicalOrder(edges: seq<WorkflowEdge>, order: seq<string>, listing: seq<string>)
    requires EdgesFollow(edges, order) && |order| == |STAGES|
    requires |listing| == |order| && Distinct(listing)
    requires forall e :: e in edges ==> Before(listing, e.source, e.target)
    ensures listing == order
  {
    forall k | 0 <= k < |order| - 1 ensures Before(listing, order[k], order[k + 1]) {
      assert Joined(edges, order[k], order[k + 1]);
      var j :| 0 <= j < |edges| && Pairs(edges)[j] == (order[k], order[k + 1]);
      assert edges[j] in edges;
    }
    forall k | 0 <= k < |order| ensures listing[k] == order[k] {
      if k < |order| - 1 {
        assert Before(listing, order[k], order[k + 1]);
      } else {
        assert Before(listing, order[k - 1], order[k - 1 + 1]);
      }
      var position :| 0 <= position < |listing| && listing[position] == order[k];
      NoEarlierThan(listing, order, k, position);
      NoLaterThan(listing, order, k, position);
    }
  }

  // ---------- ids that hold the separator ----------

  const COLLIDING_ORDER: seq<string> := ["a", "b->c", "n2", "n3", "n4", "n5", "n6", "a->b", "c"]

  function Chain(order: seq<string>, from: nat): (r: seq<WorkflowEdge>)
    requires 1 <= from <= |order|
    ensures |r| == |order| - from
    ensures forall i :: 0 <= i < |r| ==> r[i] == WorkflowEdge(order[from + i - 1], order[from + i], None)
  {
    seq(|order| - from, i requires 0 <= i < |order| - from => WorkflowEdge(order[from + i - 1], order[from + i], None))
  }

  lemma ChainLeadsForward(order: seq<string>, from: nat)
    requires 1 <= from <= |order|
    ensures forall e :: e in Chain(order, from) ==> e.IsWorkflow() && LeadsForward(order, e)
  {
    var edges := Chain(order, from);
    forall e | e in edges ensures e.IsWorkflow() && LeadsForward(order, e) {
      var i :| 0 <= i < |edges| && edges[i] == e;
      assert e.source == order[from + i - 1] && e.target == order[from + i];
    }
  }

  lemma CollidingIdsAreDistinct()
    ensures Distinct(COLLIDING_ORDER)
  {
    assert forall k :: 2 <= k < 7 ==> COLLIDING_ORDER[k][0] == 'n' && COLLIDING_ORDER[k][1] as int == '0' as int + k;
    assert |COLLIDING_ORDER[0]| == 1 && |COLLIDING_ORDER[1]| == 4 && |COLLIDING_ORDER[7]| == 4 && |COLLIDING_ORDER[8]| == 1;
    assert COLLIDING_ORDER[0][0] == 'a' && COLLIDING_ORDER[8][0] == 'c';
    assert COLLIDING_ORDER[1][0] == 'b' && COLLIDING_ORDER[7][0] == 'a';
  }

  lemma NodesLineUp(order: seq<string>)
    requires |order| == |STAGES| && Distinct(order) && forall k :: 0 <= k < |order| ==> order[k] != ""
    ensures IsLineup(LineupNodes(order), order)
  {
    hide STAGES, Distinct;
    var nodes := LineupNodes(order);
    assert forall k :: 0 <= k < |nodes| ==> nodes[k] in nodes;
  }

  lemma CollidingLineup()
    ensures IsLineup(LineupNodes(COLLIDING_ORDER), COLLIDING_ORDER)
  {
    CollidingIdsAreDistinct();
    assert forall k :: 0 <= k < 9 ==> COLLIDING_ORDER[k] != "";
    hide COLLIDING_ORDER;
    NodesLineUp(COLLIDING_ORDER);
  }

  lemma CollidingGraphLeavesGap()
    ensures !Joined(Chain(COLLIDING_ORDER, 2), COLLIDING_ORDER[0], COLLIDING_ORDER[1])
  {
    CollidingIdsAreDistinct();
    var edges := Chain(COLLIDING_ORDER, 2);
    forall i | 0 <= i < |edges| ensures Pairs(edges)[i] != (COLLIDING_ORDER[0], COLLIDING_ORDER[1]) {
      assert Pairs(edges)[i].0 == COLLIDING_ORDER[i + 1];
    }
  }

  lemma CollidingKeysAreDistinct()
    ensures Distinct(Keys(Chain(COLLIDING_ORDER, 2)))
  {
    var keys := Keys(Chain(COLLIDING_ORDER, 2));
    assert keys[0][0] == 'b';
    assert keys[6][0] == 'a';
    assert forall i :: 1 <= i < 6 ==> keys[i][0] == 'n' && keys[i][1] as int == '1' as int + i;
  }

  lemma CollidingKeysArePresent(k: nat)
    requires k < |COLLIDING_ORDER| - 1
    ensures KeyPresent(Chain(COLLIDING_ORDER, 2), COLLIDING_ORDER[k], COLLIDING_ORDER[k + 1])
  {
    var edges := Chain(COLLIDING_ORDER, 2);
    if k == 0 {
      assert Key("a->b", "c") == Key("a", "b->c");
      assert edges[6] == WorkflowEdge("a->b", "c", None) && edges[6] in edges;
    } else {
      assert edges[k - 1] in edges;
    }
  }

  /**
    Without that condition the acceptance promises less: here the first two stages are not joined,
    yet the graph is valid, because the edge from "a->b" to "c" has the key of "a" to "b->c".
   */
  lemma SeparatorInIdsHidesMissingEdge()
    ensures var nodes, edges := LineupNodes(COLLIDING_ORDER), Chain(COLLIDING_ORDER, 2);
            && Valid(nodes, edges)
            && IsLineup(nodes, COLLIDING_ORDER)
            && !Joined(edges, COLLIDING_ORDER[0], COLLIDING_ORDER[1])
  {
    var order := COLLIDING_ORDER;
    var nodes, edges := LineupNodes(order), Chain(order, 2);
    hide IsProblem, STAGES, Distinct, Keys, Pairs, IsLineup, KeyPresent, Key, LeadsForward;
    CollidingLineup();
    CollidingKeysAreDistinct();
    ChainLeadsForward(order, 2);
    forall k | 0 <= k < |order| - 1 ensures KeyPresent(edges, order[k], order[k + 1]) {
      CollidingKeysArePresent(k);
    }
    forall p ensures !IsProblem(nodes, edges, p) {
      LineupHasNoOtherProblem(nodes, edges, order, p);
    }
    CollidingGraphLeavesGap();
  }

  /** The other way round: the same ids in one complete line, and the graph is refused. */
  lemma SeparatorInIdsRefusesLine()
    ensures var nodes, edges := LineupNodes(COLLIDING_ORDER), Chain(COLLIDING_ORDER, 1);
            IsLinear(nodes, edges) && !Valid(nodes, edges)
  {
    hide IsProblem, Valid;
    var order := COLLIDING_ORDER;
    var nodes, edges := LineupNodes(order), Chain(order, 1);
    CollidingLineup();
    CollidingIdsAreDistinct();
    var pairs := Pairs(edges);
    assert pairs[0] == (order[0], order[1]) && pairs[7] == (order[7], order[8]);
    assert Key("a->b", "c") == Key("a", "b->c");
    assert pairs[0] in pairs && pairs[7] in pairs + Neighbours(order) && SharesKey(pairs[0], pairs[7]);
    ChainFollows(order);
    LinearIsValidExactlyWhen(nodes, edges, order);
  }

  lemma ChainFollows(order: seq<string>)
    requires Distinct(order) && |order| >= 1
    ensures EdgesFollow(Chain(order, 1), order)
  {
    var edges := Chain(order, 1);
    ChainLeadsForward(order, 1);
    forall i, j | 0 <= i < j < |edges| ensures Pairs(edges)[i] != Pairs(edges)[j] {
      assert order[i] != order[j];
    }
    forall k | 0 <= k < |order| - 1 ensures Joined(edges, order[k], order[k + 1]) {
      assert Pairs(edges)[k] == (order[k], order[k + 1]);
    }
  }
}
