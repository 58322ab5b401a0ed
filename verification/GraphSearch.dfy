/**
  The two graph searches of the workflow validators: three-colour depth-first cycle detection, and
  reachability with a growing stack of pending ids.
 */
module GraphSearch {
  import opened Foundations

  type Edge = (string, string)

  // ---------- directed cycles ----------

  /** An edge between two known nodes. */
  ghost predicate Joins(nodes: seq<string>, edges: seq<Edge>, u: string, v: string) {
    u in nodes && v in nodes && (u, v) in edges
  }

  ghost predicate IsWalk(nodes: seq<string>, edges: seq<Edge>, walk: seq<string>) {
    |walk| >= 1 && forall i :: 0 <= i < |walk| - 1 ==> Joins(nodes, edges, walk[i], walk[i + 1])
  }

  ghost predicate IsCycle(nodes: seq<string>, edges: seq<Edge>, walk: seq<string>) {
    IsWalk(nodes, edges, walk) && |walk| >= 2 && walk[0] == walk[|walk| - 1]
  }

  ghost predicate HasDirectedCycle(nodes: seq<string>, edges: seq<Edge>) {
    exists walk :: IsCycle(nodes, edges, walk)
  }

  /** Every node's targets, over the edges between known nodes. */
  ghost predicate IsAdjacency(nodes: seq<string>, edges: seq<Edge>, outgoing: map<string, seq<string>>) {
    && (forall u :: u in outgoing <==> u in nodes)
    && (forall u, v :: u in outgoing ==> (v in outgoing[u] <==> Joins(nodes, edges, u, v)))
  }

  method BuildAdjacency(nodes: seq<string>, edges: seq<Edge>) returns (outgoing: map<string, seq<string>>)
    ensures IsAdjacency(nodes, edges, outgoing)
  {
    outgoing := map[];
    for i := 0 to |nodes|
      invariant forall u :: u in outgoing <==> u in nodes[..i]
      invariant forall u :: u in outgoing ==> outgoing[u] == []
    {
      outgoing := outgoing[nodes[i] := []];
    }
    for i := 0 to |edges|
      invariant forall u :: u in outgoing <==> u in nodes
      invariant forall u, v :: u in outgoing ==> (v in outgoing[u] <==> v in nodes && (u, v) in edges[..i])
    {
      var (source, target) := edges[i];
      assert edges[..i + 1] == edges[..i] + [edges[i]];
      if source in outgoing && target in outgoing {
        outgoing := outgoing[source := outgoing[source] + [target]];
      }
    }
    assert edges[..|edges|] == edges;
  }

  /** `finished` lists the finished nodes so that every edge out of one leads to an earlier one. */
  ghost predicate Ranked(outgoing: map<string, seq<string>>, finished: seq<string>) {
    && Distinct(finished)
    && forall i, v :: 0 <= i < |finished| && finished[i] in outgoing && v in outgoing[finished[i]] ==> v in finished[..i]
  }

  /** Along a walk that starts at a finished node, ranks strictly fall. */
  lemma {:induction false} RankFalls(
    nodes: seq<string>, edges: seq<Edge>, outgoing: map<string, seq<string>>, finished: seq<string>, walk: seq<string>, rank: nat)
    requires IsAdjacency(nodes, edges, outgoing) && Ranked(outgoing, finished) && IsWalk(nodes, edges, walk)
    requires rank < |finished| && finished[rank] == walk[0] && |walk| >= 2
    ensures walk[|walk| - 1] in finished[..rank]
  {
    assert Joins(nodes, edges, walk[0], walk[1]);
    assert walk[1] in outgoing[walk[0]];
    if |walk| > 2 {
      var next :| 0 <= next < rank && finished[next] == walk[1];
      var rest := walk[1..];
      forall i | 0 <= i < |rest| - 1 ensures Joins(nodes, edges, rest[i], rest[i + 1]) {
        assert rest[i] == walk[i + 1] && rest[i + 1] == walk[i + 2];
      }
      RankFalls(nodes, edges, outgoing, finished, rest, next);
      assert finished[..next] == finished[..rank][..next];
    }
  }

  lemma RankedIsAcyclic(nodes: seq<string>, edges: seq<Edge>, outgoing: map<string, seq<string>>, finished: seq<string>)
    requires IsAdjacency(nodes, edges, outgoing) && Ranked(outgoing, finished)
    requires forall u :: u in nodes ==> u in finished
    ensures !HasDirectedCycle(nodes, edges)
  {
    forall walk | IsCycle(nodes, edges, walk) ensures false {
      assert Joins(nodes, edges, walk[0], walk[1]);
      var rank :| 0 <= rank < |finished| && finished[rank] == walk[0];
      RankFalls(nodes, edges, outgoing, finished, walk, rank);
    }
  }

  /** The sets one search shares between its recursive visits. */
  class CycleSearch {
    const nodes: seq<string>
    const edges: seq<Edge>
    const outgoing: map<string, seq<string>>
    var visiting: set<string>
    var visited: set<string>
    /** The visited nodes in the order they were finished, and every node in the order it was expanded. */
    ghost var finished: seq<string>
    ghost var expanded: seq<string>

    ghost predicate Valid()
      reads this
    {
      && IsAdjacency(nodes, edges, outgoing)
      && visiting <= outgoing.Keys && visited <= outgoing.Keys && visiting !! visited
      && Ranked(outgoing, finished) && Elements(finished) == visited
      && Distinct(expanded) && Elements(expanded) == visiting + visited
    }

    constructor (nodes: seq<string>, edges: seq<Edge>, outgoing: map<string, seq<string>>)
      requires IsAdjacency(nodes, edges, outgoing)
      ensures Valid() && visiting == {} && visited == {}
      ensures this.nodes == nodes && this.edges == edges && this.outgoing == outgoing
    {
      this.nodes, this.edges, this.outgoing := nodes, edges, outgoing;
      visiting, visited := {}, {};
      finished, expanded := [], [];
    }

    /** The nodes being visited form a walk, ending at one with an edge to the node about to be visited. */
    ghost predicate OnPath(path: seq<string>, nodeId: string)
      reads this
    {
      Elements(path) == visiting && IsWalk(nodes, edges, path + [nodeId])
    }

    /**
      Either finds a node it is already visiting, which closes a directed cycle, or finishes this node
      and leaves the visiting set as it was.
     */
    method Visit(nodeId: string, ghost path: seq<string>) returns (found: bool)
      requires Valid() && nodeId in outgoing && OnPath(path, nodeId)
      modifies this
      ensures found ==> HasDirectedCycle(nodes, edges) && Distinct(expanded)
      ensures !found ==> Valid() && visiting == old(visiting) && old(visited) <= visited && nodeId in visited
      decreases outgoing.Keys - visiting
    {
      if nodeId in visiting {
        CloseCycle(path, nodeId);
        return true;
      }
      if nodeId in visited {
        return false;
      }
      visiting := visiting + {nodeId};
      expanded := expanded + [nodeId];
      ghost var here := path + [nodeId];
      var targets := outgoing[nodeId];
      for k := 0 to |targets|
        invariant Valid() && visiting == old(visiting) + {nodeId} && old(visited) <= visited
        invariant forall j :: 0 <= j < k ==> targets[j] in visited
      {
        assert Joins(nodes, edges, nodeId, targets[k]) by { assert targets[k] in outgoing[nodeId]; }
        assert OnPath(here, targets[k]) by { ExtendPath(path, nodeId, targets[k]); }
        var closes := Visit(targets[k], here);
        if closes {
          return true;
        }
      }
      FinishKeepsRanked(nodeId);
      visiting := visiting - {nodeId};
      visited := visited + {nodeId};
      finished := finished + [nodeId];
      return false;
    }

    lemma CloseCycle(path: seq<string>, nodeId: string)
      requires IsWalk(nodes, edges, path + [nodeId]) && nodeId in path
      ensures HasDirectedCycle(nodes, edges)
    {
      var i :| 0 <= i < |path| && path[i] == nodeId;
      var whole := path + [nodeId];
      var walk := whole[i..];
      forall k | 0 <= k < |walk| - 1 ensures Joins(nodes, edges, walk[k], walk[k + 1]) {
        assert walk[k] == whole[i + k] && walk[k + 1] == whole[i + k + 1];
      }
      assert IsCycle(nodes, edges, walk);
    }

    lemma ExtendPath(path: seq<string>, nodeId: string, target: string)
      requires IsAdjacency(nodes, edges, outgoing) && IsWalk(nodes, edges, path + [nodeId])
      requires nodeId in outgoing && target in outgoing[nodeId]
      ensures IsWalk(nodes, edges, path + [nodeId] + [target])
      ensures Elements(path + [nodeId]) == Elements(path) + {nodeId}
    {
      var longer := path + [nodeId] + [target];
      forall i | 0 <= i < |longer| - 1 ensures Joins(nodes, edges, longer[i], longer[i + 1]) {
        if i < |path| {
          assert longer[i] == (path + [nodeId])[i] && longer[i + 1] == (path + [nodeId])[i + 1];
        }
      }
    }

    lemma FinishKeepsRanked(nodeId: string)
      requires Valid() && nodeId in visiting && forall v :: v in outgoing[nodeId] ==> v in visited
      ensures Ranked(outgoing, finished + [nodeId]) && Elements(finished + [nodeId]) == visited + {nodeId}
    {
      var longer := finished + [nodeId];
      assert longer[..|finished|] == finished;
      forall i, v | 0 <= i < |longer| && longer[i] in outgoing && v in outgoing[longer[i]] ensures v in longer[..i] {
        if i < |finished| {
          assert longer[..i] == finished[..i];
        } else {
          assert v in Elements(finished);
        }
      }
      assert forall i :: 0 <= i < |finished| ==> finished[i] in Elements(finished);
    }
  }

  /**
    True exactly when the graph on the known nodes has a directed cycle. No node is expanded twice,
    and unless a cycle stops the search every node is expanded once.
   */
  method HasCycle(nodes: seq<string>, edges: seq<Edge>) returns (found: bool, ghost expanded: seq<string>)
    ensures found <==> HasDirectedCycle(nodes, edges)
    ensures Distinct(expanded)
    ensures !found ==> Elements(expanded) == Elements(nodes)
  {
    var outgoing := BuildAdjacency(nodes, edges);
    var search := new CycleSearch(nodes, edges, outgoing);
    for i := 0 to |nodes|
      invariant search.Valid() && search.visiting == {}
      invariant search.nodes == nodes && search.edges == edges && search.outgoing == outgoing
      invariant forall j :: 0 <= j < i ==> nodes[j] in search.visited
    {
      assert [] + [nodes[i]] == [nodes[i]];
      var closes := search.Visit(nodes[i], []);
      if closes {
        return true, search.expanded;
      }
    }
    forall u | u in nodes ensures u in search.finished {
      assert u in Elements(search.finished);
    }
    RankedIsAcyclic(nodes, edges, outgoing, search.finished);
    return false, search.expanded;
  }

  // ---------- reachability ----------

  /** One step along an edge, or against it when `reverse`. */
  ghost predicate Steps(edges: seq<Edge>, reverse: bool, u: string, v: string) {
    if reverse then (v, u) in edges else (u, v) in edges
  }

  /** A trail may start anywhere, but every id it arrives at is non-empty. */
  ghost predicate IsTrail(edges: seq<Edge>, reverse: bool, trail: seq<string>) {
    && |trail| >= 1
    && (forall i :: 0 <= i < |trail| - 1 ==> Steps(edges, reverse, trail[i], trail[i + 1]))
    && (forall i :: 1 <= i < |trail| ==> trail[i] != "")
  }

  ghost predicate TrailJoins(edges: seq<Edge>, reverse: bool, start: string, end: string, trail: seq<string>) {
    IsTrail(edges, reverse, trail) && |trail| >= 2 && trail[0] == start && trail[|trail| - 1] == end
  }

  /** Reachable by one or more edges, through non-empty ids only. */
  ghost predicate Reaches(edges: seq<Edge>, reverse: bool, start: string, end: string) {
    exists trail :: TrailJoins(edges, reverse, start, end, trail)
  }

  ghost predicate IsStepMap(edges: seq<Edge>, reverse: bool, adjacency: map<string, seq<string>>) {
    && (forall u, v :: u in adjacency ==> (v in adjacency[u] <==> Steps(edges, reverse, u, v)))
    && (forall u, v :: u !in adjacency ==> !Steps(edges, reverse, u, v))
  }

  function TargetsOf(adjacency: map<string, seq<string>>, u: string): seq<string> {
    if u in adjacency then adjacency[u] else []
  }

  lemma StepMapGrows(edges: seq<Edge>, e: Edge, reverse: bool, adjacency: map<string, seq<string>>)
    requires IsStepMap(edges, reverse, adjacency)
    ensures var (origin, destination) := if reverse then (e.1, e.0) else e;
            IsStepMap(edges + [e], reverse, adjacency[origin := TargetsOf(adjacency, origin) + [destination]])
  {
    var (origin, destination) := if reverse then (e.1, e.0) else e;
    forall u, v ensures Steps(edges + [e], reverse, u, v) <==> Steps(edges, reverse, u, v) || (u == origin && v == destination) {
      var step := if reverse then (v, u) else (u, v);
      assert step in edges + [e] <==> step in edges || step == e;
    }
  }

  method BuildStepMap(edges: seq<Edge>, reverse: bool) returns (adjacency: map<string, seq<string>>)
    ensures IsStepMap(edges, reverse, adjacency)
  {
    adjacency := map[];
    for i := 0 to |edges|
      invariant IsStepMap(edges[..i], reverse, adjacency)
    {
      assert edges[..i + 1] == edges[..i] + [edges[i]];
      var origin := if reverse then edges[i].1 else edges[i].0;
      var destination := if reverse then edges[i].0 else edges[i].1;
      StepMapGrows(edges[..i], edges[i], reverse, adjacency);
      adjacency := adjacency[origin := TargetsOf(adjacency, origin) + [destination]];
    }
    assert edges[..|edges|] == edges;
  }

  lemma StepReaches(edges: seq<Edge>, reverse: bool, start: string, end: string)
    requires Steps(edges, reverse, start, end) && end != ""
    ensures Reaches(edges, reverse, start, end)
  {
    assert TrailJoins(edges, reverse, start, end, [start, end]);
  }

  lemma ReachesThenSteps(edges: seq<Edge>, reverse: bool, start: string, middle: string, end: string)
    requires Reaches(edges, reverse, start, middle) && Steps(edges, reverse, middle, end) && end != ""
    ensures Reaches(edges, reverse, start, end)
  {
    var trail :| TrailJoins(edges, reverse, start, middle, trail);
    var longer := trail + [end];
    forall i | 0 <= i < |longer| - 1 ensures Steps(edges, reverse, longer[i], longer[i + 1]) {
      if i < |trail| - 1 {
        assert longer[i] == trail[i] && longer[i + 1] == trail[i + 1];
      }
    }
    assert TrailJoins(edges, reverse, start, end, longer);
  }

  /** A set that holds every non-empty step out of the start and out of itself holds all that is reachable. */
  lemma {:induction false} ClosedHoldsTrail(edges: seq<Edge>, reverse: bool, start: string, seen: set<string>, trail: seq<string>)
    requires forall v :: Steps(edges, reverse, start, v) && v != "" ==> v in seen
    requires forall u, v :: u in seen && Steps(edges, reverse, u, v) && v != "" ==> v in seen
    requires IsTrail(edges, reverse, trail) && |trail| >= 2 && trail[0] == start
    ensures trail[|trail| - 1] in seen
  {
    var last := |trail| - 1;
    assert Steps(edges, reverse, trail[last - 1], trail[last]);
    assert trail[last] != "";
    if |trail| > 2 {
      ClosedHoldsTrail(edges, reverse, start, seen, trail[..last]);
      assert trail[..last][last - 1] == trail[last - 1];
    }
  }

  /** Every id the steps can arrive at. */
  ghost function Endpoints(edges: seq<Edge>): set<string> {
    (set e | e in edges :: e.0) + (set e | e in edges :: e.1)
  }

  /** Exactly the non-empty ids reachable by one or more edges; it ends although its stack grows. */
  method Reachable(start: string, edges: seq<Edge>, reverse: bool) returns (seen: set<string>)
    ensures forall id :: id in seen <==> Reaches(edges, reverse, start, id)
  {
    var adjacency := BuildStepMap(edges, reverse);
    seen := {};
    var pending := TargetsOf(adjacency, start);
    ghost var universe := Endpoints(edges);
    forall id | id in pending && id != "" ensures id in universe && Reaches(edges, reverse, start, id) {
      StepReaches(edges, reverse, start, id);
    }
    while |pending| > 0
      invariant seen <= universe && "" !in seen
      invariant forall id :: id in seen ==> Reaches(edges, reverse, start, id)
      invariant forall id :: id in pending ==> id == "" || (id in universe && Reaches(edges, reverse, start, id))
      invariant forall v :: Steps(edges, reverse, start, v) && v != "" ==> v in seen || v in pending
      invariant forall u, v :: u in seen && Steps(edges, reverse, u, v) && v != "" ==> v in seen || v in pending
      decreases universe - seen, |pending|
    {
      var nodeId := pending[|pending| - 1];
      ghost var before := pending;
      pending := pending[..|pending| - 1];
      assert before == pending + [nodeId];
      if nodeId == "" || nodeId in seen {
        continue;
      }
      seen := seen + {nodeId};
      forall v | v in TargetsOf(adjacency, nodeId) && v != "" ensures v in universe && Reaches(edges, reverse, start, v) {
        ReachesThenSteps(edges, reverse, start, nodeId, v);
      }
      pending := pending + TargetsOf(adjacency, nodeId);
    }
    forall id | Reaches(edges, reverse, start, id) ensures id in seen {
      var trail :| TrailJoins(edges, reverse, start, id, trail);
      ClosedHoldsTrail(edges, reverse, start, seen, trail);
    }
  }

  lemma TrailReverses(edges: seq<Edge>, reverse: bool, start: string, end: string)
    requires start != "" && Reaches(edges, reverse, start, end)
    ensures Reaches(edges, !reverse, end, start)
  {
    var trail :| TrailJoins(edges, reverse, start, end, trail);
    var n := |trail|;
    var back := seq(n, i requires 0 <= i < n => trail[n - 1 - i]);
    forall i | 0 <= i < n - 1 ensures Steps(edges, !reverse, back[i], back[i + 1]) {
      var j := n - 2 - i;
      assert back[i] == trail[j + 1] && back[i + 1] == trail[j];
      assert Steps(edges, reverse, trail[j], trail[j + 1]);
    }
    assert TrailJoins(edges, !reverse, end, start, back);
  }

  /** The ancestors of `b` are exactly the ids that have `b` among their descendants. */
  lemma ReachabilityIsDual(edges: seq<Edge>, a: string, b: string)
    requires a != "" && b != ""
    ensures Reaches(edges, true, b, a) <==> Reaches(edges, false, a, b)
  {
    if Reaches(edges, true, b, a) {
      TrailReverses(edges, true, b, a);
    }
    if Reaches(edges, false, a, b) {
      TrailReverses(edges, false, a, b);
    }
  }
}
