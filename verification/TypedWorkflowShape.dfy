/** Exactly which graphs the typed validator accepts. */
module TypedWorkflowShape {
  import opened Foundations
  import opened GraphSearch
  import opened TypedWorkflow
  import opened TypedWorkflowTables

  // ---------- the template under a naming ----------

  /** `names` gives each required type the id of its one node, and there is no other node. */
  ghost predicate IsNaming(nodes: seq<Node>, names: seq<string>) {
    && |names| == |REQUIRED| == |nodes|
    && Distinct(names)
    && forall k :: 0 <= k < |names| ==> Node(names[k], REQUIRED[k]) in nodes
  }

  ghost function NameOf(names: seq<string>, kind: NodeType): string
    requires |names| == |REQUIRED| && PlaceOf(kind) >= 0
  {
    PlaceIsRightInverse(kind);
    names[PlaceOf(kind)]
  }

  /** The supported connection `k`, between the nodes so named. */
  ghost function Named(names: seq<string>, k: nat): Connection
    requires |names| == |REQUIRED| && k < WIRE_COUNT
  {
    WiresLeadUp(k);
    var w := SupportedWire(k);
    Connection(NameOf(names, w.from), Some(w.output), NameOf(names, w.to), Some(w.input))
  }

  /** The graph has exactly the supported connections, once each. */
  ghost predicate IsWired(edges: seq<Connection>, names: seq<string>)
    requires |names| == |REQUIRED|
  {
    |edges| == WIRE_COUNT && forall k :: 0 <= k < WIRE_COUNT ==> Named(names, k) in edges
  }

  /** The safety nodes around the fake broker have non-empty ids. */
  ghost predicate SafetyNamed(names: seq<string>)
    requires |names| == |REQUIRED|
  {
    forall kind :: PlaceOf(kind) >= 0 && (kind in UPSTREAM || kind in DOWNSTREAM) ==> NameOf(names, kind) != ""
  }

  /** A relabelling of the opening-breakout template whose safety nodes have non-empty ids. */
  ghost predicate IsTemplate(nodes: seq<Node>, edges: seq<Connection>) {
    exists names :: IsNaming(nodes, names) && IsWired(edges, names) && SafetyNamed(names)
  }

  function NamedNodes(names: seq<string>): (r: seq<Node>)
    requires |names| == |REQUIRED|
    ensures |r| == |names| && forall k :: 0 <= k < |r| ==> r[k] == Node(names[k], REQUIRED[k])
  {
    seq(|names|, k requires 0 <= k < |names| => Node(names[k], REQUIRED[k]))
  }

  lemma NamingIsAllNodes(nodes: seq<Node>, names: seq<string>)
    requires IsNaming(nodes, names)
    ensures Distinct(nodes)
    ensures forall n :: n in nodes ==> PlaceOf(n.kind) >= 0 && n.id == NameOf(names, n.kind)
  {
    hide REQUIRED, PlaceOf;
    var all := NamedNodes(names);
    forall i, j | 0 <= i < j < |all| ensures all[i] != all[j] {
      assert names[i] != names[j];
    }
    HoldsExactly(nodes, all);
    forall n | n in nodes ensures PlaceOf(n.kind) >= 0 && n.id == NameOf(names, n.kind) {
      var k :| 0 <= k < |all| && all[k] == n;
      PlaceIsLeftInverse(k);
    }
  }

  lemma NamedNodeIsThere(nodes: seq<Node>, names: seq<string>, kind: NodeType)
    requires IsNaming(nodes, names) && PlaceOf(kind) >= 0
    ensures Node(NameOf(names, kind), kind) in nodes
  {
    hide REQUIRED, PlaceOf;
    PlaceIsRightInverse(kind);
  }

  lemma NamesTellTypesApart(names: seq<string>, a: NodeType, b: NodeType)
    requires |names| == |REQUIRED| && Distinct(names) && PlaceOf(a) >= 0 && PlaceOf(b) >= 0
    ensures NameOf(names, a) == NameOf(names, b) <==> a == b
  {
    hide REQUIRED, PlaceOf;
    PlaceIsRightInverse(a);
    PlaceIsRightInverse(b);
  }

  lemma {:induction false} KindOfFindsNode(nodes: seq<Node>, id: string)
    ensures KindOf(nodes, id).Some? ==> Node(id, KindOf(nodes, id).value) in nodes
    ensures KindOf(nodes, id).None? ==> id !in Ids(nodes)
  {
    if nodes != [] {
      var front, last := nodes[..|nodes| - 1], nodes[|nodes| - 1];
      KindOfFindsNode(front, id);
      assert nodes == front + [last];
      assert Ids(nodes) == Ids(front) + [last.id];
      hide Ids;
    }
  }

  lemma NamedKind(nodes: seq<Node>, names: seq<string>, kind: NodeType)
    requires IsNaming(nodes, names) && PlaceOf(kind) >= 0
    ensures KindOf(nodes, NameOf(names, kind)) == Some(kind)
  {
    hide REQUIRED, PlaceOf;
    var id := NameOf(names, kind);
    NamedNodeIsThere(nodes, names, kind);
    KindOfFindsNode(nodes, id);
    var i :| 0 <= i < |nodes| && nodes[i] == Node(id, kind);
    assert Ids(nodes)[i] == id;
    NamingIsAllNodes(nodes, names);
    NamesTellTypesApart(names, kind, KindOf(nodes, id).value);
  }

  lemma NamedKey(nodes: seq<Node>, names: seq<string>, k: nat)
    requires IsNaming(nodes, names) && k < WIRE_COUNT
    ensures KeyOf(nodes, Named(names, k)) == KeyOfWire(SupportedWire(k))
  {
    hide REQUIRED, PlaceOf, SupportedWire;
    WiresLeadUp(k);
    NamedKind(nodes, names, SupportedWire(k).from);
    NamedKind(nodes, names, SupportedWire(k).to);
  }

  // ---------- the template passes every check ----------

  ghost function NamedWiring(names: seq<string>): (r: seq<Connection>)
    requires |names| == |REQUIRED|
    ensures |r| == WIRE_COUNT && forall k :: 0 <= k < |r| ==> r[k] == Named(names, k)
  {
    seq(WIRE_COUNT, k requires 0 <= k < WIRE_COUNT => Named(names, k))
  }

  lemma WiresHaveDistinctInputs(names: seq<string>, j: nat, k: nat)
    requires |names| == |REQUIRED| && Distinct(names) && j < WIRE_COUNT && k < WIRE_COUNT
    ensures Named(names, j).target == Named(names, k).target && Named(names, j).targetPort == Named(names, k).targetPort ==> j == k
  {
    hide REQUIRED, PlaceOf, SupportedWire, WireInto;
    WiresLeadUp(j);
    WiresLeadUp(k);
    NamesTellTypesApart(names, SupportedWire(j).to, SupportedWire(k).to);
    WiresAreByInput(j);
    WiresAreByInput(k);
  }

  ghost predicate IsNamedWire(names: seq<string>, e: Connection)
    requires |names| == |REQUIRED|
  {
    exists k :: 0 <= k < WIRE_COUNT && e == Named(names, k)
  }

  /** The connections of a wired graph are the named wires, each once. */
  lemma WiredIsExact(edges: seq<Connection>, names: seq<string>)
    requires |names| == |REQUIRED| && Distinct(names) && IsWired(edges, names)
    ensures Distinct(edges)
    ensures forall e :: e in edges ==> IsNamedWire(names, e)
  {
    hide REQUIRED, PlaceOf, SupportedWire;
    var wiring := NamedWiring(names);
    forall j, k | 0 <= j < k < |wiring| ensures wiring[j] != wiring[k] {
      WiresHaveDistinctInputs(names, j, k);
    }
    HoldsExactly(edges, wiring);
  }

  lemma NamedWireFits(nodes: seq<Node>, names: seq<string>, k: nat)
    requires IsNaming(nodes, names) && k < WIRE_COUNT
    ensures OutputType(nodes, Named(names, k)) == InputType(nodes, Named(names, k)) == Some(WireType(k))
    ensures KindOf(nodes, Named(names, k).source).Some? && KindOf(nodes, Named(names, k).target).Some?
  {
    hide REQUIRED, PlaceOf, SupportedWire, WireType, InputOf, OutputOf;
    NamedKey(nodes, names, k);
    WiresFitOutput(k);
    WiresFitInput(k);
  }

  lemma {:induction false} AllAccepted(nodes: seq<Node>, names: seq<string>, edges: seq<Connection>)
    requires IsNaming(nodes, names) && Distinct(edges)
    requires forall e :: e in edges ==> IsNamedWire(names, e)
    ensures Accepted(nodes, edges) == edges
  {
    hide REQUIRED, PlaceOf, SupportedWire, OutputType, InputType, Named, WireType;
    if edges != [] {
      var front, last := edges[..|edges| - 1], edges[|edges| - 1];
      assert edges == front + [last];
      forall i, j | 0 <= i < j < |front| ensures front[i] != front[j] {
        assert front[i] == edges[i] && front[j] == edges[j];
      }
      assert forall e :: e in front ==> e in edges;
      AllAccepted(nodes, names, front);
      assert last in edges && IsNamedWire(names, last);
      var k :| 0 <= k < WIRE_COUNT && last == Named(names, k);
      NamedWireFits(nodes, names, k);
      forall a | a in front ensures !(a.target == last.target && a.targetPort == last.targetPort) {
        assert a in edges && IsNamedWire(names, a);
        var j :| 0 <= j < WIRE_COUNT && a == Named(names, j);
        WiresHaveDistinctInputs(names, j, k);
        var i :| 0 <= i < |front| && front[i] == a;
        assert edges[i] != edges[|edges| - 1];
      }
    }
  }

  lemma PrefixesAccepted(nodes: seq<Node>, names: seq<string>, edges: seq<Connection>, i: nat)
    requires IsNaming(nodes, names) && IsWired(edges, names) && i < |edges|
    ensures FaultOf(nodes, Accepted(nodes, edges[..i]), edges[i]).None?
  {
    hide REQUIRED, PlaceOf, SupportedWire, FaultOf, Named, IsNamedWire;
    WiredIsExact(edges, names);
    var longer := edges[..i + 1];
    assert longer[..i] == edges[..i];
    assert forall e :: e in longer || e in edges[..i] ==> e in edges;
    AllAccepted(nodes, names, longer);
    AllAccepted(nodes, names, edges[..i]);
  }

  /** Places rise along every connection of the template. */
  lemma {:induction false} PlacesRise(nodes: seq<Node>, names: seq<string>, edges: seq<Connection>, walk: seq<string>, from: nat)
    requires IsNaming(nodes, names) && IsWired(edges, names)
    requires IsWalk(Ids(nodes), Pairs(edges), walk) && |walk| >= 2
    requires from < |names| && walk[0] == names[from]
    ensures exists to :: from < to < |names| && walk[|walk| - 1] == names[to]
  {
    hide REQUIRED, PlaceOf, SupportedWire;
    assert Joins(Ids(nodes), Pairs(edges), walk[0], walk[1]);
    var i :| 0 <= i < |edges| && Pairs(edges)[i] == (walk[0], walk[1]);
    assert edges[i] in edges;
    WiredIsExact(edges, names);
    var k :| 0 <= k < WIRE_COUNT && edges[i] == Named(names, k);
    WiresLeadUp(k);
    var a, b := PlaceOf(SupportedWire(k).from), PlaceOf(SupportedWire(k).to);
    PlaceIsRightInverse(SupportedWire(k).from);
    PlaceIsRightInverse(SupportedWire(k).to);
    assert names[a] == walk[0] && a == from;
    assert names[b] == walk[1];
    if |walk| > 2 {
      var rest := walk[1..];
      forall j | 0 <= j < |rest| - 1 ensures Joins(Ids(nodes), Pairs(edges), rest[j], rest[j + 1]) {
        assert rest[j] == walk[j + 1] && rest[j + 1] == walk[j + 2];
      }
      PlacesRise(nodes, names, edges, rest, b);
    }
  }

  lemma TemplateIsAcyclic(nodes: seq<Node>, names: seq<string>, edges: seq<Connection>)
    requires IsNaming(nodes, names) && IsWired(edges, names)
    ensures !HasDirectedCycle(Ids(nodes), Pairs(edges))
  {
    hide REQUIRED, PlaceOf, SupportedWire, Named;
    forall walk ensures !IsCycle(Ids(nodes), Pairs(edges), walk) {
      if IsCycle(Ids(nodes), Pairs(edges), walk) {
        assert Joins(Ids(nodes), Pairs(edges), walk[0], walk[1]);
        var i :| 0 <= i < |nodes| && Ids(nodes)[i] == walk[0];
        NamingIsAllNodes(nodes, names);
        assert nodes[i] in nodes;
        PlaceIsRightInverse(nodes[i].kind);
        PlacesRise(nodes, names, edges, walk, PlaceOf(nodes[i].kind));
      }
    }
  }

  lemma WireSteps(names: seq<string>, edges: seq<Connection>, k: nat, reverse: bool)
    requires |names| == |REQUIRED| && IsWired(edges, names) && k < WIRE_COUNT
    ensures var w := Named(names, k);
            if reverse then Steps(Pairs(edges), true, w.target, w.source) else Steps(Pairs(edges), false, w.source, w.target)
  {
    hide REQUIRED, PlaceOf, SupportedWire, Named;
    var i :| 0 <= i < |edges| && edges[i] == Named(names, k);
    assert Pairs(edges)[i] == (edges[i].source, edges[i].target);
  }

  /** The wires of the plan, from the fake broker back through every safety node. */
  function PlanWire(i: nat): nat
    requires i < 10
    ensures PlanWire(i) < WIRE_COUNT
  {
    match i
    case 0 => 29
    case 1 => 16
    case 2 => 14
    case 3 => 7
    case 4 => 1
    case 5 => 6
    case 6 => 17
    case 7 => 28
    case 8 => 18
    case _ => 10
  }

  /** The safety types in the order the plan passes them, last first. */
  function PlanType(i: nat): NodeType
    requires i <= 10
    ensures PlaceOf(PlanType(i)) >= 0
  {
    match i
    case 0 => FakeBroker
    case 1 => StopMarketEntry
    case 2 => ProtectiveStop
    case 3 => PositionLifetime
    case 4 => EntryLifetime
    case 5 => ArmedRunAuthorization
    case 6 => EmergencyStopGate
    case 7 => ReconciliationGate
    case 8 => StaleDataGate
    case 9 => RiskGate
    case _ => LongRiskSize
  }

  lemma BrokerComesLast()
    ensures PlanType(0) == FakeBroker
  {
  }

  lemma PlanWireLeadsTo(i: nat)
    requires i < 10
    ensures SupportedWire(PlanWire(i)).to == PlanType(i)
  {
    hide PlaceOf;
  }

  lemma PlanWireComesFrom(i: nat)
    requires i < 10
    ensures SupportedWire(PlanWire(i)).from == PlanType(i + 1)
  {
    hide PlaceOf;
  }

  lemma PlanWirePorts(i: nat)
    requires i < 10
    ensures SupportedWire(PlanWire(i)).output == PlanPort && SupportedWire(PlanWire(i)).input == PlanPort
  {
    hide PlaceOf;
  }

  lemma PlanWireJoins(i: nat)
    requires i < 10
    ensures SupportedWire(PlanWire(i)).to == PlanType(i) && SupportedWire(PlanWire(i)).from == PlanType(i + 1)
    ensures SupportedWire(PlanWire(i)).output == PlanPort && SupportedWire(PlanWire(i)).input == PlanPort
  {
    hide PlaceOf, SupportedWire, PlanWire, PlanType;
    PlanWireLeadsTo(i);
    PlanWireComesFrom(i);
    PlanWirePorts(i);
  }

  lemma UpstreamIsThePlan(kind: NodeType)
    requires kind in UPSTREAM
    ensures exists i :: 1 <= i <= 10 && PlanType(i) == kind
  {
    hide PlaceOf;
    match kind
    case StopMarketEntry => assert PlanType(1) == kind;
    case ProtectiveStop => assert PlanType(2) == kind;
    case PositionLifetime => assert PlanType(3) == kind;
    case EntryLifetime => assert PlanType(4) == kind;
    case ArmedRunAuthorization => assert PlanType(5) == kind;
    case EmergencyStopGate => assert PlanType(6) == kind;
    case ReconciliationGate => assert PlanType(7) == kind;
    case StaleDataGate => assert PlanType(8) == kind;
    case RiskGate => assert PlanType(9) == kind;
    case LongRiskSize => assert PlanType(10) == kind;
    case _ =>
  }

  lemma PlanTypesAreUpstream(i: nat)
    requires 1 <= i <= 10
    ensures PlanType(i) in UPSTREAM
  {
    assert UPSTREAM[10 - i] == PlanType(i);
  }

  lemma PlanStepsBack(names: seq<string>, edges: seq<Connection>, i: nat)
    requires |names| == |REQUIRED| && IsWired(edges, names) && SafetyNamed(names) && i < 10
    ensures Steps(Pairs(edges), true, NameOf(names, PlanType(i)), NameOf(names, PlanType(i + 1)))
    ensures NameOf(names, PlanType(i + 1)) != ""
  {
    hide REQUIRED, SupportedWire, UPSTREAM, DOWNSTREAM, PlaceOf, PlanWire, PlanType, IsWired, Steps;
    PlanWireJoins(i);
    PlanTypesAreUpstream(i + 1);
    WireSteps(names, edges, PlanWire(i), true);
  }

  /** Following `plan` ports back from the fake broker passes every safety node. */
  lemma {:induction false} PlanReachesBack(names: seq<string>, edges: seq<Connection>, i: nat)
    requires |names| == |REQUIRED| && IsWired(edges, names) && SafetyNamed(names) && 1 <= i <= 10
    ensures Reaches(Pairs(edges), true, NameOf(names, PlanType(0)), NameOf(names, PlanType(i)))
  {
    hide REQUIRED, UPSTREAM, DOWNSTREAM, PlaceOf, PlanType, IsWired, SafetyNamed, NameOf, Steps, Reaches;
    PlanStepsBack(names, edges, i - 1);
    if i == 1 {
      StepReaches(Pairs(edges), true, NameOf(names, PlanType(0)), NameOf(names, PlanType(1)));
    } else {
      PlanReachesBack(names, edges, i - 1);
      ReachesThenSteps(Pairs(edges), true, NameOf(names, PlanType(0)), NameOf(names, PlanType(i - 1)), NameOf(names, PlanType(i)));
    }
  }

  function ReportWire(i: nat): nat
    requires i < 3
    ensures ReportWire(i) < WIRE_COUNT
  {
    if i == 0 then 8 else if i == 1 then 15 else 0
  }

  function ReportType(i: nat): NodeType
    requires i <= 3
    ensures PlaceOf(ReportType(i)) >= 0
    ensures i >= 1 ==> ReportType(i) in DOWNSTREAM
  {
    assert DOWNSTREAM[0] == PositionMonitor && DOWNSTREAM[1] == Alert && DOWNSTREAM[2] == AuditSink;
    if i == 0 then FakeBroker else if i == 1 then PositionMonitor else if i == 2 then Alert else AuditSink
  }

  lemma ReportWireJoins(i: nat)
    requires i < 3
    ensures SupportedWire(ReportWire(i)).from == ReportType(i) && SupportedWire(ReportWire(i)).to == ReportType(i + 1)
  {
  }

  lemma {:induction false} ReportReachesOn(names: seq<string>, edges: seq<Connection>, i: nat)
    requires |names| == |REQUIRED| && IsWired(edges, names) && SafetyNamed(names) && 1 <= i <= 3
    ensures Reaches(Pairs(edges), false, NameOf(names, FakeBroker), NameOf(names, ReportType(i)))
  {
    hide REQUIRED, SupportedWire, UPSTREAM, DOWNSTREAM;
    ReportWireJoins(i - 1);
    WireSteps(names, edges, ReportWire(i - 1), false);
    if i == 1 {
      StepReaches(Pairs(edges), false, NameOf(names, FakeBroker), NameOf(names, ReportType(1)));
    } else {
      ReportReachesOn(names, edges, i - 1);
      ReachesThenSteps(Pairs(edges), false, NameOf(names, FakeBroker), NameOf(names, ReportType(i - 1)), NameOf(names, ReportType(i)));
    }
  }

  lemma TemplateReachesUpstream(nodes: seq<Node>, edges: seq<Connection>, names: seq<string>, kind: NodeType)
    requires IsNaming(nodes, names) && IsWired(edges, names) && SafetyNamed(names)
    requires Accepted(nodes, edges) == edges && Matching(nodes, FakeBroker) == [Node(NameOf(names, FakeBroker), FakeBroker)]
    ensures kind in UPSTREAM ==> TypeReached(nodes, edges, true, kind)
  {
    hide REQUIRED, SupportedWire, Accepted, Matching, UPSTREAM, DOWNSTREAM, PlanType, IsWired, SafetyNamed, Reaches, PlaceOf;
    if kind in UPSTREAM {
      BrokerComesLast();
      UpstreamIsThePlan(kind);
      var i :| 1 <= i <= 10 && PlanType(i) == kind;
      PlanReachesBack(names, edges, i);
      NamedKind(nodes, names, kind);
    }
  }

  lemma DownstreamIsTheReport(kind: NodeType)
    requires kind in DOWNSTREAM
    ensures exists i :: 1 <= i <= 3 && ReportType(i) == kind
  {
    assert ReportType(1) == PositionMonitor && ReportType(2) == Alert && ReportType(3) == AuditSink;
  }

  lemma TemplateReachesDownstream(nodes: seq<Node>, edges: seq<Connection>, names: seq<string>, kind: NodeType)
    requires IsNaming(nodes, names) && IsWired(edges, names) && SafetyNamed(names)
    requires Accepted(nodes, edges) == edges && Matching(nodes, FakeBroker) == [Node(NameOf(names, FakeBroker), FakeBroker)]
    requires kind in DOWNSTREAM
    ensures TypeReached(nodes, edges, false, kind)
  {
    hide REQUIRED, SupportedWire, Accepted, Matching, UPSTREAM, DOWNSTREAM, ReportType;
    DownstreamIsTheReport(kind);
    var i :| 1 <= i <= 3 && ReportType(i) == kind;
    ReportReachesOn(names, edges, i);
    NamedKind(nodes, names, kind);
  }

  lemma {:induction false} MatchingNone(nodes: seq<Node>, kind: NodeType)
    requires forall n :: n in nodes ==> n.kind != kind
    ensures Matching(nodes, kind) == []
  {
    if nodes != [] {
      assert nodes[0] in nodes;
      MatchingNone(nodes[1..], kind);
    }
  }

  lemma {:induction false} MatchingOne(nodes: seq<Node>, node: Node)
    requires Distinct(nodes) && node in nodes
    requires forall n :: n in nodes && n.kind == node.kind ==> n == node
    ensures Matching(nodes, node.kind) == [node]
  {
    var rest := nodes[1..];
    assert forall i :: 0 <= i < |rest| ==> rest[i] == nodes[i + 1];
    assert nodes[0] in nodes;
    if nodes[0] == node {
      MatchingNone(rest, node.kind);
    } else {
      MatchingOne(rest, node);
    }
  }

  lemma NamedMatching(nodes: seq<Node>, names: seq<string>, kind: NodeType)
    requires IsNaming(nodes, names) && PlaceOf(kind) >= 0
    ensures Matching(nodes, kind) == [Node(NameOf(names, kind), kind)]
  {
    hide REQUIRED, PlaceOf;
    NamingIsAllNodes(nodes, names);
    NamedNodeIsThere(nodes, names, kind);
    MatchingOne(nodes, Node(NameOf(names, kind), kind));
  }

  lemma TemplateInputOccupied(nodes: seq<Node>, edges: seq<Connection>, names: seq<string>, node: Node, port: Port)
    requires IsNaming(nodes, names) && IsWired(edges, names)
    requires node in nodes && InputOf(node.kind, port).Some?
    ensures Occupied(edges, node.id, port)
  {
    hide REQUIRED, PlaceOf, SupportedWire, WireInto, InputOf;
    NamingIsAllNodes(nodes, names);
    WireIsThere(node.kind, port);
    WireFeeds(node.kind, port);
    assert Named(names, WireInto(node.kind, port)) in edges;
  }

  lemma WiresAreDistinct()
    ensures |set k | 0 <= k < WIRE_COUNT :: SupportedWire(k)| == WIRE_COUNT
  {
    var wires := seq(WIRE_COUNT, k requires 0 <= k < WIRE_COUNT => SupportedWire(k));
    forall j, k | 0 <= j < k < |wires| ensures wires[j] != wires[k] {
      WiresAreByInput(j);
      WiresAreByInput(k);
    }
    hide SupportedWire;
    DistinctIffFullSize(wires);
    var all := set k | 0 <= k < WIRE_COUNT :: SupportedWire(k);
    forall w ensures w in Elements(wires) <==> w in all {
      if w in Elements(wires) {
        var k :| 0 <= k < |wires| && wires[k] == w;
        assert SupportedWire(k) in all;
      }
      if w in all {
        var k :| 0 <= k < WIRE_COUNT && SupportedWire(k) == w;
        assert wires[k] == w;
      }
    }
    assert Elements(wires) == all;
  }

  lemma TemplateTopology(nodes: seq<Node>, edges: seq<Connection>, names: seq<string>)
    requires IsNaming(nodes, names) && IsWired(edges, names)
    ensures TopologySupported(nodes, edges)
  {
    hide REQUIRED, PlaceOf, SupportedWire, Named;
    NamingIsAllNodes(nodes, names);
    WiredIsExact(edges, names);
    WiresAreDistinct();
    forall i, j | 0 <= i < j < |nodes| ensures Ids(nodes)[i] != Ids(nodes)[j] {
      assert nodes[i] in nodes && nodes[j] in nodes && nodes[i] != nodes[j];
      NamesTellTypesApart(names, nodes[i].kind, nodes[j].kind);
    }
    DistinctIffFullSize(Ids(nodes));
    assert Elements(Ids(nodes)) == set n | n in nodes :: n.id;
    forall i | 0 <= i < |edges| ensures exists k :: 0 <= k < WIRE_COUNT && KeyOf(nodes, edges[i]) == KeyOfWire(SupportedWire(k)) {
      assert edges[i] in edges;
      var k :| 0 <= k < WIRE_COUNT && edges[i] == Named(names, k);
      NamedKey(nodes, names, k);
    }
    forall i, j | 0 <= i < j < |edges| ensures KeysOf(nodes, edges)[i] != KeysOf(nodes, edges)[j] {
      assert edges[i] in edges && edges[j] in edges && edges[i] != edges[j];
      var k :| 0 <= k < WIRE_COUNT && edges[i] == Named(names, k);
      var l :| 0 <= l < WIRE_COUNT && edges[j] == Named(names, l);
      NamedKey(nodes, names, k);
      NamedKey(nodes, names, l);
      WiresAreByInput(k);
      WiresAreByInput(l);
    }
    DistinctIffFullSize(KeysOf(nodes, edges));
    assert Elements(KeysOf(nodes, edges)) == set e | e in edges :: KeyOf(nodes, e);
  }

  lemma TemplateIsValid(nodes: seq<Node>, edges: seq<Connection>)
    requires IsTemplate(nodes, edges)
    ensures Valid(nodes, edges)
  {
    var names :| IsNaming(nodes, names) && IsWired(edges, names) && SafetyNamed(names);
    NamingIsAllNodes(nodes, names);
    WiredIsExact(edges, names);
    AllAccepted(nodes, names, edges);
    NamedMatching(nodes, names, FakeBroker);
    forall p ensures !IsProblem(nodes, edges, p) {
      TemplateHasNoProblem(nodes, edges, names, p);
    }
  }

  lemma TemplateHasNoProblem(nodes: seq<Node>, edges: seq<Connection>, names: seq<string>, p: Problem)
    requires IsNaming(nodes, names) && IsWired(edges, names) && SafetyNamed(names)
    requires forall n :: n in nodes ==> PlaceOf(n.kind) >= 0
    requires Accepted(nodes, edges) == edges && Matching(nodes, FakeBroker) == [Node(NameOf(names, FakeBroker), FakeBroker)]
    ensures !IsProblem(nodes, edges, p)
  {
    hide REQUIRED, SupportedWire, Accepted, Matching, FaultOf, TopologySupported, TypeReached, InputOf, Named;
    match p
    case MissingRequiredNode(kind) => RequiredTypeIsThere(nodes, names, kind);
    case UnsafeActionNode(node) => if node in nodes { PlaceIsRightInverse(node.kind); }
    case UnsupportedNode(node) => if node in nodes { PlaceIsRightInverse(node.kind); }
    case FaultyConnection(i, _) => if i < |edges| { PrefixesAccepted(nodes, names, edges, i); }
    case CycleDetected => TemplateIsAcyclic(nodes, names, edges);
    case UnsafeUpstream =>
      forall kind | kind in UPSTREAM ensures TypeReached(nodes, edges, true, kind) { TemplateReachesUpstream(nodes, edges, names, kind); }
    case UnsafeDownstream =>
      forall kind | kind in DOWNSTREAM ensures TypeReached(nodes, edges, false, kind) { TemplateReachesDownstream(nodes, edges, names, kind); }
    case MissingInput(node, port) =>
      if node in nodes && InputOf(node.kind, port).Some? { TemplateInputOccupied(nodes, edges, names, node, port); }
    case UnsupportedTopology => TemplateTopology(nodes, edges, names);
    case _ =>
  }

  lemma RequiredTypeIsThere(nodes: seq<Node>, names: seq<string>, kind: NodeType)
    requires IsNaming(nodes, names)
    ensures kind in REQUIRED ==> kind in Kinds(nodes)
  {
    hide REQUIRED;
    if kind in REQUIRED {
      var k :| 0 <= k < |REQUIRED| && REQUIRED[k] == kind;
      var i :| 0 <= i < |nodes| && nodes[i] == Node(names[k], REQUIRED[k]);
      assert Kinds(nodes)[i] == kind;
    }
  }

  // ---------- the shape test alone fixes the template ----------

  /** By counting: 31 different supported keys use up the 31 supported connections. */
  lemma WireIsUsed(nodes: seq<Node>, edges: seq<Connection>, k: nat) returns (e: Connection)
    requires TopologySupported(nodes, edges) && k < WIRE_COUNT
    ensures e in edges && KeyOf(nodes, e) == KeyOfWire(SupportedWire(k))
  {
    hide REQUIRED, SupportedWire, PlaceOf;
    WiresAreDistinct();
    var keys := KeysOf(nodes, edges);
    var wired := seq(WIRE_COUNT, k requires 0 <= k < WIRE_COUNT => KeyOfWire(SupportedWire(k)));
    assert Elements(keys) == set e | e in edges :: KeyOf(nodes, e);
    DistinctIffFullSize(keys);
    forall key | key in keys ensures key in wired {
      var i :| 0 <= i < |keys| && keys[i] == key;
      var k :| 0 <= k < WIRE_COUNT && KeyOf(nodes, edges[i]) == KeyOfWire(SupportedWire(k));
      assert wired[k] == key;
    }
    UsesUp(keys, wired);
    assert wired[k] in keys;
    var i :| 0 <= i < |keys| && keys[i] == wired[k];
    e := edges[i];
  }

  lemma KindOfIsThere(nodes: seq<Node>, id: string, kind: NodeType)
    requires KindOf(nodes, id) == Some(kind)
    ensures kind in Kinds(nodes)
  {
    KindOfFindsNode(nodes, id);
    var i :| 0 <= i < |nodes| && nodes[i] == Node(id, kind);
    assert Kinds(nodes)[i] == kind;
  }

  /** Every required type is an end of some used connection, so it is there. */
  lemma TopologyHasEveryType(nodes: seq<Node>, edges: seq<Connection>, kind: NodeType)
    requires TopologySupported(nodes, edges)
    ensures kind in REQUIRED ==> kind in Kinds(nodes)
  {
    hide SupportedWire, PlaceOf, EndWire, TopologySupported, REQUIRED;
    if kind in REQUIRED {
      var place :| 0 <= place < |REQUIRED| && REQUIRED[place] == kind;
      PlaceIsLeftInverse(place);
      RequiredIsEnd(kind);
      var k := EndWire(kind);
      var e := WireIsUsed(nodes, edges, k);
      KindOfIsThere(nodes, e.source, SupportedWire(k).from);
      KindOfIsThere(nodes, e.target, SupportedWire(k).to);
    }
  }

  /** As many nodes as required types, and every type there: one node of each. */
  lemma TopologyHasNaming(nodes: seq<Node>, edges: seq<Connection>) returns (names: seq<string>)
    requires TopologySupported(nodes, edges)
    ensures IsNaming(nodes, names)
  {
    hide REQUIRED, SupportedWire, PlaceOf;
    assert Elements(Ids(nodes)) == set n | n in nodes :: n.id;
    DistinctIffFullSize(Ids(nodes));
    forall k | 0 <= k < |REQUIRED| ensures HasType(nodes, REQUIRED[k]) {
      TopologyHasEveryType(nodes, edges, REQUIRED[k]);
      var i :| 0 <= i < |nodes| && Kinds(nodes)[i] == REQUIRED[k];
      assert nodes[i].kind == REQUIRED[k];
    }
    names := seq(|REQUIRED|, k requires 0 <= k < |REQUIRED| => NodeOfType(nodes, REQUIRED[k]).id);
    forall j, k | 0 <= j < k < |names| ensures names[j] != names[k] {
      PlaceIsLeftInverse(j);
      PlaceIsLeftInverse(k);
      DistinctIdsTellApart(nodes, NodeOfType(nodes, REQUIRED[j]), NodeOfType(nodes, REQUIRED[k]));
    }
  }

  lemma DistinctIdsTellApart(nodes: seq<Node>, m: Node, n: Node)
    requires Distinct(Ids(nodes)) && m in nodes && n in nodes && m != n
    ensures m.id != n.id
  {
    var a :| 0 <= a < |nodes| && nodes[a] == m;
    var b :| 0 <= b < |nodes| && nodes[b] == n;
    assert Ids(nodes)[a] == m.id && Ids(nodes)[b] == n.id;
  }

  ghost predicate HasType(nodes: seq<Node>, kind: NodeType) {
    exists i :: 0 <= i < |nodes| && nodes[i].kind == kind
  }

  ghost function NodeOfType(nodes: seq<Node>, kind: NodeType): (n: Node)
    requires HasType(nodes, kind)
    ensures n in nodes && n.kind == kind
  {
    var i :| 0 <= i < |nodes| && nodes[i].kind == kind;
    nodes[i]
  }

  lemma TopologyIsWired(nodes: seq<Node>, edges: seq<Connection>, names: seq<string>)
    requires IsNaming(nodes, names) && TopologySupported(nodes, edges)
    ensures IsWired(edges, names)
  {
    WiresAreDistinct();
    assert |edges| == WIRE_COUNT;
    hide REQUIRED, SupportedWire, PlaceOf, TopologySupported;
    forall k | 0 <= k < WIRE_COUNT ensures Named(names, k) in edges {
      var e := WireIsUsed(nodes, edges, k);
      KeyFixesConnection(nodes, names, e, k);
    }
  }

  lemma KeyFixesConnection(nodes: seq<Node>, names: seq<string>, e: Connection, k: nat)
    requires IsNaming(nodes, names) && k < WIRE_COUNT && KeyOf(nodes, e) == KeyOfWire(SupportedWire(k))
    ensures e == Named(names, k)
  {
    hide REQUIRED, SupportedWire, PlaceOf;
    NamingIsAllNodes(nodes, names);
    KindOfFindsNode(nodes, e.source);
    KindOfFindsNode(nodes, e.target);
  }

  lemma TypeReachedIsNamed(nodes: seq<Node>, edges: seq<Connection>, names: seq<string>, reverse: bool, kind: NodeType)
    requires IsNaming(nodes, names) && PlaceOf(kind) >= 0 && |Matching(nodes, FakeBroker)| == 1
    requires TypeReached(nodes, edges, reverse, kind)
    ensures NameOf(names, kind) != ""
  {
    hide REQUIRED, PlaceOf, Accepted, Matching;
    var start, pairs := Matching(nodes, FakeBroker)[0].id, Pairs(Accepted(nodes, edges));
    var id :| Reaches(pairs, reverse, start, id) && KindOf(nodes, id) == Some(kind);
    var trail :| TrailJoins(pairs, reverse, start, id, trail);
    assert trail[|trail| - 1] != "";
    KindOfFindsNode(nodes, id);
    NamingIsAllNodes(nodes, names);
  }

  lemma ValidIsTemplate(nodes: seq<Node>, edges: seq<Connection>)
    requires Valid(nodes, edges)
    ensures IsTemplate(nodes, edges)
  {
    hide REQUIRED, PlaceOf, SupportedWire, TypeReached, TopologySupported, IsWired, Matching;
    assert !IsProblem(nodes, edges, UnsupportedTopology);
    assert !IsProblem(nodes, edges, MultipleExecutionSinks);
    assert !IsProblem(nodes, edges, UnsafeUpstream) && !IsProblem(nodes, edges, UnsafeDownstream);
    var names := TopologyHasNaming(nodes, edges);
    TopologyIsWired(nodes, edges, names);
    forall kind | PlaceOf(kind) >= 0 && (kind in UPSTREAM || kind in DOWNSTREAM) ensures NameOf(names, kind) != "" {
      TypeReachedIsNamed(nodes, edges, names, kind in UPSTREAM, kind);
    }
  }

  /**
    The validator accepts a graph exactly when it is a relabelling of the 22-node, 31-connection
    opening-breakout template in which the thirteen safety nodes around the fake broker have
    non-empty ids; the other nine ids may be anything, as long as all are distinct.
   */
  lemma ValidExactlyWhenTemplate(nodes: seq<Node>, edges: seq<Connection>)
    ensures Valid(nodes, edges) <==> IsTemplate(nodes, edges)
  {
    if Valid(nodes, edges) {
      ValidIsTemplate(nodes, edges);
    }
    if IsTemplate(nodes, edges) {
      TemplateIsValid(nodes, edges);
    }
  }

  /** Every safety node, before or after the fake broker, has a non-empty id. */
  ghost predicate SafetyIdsGiven(nodes: seq<Node>) {
    forall n :: n in nodes && (n.kind in UPSTREAM || n.kind in DOWNSTREAM) ==> n.id != ""
  }

  lemma NamedSafety(nodes: seq<Node>, names: seq<string>)
    requires IsNaming(nodes, names)
    ensures SafetyNamed(names) <==> SafetyIdsGiven(nodes)
  {
    hide REQUIRED, PlaceOf, UPSTREAM, DOWNSTREAM;
    NamingIsAllNodes(nodes, names);
    forall kind | PlaceOf(kind) >= 0 ensures Node(NameOf(names, kind), kind) in nodes {
      NamedNodeIsThere(nodes, names, kind);
    }
  }

  /** The shape test accepts exactly the relabellings of the template, whatever the ids. */
  lemma TopologyExactlyWhenWired(nodes: seq<Node>, edges: seq<Connection>)
    ensures TopologySupported(nodes, edges) <==> exists names :: IsNaming(nodes, names) && IsWired(edges, names)
  {
    hide TopologySupported, IsWired, REQUIRED;
    if TopologySupported(nodes, edges) {
      var names := TopologyHasNaming(nodes, edges);
      TopologyIsWired(nodes, edges, names);
    }
    if names :| IsNaming(nodes, names) && IsWired(edges, names) {
      TemplateTopology(nodes, edges, names);
    }
  }

  /**
    The shape test decides: given it, and ids for the safety nodes, no other check of the validator
    can fail.
   */
  lemma ValidExactlyWhenTopology(nodes: seq<Node>, edges: seq<Connection>)
    ensures Valid(nodes, edges) <==> TopologySupported(nodes, edges) && SafetyIdsGiven(nodes)
  {
    hide SafetyIdsGiven, SafetyNamed, REQUIRED, PlaceOf, SupportedWire;
    if Valid(nodes, edges) {
      assert !IsProblem(nodes, edges, UnsupportedTopology);
      hide TopologySupported, Valid;
      ValidIsTemplate(nodes, edges);
      var names :| IsNaming(nodes, names) && IsWired(edges, names) && SafetyNamed(names);
      NamedSafety(nodes, names);
    }
    if TopologySupported(nodes, edges) && SafetyIdsGiven(nodes) {
      hide TopologySupported, Valid;
      var names := TopologyHasNaming(nodes, edges);
      TopologyIsWired(nodes, edges, names);
      NamedSafety(nodes, names);
      TemplateIsValid(nodes, edges);
    }
  }

  /** The shape test alone implies the graph has no cycle and no input with two connections. */
  lemma TopologyImpliesSafety(nodes: seq<Node>, edges: seq<Connection>)
    requires TopologySupported(nodes, edges)
    ensures !HasDirectedCycle(Ids(nodes), Pairs(edges))
    ensures forall i, j :: 0 <= i < j < |edges| ==> edges[i].target != edges[j].target || edges[i].targetPort != edges[j].targetPort
  {
    hide REQUIRED, PlaceOf, SupportedWire, Named, TopologySupported;
    var names := TopologyHasNaming(nodes, edges);
    TopologyIsWired(nodes, edges, names);
    TemplateIsAcyclic(nodes, names, edges);
    WiredIsExact(edges, names);
    forall i, j | 0 <= i < j < |edges| ensures edges[i].target != edges[j].target || edges[i].targetPort != edges[j].targetPort {
      assert edges[i] in edges && edges[j] in edges && edges[i] != edges[j];
      var k :| 0 <= k < WIRE_COUNT && edges[i] == Named(names, k);
      var l :| 0 <= l < WIRE_COUNT && edges[j] == Named(names, l);
      WiresHaveDistinctInputs(names, k, l);
    }
  }

  // ---------- the one way of the plan ----------

  /** The plan's connections, from the dollar-risk sizing on to the fake broker. */
  ghost function PlanChain(names: seq<string>): (r: seq<Connection>)
    requires |names| == |REQUIRED|
    ensures |r| == 10 && forall k :: 0 <= k < 10 ==> r[k] == Named(names, PlanWire(9 - k))
  {
    seq(10, k requires 0 <= k < 10 => Named(names, PlanWire(9 - k)))
  }

  /** Connections into `plan` inputs, each from where the one before leads. */
  ghost predicate IsPlanWalk(edges: seq<Connection>, walk: seq<Connection>) {
    && walk != []
    && (forall k :: 0 <= k < |walk| ==> walk[k] in edges && walk[k].targetPort == Some(PlanPort))
    && (forall k :: 0 <= k < |walk| - 1 ==> walk[k].target == walk[k + 1].source)
  }

  /** The walk passes all safety types in turn, from the dollar-risk sizing to the fake broker, by `plan` ports. */
  ghost predicate PassesEveryGate(nodes: seq<Node>, chain: seq<Connection>) {
    && |chain| == 10
    && forall k :: 0 <= k < 10 ==>
                     && chain[k].sourcePort == Some(PlanPort)
                     && KindOf(nodes, chain[k].source) == Some(PlanType(10 - k))
                     && KindOf(nodes, chain[k].target) == Some(PlanType(9 - k))
  }

  lemma PlanChainIsWalk(nodes: seq<Node>, edges: seq<Connection>, names: seq<string>)
    requires IsNaming(nodes, names) && IsWired(edges, names)
    ensures IsPlanWalk(edges, PlanChain(names)) && PassesEveryGate(nodes, PlanChain(names))
  {
    var chain := PlanChain(names);
    hide REQUIRED, PlaceOf, SupportedWire, PlanType, PlanWire, IsNaming;
    forall k | 0 <= k < 10
      ensures chain[k] in edges && chain[k].sourcePort == chain[k].targetPort == Some(PlanPort)
      ensures chain[k].source == NameOf(names, PlanType(10 - k)) && chain[k].target == NameOf(names, PlanType(9 - k))
      ensures KindOf(nodes, chain[k].source) == Some(PlanType(10 - k))
      ensures KindOf(nodes, chain[k].target) == Some(PlanType(9 - k))
    {
      PlanWireJoins(9 - k);
      NamedKind(nodes, names, PlanType(10 - k));
      NamedKind(nodes, names, PlanType(9 - k));
    }
  }

  /** Whatever leads into an input is the supported wire into it. */
  lemma InputIsWired(edges: seq<Connection>, names: seq<string>, e: Connection, kind: NodeType, port: Port)
    requires |names| == |REQUIRED| && Distinct(names) && IsWired(edges, names) && e in edges && PlaceOf(kind) >= 0
    requires e.target == NameOf(names, kind) && e.targetPort == Some(port)
    ensures 0 <= WireInto(kind, port) < WIRE_COUNT && e == Named(names, WireInto(kind, port))
  {
    hide REQUIRED, PlaceOf, SupportedWire, WireInto, IsWired;
    WiredIsExact(edges, names);
    assert IsNamedWire(names, e);
    var k :| 0 <= k < WIRE_COUNT && e == Named(names, k);
    WiresLeadUp(k);
    NamesTellTypesApart(names, SupportedWire(k).to, kind);
    WiresAreByInput(k);
  }

  lemma PlanWireIsInto(i: nat)
    requires i < 10
    ensures WireInto(PlanType(i), PlanPort) == PlanWire(i)
  {
    hide PlaceOf, SupportedWire, WireInto, PlanType, PlanWire;
    PlanWireJoins(i);
    WiresAreByInput(PlanWire(i));
  }

  lemma SizingHasNoPlanInput()
    ensures WireInto(PlanType(10), PlanPort) < 0
  {
  }

  /** A walk that ends at the fake broker is the end of the chain, of the same length. */
  lemma {:induction false} WalkIsSuffix(edges: seq<Connection>, names: seq<string>, walk: seq<Connection>)
    requires |names| == |REQUIRED| && Distinct(names) && IsWired(edges, names) && IsPlanWalk(edges, walk)
    requires walk[|walk| - 1].target == NameOf(names, PlanType(0))
    ensures |walk| <= 10 && walk == PlanChain(names)[10 - |walk|..]
    decreases |walk|
  {
    hide REQUIRED, PlaceOf, SupportedWire, PlanType, PlanWire, WireInto, IsWired, Distinct;
    var chain, n := PlanChain(names), |walk|;
    if n == 1 {
      OneStepBack(edges, names, walk[0], 0);
      assert chain[9..] == [chain[9]] == walk;
    } else {
      var rest := walk[1..];
      WalkIsSuffix(edges, names, rest);
      assert walk[0].target == rest[0].source == chain[11 - n].source;
      PlanWireJoins(n - 2);
      OneStepBack(edges, names, walk[0], n - 1);
      assert walk == [walk[0]] + rest && chain[10 - n..] == [chain[10 - n]] + chain[11 - n..];
    }
  }

  /** A plan connection into the `i`-th type from the end is the chain's, and the sizing has none. */
  lemma OneStepBack(edges: seq<Connection>, names: seq<string>, e: Connection, i: nat)
    requires |names| == |REQUIRED| && Distinct(names) && IsWired(edges, names) && e in edges && i <= 10
    requires e.target == NameOf(names, PlanType(i)) && e.targetPort == Some(PlanPort)
    ensures i < 10 && e == Named(names, PlanWire(i))
  {
    hide REQUIRED, PlaceOf, SupportedWire, PlanType, PlanWire, WireInto, IsWired, Distinct;
    InputIsWired(edges, names, e, PlanType(i), PlanPort);
    if i == 10 {
      SizingHasNoPlanInput();
    } else {
      PlanWireIsInto(i);
    }
  }

  lemma KindFixesName(nodes: seq<Node>, names: seq<string>, id: string, kind: NodeType)
    requires IsNaming(nodes, names) && PlaceOf(kind) >= 0 && KindOf(nodes, id) == Some(kind)
    ensures id == NameOf(names, kind)
  {
    hide REQUIRED, PlaceOf, IsNaming, NameOf;
    KindOfFindsNode(nodes, id);
    NamingIsAllNodes(nodes, names);
  }

  /** The chain is the only way of the plan: each input has its one connection, and every walk to the broker ends it. */
  ghost predicate IsOnlyPlan(nodes: seq<Node>, edges: seq<Connection>, chain: seq<Connection>) {
    && IsPlanWalk(edges, chain) && PassesEveryGate(nodes, chain)
    && (forall e, i :: e in edges && 0 <= i < 10 && KindOf(nodes, e.target) == Some(PlanType(i)) && e.targetPort == Some(PlanPort)
                       ==> e == chain[9 - i])
    && (forall walk: seq<Connection> :: IsPlanWalk(edges, walk) && KindOf(nodes, walk[|walk| - 1].target) == Some(FakeBroker)
                       ==> |walk| <= 10 && walk == chain[10 - |walk|..])
  }

  /**
    In a graph that passes the shape test the order plan cannot bypass a gate: one chain of ten
    connections leads from the dollar-risk sizing through every gate to the fake broker, no other
    connection feeds an input of it, and every walk of the plan to the broker is an end of the chain.
   */
  lemma PlanPassesEveryGate(nodes: seq<Node>, edges: seq<Connection>)
    requires TopologySupported(nodes, edges)
    ensures exists chain :: IsOnlyPlan(nodes, edges, chain)
  {
    hide TopologySupported, REQUIRED, PlaceOf, PlanType, PlanWire, WireInto, IsWired, PassesEveryGate, SupportedWire;
    var names := TopologyHasNaming(nodes, edges);
    TopologyIsWired(nodes, edges, names);
    PlanChainIsWalk(nodes, edges, names);
    var chain := PlanChain(names);
    assert Distinct(names);
    forall e, i | e in edges && 0 <= i < 10 && KindOf(nodes, e.target) == Some(PlanType(i)) && e.targetPort == Some(PlanPort)
      ensures e == chain[9 - i]
    {
      KindFixesName(nodes, names, e.target, PlanType(i));
      OneStepBack(edges, names, e, i);
    }
    forall walk: seq<Connection> | IsPlanWalk(edges, walk) && KindOf(nodes, walk[|walk| - 1].target) == Some(FakeBroker)
      ensures |walk| <= 10 && walk == chain[10 - |walk|..]
    {
      assert PlanType(0) == FakeBroker by { BrokerComesLast(); }
      KindFixesName(nodes, names, walk[|walk| - 1].target, PlanType(0));
      WalkIsSuffix(edges, names, walk);
    }
    assert IsOnlyPlan(nodes, edges, chain);
  }
}
