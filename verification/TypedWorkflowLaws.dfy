/** What the catalogue's tables and the connection checks mean, told apart from the tables. */
module TypedWorkflowLaws {
  import opened Foundations
  import opened TypedWorkflow
  import opened TypedWorkflowTables
  import opened TypedWorkflowShape

  // ---------- ports ----------

  /** The port type a port name stands for on every node that has the port, except for plans. */
  function TypeOfName(port: Port): Option<PortType> {
    match port
    case Trades => Some(TradeStream)
    case SymbolPort => Some(SymbolName)
    case SessionPort => Some(Session)
    case ContractPort => Some(Contract)
    case PricePort => Some(Price)
    case LevelPort => Some(Price)
    case StopPricePort => Some(Price)
    case TriggerPort => Some(TriggerEvent)
    case MoneyPort => Some(Money)
    case MaximumDollarLossPort => Some(Money)
    case ReportPort => Some(ExecutionReport)
    case PositionPort => Some(PositionState)
    case EventPort => Some(AuditEvent)
    case _ => None
  }

  /** A plan is only an order plan up to the authorization, and only an authorized one up to the protective stop. */
  predicate PlanStage(kind: NodeType, input: Option<PortType>, output: Option<PortType>) {
    match kind
    case LongRiskSize => input == None && output == Some(OrderPlan)
    case ArmedRunAuthorization => input == Some(OrderPlan) && output == Some(AuthorizedOrderPlan)
    case EntryLifetime => input == output == Some(AuthorizedOrderPlan)
    case PositionLifetime => input == output == Some(AuthorizedOrderPlan)
    case ProtectiveStop => input == Some(AuthorizedOrderPlan) && output == Some(ProtectedOrderPlan)
    case StopMarketEntry => input == output == Some(ProtectedOrderPlan)
    case FakeBroker => input == Some(ProtectedOrderPlan) && output == None
    case RiskGate => input == output == Some(OrderPlan)
    case StaleDataGate => input == output == Some(OrderPlan)
    case ReconciliationGate => input == output == Some(OrderPlan)
    case EmergencyStopGate => input == output == Some(OrderPlan)
    case _ => input == output == None
  }

  /** A port's type follows from its name, and a plan's from how far it has come. */
  lemma PortTypesFollowNames(kind: NodeType, port: Port)
    ensures port != PlanPort ==> InputOf(kind, port) in {None, TypeOfName(port)} && OutputOf(kind, port) in {None, TypeOfName(port)}
    ensures port == PlanPort ==> PlanStage(kind, InputOf(kind, port), OutputOf(kind, port))
  {
  }

  lemma MirroredInputs(port: Port)
    ensures InputOf(LiveTrades, port) == InputOf(HistoricalDataset, port) && InputOf(OpeningRangeLow, port) == InputOf(OpeningRangeHigh, port)
    ensures InputOf(DayHigh, port) == InputOf(DayLow, port) && InputOf(CrossesBelow, port) == InputOf(CrossesAbove, port)
  {
  }

  lemma MirroredOutputs(port: Port)
    ensures OutputOf(LiveTrades, port) == OutputOf(HistoricalDataset, port) && OutputOf(OpeningRangeLow, port) == OutputOf(OpeningRangeHigh, port)
    ensures OutputOf(DayHigh, port) == OutputOf(DayLow, port) && OutputOf(CrossesBelow, port) == OutputOf(CrossesAbove, port)
  {
  }

  /** Types that stand in for one another have the same ports. */
  lemma MirroredTypesSharePorts(port: Port)
    ensures InputOf(LiveTrades, port) == InputOf(HistoricalDataset, port) && OutputOf(LiveTrades, port) == OutputOf(HistoricalDataset, port)
    ensures InputOf(OpeningRangeLow, port) == InputOf(OpeningRangeHigh, port) && OutputOf(OpeningRangeLow, port) == OutputOf(OpeningRangeHigh, port)
    ensures InputOf(DayHigh, port) == InputOf(DayLow, port) && OutputOf(DayHigh, port) == OutputOf(DayLow, port)
    ensures InputOf(CrossesBelow, port) == InputOf(CrossesAbove, port) && OutputOf(CrossesBelow, port) == OutputOf(CrossesAbove, port)
  {
    hide InputOf, OutputOf;
    MirroredInputs(port);
    MirroredOutputs(port);
  }

  // ---------- which node feeds which input ----------

  /** The plan's way from the sizing to the fake broker. */
  function PlanBefore(kind: NodeType): NodeType {
    match kind
    case RiskGate => LongRiskSize
    case StaleDataGate => RiskGate
    case ReconciliationGate => StaleDataGate
    case EmergencyStopGate => ReconciliationGate
    case ArmedRunAuthorization => EmergencyStopGate
    case EntryLifetime => ArmedRunAuthorization
    case PositionLifetime => EntryLifetime
    case ProtectiveStop => PositionLifetime
    case StopMarketEntry => ProtectiveStop
    case _ => StopMarketEntry
  }

  /**
    The breakout: the session reads the data set and everything else reads the session; the opening high is
    the level to cross, the day's low is every stop price, and one crossing triggers sizing and entry.
   */
  function Feeder(kind: NodeType, port: Port): NodeType {
    match port
    case Trades => if kind == RthSession then HistoricalDataset else RthSession
    case SymbolPort => SymbolInput
    case SessionPort => RthSession
    case ContractPort => RthSession
    case LevelPort => OpeningRangeHigh
    case StopPricePort => DayLow
    case MaximumDollarLossPort => DollarRiskInput
    case TriggerPort => if kind == OneShotPerSession then CrossesAbove else OneShotPerSession
    case ReportPort => FakeBroker
    case PositionPort => PositionMonitor
    case EventPort => Alert
    case _ => PlanBefore(kind)
  }

  lemma EarlyWireHasFeeder(k: nat)
    requires k < 16
    ensures SupportedWire(k).from == Feeder(SupportedWire(k).to, SupportedWire(k).input)
  {
  }

  lemma LateWireHasFeeder(k: nat)
    requires 16 <= k < WIRE_COUNT
    ensures SupportedWire(k).from == Feeder(SupportedWire(k).to, SupportedWire(k).input)
  {
  }

  lemma WireComesFromFeeder(kind: NodeType, port: Port)
    requires 0 <= WireInto(kind, port) < WIRE_COUNT
    ensures SupportedWire(WireInto(kind, port)).from == Feeder(kind, port)
  {
    hide SupportedWire, Feeder, WireInto;
    WireFeeds(kind, port);
    if WireInto(kind, port) < 16 {
      EarlyWireHasFeeder(WireInto(kind, port));
    } else {
      LateWireHasFeeder(WireInto(kind, port));
    }
  }

  /** In a graph that passes the topology check every input is fed, and only by the node the breakout needs there. */
  lemma InputsAreFedByFeeders(nodes: seq<Node>, edges: seq<Connection>, node: Node, port: Port)
    requires TopologySupported(nodes, edges) && node in nodes && InputOf(node.kind, port).Some?
    ensures exists e :: e in edges && e.target == node.id && e.targetPort == Some(port)
    ensures forall e :: e in edges && e.target == node.id && e.targetPort == Some(port) ==>
                          KindOf(nodes, e.source) == Some(Feeder(node.kind, port))
  {
    hide TopologySupported, REQUIRED, PlaceOf, SupportedWire, WireInto, InputOf, Feeder, IsWired, KindOf;
    var names := TopologyHasNaming(nodes, edges);
    TopologyIsWired(nodes, edges, names);
    NamingIsAllNodes(nodes, names);
    WireIsThere(node.kind, port);
    WireFeeds(node.kind, port);
    WireComesFromFeeder(node.kind, port);
    var k := WireInto(node.kind, port);
    NamedWireIsThere(edges, names, k);
    forall e | e in edges && e.target == node.id && e.targetPort == Some(port)
      ensures KindOf(nodes, e.source) == Some(Feeder(node.kind, port))
    {
      InputIsWired(edges, names, e, node.kind, port);
      NamedSource(nodes, names, k);
    }
  }

  lemma NamedWireIsThere(edges: seq<Connection>, names: seq<string>, k: nat)
    requires |names| == |REQUIRED| && IsWired(edges, names) && k < WIRE_COUNT
    ensures Named(names, k) in edges && PlaceOf(SupportedWire(k).to) >= 0
    ensures Named(names, k).target == NameOf(names, SupportedWire(k).to) && Named(names, k).targetPort == Some(SupportedWire(k).input)
  {
    hide REQUIRED, PlaceOf, SupportedWire;
    WiresLeadUp(k);
  }

  lemma NamedSource(nodes: seq<Node>, names: seq<string>, k: nat)
    requires IsNaming(nodes, names) && k < WIRE_COUNT
    ensures KindOf(nodes, Named(names, k).source) == Some(SupportedWire(k).from)
  {
    hide REQUIRED, PlaceOf, SupportedWire, KindOf;
    WiresLeadUp(k);
    NamedKind(nodes, names, SupportedWire(k).from);
  }

  // ---------- which fault a connection has ----------

  ghost predicate LastAt(nodes: seq<Node>, id: string, kind: NodeType, i: int) {
    0 <= i < |nodes| && nodes[i] == Node(id, kind) && forall j :: i < j < |nodes| ==> nodes[j].id != id
  }

  /** The last node under the id has this type. */
  ghost predicate LastUnder(nodes: seq<Node>, id: string, kind: NodeType) {
    exists i :: LastAt(nodes, id, kind, i)
  }

  lemma LastAtEarlier(front: seq<Node>, last: Node, id: string, kind: NodeType, i: nat)
    requires i < |front|
    ensures LastAt(front + [last], id, kind, i) <==> last.id != id && LastAt(front, id, kind, i)
  {
    var nodes := front + [last];
    assert nodes[|front|] == last;
    assert forall j :: 0 <= j < |front| ==> nodes[j] == front[j];
  }

  lemma LastAtEnd(front: seq<Node>, last: Node, id: string, kind: NodeType)
    ensures LastAt(front + [last], id, kind, |front|) <==> last == Node(id, kind)
  {
  }

  lemma LastAtIsWithin(nodes: seq<Node>, id: string, kind: NodeType, i: int)
    requires LastAt(nodes, id, kind, i)
    ensures 0 <= i < |nodes|
  {
  }

  lemma LastUnderSnoc(front: seq<Node>, last: Node, id: string, kind: NodeType)
    ensures LastUnder(front + [last], id, kind) <==> if last.id == id then last.kind == kind else LastUnder(front, id, kind)
  {
    hide LastAt;
    LastAtEnd(front, last, id, kind);
    if LastUnder(front + [last], id, kind) {
      var i :| LastAt(front + [last], id, kind, i);
      LastAtIsWithin(front + [last], id, kind, i);
      if i < |front| {
        LastAtEarlier(front, last, id, kind, i);
      }
    }
    if last.id != id && LastUnder(front, id, kind) {
      var i :| LastAt(front, id, kind, i);
      LastAtIsWithin(front, id, kind, i);
      LastAtEarlier(front, last, id, kind, i);
    }
  }

  /** An id names the last node under it. */
  lemma {:induction false} KindIsOfLast(nodes: seq<Node>, id: string)
    ensures forall kind :: KindOf(nodes, id) == Some(kind) <==> LastUnder(nodes, id, kind)
  {
    if nodes != [] {
      hide LastUnder;
      var front, last := nodes[..|nodes| - 1], nodes[|nodes| - 1];
      assert nodes == front + [last];
      KindIsOfLast(front, id);
      forall kind ensures KindOf(nodes, id) == Some(kind) <==> LastUnder(nodes, id, kind) {
        LastUnderSnoc(front, last, id, kind);
      }
    }
  }

  lemma NamedExactly(nodes: seq<Node>, id: string)
    ensures KindOf(nodes, id) == None <==> id !in Ids(nodes)
  {
    KindOfFindsNode(nodes, id);
    if KindOf(nodes, id).Some? {
      var i :| 0 <= i < |nodes| && nodes[i] == Node(id, KindOf(nodes, id).value);
      assert Ids(nodes)[i] == id;
    }
  }

  /** The connection has an output of its source's type and an input of its target's, of these port types. */
  predicate Carries(nodes: seq<Node>, e: Connection, output: PortType, input: PortType) {
    && KindOf(nodes, e.source).Some? && KindOf(nodes, e.target).Some? && e.sourcePort.Some? && e.targetPort.Some?
    && OutputOf(KindOf(nodes, e.source).value, e.sourcePort.value) == Some(output)
    && InputOf(KindOf(nodes, e.target).value, e.targetPort.value) == Some(input)
  }

  /** Exactly which fault a connection has after the ones accepted before it. */
  lemma FaultExactly(nodes: seq<Node>, accepted: seq<Connection>, e: Connection)
    ensures var fault, named := FaultOf(nodes, accepted, e), e.source in Ids(nodes) && e.target in Ids(nodes);
            var taken := exists a :: a in accepted && a.target == e.target && a.targetPort == e.targetPort;
            && (fault == Some(UnknownEndpoint) <==> !named)
            && (fault == Some(UnknownPort) <==> named && !exists x, y :: Carries(nodes, e, x, y))
            && (fault == Some(IncompatiblePort) <==> exists x, y :: Carries(nodes, e, x, y) && x != y)
            && (fault == Some(DuplicateInput) <==> (exists x :: Carries(nodes, e, x, x)) && taken)
            && (fault == None <==> (exists x :: Carries(nodes, e, x, x)) && !taken)
  {
    hide OutputOf, InputOf, KindOf;
    NamedExactly(nodes, e.source);
    NamedExactly(nodes, e.target);
    if OutputType(nodes, e).Some? && InputType(nodes, e).Some? {
      assert Carries(nodes, e, OutputType(nodes, e).value, InputType(nodes, e).value);
    }
    forall x, y | Carries(nodes, e, x, y) ensures OutputType(nodes, e) == Some(x) && InputType(nodes, e) == Some(y) {
    }
  }
}
