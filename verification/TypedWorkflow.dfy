/** The typed validator of the opening-breakout workflow: port tables, checks, and what each reports. */
module TypedWorkflow {
  import opened Foundations
  import opened GraphSearch

  datatype NodeType =
    | HistoricalDataset | LiveTrades | SymbolInput | DollarRiskInput | RthSession
    | OpeningRangeHigh | OpeningRangeLow | DayHigh | DayLow | CrossesAbove | CrossesBelow
    | OneShotPerSession | LongRiskSize | RiskGate | StaleDataGate | ReconciliationGate
    | EmergencyStopGate | ArmedRunAuthorization | EntryLifetime | PositionLifetime | ProtectiveStop
    | StopMarketEntry | FakeBroker | PositionMonitor | Alert | AuditSink
    | UnsafeAction(name: string)
    | OtherType(name: string)

  datatype Port =
    | Trades | SymbolPort | SessionPort | ContractPort | PricePort | LevelPort | TriggerPort | MoneyPort
    | StopPricePort | MaximumDollarLossPort | PlanPort | ReportPort | PositionPort | EventPort
    | OtherPort(name: string)

  datatype PortType =
    | TradeStream | Session | SymbolName | Contract | Price | Money | TriggerEvent | OrderPlan
    | AuthorizedOrderPlan | ProtectedOrderPlan | ExecutionReport | PositionState | AuditEvent

  predicate Supported(kind: NodeType) {
    !kind.UnsafeAction? && !kind.OtherType?
  }

  /** The type of a node type's input port, if it has that port. */
  function InputOf(kind: NodeType, port: Port): Option<PortType> {
    match (kind, port)
    case (RthSession, Trades) => Some(TradeStream)
    case (RthSession, SymbolPort) => Some(SymbolName)
    case (OpeningRangeHigh, Trades) => Some(TradeStream)
    case (OpeningRangeHigh, SessionPort) => Some(Session)
    case (OpeningRangeLow, Trades) => Some(TradeStream)
    case (OpeningRangeLow, SessionPort) => Some(Session)
    case (DayHigh, Trades) => Some(TradeStream)
    case (DayHigh, SessionPort) => Some(Session)
    case (DayLow, Trades) => Some(TradeStream)
    case (DayLow, SessionPort) => Some(Session)
    case (CrossesAbove, Trades) => Some(TradeStream)
    case (CrossesAbove, LevelPort) => Some(Price)
    case (CrossesAbove, ContractPort) => Some(Contract)
    case (CrossesBelow, Trades) => Some(TradeStream)
    case (CrossesBelow, LevelPort) => Some(Price)
    case (CrossesBelow, ContractPort) => Some(Contract)
    case (OneShotPerSession, TriggerPort) => Some(TriggerEvent)
    case (OneShotPerSession, SessionPort) => Some(Session)
    case (LongRiskSize, TriggerPort) => Some(TriggerEvent)
    case (LongRiskSize, StopPricePort) => Some(Price)
    case (LongRiskSize, MaximumDollarLossPort) => Some(Money)
    case (LongRiskSize, ContractPort) => Some(Contract)
    case (RiskGate, PlanPort) => Some(OrderPlan)
    case (StaleDataGate, PlanPort) => Some(OrderPlan)
    case (StaleDataGate, Trades) => Some(TradeStream)
    case (ReconciliationGate, PlanPort) => Some(OrderPlan)
    case (EmergencyStopGate, PlanPort) => Some(OrderPlan)
    case (ArmedRunAuthorization, PlanPort) => Some(OrderPlan)
    case (EntryLifetime, PlanPort) => Some(AuthorizedOrderPlan)
    case (PositionLifetime, PlanPort) => Some(AuthorizedOrderPlan)
    case (ProtectiveStop, PlanPort) => Some(AuthorizedOrderPlan)
    case (ProtectiveStop, StopPricePort) => Some(Price)
    case (StopMarketEntry, PlanPort) => Some(ProtectedOrderPlan)
    case (StopMarketEntry, TriggerPort) => Some(TriggerEvent)
    case (FakeBroker, PlanPort) => Some(ProtectedOrderPlan)
    case (PositionMonitor, ReportPort) => Some(ExecutionReport)
    case (Alert, PositionPort) => Some(PositionState)
    case (AuditSink, EventPort) => Some(AuditEvent)
    case _ => None
  }

  function OutputOf(kind: NodeType, port: Port): Option<PortType> {
    match (kind, port)
    case (HistoricalDataset, Trades) => Some(TradeStream)
    case (LiveTrades, Trades) => Some(TradeStream)
    case (SymbolInput, SymbolPort) => Some(SymbolName)
    case (DollarRiskInput, MoneyPort) => Some(Money)
    case (RthSession, Trades) => Some(TradeStream)
    case (RthSession, SessionPort) => Some(Session)
    case (RthSession, ContractPort) => Some(Contract)
    case (OpeningRangeHigh, PricePort) => Some(Price)
    case (OpeningRangeLow, PricePort) => Some(Price)
    case (DayHigh, PricePort) => Some(Price)
    case (DayLow, PricePort) => Some(Price)
    case (CrossesAbove, TriggerPort) => Some(TriggerEvent)
    case (CrossesBelow, TriggerPort) => Some(TriggerEvent)
    case (OneShotPerSession, TriggerPort) => Some(TriggerEvent)
    case (LongRiskSize, PlanPort) => Some(OrderPlan)
    case (RiskGate, PlanPort) => Some(OrderPlan)
    case (StaleDataGate, PlanPort) => Some(OrderPlan)
    case (ReconciliationGate, PlanPort) => Some(OrderPlan)
    case (EmergencyStopGate, PlanPort) => Some(OrderPlan)
    case (ArmedRunAuthorization, PlanPort) => Some(AuthorizedOrderPlan)
    case (EntryLifetime, PlanPort) => Some(AuthorizedOrderPlan)
    case (PositionLifetime, PlanPort) => Some(AuthorizedOrderPlan)
    case (ProtectiveStop, PlanPort) => Some(ProtectedOrderPlan)
    case (StopMarketEntry, PlanPort) => Some(ProtectedOrderPlan)
    case (FakeBroker, ReportPort) => Some(ExecutionReport)
    case (PositionMonitor, PositionPort) => Some(PositionState)
    case (Alert, EventPort) => Some(AuditEvent)
    case _ => None
  }

  /** The port names the templates use. */
  const PORTS: seq<Port> := [
    Trades, SymbolPort, SessionPort, ContractPort, PricePort, LevelPort, TriggerPort, MoneyPort,
    StopPricePort, MaximumDollarLossPort, PlanPort, ReportPort, PositionPort, EventPort]

  const REQUIRED: seq<NodeType> := [
    HistoricalDataset, SymbolInput, DollarRiskInput, RthSession, OpeningRangeHigh, DayLow, CrossesAbove,
    OneShotPerSession, LongRiskSize, RiskGate, StaleDataGate, ReconciliationGate, EmergencyStopGate,
    ArmedRunAuthorization, EntryLifetime, PositionLifetime, ProtectiveStop, StopMarketEntry, FakeBroker,
    PositionMonitor, Alert, AuditSink]

  const UPSTREAM: seq<NodeType> := [
    LongRiskSize, RiskGate, StaleDataGate, ReconciliationGate, EmergencyStopGate, ArmedRunAuthorization,
    EntryLifetime, PositionLifetime, ProtectiveStop, StopMarketEntry]

  const DOWNSTREAM: seq<NodeType> := [PositionMonitor, Alert, AuditSink]

  /** A supported connection: from an output of one type to an input of another. */
  datatype Wire = Wire(from: NodeType, output: Port, to: NodeType, input: Port)

  /** The supported connections, in the order they are listed. */
  function SupportedWire(k: nat): Wire
    requires k < WIRE_COUNT
  {
    match k
    case 0 => Wire(Alert, EventPort, AuditSink, EventPort)
    case 1 => Wire(ArmedRunAuthorization, PlanPort, EntryLifetime, PlanPort)
    case 2 => Wire(CrossesAbove, TriggerPort, OneShotPerSession, TriggerPort)
    case 3 => Wire(DayLow, PricePort, LongRiskSize, StopPricePort)
    case 4 => Wire(DayLow, PricePort, ProtectiveStop, StopPricePort)
    case 5 => Wire(DollarRiskInput, MoneyPort, LongRiskSize, MaximumDollarLossPort)
    case 6 => Wire(EmergencyStopGate, PlanPort, ArmedRunAuthorization, PlanPort)
    case 7 => Wire(EntryLifetime, PlanPort, PositionLifetime, PlanPort)
    case 8 => Wire(FakeBroker, ReportPort, PositionMonitor, ReportPort)
    case 9 => Wire(HistoricalDataset, Trades, RthSession, Trades)
    case 10 => Wire(LongRiskSize, PlanPort, RiskGate, PlanPort)
    case 11 => Wire(OneShotPerSession, TriggerPort, LongRiskSize, TriggerPort)
    case 12 => Wire(OneShotPerSession, TriggerPort, StopMarketEntry, TriggerPort)
    case 13 => Wire(OpeningRangeHigh, PricePort, CrossesAbove, LevelPort)
    case 14 => Wire(PositionLifetime, PlanPort, ProtectiveStop, PlanPort)
    case 15 => Wire(PositionMonitor, PositionPort, Alert, PositionPort)
    case 16 => Wire(ProtectiveStop, PlanPort, StopMarketEntry, PlanPort)
    case 17 => Wire(ReconciliationGate, PlanPort, EmergencyStopGate, PlanPort)
    case 18 => Wire(RiskGate, PlanPort, StaleDataGate, PlanPort)
    case 19 => Wire(RthSession, ContractPort, CrossesAbove, ContractPort)
    case 20 => Wire(RthSession, ContractPort, LongRiskSize, ContractPort)
    case 21 => Wire(RthSession, SessionPort, DayLow, SessionPort)
    case 22 => Wire(RthSession, SessionPort, OneShotPerSession, SessionPort)
    case 23 => Wire(RthSession, SessionPort, OpeningRangeHigh, SessionPort)
    case 24 => Wire(RthSession, Trades, CrossesAbove, Trades)
    case 25 => Wire(RthSession, Trades, DayLow, Trades)
    case 26 => Wire(RthSession, Trades, OpeningRangeHigh, Trades)
    case 27 => Wire(RthSession, Trades, StaleDataGate, Trades)
    case 28 => Wire(StaleDataGate, PlanPort, ReconciliationGate, PlanPort)
    case 29 => Wire(StopMarketEntry, PlanPort, FakeBroker, PlanPort)
    case _ => Wire(SymbolInput, SymbolPort, RthSession, SymbolPort)
  }

  const WIRE_COUNT := 31

  // ---------- graphs ----------

  datatype Node = Node(id: string, kind: NodeType)

  /** A missing or empty port name is `None`. */
  datatype Connection = Connection(source: string, sourcePort: Option<Port>, target: string, targetPort: Option<Port>)

  function Ids(nodes: seq<Node>): (r: seq<string>)
    ensures |r| == |nodes| && forall i :: 0 <= i < |r| ==> r[i] == nodes[i].id
  {
    seq(|nodes|, i requires 0 <= i < |nodes| => nodes[i].id)
  }

  function Kinds(nodes: seq<Node>): (r: seq<NodeType>)
    ensures |r| == |nodes| && forall i :: 0 <= i < |r| ==> r[i] == nodes[i].kind
  {
    seq(|nodes|, i requires 0 <= i < |nodes| => nodes[i].kind)
  }

  function Pairs(edges: seq<Connection>): (r: seq<Edge>)
    ensures |r| == |edges| && forall i :: 0 <= i < |r| ==> r[i] == (edges[i].source, edges[i].target)
  {
    seq(|edges|, i requires 0 <= i < |edges| => (edges[i].source, edges[i].target))
  }

  /** The type of the node an id names; the last node wins when several share it. */
  function KindOf(nodes: seq<Node>, id: string): Option<NodeType> {
    if nodes == [] then None
    else if nodes[|nodes| - 1].id == id then Some(nodes[|nodes| - 1].kind)
    else KindOf(nodes[..|nodes| - 1], id)
  }

  function Matching(nodes: seq<Node>, kind: NodeType): seq<Node> {
    if nodes == [] then [] else
    (if nodes[0].kind == kind then [nodes[0]] else []) + Matching(nodes[1..], kind)
  }

  function OutputType(nodes: seq<Node>, e: Connection): Option<PortType> {
    var kind := KindOf(nodes, e.source);
    if kind.Some? && e.sourcePort.Some? then OutputOf(kind.value, e.sourcePort.value) else None
  }

  function InputType(nodes: seq<Node>, e: Connection): Option<PortType> {
    var kind := KindOf(nodes, e.target);
    if kind.Some? && e.targetPort.Some? then InputOf(kind.value, e.targetPort.value) else None
  }

  datatype Fault = UnknownEndpoint | UnknownPort | IncompatiblePort | DuplicateInput

  predicate Occupied(accepted: seq<Connection>, target: string, port: Port) {
    exists a :: a in accepted && a.target == target && a.targetPort == Some(port)
  }

  /** What is wrong with one connection, given the connections accepted before it. */
  function FaultOf(nodes: seq<Node>, accepted: seq<Connection>, e: Connection): Option<Fault> {
    if KindOf(nodes, e.source).None? || KindOf(nodes, e.target).None? then Some(UnknownEndpoint)
    else if OutputType(nodes, e).None? || InputType(nodes, e).None? then Some(UnknownPort)
    else if OutputType(nodes, e) != InputType(nodes, e) then Some(IncompatiblePort)
    else if e.targetPort.Some? && Occupied(accepted, e.target, e.targetPort.value) then Some(DuplicateInput)
    else None
  }

  /** The connections that pass, each judged against those accepted before it. */
  function Accepted(nodes: seq<Node>, edges: seq<Connection>): seq<Connection> {
    if edges == [] then [] else
    var before, last := Accepted(nodes, edges[..|edges| - 1]), edges[|edges| - 1];
    if FaultOf(nodes, before, last).None? then before + [last] else before
  }

  /** The types at both ends of a connection, with its ports. */
  function KeyOf(nodes: seq<Node>, e: Connection): (Option<NodeType>, Option<Port>, Option<NodeType>, Option<Port>) {
    (KindOf(nodes, e.source), e.sourcePort, KindOf(nodes, e.target), e.targetPort)
  }

  function KeyOfWire(w: Wire): (Option<NodeType>, Option<Port>, Option<NodeType>, Option<Port>) {
    (Some(w.from), Some(w.output), Some(w.to), Some(w.input))
  }

  function KeysOf(nodes: seq<Node>, edges: seq<Connection>): (r: seq<(Option<NodeType>, Option<Port>, Option<NodeType>, Option<Port>)>)
    ensures |r| == |edges| && forall i :: 0 <= i < |r| ==> r[i] == KeyOf(nodes, edges[i])
  {
    seq(|edges|, i requires 0 <= i < |edges| => KeyOf(nodes, edges[i]))
  }

  /** The shape test: so many nodes under distinct ids, and the supported connections without repetition. */
  predicate TopologySupported(nodes: seq<Node>, edges: seq<Connection>) {
    && |nodes| == |REQUIRED|
    && |set n | n in nodes :: n.id| == |nodes|
    && |edges| == |set k | 0 <= k < WIRE_COUNT :: SupportedWire(k)|
    && |set e | e in edges :: KeyOf(nodes, e)| == |edges|
    && forall i :: 0 <= i < |edges| ==> exists k :: 0 <= k < WIRE_COUNT && KeyOf(nodes, edges[i]) == KeyOfWire(SupportedWire(k))
  }

  // ---------- problems ----------

  datatype Problem =
    | MissingRequiredNode(kind: NodeType)
    | UnsafeActionNode(node: Node)
    | UnsupportedNode(node: Node)
    | MultipleExecutionSinks
    | FaultyConnection(index: nat, fault: Fault)
    | CycleDetected
    | UnsafeUpstream
    | UnsafeDownstream
    | MissingInput(node: Node, port: Port)
    | UnsupportedTopology

  /** Some node of the type can be reached from the one execution node, or reaches it when `reverse`. */
  ghost predicate TypeReached(nodes: seq<Node>, edges: seq<Connection>, reverse: bool, kind: NodeType)
    requires |Matching(nodes, FakeBroker)| == 1
  {
    exists id :: Reaches(Pairs(Accepted(nodes, edges)), reverse, Matching(nodes, FakeBroker)[0].id, id) && KindOf(nodes, id) == Some(kind)
  }

  ghost predicate IsProblem(nodes: seq<Node>, edges: seq<Connection>, p: Problem) {
    match p
    case MissingRequiredNode(kind) => kind in REQUIRED && kind !in Kinds(nodes)
    case UnsafeActionNode(node) => node in nodes && node.kind.UnsafeAction?
    case UnsupportedNode(node) => node in nodes && node.kind.OtherType?
    case MultipleExecutionSinks => |Matching(nodes, FakeBroker)| != 1
    case FaultyConnection(i, fault) => i < |edges| && FaultOf(nodes, Accepted(nodes, edges[..i]), edges[i]) == Some(fault)
    case CycleDetected => HasDirectedCycle(Ids(nodes), Pairs(Accepted(nodes, edges)))
    case UnsafeUpstream =>
      |Matching(nodes, FakeBroker)| == 1 && !forall kind :: kind in UPSTREAM ==> TypeReached(nodes, edges, true, kind)
    case UnsafeDownstream =>
      |Matching(nodes, FakeBroker)| == 1 && !forall kind :: kind in DOWNSTREAM ==> TypeReached(nodes, edges, false, kind)
    case MissingInput(node, port) =>
      node in nodes && InputOf(node.kind, port).Some? && !Occupied(Accepted(nodes, edges), node.id, port)
    case UnsupportedTopology => !TopologySupported(nodes, edges)
  }

  ghost predicate Valid(nodes: seq<Node>, edges: seq<Connection>) {
    forall p :: !IsProblem(nodes, edges, p)
  }

  method ReportNodes(nodes: seq<Node>, ghost edges: seq<Connection>) returns (errors: seq<Problem>)
    ensures forall p :: p in errors <==>
                          (p.MissingRequiredNode? || p.UnsafeActionNode? || p.UnsupportedNode?) && IsProblem(nodes, edges, p)
  {
    errors := [];
    for i := 0 to |REQUIRED|
      invariant forall p :: p in errors <==> p.MissingRequiredNode? && p.kind in REQUIRED[..i] && p.kind !in Kinds(nodes)
    {
      if REQUIRED[i] !in Kinds(nodes) {
        errors := errors + [MissingRequiredNode(REQUIRED[i])];
      }
    }
    assert REQUIRED[..|REQUIRED|] == REQUIRED;
    ghost var missing := errors;
    for i := 0 to |nodes|
      invariant forall p :: p in errors <==>
                              || p in missing
                              || (p.UnsafeActionNode? && p.node in nodes[..i] && p.node.kind.UnsafeAction?)
                              || (p.UnsupportedNode? && p.node in nodes[..i] && p.node.kind.OtherType?)
    {
      if nodes[i].kind.UnsafeAction? {
        errors := errors + [UnsafeActionNode(nodes[i])];
      } else if !Supported(nodes[i].kind) {
        errors := errors + [UnsupportedNode(nodes[i])];
      }
    }
    assert nodes[..|nodes|] == nodes;
  }

  /** Judges the connections in order, and collects those that pass and the inputs they occupy. */
  method SiftConnections(nodes: seq<Node>, edges: seq<Connection>)
    returns (errors: seq<Problem>, accepted: seq<Connection>, occupied: set<(string, Port)>)
    ensures accepted == Accepted(nodes, edges)
    ensures forall target, port :: (target, port) in occupied <==> Occupied(accepted, target, port)
    ensures forall p :: p in errors <==> p.FaultyConnection? && IsProblem(nodes, edges, p)
  {
    errors, accepted, occupied := [], [], {};
    for i := 0 to |edges|
      invariant accepted == Accepted(nodes, edges[..i])
      invariant forall target, port :: (target, port) in occupied <==> Occupied(accepted, target, port)
      invariant forall p :: p in errors <==> p.FaultyConnection? && p.index < i && IsProblem(nodes, edges, p)
    {
      var e := edges[i];
      assert edges[..i + 1][..i] == edges[..i];
      ghost var fault := FaultOf(nodes, accepted, e);
      var output, input := OutputType(nodes, e), InputType(nodes, e);
      if KindOf(nodes, e.source).None? || KindOf(nodes, e.target).None? {
        assert fault == Some(UnknownEndpoint);
        errors := errors + [FaultyConnection(i, UnknownEndpoint)];
      } else if output.None? || input.None? {
        assert fault == Some(UnknownPort);
        errors := errors + [FaultyConnection(i, UnknownPort)];
      } else if output != input {
        assert fault == Some(IncompatiblePort);
        errors := errors + [FaultyConnection(i, IncompatiblePort)];
      } else if (e.target, e.targetPort.value) in occupied {
        assert fault == Some(DuplicateInput);
        errors := errors + [FaultyConnection(i, DuplicateInput)];
      } else {
        occupied := occupied + {(e.target, e.targetPort.value)};
        accepted := accepted + [e];
      }
    }
    assert edges[..|edges|] == edges;
  }

  /** Whether every one of the types is reached from, or reaches, the one execution node. */
  method EveryTypeReached(nodes: seq<Node>, edges: seq<Connection>, accepted: seq<Connection>, reverse: bool, kinds: seq<NodeType>)
    returns (all: bool)
    requires |Matching(nodes, FakeBroker)| == 1 && accepted == Accepted(nodes, edges)
    ensures all <==> forall kind :: kind in kinds ==> TypeReached(nodes, edges, reverse, kind)
  {
    var reached := Reachable(Matching(nodes, FakeBroker)[0].id, Pairs(accepted), reverse);
    var reachedKinds := set id | id in reached :: KindOf(nodes, id);
    forall kind ensures Some(kind) in reachedKinds <==> TypeReached(nodes, edges, reverse, kind) {
      if Some(kind) in reachedKinds {
        var id :| id in reached && KindOf(nodes, id) == Some(kind);
        assert Reaches(Pairs(Accepted(nodes, edges)), reverse, Matching(nodes, FakeBroker)[0].id, id);
      }
    }
    all := true;
    for i := 0 to |kinds|
      invariant all <==> forall j :: 0 <= j < i ==> TypeReached(nodes, edges, reverse, kinds[j])
    {
      if Some(kinds[i]) !in reachedKinds {
        all := false;
      }
    }
  }

  method ReportExecutionPaths(nodes: seq<Node>, edges: seq<Connection>, accepted: seq<Connection>) returns (errors: seq<Problem>)
    requires accepted == Accepted(nodes, edges)
    ensures forall p :: p in errors <==>
                          (p.MultipleExecutionSinks? || p.UnsafeUpstream? || p.UnsafeDownstream?) && IsProblem(nodes, edges, p)
  {
    hide REQUIRED, SupportedWire, UPSTREAM, DOWNSTREAM, FaultOf, TopologySupported, TypeReached, Occupied;
    if |Matching(nodes, FakeBroker)| != 1 {
      return [MultipleExecutionSinks];
    }
    errors := [];
    var upstream := EveryTypeReached(nodes, edges, accepted, true, UPSTREAM);
    if !upstream {
      errors := errors + [UnsafeUpstream];
    }
    var downstream := EveryTypeReached(nodes, edges, accepted, false, DOWNSTREAM);
    if !downstream {
      errors := errors + [UnsafeDownstream];
    }
  }

  /** The inputs of one node that no connection occupies. */
  method MissingInputsOf(node: Node, occupied: set<(string, Port)>) returns (errors: seq<Problem>)
    ensures forall p :: p in errors <==>
                          p.MissingInput? && p.node == node && InputOf(node.kind, p.port).Some? && (node.id, p.port) !in occupied
  {
    errors := [];
    forall kind, port | InputOf(kind, port).Some? ensures port in PORTS { InputsAreNamed(kind, port); }
    hide InputOf, PORTS;
    for j := 0 to |PORTS|
      invariant forall p :: p in errors <==>
                              && p.MissingInput? && p.node == node && p.port in PORTS[..j]
                              && InputOf(node.kind, p.port).Some? && (node.id, p.port) !in occupied
    {
      if InputOf(node.kind, PORTS[j]).Some? && (node.id, PORTS[j]) !in occupied {
        errors := errors + [MissingInput(node, PORTS[j])];
      }
    }
    assert PORTS[..|PORTS|] == PORTS;
  }

  method ReportMissingInputs(nodes: seq<Node>, edges: seq<Connection>, ghost accepted: seq<Connection>, occupied: set<(string, Port)>)
    returns (errors: seq<Problem>)
    requires accepted == Accepted(nodes, edges)
    requires forall target, port :: (target, port) in occupied <==> Occupied(accepted, target, port)
    ensures forall p :: p in errors <==> p.MissingInput? && IsProblem(nodes, edges, p)
  {
    hide InputOf, Accepted, Occupied;
    errors := [];
    for i := 0 to |nodes|
      invariant forall p :: p in errors <==>
                              && p.MissingInput? && p.node in nodes[..i] && InputOf(p.node.kind, p.port).Some?
                              && (p.node.id, p.port) !in occupied
    {
      var missing := MissingInputsOf(nodes[i], occupied);
      errors := errors + missing;
    }
    assert nodes[..|nodes|] == nodes;
  }

  lemma InputsAreNamed(kind: NodeType, port: Port)
    requires InputOf(kind, port).Some?
    ensures port in PORTS
  {
    assert PORTS[0] == Trades && PORTS[1] == SymbolPort && PORTS[2] == SessionPort && PORTS[3] == ContractPort;
    assert PORTS[5] == LevelPort && PORTS[6] == TriggerPort && PORTS[8] == StopPricePort && PORTS[9] == MaximumDollarLossPort;
    assert PORTS[10] == PlanPort && PORTS[11] == ReportPort && PORTS[12] == PositionPort && PORTS[13] == EventPort;
  }

  /** Reports exactly the problems the graph has; the graph is valid when there are none. */
  method Validate(nodes: seq<Node>, edges: seq<Connection>) returns (errors: seq<Problem>)
    ensures forall p :: p in errors <==> IsProblem(nodes, edges, p)
    ensures errors == [] <==> Valid(nodes, edges)
  {
    hide REQUIRED, SupportedWire, UPSTREAM, DOWNSTREAM, FaultOf, TopologySupported, TypeReached, Occupied;
    var nodeErrors := ReportNodes(nodes, edges);
    var connectionErrors, accepted, occupied := SiftConnections(nodes, edges);
    errors := nodeErrors + connectionErrors;
    var cyclic, _ := HasCycle(Ids(nodes), Pairs(accepted));
    if cyclic {
      errors := errors + [CycleDetected];
    }
    var pathErrors := ReportExecutionPaths(nodes, edges, accepted);
    var missing := ReportMissingInputs(nodes, edges, accepted, occupied);
    errors := errors + pathErrors + missing;
    if !TopologySupported(nodes, edges) {
      errors := errors + [UnsupportedTopology];
    }
    assert errors != [] ==> errors[0] in errors;
  }
}
