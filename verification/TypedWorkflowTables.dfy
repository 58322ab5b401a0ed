/** Facts about the port tables and the supported wiring, checked entry by entry. */
module TypedWorkflowTables {
  import opened Foundations
  import opened TypedWorkflow

  /** The place of a required type in the list of required types. */
  function PlaceOf(kind: NodeType): int {
    match kind
    case HistoricalDataset => 0
    case SymbolInput => 1
    case DollarRiskInput => 2
    case RthSession => 3
    case OpeningRangeHigh => 4
    case DayLow => 5
    case CrossesAbove => 6
    case OneShotPerSession => 7
    case LongRiskSize => 8
    case RiskGate => 9
    case StaleDataGate => 10
    case ReconciliationGate => 11
    case EmergencyStopGate => 12
    case ArmedRunAuthorization => 13
    case EntryLifetime => 14
    case PositionLifetime => 15
    case ProtectiveStop => 16
    case StopMarketEntry => 17
    case FakeBroker => 18
    case PositionMonitor => 19
    case Alert => 20
    case AuditSink => 21
    case _ => -1
  }

  lemma PlaceIsLeftInverse(k: nat)
    requires k < |REQUIRED|
    ensures PlaceOf(REQUIRED[k]) == k
  {
  }

  lemma PlaceIsRightInverse(kind: NodeType)
    requires PlaceOf(kind) >= 0
    ensures PlaceOf(kind) < |REQUIRED| && REQUIRED[PlaceOf(kind)] == kind && Supported(kind)
  {
  }

  /** The one supported wire into an input, if it has one. */
  function WireInto(kind: NodeType, port: Port): int {
    match kind
    case AuditSink => if port.EventPort? then 0 else -1
    case EntryLifetime => if port.PlanPort? then 1 else -1
    case OneShotPerSession => if port.TriggerPort? then 2 else if port.SessionPort? then 22 else -1
    case LongRiskSize =>
      if port.StopPricePort? then 3 else if port.MaximumDollarLossPort? then 5
      else if port.TriggerPort? then 11 else if port.ContractPort? then 20 else -1
    case ProtectiveStop => if port.StopPricePort? then 4 else if port.PlanPort? then 14 else -1
    case ArmedRunAuthorization => if port.PlanPort? then 6 else -1
    case PositionLifetime => if port.PlanPort? then 7 else -1
    case PositionMonitor => if port.ReportPort? then 8 else -1
    case RthSession => if port.Trades? then 9 else if port.SymbolPort? then 30 else -1
    case RiskGate => if port.PlanPort? then 10 else -1
    case StopMarketEntry => if port.TriggerPort? then 12 else if port.PlanPort? then 16 else -1
    case CrossesAbove => if port.LevelPort? then 13 else if port.ContractPort? then 19 else if port.Trades? then 24 else -1
    case Alert => if port.PositionPort? then 15 else -1
    case EmergencyStopGate => if port.PlanPort? then 17 else -1
    case StaleDataGate => if port.PlanPort? then 18 else if port.Trades? then 27 else -1
    case DayLow => if port.SessionPort? then 21 else if port.Trades? then 25 else -1
    case OpeningRangeHigh => if port.SessionPort? then 23 else if port.Trades? then 26 else -1
    case ReconciliationGate => if port.PlanPort? then 28 else -1
    case FakeBroker => if port.PlanPort? then 29 else -1
    case _ => -1
  }

  /** Every wire leads to a later place in the list of required types. */
  lemma WiresLeadUp(k: nat)
    requires k < WIRE_COUNT
    ensures 0 <= PlaceOf(SupportedWire(k).from) < PlaceOf(SupportedWire(k).to)
  {
    hide PlaceOf, SupportedWire;
    if k < 16 {
      EarlyWiresLeadUp(k);
    } else {
      LateWiresLeadUp(k);
    }
  }

  lemma EarlyWiresLeadUp(k: nat)
    requires k < 16
    ensures 0 <= PlaceOf(SupportedWire(k).from) < PlaceOf(SupportedWire(k).to)
  {
  }

  lemma LateWiresLeadUp(k: nat)
    requires 16 <= k < WIRE_COUNT
    ensures 0 <= PlaceOf(SupportedWire(k).from) < PlaceOf(SupportedWire(k).to)
  {
  }

  /** Every wire joins an output and an input of one port type. */
  lemma WiresFitOutput(k: nat)
    requires k < WIRE_COUNT
    ensures OutputOf(SupportedWire(k).from, SupportedWire(k).output) == Some(WireType(k))
  {
  }

  lemma WiresFitInput(k: nat)
    requires k < WIRE_COUNT
    ensures InputOf(SupportedWire(k).to, SupportedWire(k).input) == Some(WireType(k))
  {
  }

  /** The port type each wire carries. */
  function WireType(k: nat): PortType {
    if k in {0} then AuditEvent
    else if k in {1, 7, 14} then AuthorizedOrderPlan
    else if k in {2, 11, 12} then TriggerEvent
    else if k in {3, 4, 13} then Price
    else if k == 5 then Money
    else if k in {6, 10, 17, 18, 28} then OrderPlan
    else if k == 8 then ExecutionReport
    else if k in {9, 24, 25, 26, 27} then TradeStream
    else if k == 15 then PositionState
    else if k in {16, 29} then ProtectedOrderPlan
    else if k in {19, 20} then Contract
    else if k in {21, 22, 23} then Session
    else SymbolName
  }

  lemma WiresAreByInput(k: nat)
    requires k < WIRE_COUNT
    ensures WireInto(SupportedWire(k).to, SupportedWire(k).input) == k
  {
  }

  /** Every input port of a required type is fed by exactly one supported wire, and that wire fits the port. */
  lemma EveryInputHasOneWire(kind: NodeType, port: Port)
    requires PlaceOf(kind) >= 0 && InputOf(kind, port).Some?
    ensures 0 <= WireInto(kind, port) < WIRE_COUNT
    ensures forall k :: 0 <= k < WIRE_COUNT ==>
                          (SupportedWire(k).to == kind && SupportedWire(k).input == port <==> k == WireInto(kind, port))
    ensures var w := SupportedWire(WireInto(kind, port));
            OutputOf(w.from, w.output) == InputOf(kind, port)
  {
    WireIsThere(kind, port);
    WireFeeds(kind, port);
    forall k | 0 <= k < WIRE_COUNT && SupportedWire(k).to == kind && SupportedWire(k).input == port
      ensures k == WireInto(kind, port)
    {
      WiresAreByInput(k);
    }
    WiresFitOutput(WireInto(kind, port));
    WiresFitInput(WireInto(kind, port));
    hide SupportedWire, WireInto, InputOf, OutputOf;
  }

  lemma WireIsThere(kind: NodeType, port: Port)
    requires PlaceOf(kind) >= 0 && InputOf(kind, port).Some?
    ensures 0 <= WireInto(kind, port) < WIRE_COUNT
  {
  }

  lemma WireFeeds(kind: NodeType, port: Port)
    requires 0 <= WireInto(kind, port) < WIRE_COUNT
    ensures SupportedWire(WireInto(kind, port)).to == kind && SupportedWire(WireInto(kind, port)).input == port
  {
  }

  /** A supported wire that has the type at one of its ends. */
  function EndWire(kind: NodeType): nat {
    match kind
    case HistoricalDataset => 9
    case SymbolInput => 30
    case DollarRiskInput => 5
    case RthSession => 9
    case OpeningRangeHigh => 13
    case DayLow => 3
    case CrossesAbove => 2
    case OneShotPerSession => 11
    case LongRiskSize => 10
    case RiskGate => 10
    case StaleDataGate => 18
    case ReconciliationGate => 17
    case EmergencyStopGate => 6
    case ArmedRunAuthorization => 1
    case EntryLifetime => 1
    case PositionLifetime => 7
    case ProtectiveStop => 14
    case StopMarketEntry => 16
    case FakeBroker => 8
    case PositionMonitor => 8
    case Alert => 0
    case _ => 0
  }

  lemma RequiredIsEnd(kind: NodeType)
    requires PlaceOf(kind) >= 0
    ensures EndWire(kind) < WIRE_COUNT
    ensures SupportedWire(EndWire(kind)).from == kind || SupportedWire(EndWire(kind)).to == kind
  {
  }
}
