/** The join check a client runs over one durable read snapshot before it shows any of it. */
module ReadSnapshot {
  import opened Foundations
  import Blob = BlobBatch

  // ---------- the views ----------

  datatype RunStatus = WaitingForApproval | ApprovedNotExecuted | RunRejected | Executed | ExecutedProtectionMissing | OtherStatus(text: string)

  datatype DecisionAttribution = DecisionAttribution(
    schemaVersion: int, workflowId: string, workflowVersion: int, runId: string, runStatus: RunStatus,
    signalId: string, orderIntentId: string, riskDecisionId: string, approvalTicketId: string,
    approvalDecisionId: Option<string>, approvalDecision: Option<string>, approvalActor: Option<string>,
    approvalReason: Option<string>, approvalDecidedAt: Option<string>,
    signalReference: string, orderIntentReference: string, riskReference: string, ticketReference: string,
    decisionReference: Option<string>, journalReferences: seq<string>,
    evidenceSource: string, classifications: seq<string>, brokerDerived: bool, externallyVerified: bool)

  datatype ExecutionAttribution = ExecutionAttribution(
    schemaVersion: int, workflowId: string, workflowVersion: int, runId: string, executionId: string,
    orderIntentId: string, riskDecisionId: string, approvalTicketId: string, approvalDecisionId: string,
    orderId: string, fillReference: string, positionId: string, protectionStatus: string, expectedProtectionKind: string,
    riskIncreasingBlocked: bool, alertId: string, journalReferences: seq<string>, executionReferences: seq<string>,
    evidenceSource: string, classifications: seq<string>, brokerDerived: bool, externallyVerified: bool)

  datatype Signal = Signal(signalId: string, kind: string, decision: Option<DecisionAttribution>)

  datatype RiskDecision = RiskDecision(
    requestId: string, result: string, failedChecks: seq<string>, decision: Option<DecisionAttribution>)

  datatype Ticket = Ticket(
    ticketId: string, orderId: string, status: string, riskDecisionId: string, decision: Option<DecisionAttribution>)

  datatype AuditEvent = AuditEvent(
    sequence: int, runId: Option<string>, orderId: Option<string>, ticketId: Option<string>,
    decision: Option<DecisionAttribution>, execution: Option<ExecutionAttribution>)

  datatype Order = Order(orderId: string, riskDecisionId: string, execution: Option<ExecutionAttribution>)

  datatype Position = Position(positionId: string, protectionStatus: string, execution: Option<ExecutionAttribution>)

  datatype Alert = Alert(alertId: string, execution: Option<ExecutionAttribution>)

  datatype Provenance = Provenance(source: string, classifications: seq<string>)

  datatype Snapshot = Snapshot(
    auditProvenance: Provenance, signalProvenance: Provenance, riskProvenance: Provenance, ticketProvenance: Provenance,
    orderProvenance: Provenance, positionProvenance: Provenance, alertProvenance: Provenance,
    auditEvents: seq<AuditEvent>, signals: seq<Signal>, risks: seq<RiskDecision>, tickets: seq<Ticket>,
    orders: seq<Order>, positions: seq<Position>, alerts: seq<Alert>)

  // ---------- journal references ----------

  const REFERENCE_PREFIX := "journal_sequence:"

  function Text(digits: Blob.Bytes): (r: string)
    ensures |r| == |digits| && forall i :: 0 <= i < |r| ==> r[i] == digits[i] as char
  {
    seq(|digits|, i requires 0 <= i < |digits| => digits[i] as char)
  }

  /** The reference an audit event is known by. */
  function Reference(sequence: int): string {
    REFERENCE_PREFIX + if sequence < 0 then "-" + Text(Blob.Decimal(-sequence)) else Text(Blob.Decimal(sequence))
  }

  predicate AllDigits(s: string) {
    forall i :: 0 <= i < |s| ==> '0' <= s[i] <= '9'
  }

  predicate IsReference(s: string) {
    && |s| > |REFERENCE_PREFIX| && s[..|REFERENCE_PREFIX|] == REFERENCE_PREFIX
    && AllDigits(s[|REFERENCE_PREFIX|..]) && s[|REFERENCE_PREFIX|] != '0'
  }

  function ReferenceNumber(s: string): nat
    requires IsReference(s)
  {
    var tail := s[|REFERENCE_PREFIX|..];
    Blob.ValueOf(seq(|tail|, i requires 0 <= i < |tail| => tail[i] as int as Blob.byte))
  }

  predicate ValidReferences(references: seq<string>) {
    && references != []
    && (forall i :: 0 <= i < |references| ==> IsReference(references[i]))
    && |set x | x in references| == |references|
    && (forall i :: 0 < i < |references| ==> ReferenceNumber(references[i - 1]) < ReferenceNumber(references[i]))
  }

  // ---------- attributions ----------

  const EVIDENCE := "schema_v4_sqlite_digest_bound_jsonl"
  const LIFECYCLE_CLASSES := ["simulated", "local_only", "externally_unverified"]
  const EXECUTION_CLASSES := ["simulated", "local_only", "fake_broker_derived", "externally_unverified"]
  const LIFECYCLE_SOURCE := "durable_saved_workflow_simulation"
  const EXECUTION_SOURCE := "durable_saved_workflow_simulation_execution"

  /** The parts with commas between, as `join(",")` compares lists of labels. */
  function Joined(parts: seq<string>): string {
    if parts == [] then "" else if |parts| == 1 then parts[0] else parts[0] + "," + Joined(parts[1..])
  }

  predicate Filled(o: Option<string>) {
    o.Some? && o.value != ""
  }

  function DecisionFields(a: DecisionAttribution): seq<Option<string>> {
    [a.approvalDecisionId, a.approvalDecision, a.approvalActor, a.approvalReason, a.approvalDecidedAt, a.decisionReference]
  }

  predicate DecisionFieldsFit(a: DecisionAttribution) {
    match a.runStatus
    case OtherStatus(_) => false
    case WaitingForApproval => forall i :: 0 <= i < 6 ==> DecisionFields(a)[i].None?
    case _ =>
      && (forall i :: 0 <= i < 6 ==> Filled(DecisionFields(a)[i]))
      && a.approvalDecision == Some(if a.runStatus.RunRejected? then "rejected" else "approved")
  }

  function EventReferences(a: DecisionAttribution): seq<string> {
    [a.signalReference, a.orderIntentReference, a.riskReference, a.ticketReference]
    + if a.decisionReference.None? then [] else [a.decisionReference.value]
  }

  predicate EventReferencesFit(a: DecisionAttribution) {
    && a.signalId == a.signalReference
    && |set x | x in EventReferences(a)| == |EventReferences(a)|
    && forall i :: 0 <= i < |EventReferences(a)| ==> EventReferences(a)[i] in a.journalReferences
  }

  predicate ValidDecision(a: DecisionAttribution) {
    && a.schemaVersion == 1 && a.workflowVersion >= 1
    && "" !in [a.workflowId, a.runId, a.signalId, a.orderIntentId, a.riskDecisionId, a.approvalTicketId,
               a.signalReference, a.orderIntentReference, a.riskReference, a.ticketReference]
    && DecisionFieldsFit(a)
    && a.evidenceSource == EVIDENCE && Joined(a.classifications) == Joined(LIFECYCLE_CLASSES)
    && !a.brokerDerived && !a.externallyVerified
    && ValidReferences(a.journalReferences)
    && EventReferencesFit(a)
  }

  predicate ValidExecution(a: ExecutionAttribution) {
    && a.schemaVersion == 1 && a.workflowVersion >= 1
    && "" !in [a.workflowId, a.runId, a.executionId, a.orderIntentId, a.riskDecisionId, a.approvalTicketId,
               a.approvalDecisionId, a.orderId, a.fillReference, a.positionId, a.expectedProtectionKind, a.alertId]
    && a.protectionStatus in ["expected_protection_present", "missing_expected_protection"]
    && a.riskIncreasingBlocked == (a.protectionStatus == "missing_expected_protection")
    && a.evidenceSource == EVIDENCE && Joined(a.classifications) == Joined(EXECUTION_CLASSES)
    && !a.brokerDerived && !a.externallyVerified
    && ValidReferences(a.journalReferences) && ValidReferences(a.executionReferences)
    && forall i :: 0 <= i < |a.executionReferences| ==> a.executionReferences[i] in a.journalReferences
  }

  // ---------- what an accepted snapshot is ----------

  predicate SignalFits(r: Signal) {
    && r.decision.Some? && ValidDecision(r.decision.value)
    && r.signalId == r.decision.value.signalId && r.kind == "long_entry_candidate"
  }

  predicate RiskFits(r: RiskDecision) {
    && r.decision.Some? && ValidDecision(r.decision.value)
    && r.requestId == r.decision.value.riskDecisionId && r.result == "passed" && r.failedChecks == []
  }

  function ExpectedStatus(a: DecisionAttribution): string {
    if a.runStatus.WaitingForApproval? then "pending" else if a.runStatus.RunRejected? then "rejected" else "approved"
  }

  predicate TicketFits(r: Ticket) {
    && r.decision.Some? && ValidDecision(r.decision.value)
    && r.ticketId == r.decision.value.approvalTicketId && r.riskDecisionId == r.decision.value.riskDecisionId
    && r.status == ExpectedStatus(r.decision.value)
  }

  /** The run a record is attributed to. */
  function RunOf(a: Option<DecisionAttribution>): string {
    if a.Some? then a.value.runId else ""
  }

  function SignalRuns(s: seq<Signal>): (r: seq<string>)
    ensures |r| == |s| && forall i :: 0 <= i < |r| ==> r[i] == RunOf(s[i].decision)
  {
    seq(|s|, i requires 0 <= i < |s| => RunOf(s[i].decision))
  }

  function SignalIds(s: seq<Signal>): (r: seq<string>)
    ensures |r| == |s| && forall i :: 0 <= i < |r| ==> r[i] == s[i].signalId
  {
    seq(|s|, i requires 0 <= i < |s| => s[i].signalId)
  }

  function RiskRuns(s: seq<RiskDecision>): (r: seq<string>)
    ensures |r| == |s| && forall i :: 0 <= i < |r| ==> r[i] == RunOf(s[i].decision)
  {
    seq(|s|, i requires 0 <= i < |s| => RunOf(s[i].decision))
  }

  function RiskIds(s: seq<RiskDecision>): (r: seq<string>)
    ensures |r| == |s| && forall i :: 0 <= i < |r| ==> r[i] == s[i].requestId
  {
    seq(|s|, i requires 0 <= i < |s| => s[i].requestId)
  }

  function TicketRuns(s: seq<Ticket>): (r: seq<string>)
    ensures |r| == |s| && forall i :: 0 <= i < |r| ==> r[i] == RunOf(s[i].decision)
  {
    seq(|s|, i requires 0 <= i < |s| => RunOf(s[i].decision))
  }

  function TicketIds(s: seq<Ticket>): (r: seq<string>)
    ensures |r| == |s| && forall i :: 0 <= i < |r| ==> r[i] == s[i].ticketId
  {
    seq(|s|, i requires 0 <= i < |s| => s[i].ticketId)
  }

  ghost predicate SignalsFit(s: seq<Signal>) {
    (forall i :: 0 <= i < |s| ==> SignalFits(s[i])) && Distinct(SignalIds(s)) && Distinct(SignalRuns(s))
  }

  ghost predicate RisksFit(s: seq<RiskDecision>) {
    (forall i :: 0 <= i < |s| ==> RiskFits(s[i])) && Distinct(RiskIds(s)) && Distinct(RiskRuns(s))
  }

  ghost predicate TicketsFit(s: seq<Ticket>) {
    (forall i :: 0 <= i < |s| ==> TicketFits(s[i])) && Distinct(TicketIds(s)) && Distinct(TicketRuns(s))
  }

  // ---------- the three indexing loops ----------

  /** One more element keeps a prefix distinct exactly when it is new; a repeated one spoils the whole. */
  lemma PrefixStep(s: seq<string>, i: nat)
    requires i < |s|
    ensures Elements(s[..i + 1]) == Elements(s[..i]) + {s[i]}
    ensures Distinct(s[..i]) && s[i] !in Elements(s[..i]) ==> Distinct(s[..i + 1])
    ensures s[i] in Elements(s[..i]) ==> !Distinct(s)
  {
    assert s[..i + 1] == s[..i] + [s[i]];
    if s[i] in Elements(s[..i]) {
      var k :| 0 <= k < i && s[k] == s[i];
    }
  }

  ghost predicate IndexesSignals(byRun: map<string, Signal>, s: seq<Signal>) {
    && byRun.Keys == Elements(SignalRuns(s))
    && forall i :: 0 <= i < |s| ==> SignalRuns(s)[i] in byRun && byRun[SignalRuns(s)[i]] == s[i]
  }

  ghost predicate IndexesRisks(byRun: map<string, RiskDecision>, s: seq<RiskDecision>) {
    && byRun.Keys == Elements(RiskRuns(s))
    && forall i :: 0 <= i < |s| ==> RiskRuns(s)[i] in byRun && byRun[RiskRuns(s)[i]] == s[i]
  }

  ghost predicate IndexesTickets(byRun: map<string, Ticket>, s: seq<Ticket>) {
    && byRun.Keys == Elements(TicketRuns(s))
    && forall i :: 0 <= i < |s| ==> TicketRuns(s)[i] in byRun && byRun[TicketRuns(s)[i]] == s[i]
  }

  /** Refuses ill-fitting and repeated signals, and otherwise indexes them by run. */
  method IndexSignals(signals: seq<Signal>) returns (ok: bool, byRun: map<string, Signal>)
    ensures ok <==> SignalsFit(signals)
    ensures ok ==> IndexesSignals(byRun, signals)
  {
    hide SignalFits, Distinct, Elements, RunOf;
    byRun := map[];
    var ids: set<string> := {};
    ghost var allIds, allRuns := SignalIds(signals), SignalRuns(signals);
    assert Elements(allIds[..0]) == Elements(allRuns[..0]) == {} && Distinct(allIds[..0]) && Distinct(allRuns[..0]) by {
      NothingYet(allIds);
      NothingYet(allRuns);
    }
    for i := 0 to |signals|
      invariant forall k :: 0 <= k < i ==> SignalFits(signals[k])
      invariant ids == Elements(allIds[..i]) && Distinct(allIds[..i])
      invariant byRun.Keys == Elements(allRuns[..i]) && Distinct(allRuns[..i])
      invariant forall k :: 0 <= k < i ==> allRuns[k] in byRun && byRun[allRuns[k]] == signals[k]
    {
      var signal, run := signals[i], RunOf(signals[i].decision);
      PrefixStep(allIds, i);
      PrefixStep(allRuns, i);
      if !SignalFits(signal) || signal.signalId in ids || run in byRun {
        return false, byRun;
      }
      assert forall k :: 0 <= k < i ==> allRuns[k] != run;
      ids := ids + {signal.signalId};
      byRun := byRun[run := signal];
    }
    assert allIds[..|signals|] == allIds && allRuns[..|signals|] == allRuns;
    return true, byRun;
  }

  /** Refuses ill-fitting and repeated risk decisions, and otherwise indexes them by run. */
  method IndexRisks(risks: seq<RiskDecision>) returns (ok: bool, byRun: map<string, RiskDecision>)
    ensures ok <==> RisksFit(risks)
    ensures ok ==> IndexesRisks(byRun, risks)
  {
    hide RiskFits, Distinct, Elements, RunOf;
    byRun := map[];
    var ids: set<string> := {};
    ghost var allIds, allRuns := RiskIds(risks), RiskRuns(risks);
    assert Elements(allIds[..0]) == Elements(allRuns[..0]) == {} && Distinct(allIds[..0]) && Distinct(allRuns[..0]) by {
      NothingYet(allIds);
      NothingYet(allRuns);
    }
    for i := 0 to |risks|
      invariant forall k :: 0 <= k < i ==> RiskFits(risks[k])
      invariant ids == Elements(allIds[..i]) && Distinct(allIds[..i])
      invariant byRun.Keys == Elements(allRuns[..i]) && Distinct(allRuns[..i])
      invariant forall k :: 0 <= k < i ==> allRuns[k] in byRun && byRun[allRuns[k]] == risks[k]
    {
      var risk, run := risks[i], RunOf(risks[i].decision);
      PrefixStep(allIds, i);
      PrefixStep(allRuns, i);
      if !RiskFits(risk) || risk.requestId in ids || run in byRun {
        return false, byRun;
      }
      assert forall k :: 0 <= k < i ==> allRuns[k] != run;
      ids := ids + {risk.requestId};
      byRun := byRun[run := risk];
    }
    assert allIds[..|risks|] == allIds && allRuns[..|risks|] == allRuns;
    return true, byRun;
  }

  /** Refuses ill-fitting and repeated tickets, and otherwise indexes them by run. */
  method IndexTickets(tickets: seq<Ticket>) returns (ok: bool, byRun: map<string, Ticket>)
    ensures ok <==> TicketsFit(tickets)
    ensures ok ==> IndexesTickets(byRun, tickets)
  {
    hide TicketFits, Distinct, Elements, RunOf;
    byRun := map[];
    var ids: set<string> := {};
    ghost var allIds, allRuns := TicketIds(tickets), TicketRuns(tickets);
    assert Elements(allIds[..0]) == Elements(allRuns[..0]) == {} && Distinct(allIds[..0]) && Distinct(allRuns[..0]) by {
      NothingYet(allIds);
      NothingYet(allRuns);
    }
    for i := 0 to |tickets|
      invariant forall k :: 0 <= k < i ==> TicketFits(tickets[k])
      invariant ids == Elements(allIds[..i]) && Distinct(allIds[..i])
      invariant byRun.Keys == Elements(allRuns[..i]) && Distinct(allRuns[..i])
      invariant forall k :: 0 <= k < i ==> allRuns[k] in byRun && byRun[allRuns[k]] == tickets[k]
    {
      var ticket, run := tickets[i], RunOf(tickets[i].decision);
      PrefixStep(allIds, i);
      PrefixStep(allRuns, i);
      if !TicketFits(ticket) || ticket.ticketId in ids || run in byRun {
        return false, byRun;
      }
      assert forall k :: 0 <= k < i ==> allRuns[k] != run;
      ids := ids + {ticket.ticketId};
      byRun := byRun[run := ticket];
    }
    assert allIds[..|tickets|] == allIds && allRuns[..|tickets|] == allRuns;
    return true, byRun;
  }

  lemma NothingYet(s: seq<string>)
    ensures Elements(s[..0]) == {} && Distinct(s[..0])
  {
  }

  // ---------- the runs agree ----------

  predicate SameStringSet(left: set<string>, right: set<string>) {
    |left| == |right| && forall x :: x in left ==> x in right
  }

  /** Comparing sizes and one inclusion is comparing the sets. */
  lemma SameStringSetIsEquality(left: set<string>, right: set<string>)
    ensures SameStringSet(left, right) <==> left == right
  {
    if SameStringSet(left, right) {
      SubsetOfSameSize(left, right);
    }
  }

  /** Signals, risk decisions and tickets name the same runs, with equal attributions run by run. */
  ghost predicate RunsAgree(signals: seq<Signal>, risks: seq<RiskDecision>, tickets: seq<Ticket>) {
    && Elements(SignalRuns(signals)) == Elements(RiskRuns(risks)) == Elements(TicketRuns(tickets))
    && (forall i, j :: 0 <= i < |signals| && 0 <= j < |risks| && SignalRuns(signals)[i] == RiskRuns(risks)[j]
                       ==> signals[i].decision == risks[j].decision)
    && (forall i, j :: 0 <= i < |signals| && 0 <= j < |tickets| && SignalRuns(signals)[i] == TicketRuns(tickets)[j]
                       ==> signals[i].decision == tickets[j].decision)
  }

  /** The agreement at one run, read from the indexes. */
  predicate AgreesAt(signal: Signal, risks: map<string, RiskDecision>, tickets: map<string, Ticket>) {
    var run := RunOf(signal.decision);
    run in risks && run in tickets && signal.decision == risks[run].decision && signal.decision == tickets[run].decision
  }

  lemma AgreementByIndex(signals: seq<Signal>, risks: seq<RiskDecision>, tickets: seq<Ticket>,
                         riskByRun: map<string, RiskDecision>, ticketByRun: map<string, Ticket>)
    requires IndexesRisks(riskByRun, risks) && IndexesTickets(ticketByRun, tickets)
    requires Elements(SignalRuns(signals)) == riskByRun.Keys == ticketByRun.Keys
    ensures RunsAgree(signals, risks, tickets) <==>
            forall i :: 0 <= i < |signals| ==> AgreesAt(signals[i], riskByRun, ticketByRun)
  {
    if forall i :: 0 <= i < |signals| ==> AgreesAt(signals[i], riskByRun, ticketByRun) {
      forall i, j | 0 <= i < |signals| && 0 <= j < |risks| && SignalRuns(signals)[i] == RiskRuns(risks)[j]
        ensures signals[i].decision == risks[j].decision
      {
        assert AgreesAt(signals[i], riskByRun, ticketByRun);
      }
      forall i, j | 0 <= i < |signals| && 0 <= j < |tickets| && SignalRuns(signals)[i] == TicketRuns(tickets)[j]
        ensures signals[i].decision == tickets[j].decision
      {
        assert AgreesAt(signals[i], riskByRun, ticketByRun);
      }
    }
    if RunsAgree(signals, risks, tickets) {
      forall i | 0 <= i < |signals| ensures AgreesAt(signals[i], riskByRun, ticketByRun) {
        var run := SignalRuns(signals)[i];
        assert run in Elements(SignalRuns(signals));
        assert run in Elements(RiskRuns(risks)) && run in Elements(TicketRuns(tickets));
        var j :| 0 <= j < |risks| && RiskRuns(risks)[j] == run;
        var k :| 0 <= k < |tickets| && TicketRuns(tickets)[k] == run;
      }
    }
  }

  method CheckRuns(signals: seq<Signal>, risks: seq<RiskDecision>, tickets: seq<Ticket>,
                   signalByRun: map<string, Signal>, riskByRun: map<string, RiskDecision>, ticketByRun: map<string, Ticket>)
    returns (ok: bool)
    requires IndexesSignals(signalByRun, signals) && IndexesRisks(riskByRun, risks) && IndexesTickets(ticketByRun, tickets)
    ensures ok <==> RunsAgree(signals, risks, tickets)
  {
    hide AgreesAt, SameStringSet, IndexesRisks, IndexesTickets, RunsAgree;
    SameStringSetIsEquality(signalByRun.Keys, riskByRun.Keys);
    SameStringSetIsEquality(signalByRun.Keys, ticketByRun.Keys);
    IndexedRuns(signals, risks, tickets, riskByRun, ticketByRun);
    if !SameStringSet(signalByRun.Keys, riskByRun.Keys) || !SameStringSet(signalByRun.Keys, ticketByRun.Keys) {
      return false;
    }
    AgreementByIndex(signals, risks, tickets, riskByRun, ticketByRun);
    for i := 0 to |signals|
      invariant forall k :: 0 <= k < i ==> AgreesAt(signals[k], riskByRun, ticketByRun)
    {
      if !AgreesAt(signals[i], riskByRun, ticketByRun) {
        return false;
      }
    }
    return true;
  }

  lemma IndexedRuns(signals: seq<Signal>, risks: seq<RiskDecision>, tickets: seq<Ticket>,
                    riskByRun: map<string, RiskDecision>, ticketByRun: map<string, Ticket>)
    requires IndexesRisks(riskByRun, risks) && IndexesTickets(ticketByRun, tickets)
    ensures RunsAgree(signals, risks, tickets) ==> Elements(SignalRuns(signals)) == riskByRun.Keys == ticketByRun.Keys
  {
  }

  // ---------- the audit events cover the manifests ----------

  /** The ticket is the one the event's attribution belongs to. */
  predicate Backs(t: Ticket, e: AuditEvent) {
    t.decision == e.decision && e.orderId == Some(t.orderId)
  }

  /** The event agrees with its own attribution, whose manifest lists it. */
  predicate SelfConsistent(e: AuditEvent) {
    && e.decision.Some? && ValidDecision(e.decision.value)
    && e.runId == Some(e.decision.value.runId) && e.ticketId == Some(e.decision.value.approvalTicketId)
    && Reference(e.sequence) in e.decision.value.journalReferences
  }

  ghost predicate EventFits(e: AuditEvent, tickets: seq<Ticket>) {
    SelfConsistent(e) && exists t :: t in tickets && Backs(t, e)
  }

  /** The references of the events attributed to a run. */
  ghost function ReferencesOf(events: seq<AuditEvent>, run: string): set<string> {
    set e | e in events && RunOf(e.decision) == run :: Reference(e.sequence)
  }

  function Manifest(t: Ticket): seq<string> {
    if t.decision.Some? then t.decision.value.journalReferences else []
  }

  /** Every event fits its run, and every run's events are exactly its manifest. */
  ghost predicate AuditFits(events: seq<AuditEvent>, tickets: seq<Ticket>) {
    && (forall i :: 0 <= i < |events| ==> EventFits(events[i], tickets))
    && (forall k :: 0 <= k < |tickets| ==> Elements(Manifest(tickets[k])) == ReferencesOf(events, TicketRuns(tickets)[k]))
  }

  function Found(byRun: map<string, set<string>>, run: string): set<string> {
    if run in byRun then byRun[run] else {}
  }

  lemma BackedByIndex(e: AuditEvent, tickets: seq<Ticket>, byRun: map<string, Ticket>)
    requires IndexesTickets(byRun, tickets)
    ensures (exists t :: t in tickets && Backs(t, e)) <==>
            RunOf(e.decision) in byRun && Backs(byRun[RunOf(e.decision)], e)
  {
    var run := RunOf(e.decision);
    if run in byRun && Backs(byRun[run], e) {
      assert run in Elements(TicketRuns(tickets));
      var k :| 0 <= k < |tickets| && TicketRuns(tickets)[k] == run;
      assert tickets[k] in tickets && Backs(tickets[k], e);
    }
    if t :| t in tickets && Backs(t, e) {
      var k :| 0 <= k < |tickets| && tickets[k] == t;
      assert TicketRuns(tickets)[k] == run;
    }
  }

  lemma ReferencesGrow(events: seq<AuditEvent>, i: nat, run: string)
    requires i < |events|
    ensures ReferencesOf(events[..i + 1], run) ==
            ReferencesOf(events[..i], run) + if RunOf(events[i].decision) == run then {Reference(events[i].sequence)} else {}
  {
    assert events[..i + 1] == events[..i] + [events[i]];
    hide Reference;
  }

  lemma NoReferences(events: seq<AuditEvent>)
    ensures forall run :: ReferencesOf(events[..0], run) == {}
  {
  }

  lemma SetOf(s: seq<string>)
    ensures (set x | x in s) == Elements(s)
  {
  }

  lemma RunIsIndexed(signals: seq<Signal>, i: nat)
    requires i < |signals|
    ensures SignalRuns(signals)[i] in Elements(SignalRuns(signals))
  {
  }

  ghost predicate CoveredAt(run: string, events: seq<AuditEvent>, byRun: map<string, Ticket>) {
    run in byRun && Elements(Manifest(byRun[run])) == ReferencesOf(events, run)
  }

  /** Coverage checked run by run over the signals is coverage of every ticket's manifest. */
  lemma CoverageByIndex(events: seq<AuditEvent>, signals: seq<Signal>, tickets: seq<Ticket>, byRun: map<string, Ticket>)
    requires IndexesTickets(byRun, tickets) && Elements(SignalRuns(signals)) == byRun.Keys
    ensures (forall i :: 0 <= i < |signals| ==> CoveredAt(SignalRuns(signals)[i], events, byRun)) <==>
            (forall k :: 0 <= k < |tickets| ==> Elements(Manifest(tickets[k])) == ReferencesOf(events, TicketRuns(tickets)[k]))
  {
    hide Manifest, ReferencesOf;
    if forall i :: 0 <= i < |signals| ==> CoveredAt(SignalRuns(signals)[i], events, byRun) {
      forall k | 0 <= k < |tickets| ensures Elements(Manifest(tickets[k])) == ReferencesOf(events, TicketRuns(tickets)[k]) {
        assert TicketRuns(tickets)[k] in Elements(SignalRuns(signals));
        var i :| 0 <= i < |signals| && SignalRuns(signals)[i] == TicketRuns(tickets)[k];
        assert CoveredAt(SignalRuns(signals)[i], events, byRun);
      }
    }
    if forall k :: 0 <= k < |tickets| ==> Elements(Manifest(tickets[k])) == ReferencesOf(events, TicketRuns(tickets)[k]) {
      forall i | 0 <= i < |signals| ensures CoveredAt(SignalRuns(signals)[i], events, byRun) {
        assert SignalRuns(signals)[i] in Elements(SignalRuns(signals));
        assert SignalRuns(signals)[i] in Elements(TicketRuns(tickets));
        var k :| 0 <= k < |tickets| && TicketRuns(tickets)[k] == SignalRuns(signals)[i];
      }
    }
  }

  method CheckAudit(events: seq<AuditEvent>, signals: seq<Signal>, tickets: seq<Ticket>, ticketByRun: map<string, Ticket>)
    returns (ok: bool)
    requires IndexesTickets(ticketByRun, tickets) && Elements(SignalRuns(signals)) == ticketByRun.Keys
    ensures ok <==> AuditFits(events, tickets)
  {
    hide SelfConsistent, Backs, Reference, ReferencesOf, IndexesTickets, SameStringSet, Elements;
    var referencesByRun: map<string, set<string>> := map[];
    assert forall run :: ReferencesOf(events[..0], run) == {} by { NoReferences(events); }
    for i := 0 to |events|
      invariant forall k :: 0 <= k < i ==> EventFits(events[k], tickets)
      invariant forall run :: Found(referencesByRun, run) == ReferencesOf(events[..i], run)
    {
      var e, run := events[i], RunOf(events[i].decision);
      BackedByIndex(e, tickets, ticketByRun);
      if !SelfConsistent(e) || run !in ticketByRun || !Backs(ticketByRun[run], e) {
        assert !EventFits(events[i], tickets);
        return false;
      }
      ghost var before := referencesByRun;
      referencesByRun := referencesByRun[run := Found(referencesByRun, run) + {Reference(e.sequence)}];
      forall other ensures Found(referencesByRun, other) == ReferencesOf(events[..i + 1], other) {
        ReferencesGrow(events, i, other);
        assert Found(before, other) == ReferencesOf(events[..i], other);
      }
    }
    assert events[..|events|] == events;
    for i := 0 to |signals|
      invariant forall k :: 0 <= k < i ==> CoveredAt(SignalRuns(signals)[k], events, ticketByRun)
    {
      var run := RunOf(signals[i].decision);
      assert run in ticketByRun by { RunIsIndexed(signals, i); }
      var manifest := Manifest(ticketByRun[run]);
      var expected := set x | x in manifest;
      SetOf(manifest);
      SameStringSetIsEquality(expected, Found(referencesByRun, run));
      assert Found(referencesByRun, run) == ReferencesOf(events, run);
      if !SameStringSet(expected, Found(referencesByRun, run)) {
        CoverageByIndex(events, signals, tickets, ticketByRun);
        return false;
      }
    }
    CoverageByIndex(events, signals, tickets, ticketByRun);
    return true;
  }

  // ---------- the execution records ----------

  function OrderExecutions(s: seq<Order>): (r: seq<Option<ExecutionAttribution>>)
    ensures |r| == |s| && forall i :: 0 <= i < |r| ==> r[i] == s[i].execution
  {
    seq(|s|, i requires 0 <= i < |s| => s[i].execution)
  }

  function PositionExecutions(s: seq<Position>): (r: seq<Option<ExecutionAttribution>>)
    ensures |r| == |s| && forall i :: 0 <= i < |r| ==> r[i] == s[i].execution
  {
    seq(|s|, i requires 0 <= i < |s| => s[i].execution)
  }

  function AlertExecutions(s: seq<Alert>): (r: seq<Option<ExecutionAttribution>>)
    ensures |r| == |s| && forall i :: 0 <= i < |r| ==> r[i] == s[i].execution
  {
    seq(|s|, i requires 0 <= i < |s| => s[i].execution)
  }

  /** The execution attributions of the audit events that carry one. */
  function EventExecutions(s: seq<AuditEvent>): (r: seq<Option<ExecutionAttribution>>)
    ensures forall x :: x in r <==> x.Some? && exists i :: 0 <= i < |s| && s[i].execution == x
  {
    if s == [] then [] else EventExecutions(s[..|s| - 1]) + if s[|s| - 1].execution.Some? then [s[|s| - 1].execution] else []
  }

  function ExecutionId(x: Option<ExecutionAttribution>): string {
    if x.Some? then x.value.executionId else ""
  }

  function ExecutionIds(s: seq<Option<ExecutionAttribution>>): (r: seq<string>)
    ensures |r| == |s| && forall i :: 0 <= i < |r| ==> r[i] == ExecutionId(s[i])
  {
    seq(|s|, i requires 0 <= i < |s| => ExecutionId(s[i]))
  }

  function Sequences(s: seq<AuditEvent>): (r: seq<int>)
    ensures |r| == |s| && forall i :: 0 <= i < |r| ==> r[i] == s[i].sequence
  {
    seq(|s|, i requires 0 <= i < |s| => s[i].sequence)
  }

  /** The ticket's run was executed, and the execution repeats its lineage. */
  predicate Leads(t: Ticket, x: ExecutionAttribution) {
    t.decision.Some? &&
    var d := t.decision.value;
    && d.runId == x.runId && (d.runStatus.Executed? || d.runStatus.ExecutedProtectionMissing?)
    && x.workflowId == d.workflowId && x.workflowVersion == d.workflowVersion
    && x.orderIntentId == d.orderIntentId && x.riskDecisionId == d.riskDecisionId
    && x.approvalTicketId == d.approvalTicketId && Some(x.approvalDecisionId) == d.approvalDecisionId
  }

  ghost predicate LineageFits(x: Option<ExecutionAttribution>, tickets: seq<Ticket>) {
    x.Some? && ValidExecution(x.value) && exists t :: t in tickets && Leads(t, x.value)
  }

  predicate OrderFits(o: Order) {
    o.execution.Some? && o.orderId == o.execution.value.orderId && o.riskDecisionId == o.execution.value.riskDecisionId
  }

  predicate PositionFits(p: Position) {
    p.execution.Some? && p.positionId == p.execution.value.positionId && p.protectionStatus == p.execution.value.protectionStatus
  }

  predicate AlertFits(a: Alert) {
    a.execution.Some? && a.alertId == a.execution.value.alertId
  }

  predicate EventExecutionFits(e: AuditEvent) {
    e.execution.Some? ==>
      && ValidExecution(e.execution.value)
      && e.runId == Some(e.execution.value.runId) && e.orderId == Some(e.execution.value.orderId)
      && e.ticketId == Some(e.execution.value.approvalTicketId)
  }

  ghost predicate ExecutionRecordsFit(s: Snapshot) {
    && (forall x :: x in OrderExecutions(s.orders) + PositionExecutions(s.positions) + AlertExecutions(s.alerts)
                    ==> LineageFits(x, s.tickets))
    && (forall i :: 0 <= i < |s.orders| ==> OrderFits(s.orders[i]))
    && (forall i :: 0 <= i < |s.positions| ==> PositionFits(s.positions[i]))
    && (forall i :: 0 <= i < |s.alerts| ==> AlertFits(s.alerts[i]))
    && (forall i :: 0 <= i < |s.auditEvents| ==> EventExecutionFits(s.auditEvents[i]))
  }

  /** Orders, positions and alerts each name every execution once, and audit events name the same ones. */
  ghost predicate ExecutionsMatch(s: Snapshot) {
    var orders, positions, alerts := ExecutionIds(OrderExecutions(s.orders)), ExecutionIds(PositionExecutions(s.positions)), ExecutionIds(AlertExecutions(s.alerts));
    && Distinct(orders) && Distinct(positions) && Distinct(alerts) && Distinct(Sequences(s.auditEvents))
    && Elements(orders) == Elements(positions) == Elements(alerts)
    && Elements(orders) == Elements(ExecutionIds(EventExecutions(s.auditEvents)))
  }

  lemma LeadByIndex(x: ExecutionAttribution, tickets: seq<Ticket>, byRun: map<string, Ticket>)
    requires IndexesTickets(byRun, tickets)
    ensures (exists t :: t in tickets && Leads(t, x)) <==> x.runId in byRun && Leads(byRun[x.runId], x)
  {
    if x.runId in byRun && Leads(byRun[x.runId], x) {
      assert x.runId in Elements(TicketRuns(tickets));
      var k :| 0 <= k < |tickets| && TicketRuns(tickets)[k] == x.runId;
      assert tickets[k] in tickets && Leads(tickets[k], x);
    }
    if t :| t in tickets && Leads(t, x) {
      var k :| 0 <= k < |tickets| && tickets[k] == t;
      assert TicketRuns(tickets)[k] == x.runId;
    }
  }

  method CheckExecutionRecords(s: Snapshot, ticketByRun: map<string, Ticket>) returns (ok: bool)
    requires IndexesTickets(ticketByRun, s.tickets)
    ensures ok <==> ExecutionRecordsFit(s)
  {
    hide ValidExecution, Leads, OrderFits, PositionFits, AlertFits, EventExecutionFits, IndexesTickets;
    var records := OrderExecutions(s.orders) + PositionExecutions(s.positions) + AlertExecutions(s.alerts);
    for i := 0 to |records|
      invariant forall k :: 0 <= k < i ==> LineageFits(records[k], s.tickets)
    {
      var x := records[i];
      if x.None? || !ValidExecution(x.value) {
        assert x in records && !LineageFits(x, s.tickets);
        return false;
      }
      LeadByIndex(x.value, s.tickets, ticketByRun);
      if x.value.runId !in ticketByRun || !Leads(ticketByRun[x.value.runId], x.value) {
        assert x in records && !LineageFits(x, s.tickets);
        return false;
      }
    }
    hide LineageFits;
    for i := 0 to |s.orders|
      invariant forall k :: 0 <= k < i ==> OrderFits(s.orders[k])
    {
      if !OrderFits(s.orders[i]) {
        return false;
      }
    }
    for i := 0 to |s.positions|
      invariant forall k :: 0 <= k < i ==> PositionFits(s.positions[k])
    {
      if !PositionFits(s.positions[i]) {
        return false;
      }
    }
    for i := 0 to |s.alerts|
      invariant forall k :: 0 <= k < i ==> AlertFits(s.alerts[k])
    {
      if !AlertFits(s.alerts[i]) {
        return false;
      }
    }
    for i := 0 to |s.auditEvents|
      invariant forall k :: 0 <= k < i ==> EventExecutionFits(s.auditEvents[k])
    {
      if !EventExecutionFits(s.auditEvents[i]) {
        return false;
      }
    }
    return true;
  }

  lemma SetSize<T>(s: seq<T>)
    ensures (set x | x in s) == Elements(s)
    ensures |Elements(s)| == |s| <==> Distinct(s)
  {
    DistinctIffFullSize(s);
  }

  method CheckExecutionIdentities(s: Snapshot) returns (ok: bool)
    ensures ok <==> ExecutionsMatch(s)
  {
    hide Distinct, Elements, SameStringSet;
    var orderIds, positionIds, alertIds :=
      ExecutionIds(OrderExecutions(s.orders)), ExecutionIds(PositionExecutions(s.positions)), ExecutionIds(AlertExecutions(s.alerts));
    var auditIds, sequences := ExecutionIds(EventExecutions(s.auditEvents)), Sequences(s.auditEvents);
    var orders, positions, alerts := set x | x in orderIds, set x | x in positionIds, set x | x in alertIds;
    var audits, numbers := set x | x in auditIds, set x | x in sequences;
    SetSize(orderIds);
    SetSize(positionIds);
    SetSize(alertIds);
    SetSize(auditIds);
    SetSize(sequences);
    SameStringSetIsEquality(orders, positions);
    SameStringSetIsEquality(orders, alerts);
    SameStringSetIsEquality(orders, audits);
    ok := && |orders| == |s.orders| && |positions| == |s.positions| && |alerts| == |s.alerts|
          && |numbers| == |s.auditEvents|
          && SameStringSet(orders, positions) && SameStringSet(orders, alerts) && SameStringSet(orders, audits);
  }

  // ---------- the whole snapshot ----------

  function Provenances(s: Snapshot): seq<Provenance> {
    [s.auditProvenance, s.signalProvenance, s.riskProvenance, s.ticketProvenance,
     s.orderProvenance, s.positionProvenance, s.alertProvenance]
  }

  predicate IsDurable(p: Provenance) {
    p.source == LIFECYCLE_SOURCE || p.source == EXECUTION_SOURCE
  }

  function DurableCount(p: seq<Provenance>): nat {
    if p == [] then 0 else DurableCount(p[1..]) + if IsDurable(p[0]) then 1 else 0
  }

  predicate ClaimsNothing(s: Snapshot) {
    && (forall i :: 0 <= i < |s.auditEvents| ==> s.auditEvents[i].decision.None? && s.auditEvents[i].execution.None?)
    && (forall i :: 0 <= i < |s.signals| ==> s.signals[i].decision.None?)
    && (forall i :: 0 <= i < |s.risks| ==> s.risks[i].decision.None?)
    && (forall i :: 0 <= i < |s.tickets| ==> s.tickets[i].decision.None?)
    && (forall i :: 0 <= i < |s.orders| ==> s.orders[i].execution.None?)
    && (forall i :: 0 <= i < |s.positions| ==> s.positions[i].execution.None?)
    && (forall i :: 0 <= i < |s.alerts| ==> s.alerts[i].execution.None?)
  }

  predicate ExecutionMode(s: Snapshot) {
    s.orderProvenance.source == EXECUTION_SOURCE
  }

  predicate Labelled(p: Provenance, source: string, classes: seq<string>) {
    p.source == source && Joined(p.classifications) == Joined(classes)
  }

  predicate ProvenanceFits(s: Snapshot) {
    && (forall i :: 0 <= i < 4 ==> Labelled(Provenances(s)[i], LIFECYCLE_SOURCE, LIFECYCLE_CLASSES))
    && (forall i :: 4 <= i < 7 ==>
                      if ExecutionMode(s) then Labelled(Provenances(s)[i], EXECUTION_SOURCE, EXECUTION_CLASSES)
                      else Labelled(Provenances(s)[i], LIFECYCLE_SOURCE, LIFECYCLE_CLASSES))
    && (forall i :: 0 <= i < 7 ==> "representative" !in Provenances(s)[i].classifications)
  }

  ghost predicate UpstreamFits(s: Snapshot) {
    && s.signals != [] && s.risks != [] && s.tickets != [] && s.auditEvents != []
    && SignalsFit(s.signals) && RisksFit(s.risks) && TicketsFit(s.tickets)
    && RunsAgree(s.signals, s.risks, s.tickets)
    && AuditFits(s.auditEvents, s.tickets)
  }

  predicate NothingExecuted(s: Snapshot) {
    && s.orders == [] && s.positions == [] && s.alerts == []
    && forall i :: 0 <= i < |s.auditEvents| ==> s.auditEvents[i].execution.None?
  }

  ghost predicate DownstreamFits(s: Snapshot) {
    if ExecutionMode(s)
    then s.orders != [] && s.positions != [] && s.alerts != [] && ExecutionRecordsFit(s) && ExecutionsMatch(s)
    else NothingExecuted(s)
  }

  ghost predicate IsDurableSnapshot(s: Snapshot) {
    DurableCount(Provenances(s)) == 7 && ProvenanceFits(s) && UpstreamFits(s) && DownstreamFits(s)
  }

  ghost predicate Accepted(s: Snapshot) {
    if DurableCount(Provenances(s)) == 0 then ClaimsNothing(s) else IsDurableSnapshot(s)
  }

  datatype SnapshotError =
    | ClaimsAttribution | IncompleteProvenance | InconsistentProvenance | PartialUpstream
    | InconsistentUpstream | InconsistentRuns | InconsistentAudit
    | UnreachedStages | PartialExecution | InconsistentExecution | IncompleteIdentities

  method ValidateSnapshot(s: Snapshot) returns (r: Result<(), SnapshotError>)
    ensures r.Ok? <==> Accepted(s)
  {
    hide SignalsFit, RisksFit, TicketsFit, RunsAgree, AuditFits, ExecutionRecordsFit, ExecutionsMatch, ProvenanceFits,
         NothingExecuted, ClaimsNothing, DurableCount, IndexesRisks, IndexesSignals, IndexesTickets;
    var durable := DurableCount(Provenances(s));
    if durable == 0 {
      return if ClaimsNothing(s) then Ok(()) else Err(ClaimsAttribution);
    }
    if durable != 7 {
      return Err(IncompleteProvenance);
    }
    if !ProvenanceFits(s) {
      return Err(InconsistentProvenance);
    }
    if s.signals == [] || s.risks == [] || s.tickets == [] || s.auditEvents == [] {
      return Err(PartialUpstream);
    }
    var signalsOk, signalByRun := IndexSignals(s.signals);
    if !signalsOk {
      return Err(InconsistentUpstream);
    }
    var risksOk, riskByRun := IndexRisks(s.risks);
    if !risksOk {
      return Err(InconsistentUpstream);
    }
    var ticketsOk, ticketByRun := IndexTickets(s.tickets);
    if !ticketsOk {
      return Err(InconsistentUpstream);
    }
    var runsOk := CheckRuns(s.signals, s.risks, s.tickets, signalByRun, riskByRun, ticketByRun);
    if !runsOk {
      return Err(InconsistentRuns);
    }
    IndexedRuns(s.signals, s.risks, s.tickets, riskByRun, ticketByRun);
    var auditOk := CheckAudit(s.auditEvents, s.signals, s.tickets, ticketByRun);
    if !auditOk {
      return Err(InconsistentAudit);
    }
    if !ExecutionMode(s) {
      return if NothingExecuted(s) then Ok(()) else Err(UnreachedStages);
    }
    if s.orders == [] || s.positions == [] || s.alerts == [] {
      return Err(PartialExecution);
    }
    var recordsOk := CheckExecutionRecords(s, ticketByRun);
    if !recordsOk {
      return Err(InconsistentExecution);
    }
    var identitiesOk := CheckExecutionIdentities(s);
    return if identitiesOk then Ok(()) else Err(IncompleteIdentities);
  }
}
