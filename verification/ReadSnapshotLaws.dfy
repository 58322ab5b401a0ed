/** What acceptance of a snapshot says of each record, told in the record's own fields. */
module ReadSnapshotLaws {
  import opened Foundations
  import opened ReadSnapshot
  import opened ReadSnapshotShape
  import Blob = BlobBatch
  import RoundTrip = BlobBatchRoundTrip

  // ---------- journal references ----------

  /** The references are those of ever larger positive sequence numbers. */
  ghost predicate ReferTo(references: seq<string>, numbers: seq<nat>) {
    && |references| == |numbers|
    && (forall i :: 0 <= i < |numbers| ==> numbers[i] >= 1 && references[i] == Reference(numbers[i]))
    && (forall i, j :: 0 <= i < j < |numbers| ==> numbers[i] < numbers[j])
  }

  /** A reference is spelt with its prefix and its number in decimal. */
  lemma ReferenceIsSpelt(n: nat)
    ensures Reference(n) == "journal_sequence:" + Text(Blob.Decimal(n))
  {
  }

  /** A well-formed reference is the reference of its number, which is positive. */
  lemma ReferenceIsOfNumber(s: string)
    requires IsReference(s)
    ensures ReferenceNumber(s) >= 1 && Reference(ReferenceNumber(s)) == s
  {
    var k := |REFERENCE_PREFIX|;
    var tail := s[k..];
    var digits := seq(|tail|, i requires 0 <= i < |tail| => tail[i] as int as Blob.byte);
    assert tail[0] == s[k];
    assert forall i :: 0 <= i < |digits| ==> Blob.IsDigit(digits[i]) && digits[i] as char == tail[i];
    RoundTrip.CanonicalIsPositive(digits);
    RoundTrip.CanonicalIsDecimal(digits);
    assert Text(digits) == tail;
    assert s == REFERENCE_PREFIX + tail;
  }

  function Numbers(references: seq<string>): (r: seq<nat>)
    requires forall i :: 0 <= i < |references| ==> IsReference(references[i])
    ensures |r| == |references| && forall i :: 0 <= i < |r| ==> r[i] == ReferenceNumber(references[i])
  {
    seq(|references|, i requires 0 <= i < |references| => ReferenceNumber(references[i]))
  }

  lemma {:induction false} RisingFar(numbers: seq<nat>, i: nat, j: nat)
    requires i < j < |numbers| && forall k :: 0 < k < |numbers| ==> numbers[k - 1] < numbers[k]
    ensures numbers[i] < numbers[j]
  {
    if i < j - 1 {
      RisingFar(numbers, i, j - 1);
    }
  }

  /** A manifest is valid exactly when it lists the references of one or more positive numbers in rising order. */
  lemma ReferencesExactly(references: seq<string>)
    ensures ValidReferences(references) <==> references != [] && exists numbers :: ReferTo(references, numbers)
  {
    hide IsReference, ReferenceNumber, Reference;
    if ValidReferences(references) {
      var numbers := Numbers(references);
      forall i | 0 <= i < |numbers| ensures numbers[i] >= 1 && references[i] == Reference(numbers[i]) {
        ReferenceIsOfNumber(references[i]);
      }
      forall i, j | 0 <= i < j < |numbers| ensures numbers[i] < numbers[j] {
        RisingFar(numbers, i, j);
      }
      assert ReferTo(references, numbers);
    }
    if references != [] && exists numbers :: ReferTo(references, numbers) {
      var numbers :| ReferTo(references, numbers);
      forall i | 0 <= i < |references| ensures IsReference(references[i]) && ReferenceNumber(references[i]) == numbers[i] {
        ReferenceReadsBack(numbers[i]);
      }
      assert Distinct(references);
      DistinctIffFullSize(references);
      assert (set x | x in references) == Elements(references);
    }
  }

  // ---------- attributions ----------

  /** Nothing is said of a decision. */
  predicate SaysNoDecision(a: DecisionAttribution) {
    && a.approvalDecisionId == None && a.approvalDecision == None && a.approvalActor == None
    && a.approvalReason == None && a.approvalDecidedAt == None && a.decisionReference == None
  }

  /** A decision is told in full, and this is its outcome. */
  predicate SaysDecision(a: DecisionAttribution, outcome: string) {
    && a.approvalDecision == Some(outcome)
    && a.approvalDecisionId.Some? && a.approvalDecisionId.value != "" && a.approvalActor.Some? && a.approvalActor.value != ""
    && a.approvalReason.Some? && a.approvalReason.value != "" && a.approvalDecidedAt.Some? && a.approvalDecidedAt.value != ""
    && a.decisionReference.Some? && a.decisionReference.value != ""
  }

  /** A waiting run says no decision, a rejected one says it was rejected, and the others say they were approved. */
  predicate DecisionAgrees(a: DecisionAttribution) {
    match a.runStatus
    case WaitingForApproval => SaysNoDecision(a)
    case RunRejected => SaysDecision(a, "rejected")
    case ApprovedNotExecuted => SaysDecision(a, "approved")
    case Executed => SaysDecision(a, "approved")
    case ExecutedProtectionMissing => SaysDecision(a, "approved")
    case OtherStatus(_) => false
  }

  /** The events a decision attribution names are different entries of its manifest. */
  ghost predicate NamesItsEvents(a: DecisionAttribution) {
    && a.signalId == a.signalReference
    && a.signalReference in a.journalReferences && a.orderIntentReference in a.journalReferences
    && a.riskReference in a.journalReferences && a.ticketReference in a.journalReferences
    && Distinct([a.signalReference, a.orderIntentReference, a.riskReference, a.ticketReference])
    && (a.decisionReference.Some? ==>
          && a.decisionReference.value in a.journalReferences
          && a.decisionReference.value != a.signalReference && a.decisionReference.value != a.orderIntentReference
          && a.decisionReference.value != a.riskReference && a.decisionReference.value != a.ticketReference)
  }

  ghost predicate DecisionHolds(a: DecisionAttribution) {
    && a.schemaVersion == 1 && a.workflowVersion >= 1
    && a.workflowId != "" && a.runId != "" && a.signalId != "" && a.orderIntentId != "" && a.riskDecisionId != ""
    && a.approvalTicketId != "" && a.signalReference != "" && a.orderIntentReference != "" && a.riskReference != ""
    && a.ticketReference != ""
    && DecisionAgrees(a)
    && a.evidenceSource == "schema_v4_sqlite_digest_bound_jsonl"
    && Joined(a.classifications) == "simulated" + "," + "local_only" + "," + "externally_unverified"
    && a.brokerDerived == false && a.externallyVerified == false
    && a.journalReferences != [] && (exists numbers :: ReferTo(a.journalReferences, numbers))
    && NamesItsEvents(a)
  }

  lemma JoinedCons(first: string, rest: seq<string>)
    requires rest != []
    ensures Joined([first] + rest) == first + "," + Joined(rest)
  {
    assert ([first] + rest)[1..] == rest;
  }

  lemma JoinedThree(x: string, y: string, z: string)
    ensures Joined([x, y, z]) == x + "," + y + "," + z
  {
    hide Joined;
    assert [x, y, z] == [x] + ([y] + [z]);
    JoinedCons(x, [y] + [z]);
    JoinedCons(y, [z]);
    assert Joined([z]) == z by { JoinedAlone(z); }
  }

  lemma JoinedAlone(x: string)
    ensures Joined([x]) == x
  {
  }

  lemma LabelsJoined()
    ensures Joined(LIFECYCLE_CLASSES) == "simulated" + "," + "local_only" + "," + "externally_unverified"
    ensures Joined(EXECUTION_CLASSES) == "simulated" + "," + "local_only" + "," + "fake_broker_derived" + "," + "externally_unverified"
  {
    hide Joined;
    JoinedThree("simulated", "local_only", "externally_unverified");
    JoinedThree("local_only", "fake_broker_derived", "externally_unverified");
    JoinedCons("simulated", ["local_only", "fake_broker_derived", "externally_unverified"]);
    assert EXECUTION_CLASSES == ["simulated"] + ["local_only", "fake_broker_derived", "externally_unverified"];
  }

  lemma DecisionFieldsExactly(a: DecisionAttribution)
    ensures DecisionFieldsFit(a) <==> DecisionAgrees(a)
  {
    var fields := DecisionFields(a);
    assert fields[0] == a.approvalDecisionId && fields[1] == a.approvalDecision && fields[2] == a.approvalActor;
    assert fields[3] == a.approvalReason && fields[4] == a.approvalDecidedAt && fields[5] == a.decisionReference;
  }

  lemma EventReferencesExactly(a: DecisionAttribution)
    ensures EventReferencesFit(a) <==> NamesItsEvents(a)
  {
    var refs := EventReferences(a);
    DistinctIffFullSize(refs);
    assert (set x | x in refs) == Elements(refs);
    assert refs[0] == a.signalReference && refs[1] == a.orderIntentReference && refs[2] == a.riskReference && refs[3] == a.ticketReference;
    assert a.decisionReference.Some? ==> refs[4] == a.decisionReference.value;
  }

  /** A decision attribution is valid exactly when its fields say this. */
  lemma DecisionExactly(a: DecisionAttribution)
    ensures ValidDecision(a) <==> DecisionHolds(a)
  {
    hide DecisionFieldsFit, DecisionAgrees, ValidReferences, Joined, EventReferencesFit, NamesItsEvents, ReferTo, LIFECYCLE_CLASSES;
    LabelsJoined();
    DecisionFieldsExactly(a);
    EventReferencesExactly(a);
    ReferencesExactly(a.journalReferences);
  }

  ghost predicate ExecutionHolds(a: ExecutionAttribution) {
    && a.schemaVersion == 1 && a.workflowVersion >= 1
    && a.workflowId != "" && a.runId != "" && a.executionId != "" && a.orderIntentId != "" && a.riskDecisionId != ""
    && a.approvalTicketId != "" && a.approvalDecisionId != "" && a.orderId != "" && a.fillReference != "" && a.positionId != ""
    && a.expectedProtectionKind != "" && a.alertId != ""
    && (if a.riskIncreasingBlocked then a.protectionStatus == "missing_expected_protection"
        else a.protectionStatus == "expected_protection_present")
    && a.evidenceSource == "schema_v4_sqlite_digest_bound_jsonl"
    && Joined(a.classifications) == "simulated" + "," + "local_only" + "," + "fake_broker_derived" + "," + "externally_unverified"
    && a.brokerDerived == false && a.externallyVerified == false
    && a.journalReferences != [] && (exists numbers :: ReferTo(a.journalReferences, numbers))
    && a.executionReferences != [] && (exists numbers :: ReferTo(a.executionReferences, numbers))
    && (forall x :: x in a.executionReferences ==> x in a.journalReferences)
  }

  /** An execution attribution is valid exactly when its fields say this. */
  lemma ExecutionExactly(a: ExecutionAttribution)
    ensures ValidExecution(a) <==> ExecutionHolds(a)
  {
    hide ValidReferences, Joined, ReferTo, EXECUTION_CLASSES;
    LabelsJoined();
    ReferencesExactly(a.journalReferences);
    ReferencesExactly(a.executionReferences);
    assert |"missing_expected_protection"| == 27 == |"expected_protection_present"|;
    assert "missing_expected_protection"[0] != "expected_protection_present"[0];
  }

  // ---------- upstream records ----------

  ghost predicate SignalHolds(r: Signal) {
    && r.decision.Some? && DecisionHolds(r.decision.value)
    && r.signalId == r.decision.value.signalId && r.kind == "long_entry_candidate"
  }

  ghost predicate RiskHolds(r: RiskDecision) {
    && r.decision.Some? && DecisionHolds(r.decision.value)
    && r.requestId == r.decision.value.riskDecisionId && r.result == "passed" && r.failedChecks == []
  }

  /** The ticket is pending, rejected or approved as its run waits, was rejected, or went on. */
  ghost predicate TicketHolds(r: Ticket) {
    && r.decision.Some? && DecisionHolds(r.decision.value)
    && r.ticketId == r.decision.value.approvalTicketId && r.riskDecisionId == r.decision.value.riskDecisionId
    && (r.decision.value.runStatus == WaitingForApproval ==> r.status == "pending")
    && (r.decision.value.runStatus == RunRejected ==> r.status == "rejected")
    && (r.decision.value.runStatus in {ApprovedNotExecuted, Executed, ExecutedProtectionMissing} ==> r.status == "approved")
  }

  lemma SignalExactly(signal: Signal)
    ensures SignalFits(signal) <==> SignalHolds(signal)
  {
    hide ValidDecision, DecisionHolds;
    if signal.decision.Some? {
      DecisionExactly(signal.decision.value);
    }
  }

  lemma RiskExactly(risk: RiskDecision)
    ensures RiskFits(risk) <==> RiskHolds(risk)
  {
    hide ValidDecision, DecisionHolds;
    if risk.decision.Some? {
      DecisionExactly(risk.decision.value);
    }
  }

  /** A ticket fits exactly when its fields, its status among them, agree with its run. */
  lemma TicketExactly(ticket: Ticket)
    ensures TicketFits(ticket) <==> TicketHolds(ticket)
  {
    hide ValidDecision, DecisionHolds;
    if ticket.decision.Some? {
      DecisionExactly(ticket.decision.value);
      if DecisionHolds(ticket.decision.value) {
        NoOtherStatus(ticket.decision.value);
      }
    }
  }

  lemma NoOtherStatus(a: DecisionAttribution)
    requires DecisionHolds(a)
    ensures a.runStatus in {WaitingForApproval, RunRejected, ApprovedNotExecuted, Executed, ExecutedProtectionMissing}
  {
  }

  // ---------- audit events ----------

  /** The event repeats its run, ticket and order, has its ticket's attribution, and is on its manifest. */
  ghost predicate EventHolds(e: AuditEvent, tickets: seq<Ticket>) {
    && e.decision.Some? && DecisionHolds(e.decision.value)
    && e.runId == Some(e.decision.value.runId) && e.ticketId == Some(e.decision.value.approvalTicketId)
    && Reference(e.sequence) in e.decision.value.journalReferences
    && exists k :: 0 <= k < |tickets| && tickets[k].decision == e.decision && e.orderId == Some(tickets[k].orderId)
  }

  lemma EventExactly(e: AuditEvent, tickets: seq<Ticket>)
    ensures EventFits(e, tickets) <==> EventHolds(e, tickets)
  {
    if e.decision.Some? {
      DecisionExactly(e.decision.value);
    }
    hide ValidDecision, DecisionHolds, Reference;
    if EventFits(e, tickets) {
      var t :| t in tickets && Backs(t, e);
      var k :| 0 <= k < |tickets| && tickets[k] == t;
      assert tickets[k].decision == e.decision && e.orderId == Some(tickets[k].orderId);
    }
    if EventHolds(e, tickets) {
      var k :| 0 <= k < |tickets| && tickets[k].decision == e.decision && e.orderId == Some(tickets[k].orderId);
      assert tickets[k] in tickets && Backs(tickets[k], e);
    }
  }

  /** The ticket's manifest lists the reference. */
  predicate Lists(t: Ticket, x: string) {
    t.decision.Some? && x in t.decision.value.journalReferences
  }

  /** Some event of the run has the reference. */
  ghost predicate Happened(events: seq<AuditEvent>, run: string, x: string) {
    exists i :: 0 <= i < |events| && RunOf(events[i].decision) == run && Reference(events[i].sequence) == x
  }

  /** The events of a run are exactly the entries of its ticket's manifest. */
  ghost predicate ManifestCovered(events: seq<AuditEvent>, t: Ticket) {
    forall x: string :: Lists(t, x) <==> Happened(events, RunOf(t.decision), x)
  }

  lemma HappenedExactly(events: seq<AuditEvent>, run: string, x: string)
    ensures x in ReferencesOf(events, run) <==> Happened(events, run, x)
  {
    hide Reference, RunOf;
    if x in ReferencesOf(events, run) {
      var e :| e in events && RunOf(e.decision) == run && Reference(e.sequence) == x;
      var i :| 0 <= i < |events| && events[i] == e;
      assert RunOf(events[i].decision) == run;
    }
    if Happened(events, run, x) {
      var i :| 0 <= i < |events| && RunOf(events[i].decision) == run && Reference(events[i].sequence) == x;
      assert events[i] in events;
    }
  }

  lemma ListedExactly(t: Ticket, x: string)
    ensures x in Elements(Manifest(t)) <==> Lists(t, x)
  {
  }

  lemma ManifestExactly(events: seq<AuditEvent>, t: Ticket)
    ensures Elements(Manifest(t)) == ReferencesOf(events, RunOf(t.decision)) <==> ManifestCovered(events, t)
  {
    hide RunOf, Lists, Happened, Manifest, Elements, ReferencesOf;
    var listed, seen := Elements(Manifest(t)), ReferencesOf(events, RunOf(t.decision));
    forall x: string ensures (x in listed <==> Lists(t, x)) && (x in seen <==> Happened(events, RunOf(t.decision), x)) {
      ListedExactly(t, x);
      HappenedExactly(events, RunOf(t.decision), x);
    }
    if ManifestCovered(events, t) {
      assert forall x :: x in listed <==> x in seen;
    }
  }

  // ---------- executions ----------

  /** The execution is of a run that was executed, under the lineage of that run's ticket. */
  ghost predicate LineageHolds(x: Option<ExecutionAttribution>, tickets: seq<Ticket>) {
    && x.Some? && ExecutionHolds(x.value)
    && exists k :: 0 <= k < |tickets| && tickets[k].decision.Some? &&
         var d := tickets[k].decision.value;
         && d.runId == x.value.runId && d.runStatus in {Executed, ExecutedProtectionMissing}
         && d.workflowId == x.value.workflowId && d.workflowVersion == x.value.workflowVersion
         && d.orderIntentId == x.value.orderIntentId && d.riskDecisionId == x.value.riskDecisionId
         && d.approvalTicketId == x.value.approvalTicketId && d.approvalDecisionId == Some(x.value.approvalDecisionId)
  }

  lemma LineageExactly(x: Option<ExecutionAttribution>, tickets: seq<Ticket>)
    ensures LineageFits(x, tickets) <==> LineageHolds(x, tickets)
  {
    if x.Some? {
      ExecutionExactly(x.value);
      hide ValidExecution, ExecutionHolds;
      if t :| t in tickets && Leads(t, x.value) {
        var k :| 0 <= k < |tickets| && tickets[k] == t;
      }
      if LineageHolds(x, tickets) {
        var k :| 0 <= k < |tickets| && tickets[k].decision.Some? &&
                 var d := tickets[k].decision.value;
                 && d.runId == x.value.runId && d.runStatus in {Executed, ExecutedProtectionMissing}
                 && d.workflowId == x.value.workflowId && d.workflowVersion == x.value.workflowVersion
                 && d.orderIntentId == x.value.orderIntentId && d.riskDecisionId == x.value.riskDecisionId
                 && d.approvalTicketId == x.value.approvalTicketId && d.approvalDecisionId == Some(x.value.approvalDecisionId);
        assert tickets[k] in tickets && Leads(tickets[k], x.value);
      }
    }
  }

  /** Orders, positions and alerts repeat the ids of their executions, and events the run, order and ticket of theirs. */
  ghost predicate RecordsHold(s: Snapshot) {
    && (forall i :: 0 <= i < |s.orders| ==>
                      && LineageHolds(s.orders[i].execution, s.tickets)
                      && s.orders[i].orderId == s.orders[i].execution.value.orderId
                      && s.orders[i].riskDecisionId == s.orders[i].execution.value.riskDecisionId)
    && (forall i :: 0 <= i < |s.positions| ==>
                      && LineageHolds(s.positions[i].execution, s.tickets)
                      && s.positions[i].positionId == s.positions[i].execution.value.positionId
                      && s.positions[i].protectionStatus == s.positions[i].execution.value.protectionStatus)
    && (forall i :: 0 <= i < |s.alerts| ==>
                      && LineageHolds(s.alerts[i].execution, s.tickets)
                      && s.alerts[i].alertId == s.alerts[i].execution.value.alertId)
    && (forall i :: 0 <= i < |s.auditEvents| && s.auditEvents[i].execution.Some? ==>
                      && ExecutionHolds(s.auditEvents[i].execution.value)
                      && s.auditEvents[i].runId == Some(s.auditEvents[i].execution.value.runId)
                      && s.auditEvents[i].orderId == Some(s.auditEvents[i].execution.value.orderId)
                      && s.auditEvents[i].ticketId == Some(s.auditEvents[i].execution.value.approvalTicketId))
  }

  lemma RecordsExactly(s: Snapshot)
    ensures ExecutionRecordsFit(s) <==> RecordsHold(s)
  {
    hide LineageFits, LineageHolds, ValidExecution, ExecutionHolds;
    forall x ensures LineageFits(x, s.tickets) <==> LineageHolds(x, s.tickets) {
      LineageExactly(x, s.tickets);
    }
    forall x ensures ValidExecution(x) <==> ExecutionHolds(x) {
      ExecutionExactly(x);
    }
    forall x ensures LineageHolds(x, s.tickets) ==> x.Some? {
      LineageIsThere(x, s.tickets);
    }
    var orders, positions, alerts := OrderExecutions(s.orders), PositionExecutions(s.positions), AlertExecutions(s.alerts);
    var all := orders + positions + alerts;
    assert (forall x :: x in all ==> LineageFits(x, s.tickets)) <==>
      && (forall i :: 0 <= i < |orders| ==> LineageFits(orders[i], s.tickets))
      && (forall i :: 0 <= i < |positions| ==> LineageFits(positions[i], s.tickets))
      && (forall i :: 0 <= i < |alerts| ==> LineageFits(alerts[i], s.tickets)) by {
      forall i | 0 <= i < |orders| ensures orders[i] in all {}
      forall i | 0 <= i < |positions| ensures positions[i] in all {}
      forall i | 0 <= i < |alerts| ensures alerts[i] in all {}
    }
  }

  lemma LineageIsThere(x: Option<ExecutionAttribution>, tickets: seq<Ticket>)
    ensures LineageHolds(x, tickets) ==> x.Some?
  {
  }

  // ---------- the whole snapshot ----------

  const LIFECYCLE := "durable_saved_workflow_simulation"

  const EXECUTED := "durable_saved_workflow_simulation_execution"

  predicate FromDurable(p: Provenance) {
    p.source == LIFECYCLE || p.source == EXECUTED
  }

  predicate FromLifecycle(p: Provenance) {
    && p.source == LIFECYCLE && "representative" !in p.classifications
    && Joined(p.classifications) == "simulated" + "," + "local_only" + "," + "externally_unverified"
  }

  predicate FromExecution(p: Provenance) {
    && p.source == EXECUTED && "representative" !in p.classifications
    && Joined(p.classifications) == "simulated" + "," + "local_only" + "," + "fake_broker_derived" + "," + "externally_unverified"
  }

  /** Every list is from the durable lifecycle, except that the last three may all be from its executions. */
  predicate SourcesHold(s: Snapshot) {
    && FromLifecycle(s.auditProvenance) && FromLifecycle(s.signalProvenance)
    && FromLifecycle(s.riskProvenance) && FromLifecycle(s.ticketProvenance)
    && if s.orderProvenance.source == EXECUTED
       then FromExecution(s.orderProvenance) && FromExecution(s.positionProvenance) && FromExecution(s.alertProvenance)
       else FromLifecycle(s.orderProvenance) && FromLifecycle(s.positionProvenance) && FromLifecycle(s.alertProvenance)
  }

  predicate NoneDurable(s: Snapshot) {
    && !FromDurable(s.auditProvenance) && !FromDurable(s.signalProvenance) && !FromDurable(s.riskProvenance)
    && !FromDurable(s.ticketProvenance) && !FromDurable(s.orderProvenance) && !FromDurable(s.positionProvenance)
    && !FromDurable(s.alertProvenance)
  }

  predicate NoneAttributed(s: Snapshot) {
    && (forall i :: 0 <= i < |s.auditEvents| ==> s.auditEvents[i].decision == None && s.auditEvents[i].execution == None)
    && (forall i :: 0 <= i < |s.signals| ==> s.signals[i].decision == None)
    && (forall i :: 0 <= i < |s.risks| ==> s.risks[i].decision == None)
    && (forall i :: 0 <= i < |s.tickets| ==> s.tickets[i].decision == None)
    && (forall i :: 0 <= i < |s.orders| ==> s.orders[i].execution == None)
    && (forall i :: 0 <= i < |s.positions| ==> s.positions[i].execution == None)
    && (forall i :: 0 <= i < |s.alerts| ==> s.alerts[i].execution == None)
  }

  /** Every upstream record holds, none repeats an id or a run, the lists agree by run, and events cover the manifests. */
  ghost predicate UpstreamHolds(s: Snapshot) {
    && s.signals != [] && s.risks != [] && s.tickets != [] && s.auditEvents != []
    && (forall i :: 0 <= i < |s.signals| ==> SignalHolds(s.signals[i]))
    && (forall i :: 0 <= i < |s.risks| ==> RiskHolds(s.risks[i]))
    && (forall i :: 0 <= i < |s.tickets| ==> TicketHolds(s.tickets[i]))
    && Distinct(SignalIds(s.signals)) && Distinct(RiskIds(s.risks)) && Distinct(TicketIds(s.tickets))
    && Distinct(SignalRuns(s.signals)) && Distinct(RiskRuns(s.risks)) && Distinct(TicketRuns(s.tickets))
    && RunsAgree(s.signals, s.risks, s.tickets)
    && (forall i :: 0 <= i < |s.auditEvents| ==> EventHolds(s.auditEvents[i], s.tickets))
    && (forall k :: 0 <= k < |s.tickets| ==> ManifestCovered(s.auditEvents, s.tickets[k]))
  }

  /** Without executions there is no trace of one; with them each record holds and the executions match. */
  ghost predicate DownstreamHolds(s: Snapshot) {
    if s.orderProvenance.source == EXECUTED
    then s.orders != [] && s.positions != [] && s.alerts != [] && RecordsHold(s) && ExecutionsMatch(s)
    else
      && s.orders == [] && s.positions == [] && s.alerts == []
      && forall i :: 0 <= i < |s.auditEvents| ==> s.auditEvents[i].execution == None
  }

  lemma {:induction false} CountedDurable(p: seq<Provenance>)
    ensures DurableCount(p) <= |p|
    ensures DurableCount(p) == 0 <==> forall i :: 0 <= i < |p| ==> !IsDurable(p[i])
    ensures DurableCount(p) == |p| <==> forall i :: 0 <= i < |p| ==> IsDurable(p[i])
  {
    if p != [] {
      CountedDurable(p[1..]);
      assert forall i :: 0 < i < |p| ==> p[i] == p[1..][i - 1];
    }
  }

  lemma SourcesExactly(s: Snapshot)
    ensures DurableCount(Provenances(s)) == 0 <==> NoneDurable(s)
    ensures DurableCount(Provenances(s)) == 7 && ProvenanceFits(s) <==> SourcesHold(s)
  {
    hide Joined, LIFECYCLE_CLASSES, EXECUTION_CLASSES, DurableCount;
    LabelsJoined();
    var p := Provenances(s);
    CountedDurable(p);
    assert p[0] == s.auditProvenance && p[1] == s.signalProvenance && p[2] == s.riskProvenance && p[3] == s.ticketProvenance;
    assert p[4] == s.orderProvenance && p[5] == s.positionProvenance && p[6] == s.alertProvenance;
    assert LIFECYCLE != EXECUTED by { assert |LIFECYCLE| < |EXECUTED|; }
  }

  lemma UpstreamExactly(s: Snapshot)
    ensures UpstreamFits(s) <==> UpstreamHolds(s)
  {
    hide SignalFits, SignalHolds, RiskFits, RiskHolds, TicketFits, TicketHolds, EventFits, EventHolds, ReferencesOf, Manifest,
         Elements, Distinct, RunsAgree, ManifestCovered;
    forall i | 0 <= i < |s.signals| ensures SignalFits(s.signals[i]) <==> SignalHolds(s.signals[i]) {
      SignalExactly(s.signals[i]);
    }
    forall i | 0 <= i < |s.risks| ensures RiskFits(s.risks[i]) <==> RiskHolds(s.risks[i]) {
      RiskExactly(s.risks[i]);
    }
    forall i | 0 <= i < |s.tickets|
      ensures TicketFits(s.tickets[i]) <==> TicketHolds(s.tickets[i])
      ensures Elements(Manifest(s.tickets[i])) == ReferencesOf(s.auditEvents, TicketRuns(s.tickets)[i]) <==>
              ManifestCovered(s.auditEvents, s.tickets[i])
    {
      TicketExactly(s.tickets[i]);
      ManifestExactly(s.auditEvents, s.tickets[i]);
    }
    forall i | 0 <= i < |s.auditEvents| ensures EventFits(s.auditEvents[i], s.tickets) <==> EventHolds(s.auditEvents[i], s.tickets) {
      EventExactly(s.auditEvents[i], s.tickets);
    }
  }

  /** A snapshot is accepted exactly when it claims nothing durable at all, or every record of it says this. */
  lemma AcceptedExactly(s: Snapshot)
    ensures Accepted(s) <==>
            if NoneDurable(s) then NoneAttributed(s) else SourcesHold(s) && UpstreamHolds(s) && DownstreamHolds(s)
  {
    hide DurableCount, ProvenanceFits, UpstreamFits, UpstreamHolds, ExecutionRecordsFit, RecordsHold, ExecutionsMatch, SourcesHold, NoneDurable;
    SourcesExactly(s);
    UpstreamExactly(s);
    RecordsExactly(s);
  }

  /** In an accepted durable snapshot every ticket tells what became of its run, and every run passed its risk checks. */
  lemma TicketsTellTheirRuns(s: Snapshot, k: nat)
    requires IsDurableSnapshot(s) && k < |s.tickets|
    ensures s.tickets[k].decision.Some?
    ensures var t, a := s.tickets[k], s.tickets[k].decision.value;
            && (t.status == "pending" <==> a.runStatus == WaitingForApproval)
            && (t.status == "rejected" <==> a.runStatus == RunRejected)
            && (t.status == "approved" <==> a.runStatus in {ApprovedNotExecuted, Executed, ExecutedProtectionMissing})
            && (if t.status == "pending" then a.approvalDecision == None else a.approvalDecision == Some(t.status))
            && t.ticketId == a.approvalTicketId && t.riskDecisionId == a.riskDecisionId
    ensures forall i :: 0 <= i < |s.risks| ==> s.risks[i].result == "passed" && s.risks[i].failedChecks == []
    ensures forall i :: 0 <= i < |s.signals| ==> s.signals[i].kind == "long_entry_candidate"
  {
    hide DurableCount, ProvenanceFits, DownstreamFits, RunsAgree, AuditFits, ValidDecision, Distinct;
    TicketExactly(s.tickets[k]);
    assert TicketHolds(s.tickets[k]);
    NoOtherStatus(s.tickets[k].decision.value);
    TicketTextsDiffer();
  }

  lemma TicketTextsDiffer()
    ensures "pending" != "rejected" && "pending" != "approved" && "rejected" != "approved"
  {
    assert "pending"[0] == 'p' && "rejected"[0] == 'r' && "approved"[0] == 'a';
  }
}
