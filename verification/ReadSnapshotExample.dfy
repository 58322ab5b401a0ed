/** Concrete snapshots of an executed run, of one that still waits, and of decided ones: every mode is reachable. */
module ReadSnapshotExample {
  import opened Foundations
  import opened ReadSnapshot
  import ReadSnapshotShape

  function References(from: nat, to: nat): (r: seq<string>)
    requires from <= to
    ensures |r| == to - from && forall i :: 0 <= i < |r| ==> r[i] == Reference(from + i)
  {
    seq(to - from, i requires 0 <= i < to - from => Reference(from + i))
  }

  lemma ReferencesAreDistinct(from: nat, to: nat)
    requires from <= to
    ensures Distinct(References(from, to)) && |set x | x in References(from, to)| == to - from
  {
    var r := References(from, to);
    hide Reference;
    forall i, j | 0 <= i < j < |r| ensures r[i] != r[j] {
      if r[i] == r[j] {
        ReadSnapshotShape.ReferenceIsInjective(from + i, from + j);
      }
    }
    DistinctIffFullSize(r);
    assert Elements(r) == set x | x in r;
  }

  lemma ReferencesAreValid(from: nat, to: nat)
    requires 1 <= from < to
    ensures ValidReferences(References(from, to))
  {
    hide Reference, IsReference, ReferenceNumber;
    var r := References(from, to);
    forall i | 0 <= i < |r| ensures IsReference(r[i]) && ReferenceNumber(r[i]) == from + i {
      ReadSnapshotShape.ReferenceReadsBack(from + i);
    }
    ReferencesAreDistinct(from, to);
  }

  // ---------- the snapshot ----------

  /** The attribution of a run that was decided: rejected, or approved and perhaps executed. */
  function Terminal(status: RunStatus): DecisionAttribution {
    DecisionAttribution(
      1, "workflow", 1, "run", status, Reference(1), "intent", "risk", "ticket", Some("decision"),
      Some(if status.RunRejected? then "rejected" else "approved"),
      Some("operator"), Some("reviewed"), Some("2026-07-08T13:46:00Z"), Reference(1), Reference(2), Reference(3), Reference(4),
      Some(Reference(5)), References(1, 6), EVIDENCE, LIFECYCLE_CLASSES, false, false)
  }

  const DECISION := Terminal(Executed)

  const EXECUTION := ExecutionAttribution(
    1, "workflow", 1, "run", "execution", "intent", "risk", "ticket", "decision", "order", "fill", "position",
    "expected_protection_present", "stop", false, "alert", References(1, 6), References(5, 6), EVIDENCE,
    EXECUTION_CLASSES, false, false)

  const UPSTREAM_PROVENANCE := Provenance(LIFECYCLE_SOURCE, LIFECYCLE_CLASSES)

  const DOWNSTREAM_PROVENANCE := Provenance(EXECUTION_SOURCE, EXECUTION_CLASSES)

  function EventAt(sequence: nat): AuditEvent {
    AuditEvent(sequence, Some("run"), Some("order"), Some("ticket"), Some(DECISION),
               if sequence == 5 then Some(EXECUTION) else None)
  }

  const SNAPSHOT := Snapshot(
    UPSTREAM_PROVENANCE, UPSTREAM_PROVENANCE, UPSTREAM_PROVENANCE, UPSTREAM_PROVENANCE,
    DOWNSTREAM_PROVENANCE, DOWNSTREAM_PROVENANCE, DOWNSTREAM_PROVENANCE,
    [EventAt(1), EventAt(2), EventAt(3), EventAt(4), EventAt(5)],
    [Signal(Reference(1), "long_entry_candidate", Some(DECISION))],
    [RiskDecision("risk", "passed", [], Some(DECISION))],
    [Ticket("ticket", "order", "approved", "risk", Some(DECISION))],
    [Order("order", "risk", Some(EXECUTION))],
    [Position("position", "expected_protection_present", Some(EXECUTION))],
    [Alert("alert", Some(EXECUTION))])

  lemma TerminalIsValid(status: RunStatus)
    requires status in {RunRejected, ApprovedNotExecuted, Executed, ExecutedProtectionMissing}
    ensures ValidDecision(Terminal(status))
  {
    hide Reference, Joined, ValidReferences;
    ReferencesAreValid(1, 6);
    ReferencesAreDistinct(1, 6);
    assert References(1, 6) == [Reference(1), Reference(2), Reference(3), Reference(4), Reference(5)];
    assert EventReferences(Terminal(status)) == References(1, 6);
    forall n | 1 <= n < 6 ensures Reference(n) != "" {
      ReadSnapshotShape.ReferenceReadsBack(n);
    }
  }

  lemma DecisionIsValid()
    ensures ValidDecision(DECISION)
  {
    hide Terminal, ValidDecision;
    TerminalIsValid(Executed);
  }

  lemma ExecutionIsValid()
    ensures ValidExecution(EXECUTION)
  {
    hide Reference, Joined, ValidReferences;
    ReferencesAreValid(1, 6);
    ReferencesAreValid(5, 6);
    assert References(5, 6) == [Reference(5)];
    assert References(1, 6)[4] == Reference(5);
  }

  lemma ExampleUpstream()
    ensures SignalsFit(SNAPSHOT.signals) && RisksFit(SNAPSHOT.risks) && TicketsFit(SNAPSHOT.tickets)
    ensures RunsAgree(SNAPSHOT.signals, SNAPSHOT.risks, SNAPSHOT.tickets)
  {
    hide ValidDecision, Reference;
    DecisionIsValid();
    assert SignalRuns(SNAPSHOT.signals) == RiskRuns(SNAPSHOT.risks) == TicketRuns(SNAPSHOT.tickets) == ["run"];
  }

  lemma ExampleEvent(k: nat)
    requires k < 5
    ensures |SNAPSHOT.auditEvents| == 5 && SNAPSHOT.auditEvents[k] == EventAt(k + 1)
  {
  }

  /** The events 1, 2, ... of one run are covered by its ticket when their references are its manifest. */
  lemma OneRunAudit(events: seq<AuditEvent>, t: Ticket, d: DecisionAttribution)
    requires ValidDecision(d) && t.decision == Some(d) && d.journalReferences == References(1, |events| + 1)
    requires forall k :: 0 <= k < |events| ==>
                           && events[k].sequence == k + 1 && events[k].decision == Some(d)
                           && events[k].runId == Some(d.runId) && events[k].orderId == Some(t.orderId)
                           && events[k].ticketId == Some(d.approvalTicketId)
    ensures AuditFits(events, [t])
  {
    hide ValidDecision, Reference;
    forall k | 0 <= k < |events| ensures EventFits(events[k], [t]) {
      assert d.journalReferences[k] == Reference(k + 1);
      assert t in [t] && Backs(t, events[k]);
    }
    forall x ensures x in d.journalReferences <==> x in ReferencesOf(events, d.runId) {
      if x in d.journalReferences {
        var k :| 0 <= k < |events| && d.journalReferences[k] == x;
        assert events[k] in events && Reference(events[k].sequence) == x;
      }
      if x in ReferencesOf(events, d.runId) {
        var e :| e in events && RunOf(e.decision) == d.runId && Reference(e.sequence) == x;
        var k :| 0 <= k < |events| && events[k] == e;
        assert d.journalReferences[k] == x;
      }
    }
  }

  lemma ExampleAudit()
    ensures AuditFits(SNAPSHOT.auditEvents, SNAPSHOT.tickets)
  {
    hide ValidDecision, Reference, References, AuditFits, SNAPSHOT;
    ExampleTicket();
    ExampleEvent(0);
    DecisionIsValid();
    forall k | 0 <= k < 5 ensures SNAPSHOT.auditEvents[k] == EventAt(k + 1) {
      ExampleEvent(k);
    }
    OneRunAudit(SNAPSHOT.auditEvents, SNAPSHOT.tickets[0], DECISION);
  }

  lemma ExampleTicket()
    ensures SNAPSHOT.tickets == [Ticket("ticket", "order", "approved", "risk", Some(DECISION))]
    ensures DECISION.runId == "run" && DECISION.approvalTicketId == "ticket"
  {
  }

  lemma ExampleExecution()
    ensures ExecutionRecordsFit(SNAPSHOT)
  {
    hide ValidExecution, Reference, References;
    ExecutionIsValid();
    assert SNAPSHOT.tickets[0] in SNAPSHOT.tickets && Leads(SNAPSHOT.tickets[0], EXECUTION);
    assert LineageFits(Some(EXECUTION), SNAPSHOT.tickets);
  }

  lemma ExampleSequences()
    ensures Distinct(Sequences(SNAPSHOT.auditEvents))
  {
    forall k | 0 <= k < 5 ensures |SNAPSHOT.auditEvents| == 5 && Sequences(SNAPSHOT.auditEvents)[k] == k + 1 {
      ExampleEvent(k);
    }
  }

  lemma ExampleLists()
    ensures SNAPSHOT.orders == [Order("order", "risk", Some(EXECUTION))]
    ensures SNAPSHOT.positions == [Position("position", "expected_protection_present", Some(EXECUTION))]
    ensures SNAPSHOT.alerts == [Alert("alert", Some(EXECUTION))]
    ensures EXECUTION.executionId == "execution"
  {
  }

  lemma ExampleIdentities()
    ensures ExecutionsMatch(SNAPSHOT)
  {
    hide SNAPSHOT;
    ExampleLists();
    ExampleSequences();
    ExampleEventExecutions();
    hide EXECUTION;
    assert ExecutionIds(OrderExecutions(SNAPSHOT.orders)) == ["execution"];
    assert ExecutionIds(PositionExecutions(SNAPSHOT.positions)) == ["execution"];
    assert ExecutionIds(AlertExecutions(SNAPSHOT.alerts)) == ["execution"];
    assert Elements(["execution"]) == {"execution"};
  }

  lemma ExampleEventExecutions()
    ensures Elements(ExecutionIds(EventExecutions(SNAPSHOT.auditEvents))) == {"execution"}
  {
    hide Reference, References;
    var executions := EventExecutions(SNAPSHOT.auditEvents);
    assert SNAPSHOT.auditEvents[4].execution == Some(EXECUTION);
    assert forall x :: x in executions <==> x == Some(EXECUTION);
    var k :| 0 <= k < |executions| && executions[k] == Some(EXECUTION);
    assert ExecutionIds(executions)[k] == "execution";
  }

  /** The example is an accepted durable snapshot in execution mode. */
  lemma ExecutionModeIsReachable()
    ensures IsDurableSnapshot(SNAPSHOT) && ExecutionMode(SNAPSHOT) && Accepted(SNAPSHOT)
  {
    hide Reference, References, SignalsFit, RisksFit, TicketsFit, RunsAgree, AuditFits, ExecutionRecordsFit, ExecutionsMatch, Joined;
    ExampleUpstream();
    ExampleAudit();
    ExampleExecution();
    ExampleIdentities();
    ExampleIsDurable();
  }

  lemma {:induction false} AllDurable(p: seq<Provenance>)
    requires forall i :: 0 <= i < |p| ==> IsDurable(p[i])
    ensures DurableCount(p) == |p|
  {
    if p != [] {
      AllDurable(p[1..]);
    }
  }

  lemma ExampleIsDurable()
    ensures DurableCount(Provenances(SNAPSHOT)) == 7
  {
    hide Reference, References, Joined;
    var p := Provenances(SNAPSHOT);
    assert forall i :: 0 <= i < |p| ==> p[i] == UPSTREAM_PROVENANCE || p[i] == DOWNSTREAM_PROVENANCE;
    AllDurable(p);
  }

  // ---------- a snapshot outside execution mode ----------

  /** A run that waits for its approval: four events, and nothing decided or executed. */
  const WAITING := DecisionAttribution(
    1, "workflow", 1, "run", WaitingForApproval, Reference(1), "intent", "risk", "ticket", None, None,
    None, None, None, Reference(1), Reference(2), Reference(3), Reference(4),
    None, References(1, 5), EVIDENCE, LIFECYCLE_CLASSES, false, false)

  function WaitingEvent(sequence: nat): AuditEvent {
    AuditEvent(sequence, Some("run"), Some("order"), Some("ticket"), Some(WAITING), None)
  }

  const WAITING_SNAPSHOT := Snapshot(
    UPSTREAM_PROVENANCE, UPSTREAM_PROVENANCE, UPSTREAM_PROVENANCE, UPSTREAM_PROVENANCE,
    UPSTREAM_PROVENANCE, UPSTREAM_PROVENANCE, UPSTREAM_PROVENANCE,
    [WaitingEvent(1), WaitingEvent(2), WaitingEvent(3), WaitingEvent(4)],
    [Signal(Reference(1), "long_entry_candidate", Some(WAITING))],
    [RiskDecision("risk", "passed", [], Some(WAITING))],
    [Ticket("ticket", "order", "pending", "risk", Some(WAITING))],
    [], [], [])

  lemma WaitingIsValid()
    ensures ValidDecision(WAITING)
  {
    hide Reference, Joined, ValidReferences;
    ReferencesAreValid(1, 5);
    ReferencesAreDistinct(1, 5);
    assert References(1, 5) == [Reference(1), Reference(2), Reference(3), Reference(4)];
    assert EventReferences(WAITING) == References(1, 5);
    forall n | 1 <= n < 5 ensures Reference(n) != "" {
      ReadSnapshotShape.ReferenceReadsBack(n);
    }
  }

  lemma WaitingUpstream()
    ensures UpstreamFits(WAITING_SNAPSHOT)
  {
    hide ValidDecision, Reference, References, AuditFits;
    var s := WAITING_SNAPSHOT;
    WaitingIsValid();
    OneRunAudit(s.auditEvents, s.tickets[0], WAITING);
    assert SignalRuns(s.signals) == RiskRuns(s.risks) == TicketRuns(s.tickets) == ["run"];
  }

  lemma WaitingIsDurable()
    ensures DurableCount(Provenances(WAITING_SNAPSHOT)) == 7 && ProvenanceFits(WAITING_SNAPSHOT)
  {
    hide Reference, References, Joined;
    var p := Provenances(WAITING_SNAPSHOT);
    assert forall i :: 0 <= i < |p| ==> p[i] == UPSTREAM_PROVENANCE;
    AllDurable(p);
  }

  /** The second example is an accepted durable snapshot outside execution mode, and stays accepted with an event repeated. */
  lemma LifecycleModeIsReachable()
    ensures IsDurableSnapshot(WAITING_SNAPSHOT) && !ExecutionMode(WAITING_SNAPSHOT) && Accepted(WAITING_SNAPSHOT)
    ensures Accepted(WAITING_SNAPSHOT.(auditEvents := WAITING_SNAPSHOT.auditEvents + [WaitingEvent(1)]))
  {
    hide Reference, References, UpstreamFits, ProvenanceFits, DurableCount, Joined;
    WaitingUpstream();
    WaitingIsDurable();
    ReadSnapshotShape.RepeatedEventIsAccepted(WAITING_SNAPSHOT);
  }

  // ---------- runs decided and not executed ----------

  function DecidedEvent(status: RunStatus, sequence: nat): AuditEvent {
    AuditEvent(sequence, Some("run"), Some("order"), Some("ticket"), Some(Terminal(status)), None)
  }

  /** One decided run, not executed, whose ticket is shown with this text. */
  function DecidedSnapshot(status: RunStatus, text: string): Snapshot {
    var d := Some(Terminal(status));
    Snapshot(
      UPSTREAM_PROVENANCE, UPSTREAM_PROVENANCE, UPSTREAM_PROVENANCE, UPSTREAM_PROVENANCE,
      UPSTREAM_PROVENANCE, UPSTREAM_PROVENANCE, UPSTREAM_PROVENANCE,
      [DecidedEvent(status, 1), DecidedEvent(status, 2), DecidedEvent(status, 3), DecidedEvent(status, 4), DecidedEvent(status, 5)],
      [Signal(Reference(1), "long_entry_candidate", d)], [RiskDecision("risk", "passed", [], d)],
      [Ticket("ticket", "order", text, "risk", d)], [], [], [])
  }

  lemma DecidedUpstream(status: RunStatus)
    requires status in {RunRejected, ApprovedNotExecuted}
    ensures UpstreamFits(DecidedSnapshot(status, if status.RunRejected? then "rejected" else "approved"))
  {
    hide ValidDecision, Reference, References, AuditFits;
    var s := DecidedSnapshot(status, if status.RunRejected? then "rejected" else "approved");
    TerminalIsValid(status);
    OneRunAudit(s.auditEvents, s.tickets[0], Terminal(status));
    assert SignalRuns(s.signals) == RiskRuns(s.risks) == TicketRuns(s.tickets) == ["run"];
  }

  lemma DecidedIsDurable(status: RunStatus, text: string)
    ensures DurableCount(Provenances(DecidedSnapshot(status, text))) == 7 && ProvenanceFits(DecidedSnapshot(status, text))
  {
    hide Reference, References, Joined, Terminal;
    var p := Provenances(DecidedSnapshot(status, text));
    assert forall i :: 0 <= i < |p| ==> p[i] == UPSTREAM_PROVENANCE;
    AllDurable(p);
  }

  /** A rejected run is accepted with a rejected ticket and an approved one with an approved ticket; a swap is refused. */
  lemma DecidedRunsAreReachable()
    ensures Accepted(DecidedSnapshot(RunRejected, "rejected")) && Accepted(DecidedSnapshot(ApprovedNotExecuted, "approved"))
    ensures !Accepted(DecidedSnapshot(RunRejected, "approved")) && !Accepted(DecidedSnapshot(ApprovedNotExecuted, "rejected"))
  {
    hide Reference, References, Terminal, UpstreamFits, ProvenanceFits, DurableCount, Joined;
    DecidedUpstream(RunRejected);
    DecidedUpstream(ApprovedNotExecuted);
    DecidedIsDurable(RunRejected, "rejected");
    DecidedIsDurable(ApprovedNotExecuted, "approved");
    DecidedIsDurable(RunRejected, "approved");
    DecidedIsDurable(ApprovedNotExecuted, "rejected");
    SwapIsRefused(RunRejected, "approved");
    SwapIsRefused(ApprovedNotExecuted, "rejected");
  }

  lemma SwapIsRefused(status: RunStatus, text: string)
    requires (status == RunRejected && text == "approved") || (status == ApprovedNotExecuted && text == "rejected")
    ensures !UpstreamFits(DecidedSnapshot(status, text))
  {
    hide Reference, References, ValidDecision, AuditFits, SignalsFit, RisksFit, RunsAgree;
    var t := DecidedSnapshot(status, text).tickets[0];
    assert "approved"[0] != "rejected"[0];
    assert !TicketFits(t);
  }
}
