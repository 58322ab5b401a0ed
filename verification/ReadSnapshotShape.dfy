/** What acceptance of a durable snapshot implies across its lists. */
module ReadSnapshotShape {
  import opened Foundations
  import opened ReadSnapshot
  import Blob = BlobBatch
  import RoundTrip = BlobBatchRoundTrip

  // ---------- references ----------

  lemma TextIsInjective(a: Blob.Bytes, b: Blob.Bytes)
    requires Text(a) == Text(b)
    ensures a == b
  {
    forall i | 0 <= i < |a| ensures i < |b| && a[i] == b[i] {
      assert Text(a)[i] == Text(b)[i];
    }
  }

  /** No two sequence numbers share a reference. */
  lemma ReferenceIsInjective(m: int, n: int)
    requires Reference(m) == Reference(n)
    ensures m == n
  {
    var k := |REFERENCE_PREFIX|;
    assert Reference(m)[k..] == Reference(n)[k..];
    var dm, dn := Blob.Decimal(if m < 0 then -m else m), Blob.Decimal(if n < 0 then -n else n);
    assert Reference(m)[k..] == (if m < 0 then "-" else "") + Text(dm);
    assert Reference(n)[k..] == (if n < 0 then "-" else "") + Text(dn);
    assert Text(dm)[0] != '-' && Text(dn)[0] != '-';
    assert m < 0 <==> n < 0 by {
      assert Reference(m)[k] == if m < 0 then '-' else Text(dm)[0];
      assert Reference(n)[k] == if n < 0 then '-' else Text(dn)[0];
    }
    var sign := if m < 0 then 1 else 0;
    assert Reference(m)[k..][sign..] == Text(dm) && Reference(n)[k..][sign..] == Text(dn);
    TextIsInjective(dm, dn);
    RoundTrip.DecimalValue(if m < 0 then -m else m);
    RoundTrip.DecimalValue(if n < 0 then -n else n);
  }

  /** The reference of a positive sequence number is well formed, and its number is read back from it. */
  lemma ReferenceReadsBack(n: nat)
    requires n >= 1
    ensures IsReference(Reference(n)) && ReferenceNumber(Reference(n)) == n
  {
    var digits := Blob.Decimal(n);
    var tail := Reference(n)[|REFERENCE_PREFIX|..];
    assert tail == Text(digits);
    assert forall i :: 0 <= i < |tail| ==> Blob.IsDigit(digits[i]) && tail[i] == digits[i] as char;
    assert seq(|tail|, i requires 0 <= i < |tail| => tail[i] as int as Blob.byte) == digits;
    RoundTrip.DecimalValue(n);
  }

  // ---------- one to one by key ----------

  /** Every position on either side has exactly one position on the other side with the same key. */
  ghost predicate OneToOne(left: seq<string>, right: seq<string>) {
    && |left| == |right|
    && (forall i :: 0 <= i < |left| ==> PartnersOf(left[i], right) == 1)
    && (forall j :: 0 <= j < |right| ==> PartnersOf(right[j], left) == 1)
  }

  ghost function PartnersOf(key: string, side: seq<string>): nat {
    |set j | 0 <= j < |side| && side[j] == key|
  }

  lemma OnePartner(key: string, side: seq<string>)
    requires Distinct(side) && key in side
    ensures PartnersOf(key, side) == 1
  {
    var j :| 0 <= j < |side| && side[j] == key;
    assert (set k | 0 <= k < |side| && side[k] == key) == {j};
  }

  lemma SameKeysPair(left: seq<string>, right: seq<string>)
    requires Distinct(left) && Distinct(right) && Elements(left) == Elements(right)
    ensures OneToOne(left, right)
  {
    DistinctIffFullSize(left);
    DistinctIffFullSize(right);
    forall i | 0 <= i < |left| ensures PartnersOf(left[i], right) == 1 {
      assert left[i] in Elements(left);
      OnePartner(left[i], right);
    }
    forall j | 0 <= j < |right| ensures PartnersOf(right[j], left) == 1 {
      assert right[j] in Elements(right);
      OnePartner(right[j], left);
    }
  }

  /** Signals, risk decisions and tickets correspond one to one by run, and partners carry the same attribution. */
  lemma OneToOneByRun(s: Snapshot)
    requires IsDurableSnapshot(s)
    ensures OneToOne(SignalRuns(s.signals), RiskRuns(s.risks))
    ensures OneToOne(SignalRuns(s.signals), TicketRuns(s.tickets))
    ensures forall i, j :: 0 <= i < |s.signals| && 0 <= j < |s.risks| && SignalRuns(s.signals)[i] == RiskRuns(s.risks)[j]
                           ==> s.signals[i].decision == s.risks[j].decision
    ensures forall i, k :: 0 <= i < |s.signals| && 0 <= k < |s.tickets| && SignalRuns(s.signals)[i] == TicketRuns(s.tickets)[k]
                           ==> s.signals[i].decision == s.tickets[k].decision
  {
    hide OneToOne, Distinct, Elements, SignalFits, RiskFits, TicketFits, AuditFits, ProvenanceFits, DownstreamFits, DurableCount;
    SameKeysPair(SignalRuns(s.signals), RiskRuns(s.risks));
    SameKeysPair(SignalRuns(s.signals), TicketRuns(s.tickets));
  }

  // ---------- counting audit events ----------

  /** What tells audit events apart: the run, and the reference within its manifest. */
  ghost function EventKeys(events: seq<AuditEvent>): (r: seq<(string, string)>)
    ensures |r| == |events|
    ensures forall i :: 0 <= i < |r| ==> r[i] == (RunOf(events[i].decision), Reference(events[i].sequence))
  {
    seq(|events|, i requires 0 <= i < |events| => (RunOf(events[i].decision), Reference(events[i].sequence)))
  }

  ghost function ManifestKeys(t: Ticket): (r: seq<(string, string)>)
    ensures |r| == |Manifest(t)|
    ensures forall i :: 0 <= i < |r| ==> r[i] == (RunOf(t.decision), Manifest(t)[i])
  {
    seq(|Manifest(t)|, i requires 0 <= i < |Manifest(t)| => (RunOf(t.decision), Manifest(t)[i]))
  }

  function ManifestTotal(tickets: seq<Ticket>): nat {
    if tickets == [] then 0 else ManifestTotal(tickets[..|tickets| - 1]) + |Manifest(tickets[|tickets| - 1])|
  }

  ghost function AllKeys(tickets: seq<Ticket>): set<(string, string)> {
    set k, x | 0 <= k < |tickets| && x in ManifestKeys(tickets[k]) :: x
  }

  lemma ManifestKeysAreDistinct(t: Ticket)
    requires Distinct(Manifest(t))
    ensures Distinct(ManifestKeys(t)) && |Elements(ManifestKeys(t))| == |Manifest(t)|
  {
    assert forall i, j :: 0 <= i < j < |Manifest(t)| ==> Manifest(t)[i] != Manifest(t)[j];
    DistinctIffFullSize(ManifestKeys(t));
  }

  lemma AllKeysGrow(tickets: seq<Ticket>, t: Ticket)
    requires RunOf(t.decision) !in TicketRuns(tickets)
    ensures AllKeys(tickets + [t]) == AllKeys(tickets) + Elements(ManifestKeys(t))
    ensures AllKeys(tickets) !! Elements(ManifestKeys(t))
  {
    var more := tickets + [t];
    forall x | x in AllKeys(tickets) + Elements(ManifestKeys(t)) ensures x in AllKeys(more) {
      if x in AllKeys(tickets) {
        var k :| 0 <= k < |tickets| && x in ManifestKeys(tickets[k]);
        assert x in ManifestKeys(more[k]);
      } else {
        assert x in ManifestKeys(more[|tickets|]);
      }
    }
    forall x | x in AllKeys(tickets) ensures x !in Elements(ManifestKeys(t)) {
      var k :| 0 <= k < |tickets| && x in ManifestKeys(tickets[k]);
      assert x.0 == TicketRuns(tickets)[k];
    }
  }

  /** Tickets of different runs have as many keys as their manifests have references. */
  lemma {:induction false} AllKeysCount(tickets: seq<Ticket>)
    requires Distinct(TicketRuns(tickets))
    requires forall k :: 0 <= k < |tickets| ==> Distinct(Manifest(tickets[k]))
    ensures |AllKeys(tickets)| == ManifestTotal(tickets)
  {
    if tickets == [] {
      assert AllKeys(tickets) == {};
    } else {
      var front, t := tickets[..|tickets| - 1], tickets[|tickets| - 1];
      assert tickets == front + [t];
      forall i, j | 0 <= i < j < |front| ensures TicketRuns(front)[i] != TicketRuns(front)[j] {
        assert TicketRuns(tickets)[i] != TicketRuns(tickets)[j];
      }
      AllKeysCount(front);
      forall i | 0 <= i < |front| ensures TicketRuns(front)[i] != RunOf(t.decision) {
        assert TicketRuns(tickets)[i] != TicketRuns(tickets)[|front|];
      }
      AllKeysGrow(front, t);
      ManifestKeysAreDistinct(t);
    }
  }

  lemma ManifestsAreDistinct(tickets: seq<Ticket>, k: nat)
    requires TicketsFit(tickets) && k < |tickets|
    ensures Distinct(Manifest(tickets[k]))
  {
    var m := Manifest(tickets[k]);
    assert TicketFits(tickets[k]);
    assert ValidReferences(m);
    assert (set x | x in m) == Elements(m);
    DistinctIffFullSize(m);
  }

  lemma EventKeyIsManifestKey(s: Snapshot, i: nat)
    requires AuditFits(s.auditEvents, s.tickets) && i < |s.auditEvents|
    ensures EventKeys(s.auditEvents)[i] in AllKeys(s.tickets)
  {
    hide ValidDecision, Reference, ReferencesOf;
    var e := s.auditEvents[i];
    assert EventFits(e, s.tickets);
    var t :| t in s.tickets && Backs(t, e);
    var k :| 0 <= k < |s.tickets| && s.tickets[k] == t;
    var j :| 0 <= j < |Manifest(t)| && Manifest(t)[j] == Reference(e.sequence);
    assert ManifestKeys(t)[j] == EventKeys(s.auditEvents)[i];
    assert EventKeys(s.auditEvents)[i] in ManifestKeys(s.tickets[k]);
  }

  lemma ManifestKeyIsEventKey(s: Snapshot, x: (string, string))
    requires AuditFits(s.auditEvents, s.tickets) && x in AllKeys(s.tickets)
    ensures x in EventKeys(s.auditEvents)
  {
    hide ValidDecision, Reference, EventFits;
    var k :| 0 <= k < |s.tickets| && x in ManifestKeys(s.tickets[k]);
    assert x.0 == TicketRuns(s.tickets)[k];
    assert x.1 in Elements(Manifest(s.tickets[k]));
    assert x.1 in ReferencesOf(s.auditEvents, x.0);
    var e :| e in s.auditEvents && RunOf(e.decision) == x.0 && Reference(e.sequence) == x.1;
    var i :| 0 <= i < |s.auditEvents| && s.auditEvents[i] == e;
    assert EventKeys(s.auditEvents)[i] == x;
  }

  /** An accepted snapshot has an audit event for every manifest entry, and exactly as many iff none repeats. */
  lemma AuditCount(s: Snapshot)
    requires IsDurableSnapshot(s)
    ensures |s.auditEvents| >= ManifestTotal(s.tickets)
    ensures |s.auditEvents| == ManifestTotal(s.tickets) <==> Distinct(EventKeys(s.auditEvents))
  {
    hide Distinct, TicketsFit, AuditFits, SignalsFit, RisksFit, RunsAgree, ProvenanceFits, DownstreamFits, DurableCount;
    var keys := EventKeys(s.auditEvents);
    forall k | 0 <= k < |s.tickets| ensures Distinct(Manifest(s.tickets[k])) {
      ManifestsAreDistinct(s.tickets, k);
    }
    DistinctRuns(s.tickets);
    AllKeysCount(s.tickets);
    assert Elements(keys) == AllKeys(s.tickets) by {
      forall i | 0 <= i < |keys| ensures keys[i] in AllKeys(s.tickets) {
        EventKeyIsManifestKey(s, i);
      }
      forall x | x in AllKeys(s.tickets) ensures x in keys {
        ManifestKeyIsEventKey(s, x);
      }
    }
    DistinctIffFullSize(keys);
  }

  lemma DistinctRuns(tickets: seq<Ticket>)
    requires TicketsFit(tickets)
    ensures Distinct(TicketRuns(tickets))
  {
  }

  /** In execution mode every manifest entry of every run has exactly one audit event. */
  lemma ExecutionModeCountsExactly(s: Snapshot)
    requires IsDurableSnapshot(s) && ExecutionMode(s)
    ensures |s.auditEvents| == ManifestTotal(s.tickets)
  {
    hide UpstreamFits, ProvenanceFits, DurableCount, ExecutionRecordsFit, Reference;
    var keys, numbers := EventKeys(s.auditEvents), Sequences(s.auditEvents);
    forall i, j | 0 <= i < j < |keys| ensures keys[i] != keys[j] {
      assert numbers[i] != numbers[j];
      if keys[i] == keys[j] {
        ReferenceIsInjective(numbers[i], numbers[j]);
      }
    }
    AuditCount(s);
  }

  /** In execution mode no journal entry belongs to the manifests of two runs. */
  lemma ManifestsAreDisjoint(s: Snapshot)
    requires IsDurableSnapshot(s) && ExecutionMode(s)
    ensures forall j, k :: 0 <= j < k < |s.tickets| ==> Elements(Manifest(s.tickets[j])) !! Elements(Manifest(s.tickets[k]))
  {
    hide ProvenanceFits, DurableCount, ExecutionRecordsFit, AuditFits, TicketFits, SignalsFit, RisksFit, RunsAgree, Elements, Manifest;
    forall j, k | 0 <= j < k < |s.tickets| ensures Elements(Manifest(s.tickets[j])) !! Elements(Manifest(s.tickets[k])) {
      TwoManifestsAreDisjoint(s, j, k);
    }
  }

  lemma TwoManifestsAreDisjoint(s: Snapshot, j: nat, k: nat)
    requires j < k < |s.tickets| && AuditFits(s.auditEvents, s.tickets)
    requires Distinct(TicketRuns(s.tickets)) && Distinct(Sequences(s.auditEvents))
    ensures Elements(Manifest(s.tickets[j])) !! Elements(Manifest(s.tickets[k]))
  {
    hide Reference, EventFits;
    var runs, numbers := TicketRuns(s.tickets), Sequences(s.auditEvents);
    assert runs[j] != runs[k] && Distinct(numbers);
    forall x | x in Elements(Manifest(s.tickets[j])) ensures x !in Elements(Manifest(s.tickets[k])) {
      if x in Elements(Manifest(s.tickets[k])) {
        var a := EventFor(s.auditEvents, runs[j], x);
        var b := EventFor(s.auditEvents, runs[k], x);
        ReferenceIsInjective(numbers[a], numbers[b]);
      }
    }
  }

  lemma EventFor(events: seq<AuditEvent>, run: string, x: string) returns (i: nat)
    requires x in ReferencesOf(events, run)
    ensures i < |events| && RunOf(events[i].decision) == run && Reference(events[i].sequence) == x
  {
    hide Reference;
    var e :| e in events && RunOf(e.decision) == run && Reference(e.sequence) == x;
    i :| 0 <= i < |events| && events[i] == e;
  }

  /**
    Outside execution mode the count is not exact: an accepted snapshot stays accepted when its first
    audit event is listed twice.
   */
  lemma RepeatedEventIsAccepted(s: Snapshot)
    requires IsDurableSnapshot(s) && !ExecutionMode(s)
    ensures IsDurableSnapshot(s.(auditEvents := s.auditEvents + [s.auditEvents[0]]))
  {
    hide ProvenanceFits, DurableCount, SignalsFit, RisksFit, TicketsFit, RunsAgree, EventFits, Reference;
    var again := s.(auditEvents := s.auditEvents + [s.auditEvents[0]]);
    assert Provenances(again) == Provenances(s);
    SameProvenance(s, again);
    forall i | 0 <= i < |again.auditEvents| ensures EventFits(again.auditEvents[i], s.tickets) {
      assert again.auditEvents[i] == if i < |s.auditEvents| then s.auditEvents[i] else s.auditEvents[0];
    }
    forall k | 0 <= k < |s.tickets|
      ensures Elements(Manifest(s.tickets[k])) == ReferencesOf(again.auditEvents, TicketRuns(s.tickets)[k])
    {
      assert forall e :: e in again.auditEvents <==> e in s.auditEvents;
      assert ReferencesOf(again.auditEvents, TicketRuns(s.tickets)[k]) == ReferencesOf(s.auditEvents, TicketRuns(s.tickets)[k]);
    }
  }

  lemma SameProvenance(s: Snapshot, t: Snapshot)
    requires Provenances(s) == Provenances(t) && s.orderProvenance == t.orderProvenance
    ensures ProvenanceFits(s) == ProvenanceFits(t)
  {
  }

  // ---------- executions ----------

  /** In execution mode orders, positions and alerts correspond one to one by execution, each of an executed run. */
  lemma ExecutionsPair(s: Snapshot)
    requires IsDurableSnapshot(s) && ExecutionMode(s)
    ensures OneToOne(ExecutionIds(OrderExecutions(s.orders)), ExecutionIds(PositionExecutions(s.positions)))
    ensures OneToOne(ExecutionIds(OrderExecutions(s.orders)), ExecutionIds(AlertExecutions(s.alerts)))
    ensures forall i :: 0 <= i < |s.orders| ==> s.orders[i].execution.Some? && BelongsToExecutedRun(s.orders[i].execution.value, s.tickets)
    ensures forall i :: 0 <= i < |s.orders| ==> ExecutionId(s.orders[i].execution) in ExecutionIds(EventExecutions(s.auditEvents))
  {
    hide OneToOne, Distinct, UpstreamFits, ProvenanceFits, DurableCount, ValidExecution;
    var orders := OrderExecutions(s.orders);
    SameKeysPair(ExecutionIds(orders), ExecutionIds(PositionExecutions(s.positions)));
    SameKeysPair(ExecutionIds(orders), ExecutionIds(AlertExecutions(s.alerts)));
    forall i | 0 <= i < |s.orders|
      ensures s.orders[i].execution.Some? && BelongsToExecutedRun(s.orders[i].execution.value, s.tickets)
      ensures ExecutionId(s.orders[i].execution) in ExecutionIds(EventExecutions(s.auditEvents))
    {
      assert orders[i] in orders + PositionExecutions(s.positions) + AlertExecutions(s.alerts);
      assert LineageFits(orders[i], s.tickets);
      assert ExecutionIds(orders)[i] in Elements(ExecutionIds(orders));
    }
  }

  /** Some ticket of the execution's own run carries an executed status and an approval. */
  ghost predicate BelongsToExecutedRun(x: ExecutionAttribution, tickets: seq<Ticket>) {
    exists t :: t in tickets && Leads(t, x)
  }
}
