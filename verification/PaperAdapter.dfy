/** The paper broker adapter itself: fields updated call by call beside an append-only journal. */
module PaperAdapter {
  import opened Foundations
  import opened Identifiers
  import opened EventJournal
  import opened PaperRecords
  import opened PaperProtocol
  import PaperRuns

  datatype AdapterError = InvalidText | InvalidTimeout | InvalidAge | MustReconcile | InvalidPlan | JournalDamaged

  /** A connector: it records every request it is called with, and answers as the outside world decides. */
  class Connector<Q, A> {
    var received: seq<Q>
    const answers: nat -> CallResult<A>

    constructor (answers: nat -> CallResult<A>)
      ensures received == [] && this.answers == answers
    {
      this.answers := answers;
      received := [];
    }

    method Ask(q: Q) returns (a: CallResult<A>)
      modifies this
      ensures received == old(received) + [q]
      ensures a == answers(|old(received)|)
    {
      a := answers(|received|);
      received := received + [q];
    }

    function Next(): CallResult<A>
      reads this
    {
      answers(|received|)
    }
  }

  /** What a call meets when it asks its connector; without one, the default connector raises. */
  function AnswerOf<Q, A>(connector: Connector?<Q, A>): CallResult<A>
    reads connector
  {
    if connector == null then Raised(OtherError) else connector.Next()
  }

  /** Every contract object a lookup connector returns has passed its own constructor. */
  ghost predicate AnswersValidContracts(connector: Connector?<LookupRequest, Option<ResolvedContract>>) {
    connector != null ==>
      forall n :: connector.answers(n).Returned? && connector.answers(n).value.Some? ==> connector.answers(n).value.value.Valid()
  }

  /** The journal holds `earlier` and then a run of `calls`, and `m` is what replaying that run yields. */
  ghost predicate Accounts(earlier: seq<Event>, endpoint: EndpointKind, calls: seq<Call>, journal: seq<Event>, m: Memory) {
    journal == earlier + Run(endpoint, calls) && m == MemoryAfter(endpoint, calls)
  }

  /** One more call: the journal grows by what the call emits, and the memory by its effect. */
  lemma AccountsForCall(earlier: seq<Event>, endpoint: EndpointKind, calls: seq<Call>, call: Call, journal: seq<Event>, m: Memory)
    requires Accounts(earlier, endpoint, calls, journal, m)
    ensures Accounts(earlier, endpoint, calls + [call], journal + Emits(endpoint, m, call), Effect(endpoint, m, call))
  {
    hide Run, Emits, Effect, ReplayFrom;
    MemoryAfterCall(endpoint, calls, call);
  }

  lemma AppendedInOrder(was: seq<Event>, attempt: Event, result: Event, tail: seq<Event>)
    ensures was + [attempt] + [result] + tail == was + ([attempt, result] + tail)
  {
  }

  lemma LookupEmits(endpoint: EndpointKind, m: Memory, q: LookupRequest, at: Timestamp, timeout: real, maxAge: real, found: CallResult<Option<ResolvedContract>>)
    requires Admissible(Lookup(q, at, timeout, maxAge, found))
    ensures var call := Lookup(q, at, timeout, maxAge, found);
            var result := LookupResultOf(endpoint, m, q, at, maxAge, found);
            && Emits(endpoint, m, call)
            == [LookupAttempted(q, endpoint), LookupRecorded(result)] + Escalation(m, result.requiresReconciliation, at, AfterLookup(result.status))
            && Effect(endpoint, m, call) == Apply(m, EscalationChange(m, result.requiresReconciliation))
  {
    hide ValidIdentifier, ValidSymbol, ValidCurrency, SubmissionResultOf, LookupResultOf, StatusResultOf, FillResultOf;
  }

  lemma SubmissionEmits(endpoint: EndpointKind, m: Memory, q: SubmissionRequest, at: Timestamp, timeout: real, maxAge: real, sent: CallResult<()>)
    requires Admissible(Submit(q, at, timeout, maxAge, sent))
    ensures var call := Submit(q, at, timeout, maxAge, sent);
            var result := SubmissionResultOf(endpoint, m, q, at, maxAge, sent);
            && Emits(endpoint, m, call)
            == [SubmissionAttempted(q, endpoint), SubmissionRecorded(result)] + Escalation(m, result.requiresReconciliation, at, AfterSubmission(result.status))
            && Effect(endpoint, m, call) == Apply(m, if result.status.AcceptedSubmission? then Accept(q, result) else EscalationChange(m, result.requiresReconciliation))
  {
    hide ValidIdentifier, ValidSymbol, ValidCurrency, SubmissionResultOf, LookupResultOf, StatusResultOf, FillResultOf;
  }

  lemma StatusEmits(endpoint: EndpointKind, m: Memory, c: StatusCallback, about: SubmissionRecord, at: Timestamp, maxAge: real)
    requires Admissible(ReportStatus(c, about, at, maxAge))
    ensures var call := ReportStatus(c, about, at, maxAge);
            var result := StatusResultOf(endpoint, m, c, about, at, maxAge);
            && Emits(endpoint, m, call)
            == [StatusReceived(c, endpoint), StatusRecorded(result)] + Escalation(m, result.requiresReconciliation, at, AfterStatus(result.status))
            && Effect(endpoint, m, call) == Apply(m, if result.status.AcceptedUpdate? then Note(c, result) else EscalationChange(m, result.requiresReconciliation))
  {
    hide ValidIdentifier, ValidSymbol, ValidCurrency, SubmissionResultOf, LookupResultOf, StatusResultOf, FillResultOf;
  }

  lemma FillEmits(endpoint: EndpointKind, m: Memory, c: FillCallback, about: SubmissionRecord, at: Timestamp, maxAge: real)
    requires Admissible(ReportFill(c, about, at, maxAge))
    ensures var call := ReportFill(c, about, at, maxAge);
            var result := FillResultOf(endpoint, m, c, about, at, maxAge);
            && Emits(endpoint, m, call)
            == [FillReceived(c, endpoint), FillRecorded(result)] + Escalation(m, result.requiresReconciliation, at, AfterFill(result.status))
            && Effect(endpoint, m, call) == Apply(m, if result.status.AcceptedUpdate? then Fill(c, result) else EscalationChange(m, result.requiresReconciliation))
  {
    hide ValidIdentifier, ValidSymbol, ValidCurrency, SubmissionResultOf, LookupResultOf, StatusResultOf, FillResultOf;
  }

  lemma InadmissibleIsIdle(endpoint: EndpointKind, m: Memory, call: Call)
    requires !Admissible(call)
    ensures Emits(endpoint, m, call) == [] && Effect(endpoint, m, call) == m
    ensures Sends(m, call) == [] && Asks(m, call) == []
  {
    hide Admissible;
  }

  lemma StoredTogether(earlier: seq<Event>, endpoint: EndpointKind, calls: seq<Call>, journal: seq<Event>, m: Memory)
    requires Accounts(earlier, endpoint, calls, journal, m)
    ensures m.submissionPayloads.Keys == m.submissionRecords.Keys
    ensures m.statusPayloads.Keys == m.statusRecords.Keys
    ensures m.fillPayloads.Keys == m.fillRecords.Keys
    ensures m.observedAt.Keys == m.cumulative.Keys
  {
    PaperRuns.RunsAreSound(endpoint, calls);
    hide MemoryAfter, PaperRuns.GuardedAcceptance;
  }

  class Adapter {
    const endpoint: EndpointKind
    const journal: Journal<Event>
    var connectionState: ConnectionState
    var requiresReconciliation: bool
    var submissionPayloads: map<string, SubmissionRequest>
    var submissionRecords: map<string, SubmissionRecord>
    var statusPayloads: map<string, StatusCallback>
    var statusRecords: map<string, StatusRecord>
    var fillPayloads: map<string, FillCallback>
    var fillRecords: map<string, FillRecord>
    var observedAt: map<string, int>
    var cumulative: map<string, nat>

    /** The calls made so far, and what the journal held before the first of them. */
    ghost var calls: seq<Call>
    ghost const earlier: seq<Event>

    ghost function Memory(): Memory
      reads this
    {
      PaperProtocol.Memory(connectionState, requiresReconciliation, submissionPayloads, submissionRecords,
                           statusPayloads, statusRecords, fillPayloads, fillRecords, observedAt, cumulative)
    }

    /**
      The journal has gained exactly what a run of these calls emits, and every field equals what a
      replay of that journal yields.
     */
    ghost predicate Valid()
      reads this, journal
    {
      && journal.Valid()
      && Accounts(earlier, endpoint, calls, journal.Events(), Memory())
    }

    constructor (journal: Journal<Event>, endpoint: EndpointKind)
      requires journal.Valid()
      ensures Valid() && calls == [] && Memory() == INITIAL_MEMORY
      ensures this.journal == journal && this.endpoint == endpoint && earlier == journal.Events()
    {
      this.journal := journal;
      this.endpoint := endpoint;
      connectionState, requiresReconciliation := Disconnected, false;
      submissionPayloads, submissionRecords := map[], map[];
      statusPayloads, statusRecords := map[], map[];
      fillPayloads, fillRecords := map[], map[];
      observedAt, cumulative := map[], map[];
      calls := [];
      earlier := journal.Events();
    }

    /** Journals one connection state and adopts it. */
    method AdoptConnection(state: ConnectionState, recordedAt: Timestamp, reason: Reason) returns (record: ConnectionRecord)
      requires journal.Valid()
      modifies this`connectionState, this`requiresReconciliation, journal
      ensures record == ConnectionRecord(state, recordedAt, reason, state.UnknownState?)
      ensures journal.Valid() && journal.Events() == old(journal.Events()) + [ConnectionRecorded(record)]
      ensures Memory() == Apply(old(Memory()), Connect(state))
    {
      record := ConnectionRecord(state, recordedAt, reason, state.UnknownState?);
      var _ := journal.Append(record.recordedAt, ConnectionRecorded(record));
      connectionState := record.state;
      requiresReconciliation := record.requiresReconciliation;
    }

    /** Marks the connection unknown when an outcome needs reconciliation and it is not unknown already. */
    method MarkUnknownIfRequired(required: bool, recordedAt: Timestamp, reason: Reason)
      requires journal.Valid()
      modifies this`connectionState, this`requiresReconciliation, journal
      ensures journal.Valid() && journal.Events() == old(journal.Events()) + Escalation(old(Memory()), required, recordedAt, reason)
      ensures Memory() == Apply(old(Memory()), EscalationChange(old(Memory()), required))
    {
      if required && connectionState != UnknownState {
        var _ := AdoptConnection(UnknownState, recordedAt, reason);
      }
    }

    method RecordConnectionState(state: ConnectionState, recordedAt: Timestamp, reason: string)
      returns (r: Result<ConnectionRecord, AdapterError>)
      requires Valid()
      modifies this, journal
      ensures Valid() && calls == old(calls) + [RecordConnection(state, recordedAt, reason)]
      ensures r == if ValidIdentifier(reason) then Ok(ConnectionRecord(state, recordedAt, Given(reason), state.UnknownState?))
                   else Err(InvalidText)
    {
      hide Accounts, ValidIdentifier;
      ghost var call := RecordConnection(state, recordedAt, reason);
      ghost var was, m := journal.Events(), Memory();
      AccountsForCall(earlier, endpoint, calls, call, was, m);
      calls := calls + [call];
      if !ValidIdentifier(reason) {
        assert was + [] == was;
        return Err(InvalidText);
      }
      var record := AdoptConnection(state, recordedAt, Given(reason));
      return Ok(record);
    }

    method ProbeLocalConnectivity(probeId: string, recordedAt: Timestamp, reason: string, timeout: real,
                                  connector: Connector<(), ()>)
      returns (r: Result<ProbeResult, AdapterError>)
      requires Valid()
      modifies this, journal, connector
      ensures Valid() && calls == old(calls) + [Probe(probeId, recordedAt, reason, timeout, old(connector.Next()))]
      ensures connector.received == old(connector.received) + if r.Ok? then [()] else []
      ensures r.Ok? <==> ValidIdentifier(probeId) && ValidIdentifier(reason) && 0.0 < timeout <= 30.0
      ensures r.Ok? ==> r.value == ProbeResultOf(endpoint, probeId, recordedAt, reason, old(connector.Next()))
    {
      hide Accounts, ValidIdentifier;
      ghost var call := Probe(probeId, recordedAt, reason, timeout, connector.Next());
      ghost var was, m := journal.Events(), Memory();
      AccountsForCall(earlier, endpoint, calls, call, was, m);
      calls := calls + [call];
      assert was + [] == was;
      if !ValidIdentifier(probeId) || !ValidIdentifier(reason) {
        return Err(InvalidText);
      }
      if !ValidTimeout(timeout) {
        return Err(InvalidTimeout);
      }
      var answer := connector.Ask(());
      var result;
      match answer {
        case Raised(ConnectionRefused) =>
          result := ProbeResult(probeId, recordedAt, reason, endpoint, Unreachable, Disconnected, false, Some(Refused));
        case Raised(TimedOut) =>
          result := ProbeResult(probeId, recordedAt, reason, endpoint, ProbeUnknown, UnknownState, true, Some(Timeout));
        case Raised(OsFailure) =>
          result := ProbeResult(probeId, recordedAt, reason, endpoint, ProbeUnknown, UnknownState, true, Some(OsError));
        case Raised(_) =>
          result := ProbeResult(probeId, recordedAt, reason, endpoint, ProbeUnknown, UnknownState, true, Some(UnexpectedError));
        case Returned(_) =>
          result := ProbeResult(probeId, recordedAt, reason, endpoint, Reachable, ConnectedPaper, false, None);
      }
      var _ := journal.Append(result.recordedAt, ProbeRecorded(result));
      var _ := AdoptConnection(result.connectionState, result.recordedAt, AfterProbe(result.status));
      assert journal.Events() == was + Emits(endpoint, m, call);
      return Ok(result);
    }

    /** The lookup's outcome: refused by the adapter's own state, or whatever the connector answers. */
    method AnswerLookup(request: LookupRequest, recordedAt: Timestamp, maxAge: real,
                        connector: Connector?<LookupRequest, Option<ResolvedContract>>)
      returns (result: LookupResult)
      modifies connector
      ensures result.recordedAt == recordedAt
      ensures result == LookupResultOf(endpoint, Memory(), request, recordedAt, maxAge, old(AnswerOf(connector)))
      ensures connector != null ==>
                connector.received == old(connector.received) + if LookupBlock(Memory(), request).None? then [request] else []
    {
      hide ContractIsStale;
      if requiresReconciliation {
        result := BuildLookupResult(request, recordedAt, endpoint, LookupReconciliationRequired, Some(ReconciliationRequired), None);
      } else if connectionState != ConnectedPaper {
        result := BuildLookupResult(request, recordedAt, endpoint, LookupDisconnected, Some(NoConnection), None);
      } else if request.securityType != Stock {
        result := BuildLookupResult(request, recordedAt, endpoint, Unsupported, Some(UnsupportedInstrument), None);
      } else {
        var answer := Raised(OtherError);
        if connector != null {
          answer := connector.Ask(request);
        }
        match answer {
          case Returned(Some(contract)) =>
            if ContractIsStale(contract, recordedAt, maxAge) {
              result := BuildLookupResult(request, recordedAt, endpoint, StaleResultRejected, Some(StaleResult), None);
            } else {
              result := BuildLookupResult(request, recordedAt, endpoint, Resolved, None, Some(contract));
            }
          case Returned(None) =>
            result := BuildLookupResult(request, recordedAt, endpoint, LookupUnknown, Some(UnexpectedError), None);
          case Raised(ContractNotFound) =>
            result := BuildLookupResult(request, recordedAt, endpoint, LookupNotFound, Some(NotFound), None);
          case Raised(ContractAmbiguous) =>
            result := BuildLookupResult(request, recordedAt, endpoint, LookupAmbiguous, Some(Ambiguous), None);
          case Raised(TimedOut) =>
            result := BuildLookupResult(request, recordedAt, endpoint, LookupUnknown, Some(Timeout), None);
          case Raised(ConnectionRefused) =>
            result := BuildLookupResult(request, recordedAt, endpoint, LookupUnknown, Some(OsError), None);
          case Raised(OsFailure) =>
            result := BuildLookupResult(request, recordedAt, endpoint, LookupUnknown, Some(OsError), None);
          case Raised(_) =>
            result := BuildLookupResult(request, recordedAt, endpoint, LookupUnknown, Some(UnexpectedError), None);
        }
      }
    }

    method LookupContract(request: LookupRequest, recordedAt: Timestamp, timeout: real, maxAge: real,
                          connector: Connector?<LookupRequest, Option<ResolvedContract>>)
      returns (r: Result<LookupResult, AdapterError>)
      requires Valid() && request.Valid() && AnswersValidContracts(connector)
      modifies this, journal, connector
      ensures Valid() && calls == old(calls) + [Lookup(request, recordedAt, timeout, maxAge, old(AnswerOf(connector)))]
      ensures r.Ok? <==> 0.0 < timeout <= 30.0 && 0.0 < maxAge <= 86400.0
      ensures r.Ok? ==> r.value == LookupResultOf(endpoint, old(Memory()), request, recordedAt, maxAge, old(AnswerOf(connector)))
      ensures connector != null ==>
                connector.received == old(connector.received) + Asks(old(Memory()), calls[|old(calls)|])
    {
      hide Accounts, ValidIdentifier, ValidSymbol, ValidCurrency, Emits, Effect, LookupResultOf, LookupBlock;
      ghost var call := Lookup(request, recordedAt, timeout, maxAge, AnswerOf(connector));
      ghost var was, m := journal.Events(), Memory();
      AccountsForCall(earlier, endpoint, calls, call, was, m);
      calls := calls + [call];
      assert was + [] == was;
      if !Admissible(call) {
        InadmissibleIsIdle(endpoint, m, call);
      }
      if !ValidTimeout(timeout) {
        return Err(InvalidTimeout);
      }
      if !ValidAge(maxAge) {
        return Err(InvalidAge);
      }
      var _ := journal.Append(request.requestedAt, LookupAttempted(request, endpoint));
      LookupEmits(endpoint, m, request, recordedAt, timeout, maxAge, call.found);
      var result := AnswerLookup(request, recordedAt, maxAge, connector);
      var _ := journal.Append(result.recordedAt, LookupRecorded(result));
      MarkUnknownIfRequired(result.requiresReconciliation, result.recordedAt, AfterLookup(result.status));
      assert Memory() == Effect(endpoint, m, call);
      AppendedInOrder(was, LookupAttempted(request, endpoint), LookupRecorded(result), Escalation(m, result.requiresReconciliation, recordedAt, AfterLookup(result.status)));
      return Ok(result);
    }

    method CreateOrderPlan(order: OrderRequest) returns (r: Result<OrderPlan, AdapterError>)
      requires Valid() && order.Valid()
      modifies this, journal
      ensures Valid() && calls == old(calls) + [CreatePlan(order)]
      ensures r == if old(requiresReconciliation) then Err(MustReconcile)
                   else if !BuildOrderPlan(order).Valid() then Err(InvalidPlan)
                   else Ok(BuildOrderPlan(order))
    {
      hide Accounts, ValidIdentifier, ValidSymbol, NonBlank, PlainSymbol;
      ghost var call := CreatePlan(order);
      ghost var was, m := journal.Events(), Memory();
      AccountsForCall(earlier, endpoint, calls, call, was, m);
      calls := calls + [call];
      assert was + [] == was;
      if requiresReconciliation {
        return Err(MustReconcile);
      }
      var plan := BuildOrderPlan(order);
      if !plan.Valid() {
        return Err(InvalidPlan);
      }
      var _ := journal.Append(plan.requestedAt, PlanCreated(plan));
      return Ok(plan);
    }

    method RememberSubmission(request: SubmissionRequest, result: SubmissionRecord)
      modifies this`submissionPayloads, this`submissionRecords
      ensures Memory() == Apply(old(Memory()), Accept(request, result))
    {
      submissionPayloads := submissionPayloads[request.idempotencyKey := request];
      submissionRecords := submissionRecords[request.idempotencyKey := result];
    }

    /** The submission's outcome, remembering an acceptance under its idempotency key. */
    method AnswerSubmission(request: SubmissionRequest, recordedAt: Timestamp, maxAge: real,
                            connector: Connector?<SubmissionRequest, ()>)
      returns (result: SubmissionRecord)
      requires submissionPayloads.Keys == submissionRecords.Keys
      modifies this`submissionPayloads, this`submissionRecords, connector
      ensures result.recordedAt == recordedAt && (result.status.AcceptedSubmission? ==> !result.requiresReconciliation)
      ensures result == SubmissionResultOf(endpoint, old(Memory()), request, recordedAt, maxAge, old(AnswerOf(connector)))
      ensures Memory() == if result.status.AcceptedSubmission? then Apply(old(Memory()), Accept(request, result)) else old(Memory())
      ensures connector != null ==>
                connector.received == old(connector.received)
                                      + if SubmissionBlock(old(Memory()), request, recordedAt, maxAge).None? then [request] else []
    {
      hide ContractIsStale, ContractMatchesPlan, MissingRequiredProtection, BuildSubmissionRecord, Apply;
      var key := request.idempotencyKey;
      if key in submissionPayloads {
        if submissionPayloads[key] == request {
          var previous := submissionRecords[key];
          result := BuildSubmissionRecord(request, recordedAt, endpoint, DuplicateSubmission, None, previous.acknowledgement);
        } else {
          result := BuildSubmissionRecord(request, recordedAt, endpoint, DuplicateConflictBlocked, Some(DuplicateConflict), None);
        }
      } else if requiresReconciliation {
        result := BuildSubmissionRecord(request, recordedAt, endpoint, SubmissionReconciliationRequired, Some(ReconciliationRequired), None);
      } else if connectionState != ConnectedPaper {
        result := BuildSubmissionRecord(request, recordedAt, endpoint, SubmissionDisconnected, Some(NoConnection), None);
      } else if !ContractMatchesPlan(request) {
        result := BuildSubmissionRecord(request, recordedAt, endpoint, ContractMismatchBlocked, Some(ContractMismatch), None);
      } else if ContractIsStale(request.contract, recordedAt, maxAge) {
        result := BuildSubmissionRecord(request, recordedAt, endpoint, StaleContractBlocked, Some(StaleContract), None);
      } else if MissingRequiredProtection(request) {
        result := BuildSubmissionRecord(request, recordedAt, endpoint, MissingProtectionBlocked, Some(MissingProtection), None);
      } else {
        var answer := Raised(OtherError);
        if connector != null {
          answer := connector.Ask(request);
        }
        match answer {
          case Raised(TimedOut) =>
            result := BuildSubmissionRecord(request, recordedAt, endpoint, SubmissionUnknown, Some(Timeout), None);
          case Raised(ConnectionRefused) =>
            result := BuildSubmissionRecord(request, recordedAt, endpoint, SubmissionUnknown, Some(OsError), None);
          case Raised(OsFailure) =>
            result := BuildSubmissionRecord(request, recordedAt, endpoint, SubmissionUnknown, Some(OsError), None);
          case Raised(_) =>
            result := BuildSubmissionRecord(request, recordedAt, endpoint, SubmissionUnknown, Some(UnexpectedError), None);
          case Returned(_) =>
            result := BuildSubmissionRecord(request, recordedAt, endpoint, AcceptedSubmission, None, Some(LocalAcknowledgement(key)));
            RememberSubmission(request, result);
        }
      }
    }

    method RecordPaperOrderSubmission(request: SubmissionRequest, recordedAt: Timestamp, timeout: real, maxAge: real,
                                      connector: Connector?<SubmissionRequest, ()>)
      returns (r: Result<SubmissionRecord, AdapterError>)
      requires Valid() && request.Valid()
      modifies this, journal, connector
      ensures Valid() && calls == old(calls) + [Submit(request, recordedAt, timeout, maxAge, old(AnswerOf(connector)))]
      ensures r.Ok? <==> 0.0 < timeout <= 30.0 && 0.0 < maxAge <= 86400.0
      ensures r.Ok? ==> r.value == SubmissionResultOf(endpoint, old(Memory()), request, recordedAt, maxAge, old(AnswerOf(connector)))
      ensures connector != null ==>
                connector.received == old(connector.received) + Sends(old(Memory()), calls[|old(calls)|])
    {
      hide Accounts, ValidIdentifier, ValidSymbol, ValidCurrency, Emits, Effect, SubmissionResultOf, SubmissionBlock;
      ghost var call := Submit(request, recordedAt, timeout, maxAge, AnswerOf(connector));
      ghost var was, m := journal.Events(), Memory();
      AccountsForCall(earlier, endpoint, calls, call, was, m);
      StoredTogether(earlier, endpoint, calls, was, m);
      calls := calls + [call];
      assert was + [] == was;
      if !Admissible(call) {
        InadmissibleIsIdle(endpoint, m, call);
      }
      if !ValidTimeout(timeout) {
        return Err(InvalidTimeout);
      }
      if !ValidAge(maxAge) {
        return Err(InvalidAge);
      }
      var _ := journal.Append(request.requestedAt, SubmissionAttempted(request, endpoint));
      SubmissionEmits(endpoint, m, request, recordedAt, timeout, maxAge, call.sent);
      var result := AnswerSubmission(request, recordedAt, maxAge, connector);
      var _ := journal.Append(result.recordedAt, SubmissionRecorded(result));
      MarkUnknownIfRequired(result.requiresReconciliation, result.recordedAt, AfterSubmission(result.status));
      assert Memory() == Effect(endpoint, m, call);
      AppendedInOrder(was, SubmissionAttempted(request, endpoint), SubmissionRecorded(result), Escalation(m, result.requiresReconciliation, recordedAt, AfterSubmission(result.status)));
      return Ok(result);
    }

    /** A callback observed earlier than the last one accepted for the same order. */
    predicate CallbackIsOutOfOrder(clientOrderId: string, observed: Timestamp)
      reads this
    {
      clientOrderId in observedAt && observed.instant < observedAt[clientOrderId]
    }

    method RememberCallbackProgress(head: CallbackHead, filled: nat)
      requires observedAt.Keys == cumulative.Keys
      modifies this`observedAt, this`cumulative
      ensures Memory() == RememberProgress(old(Memory()), head, filled)
    {
      observedAt := observedAt[head.clientOrderId := head.observedAt.instant];
      var previous := if head.clientOrderId in cumulative then cumulative[head.clientOrderId] else 0;
      cumulative := cumulative[head.clientOrderId := if previous > filled then previous else filled];
    }

    method RememberStatus(callback: StatusCallback, result: StatusRecord)
      requires observedAt.Keys == cumulative.Keys
      modifies this`statusPayloads, this`statusRecords, this`observedAt, this`cumulative
      ensures Memory() == Apply(old(Memory()), Note(callback, result))
    {
      statusPayloads := statusPayloads[callback.head.callbackId := callback];
      statusRecords := statusRecords[callback.head.callbackId := result];
      RememberCallbackProgress(callback.head, callback.cumulative);
    }

    method RememberFill(callback: FillCallback, result: FillRecord)
      requires observedAt.Keys == cumulative.Keys
      modifies this`fillPayloads, this`fillRecords, this`observedAt, this`cumulative
      ensures Memory() == Apply(old(Memory()), Fill(callback, result))
    {
      fillPayloads := fillPayloads[callback.head.callbackId := callback];
      fillRecords := fillRecords[callback.head.callbackId := result];
      RememberCallbackProgress(callback.head, callback.cumulative);
    }

    method AnswerStatus(callback: StatusCallback, submission: SubmissionRecord, recordedAt: Timestamp, maxAge: real)
      returns (result: StatusRecord)
      requires statusPayloads.Keys == statusRecords.Keys && observedAt.Keys == cumulative.Keys
      modifies this`statusPayloads, this`statusRecords, this`observedAt, this`cumulative
      ensures result.recordedAt == recordedAt && (result.status.AcceptedUpdate? ==> !result.requiresReconciliation)
      ensures result == StatusResultOf(endpoint, old(Memory()), callback, submission, recordedAt, maxAge)
      ensures Memory() == if result.status.AcceptedUpdate? then Apply(old(Memory()), Note(callback, result)) else old(Memory())
    {
      hide SubmissionTakesCallbacks, CallbackMatchesSubmission, CallbackIsStale, StatusTarget, BuildStatusRecord, Apply;
      var head := callback.head;
      var id := head.callbackId;
      if id in statusPayloads {
        if statusPayloads[id] == callback {
          var previous := statusRecords[id];
          result := BuildStatusRecord(callback, submission, recordedAt, endpoint, DuplicateUpdate, None, previous.target);
        } else {
          result := BuildStatusRecord(callback, submission, recordedAt, endpoint, CallbackConflictBlocked, Some(DuplicateConflict), None);
        }
      } else if requiresReconciliation {
        result := BuildStatusRecord(callback, submission, recordedAt, endpoint, CallbackReconciliationRequired, Some(ReconciliationRequired), None);
      } else if connectionState != ConnectedPaper {
        result := BuildStatusRecord(callback, submission, recordedAt, endpoint, CallbackDisconnected, Some(NoConnection), None);
      } else if !SubmissionTakesCallbacks(submission) {
        result := BuildStatusRecord(callback, submission, recordedAt, endpoint, NotAcceptedBlocked, Some(SubmissionNotAccepted), None);
      } else if !CallbackMatchesSubmission(head, submission) {
        result := BuildStatusRecord(callback, submission, recordedAt, endpoint, CorrelationBlocked, Some(CorrelationMismatch), None);
      } else if CallbackIsStale(head.observedAt, recordedAt, maxAge) {
        result := BuildStatusRecord(callback, submission, recordedAt, endpoint, StaleCallbackBlocked, Some(StaleCallback), None);
      } else if CallbackIsOutOfOrder(head.clientOrderId, head.observedAt) {
        result := BuildStatusRecord(callback, submission, recordedAt, endpoint, OutOfOrderBlocked, Some(OutOfOrderCallback), None);
      } else {
        var target := StatusTarget(callback, submission);
        if target.None? {
          result := BuildStatusRecord(callback, submission, recordedAt, endpoint, InvalidBlocked, Some(InvalidStatus), None);
        } else {
          result := BuildStatusRecord(callback, submission, recordedAt, endpoint, AcceptedUpdate, None, target);
          RememberStatus(callback, result);
        }
      }
    }

    method RecordPaperOrderStatusCallback(callback: StatusCallback, submission: SubmissionRecord, recordedAt: Timestamp, maxAge: real)
      returns (r: Result<StatusRecord, AdapterError>)
      requires Valid() && callback.Valid() && submission.Valid()
      modifies this, journal
      ensures Valid() && calls == old(calls) + [ReportStatus(callback, submission, recordedAt, maxAge)]
      ensures r == if 0.0 < maxAge <= 86400.0 then Ok(StatusResultOf(endpoint, old(Memory()), callback, submission, recordedAt, maxAge))
                   else Err(InvalidAge)
    {
      hide Accounts, ValidIdentifier, ValidSymbol, ValidCurrency, Emits, Effect, StatusResultOf;
      ghost var call := ReportStatus(callback, submission, recordedAt, maxAge);
      ghost var was, m := journal.Events(), Memory();
      AccountsForCall(earlier, endpoint, calls, call, was, m);
      StoredTogether(earlier, endpoint, calls, was, m);
      calls := calls + [call];
      assert was + [] == was;
      if !Admissible(call) {
        InadmissibleIsIdle(endpoint, m, call);
      }
      if !ValidAge(maxAge) {
        return Err(InvalidAge);
      }
      var _ := journal.Append(callback.head.receivedAt, StatusReceived(callback, endpoint));
      StatusEmits(endpoint, m, callback, submission, recordedAt, maxAge);
      var result := AnswerStatus(callback, submission, recordedAt, maxAge);
      var _ := journal.Append(result.recordedAt, StatusRecorded(result));
      MarkUnknownIfRequired(result.requiresReconciliation, result.recordedAt, AfterStatus(result.status));
      assert Memory() == Effect(endpoint, m, call);
      AppendedInOrder(was, StatusReceived(callback, endpoint), StatusRecorded(result), Escalation(m, result.requiresReconciliation, recordedAt, AfterStatus(result.status)));
      return Ok(result);
    }

    method AnswerFill(callback: FillCallback, submission: SubmissionRecord, recordedAt: Timestamp, maxAge: real)
      returns (result: FillRecord)
      requires fillPayloads.Keys == fillRecords.Keys && observedAt.Keys == cumulative.Keys
      modifies this`fillPayloads, this`fillRecords, this`observedAt, this`cumulative
      ensures result.recordedAt == recordedAt && (result.status.AcceptedUpdate? ==> !result.requiresReconciliation)
      ensures result == FillResultOf(endpoint, old(Memory()), callback, submission, recordedAt, maxAge)
      ensures Memory() == if result.status.AcceptedUpdate? then Apply(old(Memory()), Fill(callback, result)) else old(Memory())
    {
      hide SubmissionTakesCallbacks, CallbackMatchesSubmission, CallbackIsStale, FillTarget, BuildFillRecord, Apply;
      var head := callback.head;
      var id := head.callbackId;
      if id in fillPayloads {
        if fillPayloads[id] == callback {
          var previous := fillRecords[id];
          result := BuildFillRecord(callback, submission, recordedAt, endpoint, DuplicateUpdate, None, Some(previous.leaves), previous.target);
        } else {
          result := BuildFillRecord(callback, submission, recordedAt, endpoint, CallbackConflictBlocked, Some(DuplicateConflict), None, None);
        }
      } else if requiresReconciliation {
        result := BuildFillRecord(callback, submission, recordedAt, endpoint, CallbackReconciliationRequired, Some(ReconciliationRequired), None, None);
      } else if connectionState != ConnectedPaper {
        result := BuildFillRecord(callback, submission, recordedAt, endpoint, CallbackDisconnected, Some(NoConnection), None, None);
      } else if !SubmissionTakesCallbacks(submission) {
        result := BuildFillRecord(callback, submission, recordedAt, endpoint, NotAcceptedBlocked, Some(SubmissionNotAccepted), None, None);
      } else if !CallbackMatchesSubmission(head, submission) {
        result := BuildFillRecord(callback, submission, recordedAt, endpoint, CorrelationBlocked, Some(CorrelationMismatch), None, None);
      } else if CallbackIsStale(head.observedAt, recordedAt, maxAge) {
        result := BuildFillRecord(callback, submission, recordedAt, endpoint, StaleCallbackBlocked, Some(StaleCallback), None, None);
      } else if CallbackIsOutOfOrder(head.clientOrderId, head.observedAt) {
        result := BuildFillRecord(callback, submission, recordedAt, endpoint, OutOfOrderBlocked, Some(OutOfOrderCallback), None, None);
      } else {
        var target := FillTarget(callback, submission);
        var previousCumulative := if head.clientOrderId in cumulative then cumulative[head.clientOrderId] else 0;
        if target.None? || !(callback.cumulative > previousCumulative) {
          result := BuildFillRecord(callback, submission, recordedAt, endpoint, InvalidBlocked, Some(InvalidFill), None, None);
        } else {
          var leaves := submission.quantity - callback.cumulative;
          result := BuildFillRecord(callback, submission, recordedAt, endpoint, AcceptedUpdate, None, Some(leaves), target);
          RememberFill(callback, result);
        }
      }
    }

    method RecordPaperFillCallback(callback: FillCallback, submission: SubmissionRecord, recordedAt: Timestamp, maxAge: real)
      returns (r: Result<FillRecord, AdapterError>)
      requires Valid() && callback.Valid() && submission.Valid()
      modifies this, journal
      ensures Valid() && calls == old(calls) + [ReportFill(callback, submission, recordedAt, maxAge)]
      ensures r == if 0.0 < maxAge <= 86400.0 then Ok(FillResultOf(endpoint, old(Memory()), callback, submission, recordedAt, maxAge))
                   else Err(InvalidAge)
    {
      hide Accounts, ValidIdentifier, ValidSymbol, ValidCurrency, Emits, Effect, FillResultOf;
      ghost var call := ReportFill(callback, submission, recordedAt, maxAge);
      ghost var was, m := journal.Events(), Memory();
      AccountsForCall(earlier, endpoint, calls, call, was, m);
      StoredTogether(earlier, endpoint, calls, was, m);
      calls := calls + [call];
      assert was + [] == was;
      if !Admissible(call) {
        InadmissibleIsIdle(endpoint, m, call);
      }
      if !ValidAge(maxAge) {
        return Err(InvalidAge);
      }
      var _ := journal.Append(callback.head.receivedAt, FillReceived(callback, endpoint));
      FillEmits(endpoint, m, callback, submission, recordedAt, maxAge);
      var result := AnswerFill(callback, submission, recordedAt, maxAge);
      var _ := journal.Append(result.recordedAt, FillRecorded(result));
      MarkUnknownIfRequired(result.requiresReconciliation, result.recordedAt, AfterFill(result.status));
      assert Memory() == Effect(endpoint, m, call);
      AppendedInOrder(was, FillReceived(callback, endpoint), FillRecorded(result), Escalation(m, result.requiresReconciliation, recordedAt, AfterFill(result.status)));
      return Ok(result);
    }
  }
}
