/**
  The paper broker adapter as a protocol: what each call journals and sends from a given memory,
  how the journal alone rebuilds that memory, and what holds over every run of calls.
 */
module PaperProtocol {
  import opened Foundations
  import opened Identifiers
  import opened PaperRecords

  // ---------- journal events ----------

  datatype Event =
    | ConnectionRecorded(connection: ConnectionRecord)
    | ProbeRecorded(probe: ProbeResult)
    | LookupAttempted(lookup: LookupRequest, lookupEndpoint: EndpointKind)
    | LookupRecorded(lookupResult: LookupResult)
    | PlanCreated(plan: OrderPlan)
    | SubmissionAttempted(submission: SubmissionRequest, submissionEndpoint: EndpointKind)
    | SubmissionRecorded(submissionRecord: SubmissionRecord)
    | StatusReceived(status: StatusCallback, statusEndpoint: EndpointKind)
    | StatusRecorded(statusRecord: StatusRecord)
    | FillReceived(fill: FillCallback, fillEndpoint: EndpointKind)
    | FillRecorded(fillRecord: FillRecord)

  // ---------- memory, and its reconstruction from the journal ----------

  /** The adapter's fields. A payload map holds the request itself, for its canonical JSON text. */
  datatype Memory = Memory(
    connection: ConnectionState,
    requiresReconciliation: bool,
    submissionPayloads: map<string, SubmissionRequest>,
    submissionRecords: map<string, SubmissionRecord>,
    statusPayloads: map<string, StatusCallback>,
    statusRecords: map<string, StatusRecord>,
    fillPayloads: map<string, FillCallback>,
    fillRecords: map<string, FillRecord>,
    observedAt: map<string, int>,
    cumulative: map<string, nat>)

  const INITIAL_MEMORY := Memory(Disconnected, false, map[], map[], map[], map[], map[], map[], map[], map[])

  function CumulativeSoFar(m: Memory, clientOrderId: string): nat {
    if clientOrderId in m.cumulative then m.cumulative[clientOrderId] else 0
  }

  /** The furthest progress seen for an order: the latest accepted time, the largest cumulative fill. */
  function RememberProgress(m: Memory, head: CallbackHead, cumulative: nat): Memory {
    var previous := CumulativeSoFar(m, head.clientOrderId);
    m.(observedAt := m.observedAt[head.clientOrderId := head.observedAt.instant],
       cumulative := m.cumulative[head.clientOrderId := if previous > cumulative then previous else cumulative])
  }

  /** The attempt or callback the journal has announced but not yet answered. */
  datatype Pending = NoAttempt | Submitting(request: SubmissionRequest) | Reporting(report: StatusCallback) | Filling(fill: FillCallback)

  datatype Replayed = Replayed(memory: Memory, pending: Pending)

  /** What a reader of the journal learns from one more event. */
  function Observe(s: Replayed, e: Event): Replayed {
    var m := s.memory;
    match e
    case ConnectionRecorded(c) =>
      s.(memory := m.(connection := c.state, requiresReconciliation := c.requiresReconciliation))
    case SubmissionAttempted(q, _) => s.(pending := Submitting(q))
    case StatusReceived(c, _) => s.(pending := Reporting(c))
    case FillReceived(c, _) => s.(pending := Filling(c))
    case SubmissionRecorded(r) =>
      if r.status.AcceptedSubmission? && s.pending.Submitting? then
        Replayed(m.(submissionPayloads := m.submissionPayloads[r.idempotencyKey := s.pending.request],
                    submissionRecords := m.submissionRecords[r.idempotencyKey := r]), NoAttempt)
      else s.(pending := NoAttempt)
    case StatusRecorded(r) =>
      if r.status.AcceptedUpdate? && s.pending.Reporting? then
        Replayed(RememberProgress(
                   m.(statusPayloads := m.statusPayloads[r.head.callbackId := s.pending.report],
                      statusRecords := m.statusRecords[r.head.callbackId := r]), r.head, r.cumulative), NoAttempt)
      else s.(pending := NoAttempt)
    case FillRecorded(r) =>
      if r.status.AcceptedUpdate? && s.pending.Filling? then
        Replayed(RememberProgress(
                   m.(fillPayloads := m.fillPayloads[r.head.callbackId := s.pending.fill],
                      fillRecords := m.fillRecords[r.head.callbackId := r]), r.head, r.cumulative), NoAttempt)
      else s.(pending := NoAttempt)
    case _ => s
  }

  function ReplayFrom(s: Replayed, events: seq<Event>): Replayed {
    if events == [] then s else Observe(ReplayFrom(s, events[..|events| - 1]), events[|events| - 1])
  }

  /** The memory the journal alone accounts for. */
  function Replay(events: seq<Event>): Replayed {
    ReplayFrom(Replayed(INITIAL_MEMORY, NoAttempt), events)
  }

  lemma ReplaySnoc(s: Replayed, events: seq<Event>, e: Event)
    ensures ReplayFrom(s, events + [e]) == Observe(ReplayFrom(s, events), e)
  {
    assert (events + [e])[..|events|] == events;
  }

  lemma {:induction false} ReplayConcat(s: Replayed, first: seq<Event>, second: seq<Event>)
    ensures ReplayFrom(s, first + second) == ReplayFrom(ReplayFrom(s, first), second)
  {
    if second == [] {
      assert first + second == first;
    } else {
      var front, last := second[..|second| - 1], second[|second| - 1];
      assert first + second == (first + front) + [last];
      assert second == front + [last];
      ReplaySnoc(s, first + front, last);
      ReplayConcat(s, first, front);
    }
  }

  // ---------- calls ----------

  /** One call on the adapter, with whatever its connector answers. */
  datatype Call =
    | RecordConnection(state: ConnectionState, recordedAt: Timestamp, reason: string)
    | Probe(probeId: string, recordedAt: Timestamp, reason: string, timeout: real, reached: CallResult<()>)
    | Lookup(lookup: LookupRequest, recordedAt: Timestamp, timeout: real, maxAge: real,
             found: CallResult<Option<ResolvedContract>>)
    | CreatePlan(order: OrderRequest)
    | Submit(submission: SubmissionRequest, recordedAt: Timestamp, timeout: real, maxAge: real, sent: CallResult<()>)
    | ReportStatus(status: StatusCallback, about: SubmissionRecord, recordedAt: Timestamp, maxAge: real)
    | ReportFill(fill: FillCallback, about: SubmissionRecord, recordedAt: Timestamp, maxAge: real)

  const LONGEST_TIMEOUT := 30.0
  const LONGEST_AGE := 86400.0

  predicate ValidTimeout(seconds: real) { 0.0 < seconds <= LONGEST_TIMEOUT }

  predicate ValidAge(seconds: real) { 0.0 < seconds <= LONGEST_AGE }

  /** The arguments are well-formed values within the limits; any other call raises before it journals. */
  predicate Admissible(call: Call) {
    match call
    case RecordConnection(_, _, reason) => ValidIdentifier(reason)
    case Probe(probeId, _, reason, timeout, _) => ValidIdentifier(probeId) && ValidIdentifier(reason) && ValidTimeout(timeout)
    case Lookup(q, _, timeout, maxAge, found) =>
      && q.Valid() && ValidTimeout(timeout) && ValidAge(maxAge)
      && (found.Returned? && found.value.Some? ==> found.value.value.Valid())
    case CreatePlan(order) => order.Valid() && BuildOrderPlan(order).Valid()
    case Submit(q, _, timeout, maxAge, _) => q.Valid() && ValidTimeout(timeout) && ValidAge(maxAge)
    case ReportStatus(c, s, _, maxAge) => c.Valid() && s.Valid() && ValidAge(maxAge)
    case ReportFill(c, s, _, maxAge) => c.Valid() && s.Valid() && ValidAge(maxAge)
  }

  function ProbeResultOf(endpoint: EndpointKind, probeId: string, at: Timestamp, reason: string, reached: CallResult<()>): ProbeResult {
    match reached
    case Returned(_) => ProbeResult(probeId, at, reason, endpoint, Reachable, ConnectedPaper, false, None)
    case Raised(ConnectionRefused) => ProbeResult(probeId, at, reason, endpoint, Unreachable, Disconnected, false, Some(Refused))
    case Raised(e) => ProbeResult(probeId, at, reason, endpoint, ProbeUnknown, UnknownState, true, Some(CategoryOf(e)))
  }

  /** Why a lookup is answered without asking the connector, if it is. */
  function LookupBlock(m: Memory, q: LookupRequest): Option<(LookupStatus, FailureCategory)> {
    if m.requiresReconciliation then Some((LookupReconciliationRequired, ReconciliationRequired))
    else if !m.connection.ConnectedPaper? then Some((LookupDisconnected, NoConnection))
    else if !q.securityType.Stock? then Some((Unsupported, UnsupportedInstrument))
    else None
  }

  function LookupResultOf(endpoint: EndpointKind, m: Memory, q: LookupRequest, at: Timestamp, maxAge: real,
                          found: CallResult<Option<ResolvedContract>>): LookupResult
  {
    var blocked := LookupBlock(m, q);
    if blocked.Some? then BuildLookupResult(q, at, endpoint, blocked.value.0, Some(blocked.value.1), None)
    else match found
         case Returned(Some(contract)) =>
           if ContractIsStale(contract, at, maxAge)
           then BuildLookupResult(q, at, endpoint, StaleResultRejected, Some(StaleResult), None)
           else BuildLookupResult(q, at, endpoint, Resolved, None, Some(contract))
         case Returned(None) => BuildLookupResult(q, at, endpoint, LookupUnknown, Some(UnexpectedError), None)
         case Raised(ContractNotFound) => BuildLookupResult(q, at, endpoint, LookupNotFound, Some(NotFound), None)
         case Raised(ContractAmbiguous) => BuildLookupResult(q, at, endpoint, LookupAmbiguous, Some(Ambiguous), None)
         case Raised(e) => BuildLookupResult(q, at, endpoint, LookupUnknown, Some(CategoryOf(e)), None)
  }

  /** Why a submission is answered without asking the connector, if it is. */
  function SubmissionBlock(m: Memory, q: SubmissionRequest, at: Timestamp, maxAge: real): Option<(SubmissionStatus, Option<FailureCategory>)> {
    if q.idempotencyKey in m.submissionPayloads then
      if m.submissionPayloads[q.idempotencyKey] == q then Some((DuplicateSubmission, None))
      else Some((DuplicateConflictBlocked, Some(DuplicateConflict)))
    else if m.requiresReconciliation then Some((SubmissionReconciliationRequired, Some(ReconciliationRequired)))
    else if !m.connection.ConnectedPaper? then Some((SubmissionDisconnected, Some(NoConnection)))
    else if !ContractMatchesPlan(q) then Some((ContractMismatchBlocked, Some(ContractMismatch)))
    else if ContractIsStale(q.contract, at, maxAge) then Some((StaleContractBlocked, Some(StaleContract)))
    else if MissingRequiredProtection(q) then Some((MissingProtectionBlocked, Some(MissingProtection)))
    else None
  }

  function AcknowledgementOnRecord(m: Memory, key: string): Option<string> {
    if key in m.submissionRecords then m.submissionRecords[key].acknowledgement else None
  }

  function SubmissionResultOf(endpoint: EndpointKind, m: Memory, q: SubmissionRequest, at: Timestamp, maxAge: real,
                              sent: CallResult<()>): SubmissionRecord
  {
    var blocked := SubmissionBlock(m, q, at, maxAge);
    if blocked.Some? then
      BuildSubmissionRecord(q, at, endpoint, blocked.value.0, blocked.value.1,
                            if blocked.value.0.DuplicateSubmission? then AcknowledgementOnRecord(m, q.idempotencyKey) else None)
    else match sent
         case Returned(_) =>
           BuildSubmissionRecord(q, at, endpoint, AcceptedSubmission, None, Some(LocalAcknowledgement(q.idempotencyKey)))
         case Raised(e) => BuildSubmissionRecord(q, at, endpoint, SubmissionUnknown, Some(CategoryOf(e)), None)
  }

  /** The checks both kinds of callback share, given whether the id is known and, if so, verbatim. */
  function CallbackBlock(m: Memory, known: bool, verbatim: bool, head: CallbackHead, about: SubmissionRecord,
                         at: Timestamp, maxAge: real): Option<CallbackOutcome>
  {
    if known then Some(if verbatim then DuplicateUpdate else CallbackConflictBlocked)
    else if m.requiresReconciliation then Some(CallbackReconciliationRequired)
    else if !m.connection.ConnectedPaper? then Some(CallbackDisconnected)
    else if !SubmissionTakesCallbacks(about) then Some(NotAcceptedBlocked)
    else if !CallbackMatchesSubmission(head, about) then Some(CorrelationBlocked)
    else if CallbackIsStale(head.observedAt, at, maxAge) then Some(StaleCallbackBlocked)
    else if head.clientOrderId in m.observedAt && head.observedAt.instant < m.observedAt[head.clientOrderId]
    then Some(OutOfOrderBlocked)
    else None
  }

  function StatusResultOf(endpoint: EndpointKind, m: Memory, c: StatusCallback, about: SubmissionRecord,
                          at: Timestamp, maxAge: real): StatusRecord
  {
    var id := c.head.callbackId;
    var known := id in m.statusPayloads;
    var blocked := CallbackBlock(m, known, known && m.statusPayloads[id] == c, c.head, about, at, maxAge);
    var target :=
      if blocked.Some? then
        if blocked.value.DuplicateUpdate? && id in m.statusRecords then m.statusRecords[id].target else None
      else StatusTarget(c, about);
    var outcome := if blocked.Some? then blocked.value else if target.Some? then AcceptedUpdate else InvalidBlocked;
    BuildStatusRecord(c, about, at, endpoint, outcome, CallbackFailure(outcome, InvalidStatus), target)
  }

  function FillResultOf(endpoint: EndpointKind, m: Memory, c: FillCallback, about: SubmissionRecord,
                        at: Timestamp, maxAge: real): FillRecord
  {
    var id := c.head.callbackId;
    var known := id in m.fillPayloads;
    var blocked := CallbackBlock(m, known, known && m.fillPayloads[id] == c, c.head, about, at, maxAge);
    if blocked.Some? then
      var again := blocked.value.DuplicateUpdate? && id in m.fillRecords;
      BuildFillRecord(c, about, at, endpoint, blocked.value, CallbackFailure(blocked.value, InvalidFill),
                      if again then Some(m.fillRecords[id].leaves) else None,
                      if again then m.fillRecords[id].target else None)
    else if FillTarget(c, about).None? || c.cumulative <= CumulativeSoFar(m, c.head.clientOrderId) then
      BuildFillRecord(c, about, at, endpoint, InvalidBlocked, Some(InvalidFill), None, None)
    else
      BuildFillRecord(c, about, at, endpoint, AcceptedUpdate, None, Some(about.quantity - c.cumulative), FillTarget(c, about))
  }

  /** The connection record that follows a result needing reconciliation, unless already unknown. */
  function Escalation(m: Memory, required: bool, at: Timestamp, reason: Reason): seq<Event> {
    if required && !m.connection.UnknownState?
    then [ConnectionRecorded(ConnectionRecord(UnknownState, at, reason, true))]
    else []
  }

  /** Everything a call appends to the journal. */
  function Emits(endpoint: EndpointKind, m: Memory, call: Call): seq<Event> {
    if !Admissible(call) then [] else
    match call
    case RecordConnection(state, at, reason) =>
      [ConnectionRecorded(ConnectionRecord(state, at, Given(reason), state.UnknownState?))]
    case Probe(probeId, at, reason, _, reached) =>
      var result := ProbeResultOf(endpoint, probeId, at, reason, reached);
      [ProbeRecorded(result),
       ConnectionRecorded(ConnectionRecord(result.connectionState, at, AfterProbe(result.status), result.connectionState.UnknownState?))]
    case Lookup(q, at, _, maxAge, found) =>
      var result := LookupResultOf(endpoint, m, q, at, maxAge, found);
      [LookupAttempted(q, endpoint), LookupRecorded(result)]
      + Escalation(m, result.requiresReconciliation, at, AfterLookup(result.status))
    case CreatePlan(order) =>
      if m.requiresReconciliation then [] else [PlanCreated(BuildOrderPlan(order))]
    case Submit(q, at, _, maxAge, sent) =>
      var result := SubmissionResultOf(endpoint, m, q, at, maxAge, sent);
      [SubmissionAttempted(q, endpoint), SubmissionRecorded(result)]
      + Escalation(m, result.requiresReconciliation, at, AfterSubmission(result.status))
    case ReportStatus(c, about, at, maxAge) =>
      var result := StatusResultOf(endpoint, m, c, about, at, maxAge);
      [StatusReceived(c, endpoint), StatusRecorded(result)]
      + Escalation(m, result.requiresReconciliation, at, AfterStatus(result.status))
    case ReportFill(c, about, at, maxAge) =>
      var result := FillResultOf(endpoint, m, c, about, at, maxAge);
      [FillReceived(c, endpoint), FillRecorded(result)]
      + Escalation(m, result.requiresReconciliation, at, AfterFill(result.status))
  }

  /** The requests a call hands to its submission connector. */
  function Sends(m: Memory, call: Call): seq<SubmissionRequest> {
    if call.Submit? && Admissible(call) && SubmissionBlock(m, call.submission, call.recordedAt, call.maxAge).None?
    then [call.submission] else []
  }

  /** The requests a call hands to its lookup connector. */
  function Asks(m: Memory, call: Call): seq<LookupRequest> {
    if call.Lookup? && Admissible(call) && LookupBlock(m, call.lookup).None? then [call.lookup] else []
  }

  // ---------- runs ----------

  /** The journal after a run of calls on a new adapter. */
  function Run(endpoint: EndpointKind, calls: seq<Call>): seq<Event> {
    if calls == [] then [] else
    var before := Run(endpoint, calls[..|calls| - 1]);
    before + Emits(endpoint, Replay(before).memory, calls[|calls| - 1])
  }

  function MemoryAfter(endpoint: EndpointKind, calls: seq<Call>): Memory {
    Replay(Run(endpoint, calls)).memory
  }

  /** Every request handed to a submission connector in the run, with the connector's answer. */
  function SendLog(endpoint: EndpointKind, calls: seq<Call>): seq<(SubmissionRequest, CallResult<()>)> {
    if calls == [] then [] else
    var before, last := calls[..|calls| - 1], calls[|calls| - 1];
    SendLog(endpoint, before)
    + if Sends(MemoryAfter(endpoint, before), last) == [] then [] else [(last.submission, last.sent)]
  }

  /** Every request handed to a lookup connector in the run. */
  function AskLog(endpoint: EndpointKind, calls: seq<Call>): seq<LookupRequest> {
    if calls == [] then [] else
    var before, last := calls[..|calls| - 1], calls[|calls| - 1];
    AskLog(endpoint, before) + Asks(MemoryAfter(endpoint, before), last)
  }

  lemma ReplayOne(s: Replayed, e: Event)
    ensures ReplayFrom(s, [e]) == Observe(s, e)
  {
    ReplaySnoc(s, [], e);
    assert [] + [e] == [e];
  }

  /** An answered attempt: the attempt, its result, and the connection record the result may force. */
  lemma ReplayAnswered(s: Replayed, attempt: Event, result: Event, required: bool, at: Timestamp, reason: Reason)
    requires !attempt.ConnectionRecorded? && !result.ConnectionRecorded?
    ensures ReplayFrom(s, [attempt, result] + Escalation(s.memory, required, at, reason)).memory
         == Apply(Observe(Observe(s, attempt), result).memory, EscalationChange(s.memory, required))
  {
    var pair, tail := [attempt, result], Escalation(s.memory, required, at, reason);
    assert [attempt] + [result] == pair;
    ReplayOne(s, attempt);
    ReplaySnoc(s, [attempt], result);
    ReplayConcat(s, pair, tail);
    if tail != [] {
      ReplayOne(ReplayFrom(s, pair), tail[0]);
    }
  }

  lemma LookupEffect(endpoint: EndpointKind, s: Replayed, call: Call)
    requires call.Lookup? && Admissible(call)
    ensures ReplayFrom(s, Emits(endpoint, s.memory, call)).memory == Effect(endpoint, s.memory, call)
  {
    var result := LookupResultOf(endpoint, s.memory, call.lookup, call.recordedAt, call.maxAge, call.found);
    ReplayAnswered(s, LookupAttempted(call.lookup, endpoint), LookupRecorded(result), result.requiresReconciliation, call.recordedAt, AfterLookup(result.status));
  }

  lemma SubmissionResultFits(endpoint: EndpointKind, m: Memory, q: SubmissionRequest, at: Timestamp, maxAge: real, sent: CallResult<()>)
    ensures var r := SubmissionResultOf(endpoint, m, q, at, maxAge, sent);
            r.idempotencyKey == q.idempotencyKey && (r.status.AcceptedSubmission? ==> !r.requiresReconciliation)
  {
    hide SubmissionBlock;
  }

  lemma StatusResultFits(endpoint: EndpointKind, m: Memory, c: StatusCallback, about: SubmissionRecord, at: Timestamp, maxAge: real)
    ensures var r := StatusResultOf(endpoint, m, c, about, at, maxAge);
            r.head == c.head && r.cumulative == c.cumulative && (r.status.AcceptedUpdate? ==> !r.requiresReconciliation)
  {
    hide CallbackBlock, StatusTarget;
  }

  lemma FillResultFits(endpoint: EndpointKind, m: Memory, c: FillCallback, about: SubmissionRecord, at: Timestamp, maxAge: real)
    ensures var r := FillResultOf(endpoint, m, c, about, at, maxAge);
            r.head == c.head && r.cumulative == c.cumulative && (r.status.AcceptedUpdate? ==> !r.requiresReconciliation)
  {
    hide CallbackBlock, FillTarget;
  }

  lemma SubmitEffect(endpoint: EndpointKind, s: Replayed, call: Call)
    requires call.Submit? && Admissible(call)
    ensures ReplayFrom(s, Emits(endpoint, s.memory, call)).memory == Effect(endpoint, s.memory, call)
  {
    hide Admissible, SubmissionResultOf;
    SubmissionResultFits(endpoint, s.memory, call.submission, call.recordedAt, call.maxAge, call.sent);
    var result := SubmissionResultOf(endpoint, s.memory, call.submission, call.recordedAt, call.maxAge, call.sent);
    ReplayAnswered(s, SubmissionAttempted(call.submission, endpoint), SubmissionRecorded(result), result.requiresReconciliation, call.recordedAt, AfterSubmission(result.status));
  }

  lemma StatusEffect(endpoint: EndpointKind, s: Replayed, call: Call)
    requires call.ReportStatus? && Admissible(call)
    ensures ReplayFrom(s, Emits(endpoint, s.memory, call)).memory == Effect(endpoint, s.memory, call)
  {
    hide Admissible, StatusResultOf;
    StatusResultFits(endpoint, s.memory, call.status, call.about, call.recordedAt, call.maxAge);
    var result := StatusResultOf(endpoint, s.memory, call.status, call.about, call.recordedAt, call.maxAge);
    ReplayAnswered(s, StatusReceived(call.status, endpoint), StatusRecorded(result), result.requiresReconciliation, call.recordedAt, AfterStatus(result.status));
  }

  lemma FillEffect(endpoint: EndpointKind, s: Replayed, call: Call)
    requires call.ReportFill? && Admissible(call)
    ensures ReplayFrom(s, Emits(endpoint, s.memory, call)).memory == Effect(endpoint, s.memory, call)
  {
    hide Admissible, FillResultOf;
    FillResultFits(endpoint, s.memory, call.fill, call.about, call.recordedAt, call.maxAge);
    var result := FillResultOf(endpoint, s.memory, call.fill, call.about, call.recordedAt, call.maxAge);
    ReplayAnswered(s, FillReceived(call.fill, endpoint), FillRecorded(result), result.requiresReconciliation, call.recordedAt, AfterFill(result.status));
  }

  lemma ProbeEffect(endpoint: EndpointKind, s: Replayed, call: Call)
    requires call.Probe? && Admissible(call)
    ensures ReplayFrom(s, Emits(endpoint, s.memory, call)).memory == Effect(endpoint, s.memory, call)
  {
    var events := Emits(endpoint, s.memory, call);
    ReplayOne(s, events[0]);
    ReplaySnoc(s, [events[0]], events[1]);
    assert [events[0]] + [events[1]] == events;
  }

  /** What the events of a call do to the memory, written out. Holds whatever attempt was pending. */
  lemma CallEffect(endpoint: EndpointKind, s: Replayed, call: Call)
    ensures ReplayFrom(s, Emits(endpoint, s.memory, call)).memory == Effect(endpoint, s.memory, call)
  {
    if Admissible(call) {
      match call
      case RecordConnection(state, at, reason) =>
        ReplayOne(s, ConnectionRecorded(ConnectionRecord(state, at, Given(reason), state.UnknownState?)));
      case Probe(_, _, _, _, _) => ProbeEffect(endpoint, s, call);
      case Lookup(_, _, _, _, _) => LookupEffect(endpoint, s, call);
      case CreatePlan(order) => ReplayOne(s, PlanCreated(BuildOrderPlan(order)));
      case Submit(_, _, _, _, _) => SubmitEffect(endpoint, s, call);
      case ReportStatus(_, _, _, _) => StatusEffect(endpoint, s, call);
      case ReportFill(_, _, _, _) => FillEffect(endpoint, s, call);
    }
  }

  /** The ways a call can change the adapter's fields. */
  datatype Change =
    | Nothing
    | Connect(state: ConnectionState)
    | Accept(request: SubmissionRequest, acceptance: SubmissionRecord)
    | Note(report: StatusCallback, noted: StatusRecord)
    | Fill(fill: FillCallback, filled: FillRecord)

  /** What a call changes, as the adapter's code decides it. */
  function ChangeOf(endpoint: EndpointKind, m: Memory, call: Call): Change {
    if !Admissible(call) then Nothing else
    match call
    case RecordConnection(state, _, _) => Connect(state)
    case Probe(probeId, at, reason, _, reached) => Connect(ProbeResultOf(endpoint, probeId, at, reason, reached).connectionState)
    case Lookup(q, at, _, maxAge, found) =>
      EscalationChange(m, LookupResultOf(endpoint, m, q, at, maxAge, found).requiresReconciliation)
    case CreatePlan(_) => Nothing
    case Submit(q, at, _, maxAge, sent) =>
      var result := SubmissionResultOf(endpoint, m, q, at, maxAge, sent);
      if result.status.AcceptedSubmission? then Accept(q, result) else EscalationChange(m, result.requiresReconciliation)
    case ReportStatus(c, about, at, maxAge) =>
      var result := StatusResultOf(endpoint, m, c, about, at, maxAge);
      if result.status.AcceptedUpdate? then Note(c, result) else EscalationChange(m, result.requiresReconciliation)
    case ReportFill(c, about, at, maxAge) =>
      var result := FillResultOf(endpoint, m, c, about, at, maxAge);
      if result.status.AcceptedUpdate? then Fill(c, result) else EscalationChange(m, result.requiresReconciliation)
  }

  function EscalationChange(m: Memory, required: bool): Change {
    if required && !m.connection.UnknownState? then Connect(UnknownState) else Nothing
  }

  function Apply(m: Memory, change: Change): Memory {
    match change
    case Nothing => m
    case Connect(state) => m.(connection := state, requiresReconciliation := state.UnknownState?)
    case Accept(q, r) =>
      m.(submissionPayloads := m.submissionPayloads[q.idempotencyKey := q],
         submissionRecords := m.submissionRecords[q.idempotencyKey := r])
    case Note(c, r) =>
      RememberProgress(m.(statusPayloads := m.statusPayloads[c.head.callbackId := c],
                          statusRecords := m.statusRecords[c.head.callbackId := r]), c.head, c.cumulative)
    case Fill(c, r) =>
      RememberProgress(m.(fillPayloads := m.fillPayloads[c.head.callbackId := c],
                          fillRecords := m.fillRecords[c.head.callbackId := r]), c.head, c.cumulative)
  }

  function Effect(endpoint: EndpointKind, m: Memory, call: Call): Memory {
    Apply(m, ChangeOf(endpoint, m, call))
  }

  /** The journal's account of a longer run is the code's effect applied to its account of the shorter. */
  lemma MemoryAfterCall(endpoint: EndpointKind, calls: seq<Call>, call: Call)
    ensures Run(endpoint, calls + [call]) == Run(endpoint, calls) + Emits(endpoint, MemoryAfter(endpoint, calls), call)
    ensures MemoryAfter(endpoint, calls + [call]) == Effect(endpoint, MemoryAfter(endpoint, calls), call)
  {
    assert (calls + [call])[..|calls|] == calls;
    var before := Run(endpoint, calls);
    ReplayConcat(Replayed(INITIAL_MEMORY, NoAttempt), before, Emits(endpoint, Replay(before).memory, call));
    CallEffect(endpoint, Replay(before), call);
  }
}
