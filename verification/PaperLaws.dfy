/**
  What the paper broker adapter answers, told in the fields of what it was asked and of what it
  remembers: exactly when each outcome is given, and what the record of it carries.
 */
module PaperLaws {
  import opened Foundations
  import opened Identifiers
  import opened PaperRecords
  import opened PaperProtocol

  // ---------- the conditions, in fields ----------

  /** Not from after `at`, and at most `maxAge` seconds before it. */
  predicate Recent(from: Timestamp, at: Timestamp, maxAge: real) {
    0 <= at.instant - from.instant && (at.instant - from.instant) as real <= maxAge * 1000000.0
  }

  /** Connected, with nothing to reconcile. */
  predicate Open(m: Memory) {
    m.connection == ConnectedPaper && m.requiresReconciliation == false
  }

  /** The contract is the plan's stock, in dollars. */
  predicate SameInstrument(q: SubmissionRequest) {
    q.contract.symbol == q.plan.symbol && q.contract.securityType == Stock && q.contract.currency == "USD"
  }

  /** A sale, or a purchase that names its protective order or its approved exception. */
  predicate Protected(q: SubmissionRequest) {
    q.plan.side == Sell || q.protectiveReference != None || q.exceptionReference != None
  }

  predicate FitToSend(q: SubmissionRequest, at: Timestamp, maxAge: real) {
    SameInstrument(q) && Recent(q.contract.resolvedAt, at, maxAge) && Protected(q)
  }

  // ---------- submissions ----------

  /** Exactly when each status of a submission is given. */
  lemma SubmissionStatusExactly(endpoint: EndpointKind, m: Memory, q: SubmissionRequest, at: Timestamp, maxAge: real, sent: CallResult<()>)
    ensures var status := SubmissionResultOf(endpoint, m, q, at, maxAge, sent).status;
            var stored := q.idempotencyKey in m.submissionPayloads;
            var recent := Recent(q.contract.resolvedAt, at, maxAge);
            && (status == DuplicateSubmission <==> stored && m.submissionPayloads[q.idempotencyKey] == q)
            && (status == DuplicateConflictBlocked <==> stored && m.submissionPayloads[q.idempotencyKey] != q)
            && (status == SubmissionReconciliationRequired <==> !stored && m.requiresReconciliation)
            && (status == SubmissionDisconnected <==> !stored && !m.requiresReconciliation && m.connection != ConnectedPaper)
            && (status == ContractMismatchBlocked <==> !stored && Open(m) && !SameInstrument(q))
            && (status == StaleContractBlocked <==> !stored && Open(m) && SameInstrument(q) && !recent)
            && (status == MissingProtectionBlocked <==> !stored && Open(m) && SameInstrument(q) && recent && !Protected(q))
            && (status == SubmissionUnknown <==> !stored && Open(m) && FitToSend(q, at, maxAge) && sent.Raised?)
            && (status == AcceptedSubmission <==> !stored && Open(m) && FitToSend(q, at, maxAge) && sent.Returned?)
  {
    hide BuildSubmissionRecord;
  }

  /** A request reaches the connector exactly when it is new and fit to be sent. */
  lemma SentExactlyWhenFit(m: Memory, call: Call)
    requires call.Submit? && Admissible(call)
    ensures var q := call.submission;
            Sends(m, call) == if q.idempotencyKey !in m.submissionPayloads && Open(m) && FitToSend(q, call.recordedAt, call.maxAge)
                              then [q] else []
  {
    hide Admissible;
  }

  /** What failed, whether reconciliation is due, and which acknowledgement the record carries. */
  lemma SubmissionRecordTells(endpoint: EndpointKind, m: Memory, q: SubmissionRequest, at: Timestamp, maxAge: real, sent: CallResult<()>)
    ensures var r := SubmissionResultOf(endpoint, m, q, at, maxAge, sent);
            && r.failure == (match r.status
                             case AcceptedSubmission => None
                             case DuplicateSubmission => None
                             case SubmissionDisconnected => Some(NoConnection)
                             case SubmissionReconciliationRequired => Some(ReconciliationRequired)
                             case StaleContractBlocked => Some(StaleContract)
                             case ContractMismatchBlocked => Some(ContractMismatch)
                             case MissingProtectionBlocked => Some(MissingProtection)
                             case DuplicateConflictBlocked => Some(DuplicateConflict)
                             case SubmissionUnknown => Some(
                               if sent == Raised(TimedOut) then Timeout
                               else if sent == Raised(ConnectionRefused) || sent == Raised(OsFailure) then OsError
                               else UnexpectedError))
            && (r.requiresReconciliation <==>
                  r.status == SubmissionReconciliationRequired || r.status == StaleContractBlocked || r.status == SubmissionUnknown)
            && (r.status == AcceptedSubmission ==> r.acknowledgement == Some("paper-ack-" + q.idempotencyKey))
            && (r.status == DuplicateSubmission && q.idempotencyKey in m.submissionRecords ==>
                  r.acknowledgement == m.submissionRecords[q.idempotencyKey].acknowledgement)
            && (r.status != AcceptedSubmission && r.status != DuplicateSubmission ==> r.acknowledgement == None)
  {
    hide ContractMatchesPlan, ContractIsStale, MissingRequiredProtection, BuildSubmissionRecord;
  }

  /** The record repeats the request, its plan and its contract. */
  lemma SubmissionRecordRepeatsRequest(endpoint: EndpointKind, m: Memory, q: SubmissionRequest, at: Timestamp, maxAge: real, sent: CallResult<()>)
    ensures var r := SubmissionResultOf(endpoint, m, q, at, maxAge, sent);
            && r.endpoint == endpoint && r.recordedAt == at
            && r.submissionId == q.submissionId && r.requestedAt == q.requestedAt && r.reason == q.reason
            && r.idempotencyKey == q.idempotencyKey && r.omsTransitionReference == q.omsTransitionReference
            && r.protectiveReference == q.protectiveReference && r.exceptionReference == q.exceptionReference
            && r.contractId == q.contract.contractId
            && r.planId == q.plan.planId && r.clientOrderId == q.plan.clientOrderId && r.symbol == q.plan.symbol
            && r.side == q.plan.side && r.quantity == q.plan.quantity && r.orderType == q.plan.orderType
            && r.riskDecisionId == q.plan.riskDecisionId && r.approvalReference == q.plan.approvalReference
  {
    hide SubmissionBlock;
  }

  /** The part is the marker in whatever case. */
  predicate IsMarker(part: string, marker: string) {
    |part| == |marker| && forall i :: 0 <= i < |part| ==> marker[i] == LowerChar(part[i])
  }

  /** An identifier has no blank at either end, and no part of it is a forbidden marker in any case. */
  lemma IdentifierExactly(s: string)
    ensures ValidIdentifier(s) <==>
              && s != "" && !IsBlank(s[0]) && !IsBlank(s[|s| - 1])
              && !exists i, j, k :: 0 <= i <= j <= |s| && 0 <= k < |FORBIDDEN_MARKERS| && IsMarker(s[i..j], FORBIDDEN_MARKERS[k])
  {
    hide FORBIDDEN_MARKERS, LowerChar, IsBlank;
    if HasForbiddenText(s) {
      var k :| 0 <= k < |FORBIDDEN_MARKERS| && Contains(Lower(s), FORBIDDEN_MARKERS[k]);
      var i :| 0 <= i <= |Lower(s)| && ContainsAt(Lower(s), FORBIDDEN_MARKERS[k], i);
      var j := i + |FORBIDDEN_MARKERS[k]|;
      PartIsMarker(s, i, j, FORBIDDEN_MARKERS[k]);
      assert IsMarker(s[i..j], FORBIDDEN_MARKERS[k]);
    }
    if i, j, k :| 0 <= i <= j <= |s| && 0 <= k < |FORBIDDEN_MARKERS| && IsMarker(s[i..j], FORBIDDEN_MARKERS[k]) {
      PartIsMarker(s, i, j, FORBIDDEN_MARKERS[k]);
      assert ContainsAt(Lower(s), FORBIDDEN_MARKERS[k], i);
      assert Contains(Lower(s), FORBIDDEN_MARKERS[k]);
    }
  }

  lemma PartIsMarker(s: string, i: nat, j: nat, marker: string)
    requires i <= j <= |s|
    ensures Lower(s)[i..j] == marker <==> IsMarker(s[i..j], marker)
  {
    hide LowerChar;
    var part := s[i..j];
    assert forall n :: 0 <= n < |part| ==> Lower(s)[i..j][n] == LowerChar(part[n]);
  }

  /** A plan passes exactly when its quantity and prices make sense for its type and its texts are identifiers. */
  lemma PlanExactly(order: OrderRequest)
    ensures BuildOrderPlan(order).Valid() <==>
              && order.quantity >= 1 && order.referencePrice > 0.0
              && (order.orderType == Market ==> order.limitPrice == None)
              && (order.orderType == Limit ==> order.limitPrice.Some? && order.limitPrice.value > 0.0)
              && ValidIdentifier("ibkr-paper-plan-" + order.clientOrderId) && ValidIdentifier(order.clientOrderId)
              && ValidIdentifier(order.riskDecisionId) && ValidIdentifier(order.approvalReference) && ValidSymbol(order.symbol)
  {
    hide ValidIdentifier, ValidSymbol;
  }

  /** A plan repeats its order under a prefixed id. */
  lemma PlanRepeatsOrder(order: OrderRequest)
    ensures var plan := BuildOrderPlan(order);
            && plan.planId == "ibkr-paper-plan-" + order.clientOrderId
            && plan.clientOrderId == order.clientOrderId && plan.symbol == order.symbol && plan.side == order.side
            && plan.quantity == order.quantity && plan.orderType == order.orderType && plan.limitPrice == order.limitPrice
            && plan.referencePrice == order.referencePrice && plan.requestedAt == order.requestedAt
            && plan.riskDecisionId == order.riskDecisionId && plan.approvalReference == order.approvalReference
  {
  }

  // ---------- callbacks ----------

  /** The submission was taken, by this record or an earlier one, and acknowledged. */
  predicate WasTaken(about: SubmissionRecord) {
    (about.status == AcceptedSubmission || about.status == DuplicateSubmission) && about.acknowledgement != None
  }

  /** The callback names the submission's order and its acknowledgement. */
  predicate Names(head: CallbackHead, about: SubmissionRecord) {
    about.clientOrderId == head.clientOrderId && about.acknowledgement == Some(head.correlationReference)
  }

  /** No accepted callback of the order was observed later. */
  predicate NotOvertaken(m: Memory, head: CallbackHead) {
    head.clientOrderId in m.observedAt ==> m.observedAt[head.clientOrderId] <= head.observedAt.instant
  }

  /** Exactly when each outcome is given; `sensible` is what the two kinds of callback ask of their own fields. */
  predicate OutcomeIsExact(outcome: CallbackOutcome, m: Memory, known: bool, verbatim: bool, head: CallbackHead, about: SubmissionRecord,
                           at: Timestamp, maxAge: real, sensible: bool)
  {
    var recent := Recent(head.observedAt, at, maxAge);
    && (outcome == DuplicateUpdate <==> known && verbatim)
    && (outcome == CallbackConflictBlocked <==> known && !verbatim)
    && (outcome == CallbackReconciliationRequired <==> !known && m.requiresReconciliation)
    && (outcome == CallbackDisconnected <==> !known && !m.requiresReconciliation && m.connection != ConnectedPaper)
    && (outcome == NotAcceptedBlocked <==> !known && Open(m) && !WasTaken(about))
    && (outcome == CorrelationBlocked <==> !known && Open(m) && WasTaken(about) && !Names(head, about))
    && (outcome == StaleCallbackBlocked <==> !known && Open(m) && WasTaken(about) && Names(head, about) && !recent)
    && (outcome == OutOfOrderBlocked <==>
          !known && Open(m) && WasTaken(about) && Names(head, about) && recent && !NotOvertaken(m, head))
    && (outcome == InvalidBlocked <==>
          !known && Open(m) && WasTaken(about) && Names(head, about) && recent && NotOvertaken(m, head) && !sensible)
    && (outcome == AcceptedUpdate <==>
          !known && Open(m) && WasTaken(about) && Names(head, about) && recent && NotOvertaken(m, head) && sensible)
  }

  /** What failed under each outcome; `invalid` is the category of a callback that makes no sense. */
  predicate FailureIsExact(outcome: CallbackOutcome, failure: Option<FailureCategory>, requires': bool, invalid: FailureCategory) {
    && requires' == (outcome != AcceptedUpdate && outcome != DuplicateUpdate)
    && failure == (match outcome
                   case AcceptedUpdate => None
                   case DuplicateUpdate => None
                   case CallbackConflictBlocked => Some(DuplicateConflict)
                   case CallbackReconciliationRequired => Some(ReconciliationRequired)
                   case CallbackDisconnected => Some(NoConnection)
                   case NotAcceptedBlocked => Some(SubmissionNotAccepted)
                   case CorrelationBlocked => Some(CorrelationMismatch)
                   case StaleCallbackBlocked => Some(StaleCallback)
                   case OutOfOrderBlocked => Some(OutOfOrderCallback)
                   case InvalidBlocked => Some(invalid)
                   case CallbackUnknown => Some(UnexpectedError))
  }

  /** The state a status text and its cumulative quantity stand for, when they fit the order's quantity. */
  predicate Means(text: string, cumulative: nat, quantity: int, target: OmsState) {
    match target
    case Acknowledged => text == "acknowledged" && cumulative == 0
    case PartiallyFilled => text == "partially_filled" && 0 < cumulative < quantity
    case Filled => text == "filled" && cumulative == quantity
    case Rejected => text == "rejected" && cumulative == 0
  }

  predicate SensibleStatus(c: StatusCallback, quantity: int) {
    exists target: OmsState :: Means(c.paperStatus, c.cumulative, quantity, target)
  }

  /** A status callback is accepted exactly when it is new, in place and in order, and its text fits its quantity. */
  lemma StatusOutcomeExactly(endpoint: EndpointKind, m: Memory, c: StatusCallback, about: SubmissionRecord, at: Timestamp, maxAge: real)
    ensures var r := StatusResultOf(endpoint, m, c, about, at, maxAge);
            var known := c.head.callbackId in m.statusPayloads;
            && OutcomeIsExact(r.status, m, known, known && m.statusPayloads[c.head.callbackId] == c, c.head, about, at, maxAge,
                              SensibleStatus(c, about.quantity))
            && FailureIsExact(r.status, r.failure, r.requiresReconciliation, InvalidStatus)
  {
    hide StatusTarget, SensibleStatus, Means;
    StatusMeans(c, about);
  }

  lemma StatusMeans(c: StatusCallback, about: SubmissionRecord)
    ensures forall target :: Means(c.paperStatus, c.cumulative, about.quantity, target) <==> StatusTarget(c, about) == Some(target)
    ensures SensibleStatus(c, about.quantity) <==> StatusTarget(c, about).Some?
  {
    StatusTextsDiffer();
  }

  lemma StatusTextsDiffer()
    ensures "acknowledged" != "partially_filled" && "acknowledged" != "filled" && "acknowledged" != "rejected"
    ensures "partially_filled" != "filled" && "partially_filled" != "rejected" && "filled" != "rejected"
  {
    assert |"acknowledged"| == 12 && |"partially_filled"| == 16 && |"filled"| == 6 && |"rejected"| == 8;
  }

  /** The record repeats the callback, and its target is what the text means, or what the first record of it said. */
  lemma StatusRecordTells(endpoint: EndpointKind, m: Memory, c: StatusCallback, about: SubmissionRecord, at: Timestamp, maxAge: real)
    ensures var r := StatusResultOf(endpoint, m, c, about, at, maxAge);
            && r.head == c.head && r.recordedAt == at && r.endpoint == endpoint && r.submissionId == about.submissionId
            && r.paperStatus == c.paperStatus && r.cumulative == c.cumulative
            && (r.status == AcceptedUpdate ==> r.target.Some? && Means(c.paperStatus, c.cumulative, about.quantity, r.target.value))
            && (r.status == DuplicateUpdate && c.head.callbackId in m.statusRecords ==> r.target == m.statusRecords[c.head.callbackId].target)
            && (r.status != AcceptedUpdate && r.status != DuplicateUpdate ==> r.target == None)
  {
    StatusMeans(c, about);
    hide StatusTarget, Means, SubmissionTakesCallbacks, CallbackMatchesSubmission, CallbackIsStale;
  }

  /** At least one share, within what is filled so far, within the order. */
  predicate SensibleFill(c: FillCallback, quantity: int) {
    0 < c.fillQuantity <= c.cumulative <= quantity
  }

  /** More is filled now than any accepted callback of the order has said. */
  predicate Advances(m: Memory, c: FillCallback) {
    c.cumulative > if c.head.clientOrderId in m.cumulative then m.cumulative[c.head.clientOrderId] else 0
  }

  /** A fill is accepted exactly when it is new, in place and in order, lies within the order and advances it. */
  lemma FillOutcomeExactly(endpoint: EndpointKind, m: Memory, c: FillCallback, about: SubmissionRecord, at: Timestamp, maxAge: real)
    ensures var r := FillResultOf(endpoint, m, c, about, at, maxAge);
            var known := c.head.callbackId in m.fillPayloads;
            && OutcomeIsExact(r.status, m, known, known && m.fillPayloads[c.head.callbackId] == c, c.head, about, at, maxAge,
                              SensibleFill(c, about.quantity) && Advances(m, c))
            && FailureIsExact(r.status, r.failure, r.requiresReconciliation, InvalidFill)
  {
  }

  /** The record repeats the callback; what is left and the target follow from the two quantities. */
  lemma FillRecordTells(endpoint: EndpointKind, m: Memory, c: FillCallback, about: SubmissionRecord, at: Timestamp, maxAge: real)
    ensures var r := FillResultOf(endpoint, m, c, about, at, maxAge);
            && r.head == c.head && r.recordedAt == at && r.endpoint == endpoint && r.submissionId == about.submissionId
            && r.fillQuantity == c.fillQuantity && r.cumulative == c.cumulative && r.fillPrice == c.fillPrice
            && (r.status == AcceptedUpdate ==>
                  && r.leaves == about.quantity - c.cumulative
                  && r.target == Some(if c.cumulative == about.quantity then Filled else PartiallyFilled))
            && (r.status == DuplicateUpdate && c.head.callbackId in m.fillRecords ==>
                  r.leaves == m.fillRecords[c.head.callbackId].leaves && r.target == m.fillRecords[c.head.callbackId].target)
            && (r.status != AcceptedUpdate && r.status != DuplicateUpdate ==>
                  && r.target == None
                  && r.leaves == if about.quantity > c.cumulative then about.quantity - c.cumulative else 0)
  {
    hide SubmissionTakesCallbacks, CallbackMatchesSubmission, CallbackIsStale;
  }

  // ---------- lookups and probes ----------

  /** Exactly when each status of a lookup is given, and that a resolved one carries the connector's contract. */
  lemma LookupOutcomeExactly(endpoint: EndpointKind, m: Memory, q: LookupRequest, at: Timestamp, maxAge: real,
                             found: CallResult<Option<ResolvedContract>>)
    ensures var r := LookupResultOf(endpoint, m, q, at, maxAge, found);
            var asked := Open(m) && q.securityType == Stock;
            && (r.status == LookupReconciliationRequired <==> m.requiresReconciliation)
            && (r.status == LookupDisconnected <==> !m.requiresReconciliation && m.connection != ConnectedPaper)
            && (r.status == Unsupported <==> Open(m) && q.securityType != Stock)
            && (r.status == Resolved <==>
                  asked && found.Returned? && found.value.Some? && Recent(found.value.value.resolvedAt, at, maxAge))
            && (r.status == StaleResultRejected <==>
                  asked && found.Returned? && found.value.Some? && !Recent(found.value.value.resolvedAt, at, maxAge))
            && (r.status == LookupNotFound <==> asked && found == Raised(ContractNotFound))
            && (r.status == LookupAmbiguous <==> asked && found == Raised(ContractAmbiguous))
            && (r.status == LookupUnknown <==>
                  asked && found in {Returned(None), Raised(TimedOut), Raised(ConnectionRefused), Raised(OsFailure), Raised(OtherError)})
            && r.contract == if r.status == Resolved then found.value else None
  {
  }

  /** The record repeats the request and tells what failed. */
  lemma LookupRecordTells(endpoint: EndpointKind, m: Memory, q: LookupRequest, at: Timestamp, maxAge: real,
                          found: CallResult<Option<ResolvedContract>>)
    ensures var r := LookupResultOf(endpoint, m, q, at, maxAge, found);
            && r.lookupId == q.lookupId && r.requestedAt == q.requestedAt && r.reason == q.reason
            && r.recordedAt == at && r.endpoint == endpoint
            && (r.requiresReconciliation <==>
                  r.status == LookupReconciliationRequired || r.status == StaleResultRejected || r.status == LookupUnknown)
            && r.failure == (match r.status
                             case Resolved => None
                             case LookupNotFound => Some(NotFound)
                             case LookupAmbiguous => Some(Ambiguous)
                             case Unsupported => Some(UnsupportedInstrument)
                             case LookupDisconnected => Some(NoConnection)
                             case LookupReconciliationRequired => Some(ReconciliationRequired)
                             case StaleResultRejected => Some(StaleResult)
                             case LookupUnknown => Some(
                               if found == Raised(TimedOut) then Timeout
                               else if found == Raised(ConnectionRefused) || found == Raised(OsFailure) then OsError
                               else UnexpectedError))
  {
    hide ContractIsStale;
  }

  /** A lookup reaches the connector exactly when it is for a stock and the adapter may act. */
  lemma AskedExactlyWhenOpen(m: Memory, call: Call)
    requires call.Lookup? && Admissible(call)
    ensures Asks(m, call) == if Open(m) && call.lookup.securityType == Stock then [call.lookup] else []
  {
    hide Admissible;
  }

  /** What each answer of the probe connector is recorded as. */
  lemma ProbeOutcomeExactly(endpoint: EndpointKind, probeId: string, at: Timestamp, reason: string, reached: CallResult<()>)
    ensures var r := ProbeResultOf(endpoint, probeId, at, reason, reached);
            && r.probeId == probeId && r.recordedAt == at && r.reason == reason && r.endpoint == endpoint
            && (r.status == Reachable <==> r.connectionState == ConnectedPaper)
            && (r.status == Unreachable <==> r.connectionState == Disconnected)
            && (r.status == Reachable <==> reached.Returned?)
            && (r.status == Unreachable <==> reached == Raised(ConnectionRefused))
            && (r.requiresReconciliation <==> r.status == ProbeUnknown)
            && r.failure == if reached.Returned? then None
                            else if reached == Raised(ConnectionRefused) then Some(Refused)
                            else if reached == Raised(TimedOut) then Some(Timeout)
                            else if reached == Raised(OsFailure) then Some(OsError)
                            else Some(UnexpectedError)
  {
  }

  // ---------- what is remembered ----------

  /** An accepted submission is stored under its key with its record, and nothing else moves. */
  lemma AcceptedSubmissionIsRemembered(endpoint: EndpointKind, m: Memory, call: Call)
    requires call.Submit? && Admissible(call)
    requires SubmissionResultOf(endpoint, m, call.submission, call.recordedAt, call.maxAge, call.sent).status == AcceptedSubmission
    ensures var q, next := call.submission, Effect(endpoint, m, call);
            && next.submissionPayloads == m.submissionPayloads[q.idempotencyKey := q]
            && next.submissionRecords ==
               m.submissionRecords[q.idempotencyKey := SubmissionResultOf(endpoint, m, q, call.recordedAt, call.maxAge, call.sent)]
            && next == m.(submissionPayloads := next.submissionPayloads, submissionRecords := next.submissionRecords)
  {
    hide Admissible, SubmissionResultOf;
  }

  /** The order's last time is the callback's, and what is filled so far does not fall. */
  predicate ProgressIsKept(m: Memory, next: Memory, head: CallbackHead, cumulative: nat) {
    var before := if head.clientOrderId in m.cumulative then m.cumulative[head.clientOrderId] else 0;
    && next.observedAt == m.observedAt[head.clientOrderId := head.observedAt.instant]
    && next.cumulative == m.cumulative[head.clientOrderId := if cumulative >= before then cumulative else before]
    && next.connection == m.connection && next.requiresReconciliation == m.requiresReconciliation
    && next.submissionPayloads == m.submissionPayloads && next.submissionRecords == m.submissionRecords
  }

  lemma AcceptedStatusIsRemembered(endpoint: EndpointKind, m: Memory, call: Call)
    requires call.ReportStatus? && Admissible(call)
    requires StatusResultOf(endpoint, m, call.status, call.about, call.recordedAt, call.maxAge).status == AcceptedUpdate
    ensures var c, next := call.status, Effect(endpoint, m, call);
            && ProgressIsKept(m, next, c.head, c.cumulative)
            && next.statusPayloads == m.statusPayloads[c.head.callbackId := c]
            && next.statusRecords ==
               m.statusRecords[c.head.callbackId := StatusResultOf(endpoint, m, c, call.about, call.recordedAt, call.maxAge)]
            && next.fillPayloads == m.fillPayloads && next.fillRecords == m.fillRecords
  {
    hide Admissible, StatusResultOf;
  }

  lemma AcceptedFillIsRemembered(endpoint: EndpointKind, m: Memory, call: Call)
    requires call.ReportFill? && Admissible(call)
    requires FillResultOf(endpoint, m, call.fill, call.about, call.recordedAt, call.maxAge).status == AcceptedUpdate
    ensures var c, next := call.fill, Effect(endpoint, m, call);
            && ProgressIsKept(m, next, c.head, c.cumulative)
            && next.fillPayloads == m.fillPayloads[c.head.callbackId := c]
            && next.fillRecords ==
               m.fillRecords[c.head.callbackId := FillResultOf(endpoint, m, c, call.about, call.recordedAt, call.maxAge)]
            && next.statusPayloads == m.statusPayloads && next.statusRecords == m.statusRecords
  {
    hide Admissible, FillResultOf;
  }

  /** A recorded state, or the state a probe found, is adopted and latches exactly when it is unknown. */
  lemma ConnectionIsAdopted(endpoint: EndpointKind, m: Memory, call: Call)
    requires (call.RecordConnection? || call.Probe?) && Admissible(call)
    ensures var found := if call.RecordConnection? then call.state
                         else if call.reached.Returned? then ConnectedPaper
                         else if call.reached == Raised(ConnectionRefused) then Disconnected else UnknownState;
            Effect(endpoint, m, call) == m.(connection := found, requiresReconciliation := found == UnknownState)
  {
    hide Admissible;
  }
}
