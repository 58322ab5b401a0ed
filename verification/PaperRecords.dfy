/**
  The values the paper broker adapter exchanges and journals, each with the check its own
  constructor performs (`Valid`), and the builders that turn a request into an outcome record.
 */
module PaperRecords {
  import opened Foundations
  import opened Identifiers

  datatype ConnectionState = Disconnected | ConnectedPaper | UnknownState

  datatype EndpointKind = TwsPaper | GatewayPaper

  /** What a connector may raise. `ConnectionRefused` and `TimedOut` are operating-system errors too. */
  datatype Exception = ConnectionRefused | TimedOut | OsFailure | ContractNotFound | ContractAmbiguous | OtherError

  datatype CallResult<+T> = Returned(value: T) | Raised(exception: Exception)

  datatype FailureCategory =
    | NoConnection | ReconciliationRequired | StaleContract | ContractMismatch | MissingProtection
    | DuplicateConflict | Timeout | OsError | UnexpectedError | Refused
    | NotFound | Ambiguous | UnsupportedInstrument | StaleResult
    | SubmissionNotAccepted | CorrelationMismatch | StaleCallback | OutOfOrderCallback
    | InvalidStatus | InvalidFill

  /** The category recorded for an exception by a handler chain that tests timeout before OS errors. */
  function CategoryOf(e: Exception): FailureCategory {
    match e
    case TimedOut => Timeout
    case ConnectionRefused => OsError
    case OsFailure => OsError
    case _ => UnexpectedError
  }

  const UNKNOWN_OUTCOME_FAILURES: set<Option<FailureCategory>> := {Some(Timeout), Some(OsError), Some(UnexpectedError)}

  predicate ValidOptional(reference: Option<string>) {
    reference.Some? ==> ValidIdentifier(reference.value)
  }

  // ---------- connection state and probes ----------

  datatype ProbeStatus = Reachable | Unreachable | ProbeUnknown

  /** A reason is the caller's text, or the text the adapter derives from an outcome. */
  datatype Reason =
    | Given(text: string)
    | AfterProbe(probe: ProbeStatus)
    | AfterLookup(lookup: LookupStatus)
    | AfterSubmission(submission: SubmissionStatus)
    | AfterStatus(update: CallbackOutcome)
    | AfterFill(fill: CallbackOutcome)

  /** The words with underscores between. */
  function Underscored(words: seq<string>): string
    requires words != []
  {
    if |words| == 1 then words[0] else words[0] + "_" + Underscored(words[1..])
  }

  function ProbeWords(s: ProbeStatus): seq<string> {
    match s
    case Reachable => ["reachable", "local", "paper", "endpoint"]
    case Unreachable => ["unreachable", "local", "paper", "endpoint"]
    case ProbeUnknown => ["unknown", "requires", "reconciliation"]
  }

  function LookupWords(s: LookupStatus): seq<string> {
    match s
    case Resolved => ["resolved"]
    case LookupNotFound => ["not", "found"]
    case LookupAmbiguous => ["ambiguous"]
    case Unsupported => ["unsupported", "instrument"]
    case LookupDisconnected => ["blocked", "disconnected"]
    case LookupReconciliationRequired => ["blocked", "reconciliation", "required"]
    case StaleResultRejected => ["stale", "result", "rejected"]
    case LookupUnknown => ["unknown", "requires", "reconciliation"]
  }

  function SubmissionWords(s: SubmissionStatus): seq<string> {
    match s
    case AcceptedSubmission => ["accepted", "paper", "submission"]
    case DuplicateSubmission => ["duplicate", "accepted"]
    case SubmissionDisconnected => ["blocked", "disconnected"]
    case SubmissionReconciliationRequired => ["blocked", "reconciliation", "required"]
    case StaleContractBlocked => ["blocked", "stale", "contract"]
    case ContractMismatchBlocked => ["blocked", "contract", "mismatch"]
    case MissingProtectionBlocked => ["blocked", "missing", "protection"]
    case DuplicateConflictBlocked => ["blocked", "duplicate", "conflict"]
    case SubmissionUnknown => ["unknown", "requires", "reconciliation"]
  }

  /** The words of a callback's outcome, which names the update it is about where one is taken or refused as such. */
  function OutcomeWords(s: CallbackOutcome, fill: bool): seq<string> {
    match s
    case AcceptedUpdate => if fill then ["accepted", "fill", "update"] else ["accepted", "status", "update"]
    case DuplicateUpdate => if fill then ["duplicate", "fill", "update"] else ["duplicate", "status", "update"]
    case NotAcceptedBlocked => ["blocked", "submission", "not", "accepted"]
    case CallbackDisconnected => ["blocked", "disconnected"]
    case CallbackReconciliationRequired => ["blocked", "reconciliation", "required"]
    case CorrelationBlocked => ["blocked", "correlation", "mismatch"]
    case CallbackConflictBlocked => ["blocked", "duplicate", "conflict"]
    case StaleCallbackBlocked => ["blocked", "stale", "callback"]
    case OutOfOrderBlocked => ["blocked", "out", "of", "order", "callback"]
    case InvalidBlocked => if fill then ["blocked", "invalid", "fill"] else ["blocked", "invalid", "status"]
    case CallbackUnknown => ["unknown", "requires", "reconciliation"]
  }

  /** The words of the text derived from an outcome. */
  function DerivedWords(r: Reason): (words: seq<string>)
    requires !r.Given?
    ensures words != []
  {
    match r
    case AfterProbe(s) => ["connectivity", "probe"] + ProbeWords(s)
    case AfterLookup(s) => ["contract", "lookup"] + LookupWords(s)
    case AfterSubmission(s) => ["paper", "submission"] + SubmissionWords(s)
    case AfterStatus(s) => ["paper", "callback"] + OutcomeWords(s, false)
    case AfterFill(s) => ["paper", "callback"] + OutcomeWords(s, true)
  }

  function ReasonText(r: Reason): string {
    if r.Given? then r.text else Underscored(DerivedWords(r))
  }

  predicate AllLower(words: seq<string>) {
    words != [] && forall i :: 0 <= i < |words| ==> LowerWord(words[i])
  }

  lemma FirstWordsAreLower()
    ensures LowerWord("accepted") && LowerWord("ambiguous") && LowerWord("blocked")
    ensures LowerWord("callback") && LowerWord("conflict") && LowerWord("connectivity")
    ensures LowerWord("contract") && LowerWord("correlation") && LowerWord("disconnected")
  {
  }

  lemma SecondWordsAreLower()
    ensures LowerWord("duplicate") && LowerWord("endpoint") && LowerWord("fill")
    ensures LowerWord("found") && LowerWord("instrument") && LowerWord("invalid")
    ensures LowerWord("local") && LowerWord("lookup") && LowerWord("mismatch")
  {
  }

  lemma ThirdWordsAreLower()
    ensures LowerWord("missing") && LowerWord("not") && LowerWord("of")
    ensures LowerWord("order") && LowerWord("out") && LowerWord("paper")
    ensures LowerWord("probe") && LowerWord("protection") && LowerWord("reachable")
  {
  }

  lemma FourthWordsAreLower()
    ensures LowerWord("reconciliation") && LowerWord("rejected") && LowerWord("required")
    ensures LowerWord("requires") && LowerWord("resolved") && LowerWord("result")
    ensures LowerWord("stale") && LowerWord("status") && LowerWord("submission")
  {
  }

  lemma FifthWordsAreLower()
    ensures LowerWord("unknown") && LowerWord("unreachable") && LowerWord("unsupported")
    ensures LowerWord("update")
  {
  }

  lemma AllWordsAreLower()
    ensures LowerWord("accepted") && LowerWord("ambiguous") && LowerWord("blocked") && LowerWord("callback")
    ensures LowerWord("conflict") && LowerWord("connectivity") && LowerWord("contract") && LowerWord("correlation")
    ensures LowerWord("disconnected") && LowerWord("duplicate") && LowerWord("endpoint") && LowerWord("fill")
    ensures LowerWord("found") && LowerWord("instrument") && LowerWord("invalid") && LowerWord("local")
    ensures LowerWord("lookup") && LowerWord("mismatch") && LowerWord("missing") && LowerWord("not")
    ensures LowerWord("of") && LowerWord("order") && LowerWord("out") && LowerWord("paper")
    ensures LowerWord("probe") && LowerWord("protection") && LowerWord("reachable") && LowerWord("reconciliation")
    ensures LowerWord("rejected") && LowerWord("required") && LowerWord("requires") && LowerWord("resolved")
    ensures LowerWord("result") && LowerWord("stale") && LowerWord("status") && LowerWord("submission")
    ensures LowerWord("unknown") && LowerWord("unreachable") && LowerWord("unsupported") && LowerWord("update")
  {
    hide LowerWord;
    FirstWordsAreLower();
    SecondWordsAreLower();
    ThirdWordsAreLower();
    FourthWordsAreLower();
    FifthWordsAreLower();
  }

  lemma ProbeWordsAreLower(s: ProbeStatus)
    ensures AllLower(ProbeWords(s))
  {
    hide LowerWord;
    AllWordsAreLower();
  }

  lemma LookupWordsAreLower(s: LookupStatus)
    ensures AllLower(LookupWords(s))
  {
    hide LowerWord;
    AllWordsAreLower();
  }

  lemma SubmissionWordsAreLower(s: SubmissionStatus)
    ensures AllLower(SubmissionWords(s))
  {
    hide LowerWord;
    AllWordsAreLower();
  }

  lemma OutcomeWordsAreLower(s: CallbackOutcome, fill: bool)
    ensures AllLower(OutcomeWords(s, fill))
  {
    hide LowerWord;
    AllWordsAreLower();
  }

  lemma DerivedWordsAreLower(r: Reason)
    requires !r.Given?
    ensures AllLower(DerivedWords(r))
  {
    hide LowerWord, ProbeWords, LookupWords, SubmissionWords, OutcomeWords;
    AllWordsAreLower();
    match r
    case AfterProbe(s) => ProbeWordsAreLower(s);
    case AfterLookup(s) => LookupWordsAreLower(s);
    case AfterSubmission(s) => SubmissionWordsAreLower(s);
    case AfterStatus(s) => OutcomeWordsAreLower(s, false);
    case AfterFill(s) => OutcomeWordsAreLower(s, true);
  }

  lemma GivenTextIsKept(text: string)
    ensures ReasonText(Given(text)) == text
  {
  }

  /** Every text the adapter derives from an outcome is a valid identifier. */
  lemma DerivedReasonIsValid(r: Reason)
    requires !r.Given?
    ensures ValidIdentifier(ReasonText(r))
  {
    hide LowerWord, DerivedWords, ValidIdentifier, Underscored;
    DerivedWordsAreLower(r);
    UnderscoredIsLower(DerivedWords(r));
    LowerWordIsValid(ReasonText(r));
  }

  lemma {:induction false} UnderscoredIsLower(words: seq<string>)
    requires AllLower(words)
    ensures LowerWord(Underscored(words))
  {
    if |words| > 1 {
      var rest := words[1..];
      assert forall i :: 0 <= i < |rest| ==> rest[i] == words[i + 1];
      UnderscoredIsLower(rest);
    }
  }

  datatype ConnectionRecord = ConnectionRecord(
    state: ConnectionState, recordedAt: Timestamp, reason: Reason, requiresReconciliation: bool)
  {
    predicate Valid() {
      ValidIdentifier(ReasonText(reason)) && requiresReconciliation == state.UnknownState?
    }
  }

  datatype ProbeResult = ProbeResult(
    probeId: string, recordedAt: Timestamp, reason: string, endpoint: EndpointKind, status: ProbeStatus,
    connectionState: ConnectionState, requiresReconciliation: bool, failure: Option<FailureCategory>)
  {
    predicate Valid() {
      && ValidIdentifier(probeId) && ValidIdentifier(reason)
      && match status
         case Reachable => connectionState.ConnectedPaper? && !requiresReconciliation && failure.None?
         case Unreachable => connectionState.Disconnected? && !requiresReconciliation && failure == Some(Refused)
         case ProbeUnknown => connectionState.UnknownState? && requiresReconciliation && failure in UNKNOWN_OUTCOME_FAILURES
    }
  }

  // ---------- contracts ----------

  datatype SecurityType = Stock | OptionContract | Future | Forex

  predicate ValidCurrency(s: string) {
    ValidIdentifier(s) && |s| == 3 && forall i :: 0 <= i < 3 ==> 'A' <= s[i] <= 'Z'
  }

  datatype LookupRequest = LookupRequest(
    lookupId: string, requestedAt: Timestamp, reason: string, symbol: string,
    securityType: SecurityType, currency: string, exchange: string)
  {
    predicate Valid() {
      && ValidIdentifier(lookupId) && ValidIdentifier(reason) && ValidSymbol(symbol)
      && ValidCurrency(currency) && ValidSymbol(exchange)
    }
  }

  datatype ResolvedContract = ResolvedContract(
    contractId: string, symbol: string, securityType: SecurityType, currency: string, exchange: string,
    primaryExchange: string, localSymbol: string, tradingClass: string, minTick: real, resolvedAt: Timestamp)
  {
    predicate Valid() {
      && ValidIdentifier(contractId) && ValidSymbol(symbol) && securityType.Stock? && ValidCurrency(currency)
      && ValidSymbol(exchange) && ValidSymbol(primaryExchange) && ValidIdentifier(localSymbol)
      && ValidSymbol(tradingClass) && minTick > 0.0
    }
  }

  datatype LookupStatus =
    | Resolved | LookupNotFound | LookupAmbiguous | Unsupported
    | LookupDisconnected | LookupReconciliationRequired | StaleResultRejected | LookupUnknown

  datatype LookupResult = LookupResult(
    lookupId: string, requestedAt: Timestamp, recordedAt: Timestamp, reason: string, endpoint: EndpointKind,
    status: LookupStatus, requiresReconciliation: bool, failure: Option<FailureCategory>,
    contract: Option<ResolvedContract>)
  {
    predicate Valid() {
      && ValidIdentifier(lookupId) && ValidIdentifier(reason)
      && (contract.Some? <==> status.Resolved?)
      && match status
         case Resolved => !requiresReconciliation && failure.None?
         case LookupNotFound => !requiresReconciliation && failure == Some(NotFound)
         case LookupAmbiguous => !requiresReconciliation && failure == Some(Ambiguous)
         case Unsupported => !requiresReconciliation && failure == Some(UnsupportedInstrument)
         case LookupDisconnected => !requiresReconciliation && failure == Some(NoConnection)
         case LookupReconciliationRequired => requiresReconciliation && failure == Some(ReconciliationRequired)
         case StaleResultRejected => requiresReconciliation && failure == Some(StaleResult)
         case LookupUnknown => requiresReconciliation && failure in UNKNOWN_OUTCOME_FAILURES
    }
  }

  function BuildLookupResult(
    request: LookupRequest, recordedAt: Timestamp, endpoint: EndpointKind, status: LookupStatus,
    failure: Option<FailureCategory>, contract: Option<ResolvedContract>): LookupResult
  {
    LookupResult(
      request.lookupId, request.requestedAt, recordedAt, request.reason, endpoint, status,
      status in {LookupReconciliationRequired, StaleResultRejected, LookupUnknown}, failure, contract)
  }

  /** Older than allowed, or resolved after the moment it is used. */
  predicate ContractIsStale(contract: ResolvedContract, recordedAt: Timestamp, maxAge: real) {
    var age := AgeSeconds(contract.resolvedAt, recordedAt);
    age < 0.0 || age > maxAge
  }

  // ---------- order plans ----------

  datatype Side = Buy | Sell

  datatype OrderType = Market | Limit

  predicate LimitPriceFits(orderType: OrderType, limitPrice: Option<real>) {
    match orderType
    case Market => limitPrice.None?
    case Limit => limitPrice.Some? && limitPrice.value > 0.0
  }

  /** A broker order request, whose own identifier check does not look for forbidden text. */
  datatype OrderRequest = OrderRequest(
    clientOrderId: string, symbol: string, side: Side, quantity: int, orderType: OrderType,
    referencePrice: real, requestedAt: Timestamp, riskDecisionId: string, approvalReference: string,
    limitPrice: Option<real>)
  {
    predicate Valid() {
      && NonBlank(clientOrderId) && NonBlank(riskDecisionId) && NonBlank(approvalReference)
      && PlainSymbol(symbol)
      && quantity >= 1 && referencePrice > 0.0 && LimitPriceFits(orderType, limitPrice)
    }
  }

  datatype OrderPlan = OrderPlan(
    planId: string, clientOrderId: string, symbol: string, side: Side, quantity: int, orderType: OrderType,
    referencePrice: real, requestedAt: Timestamp, riskDecisionId: string, approvalReference: string,
    limitPrice: Option<real>)
  {
    predicate Valid() {
      && ValidIdentifier(planId) && ValidIdentifier(clientOrderId) && ValidIdentifier(riskDecisionId)
      && ValidIdentifier(approvalReference) && ValidSymbol(symbol)
      && quantity >= 1 && referencePrice > 0.0 && LimitPriceFits(orderType, limitPrice)
    }
  }

  const PLAN_PREFIX := "ibkr-paper-plan-"

  function BuildOrderPlan(order: OrderRequest): OrderPlan {
    OrderPlan(
      PLAN_PREFIX + order.clientOrderId, order.clientOrderId, order.symbol, order.side, order.quantity,
      order.orderType, order.referencePrice, order.requestedAt, order.riskDecisionId, order.approvalReference,
      order.limitPrice)
  }

  /**
    A valid broker order can still fail to become a plan, because the two identifier checks differ:
    it becomes one exactly when none of its texts holds a forbidden marker.
   */
  lemma PlanBuildsExactly(order: OrderRequest)
    requires order.Valid()
    ensures BuildOrderPlan(order).Valid() <==>
              && !HasForbiddenText(order.clientOrderId) && !HasForbiddenText(order.symbol)
              && !HasForbiddenText(order.riskDecisionId) && !HasForbiddenText(order.approvalReference)
  {
    hide HasForbiddenText;
    assert PLAN_PREFIX[4] == '-' && PLAN_PREFIX[10] == '-' && PLAN_PREFIX[15] == '-';
    PrefixedIdentifierIsValid(PLAN_PREFIX, order.clientOrderId);
  }

  /** A valid order whose client id carries a marker makes no plan. */
  lemma SomeValidOrderMakesNoPlan(at: Timestamp)
    ensures var order := OrderRequest("token=1", "AAPL", Buy, 1, Market, 1.0, at, "risk", "approval", None);
            order.Valid() && !BuildOrderPlan(order).Valid()
  {
    var id := "token=1";
    assert FORBIDDEN_MARKERS[13] == "token=";
    assert Lower(id)[0..6] == "token=";
    assert ContainsAt(Lower(id), FORBIDDEN_MARKERS[13], 0);
    assert Contains(Lower(id), FORBIDDEN_MARKERS[13]);
    assert HasForbiddenText(id);
  }

  // ---------- submissions ----------

  datatype SubmissionRequest = SubmissionRequest(
    submissionId: string, requestedAt: Timestamp, reason: string, plan: OrderPlan, contract: ResolvedContract,
    omsTransitionReference: string, idempotencyKey: string,
    protectiveReference: Option<string>, exceptionReference: Option<string>)
  {
    predicate Valid() {
      && ValidIdentifier(submissionId) && ValidIdentifier(reason) && plan.Valid() && contract.Valid()
      && ValidIdentifier(omsTransitionReference) && ValidIdentifier(idempotencyKey)
      && ValidOptional(protectiveReference) && ValidOptional(exceptionReference)
    }
  }

  datatype SubmissionStatus =
    | AcceptedSubmission | DuplicateSubmission
    | SubmissionDisconnected | SubmissionReconciliationRequired | StaleContractBlocked
    | ContractMismatchBlocked | MissingProtectionBlocked | DuplicateConflictBlocked | SubmissionUnknown

  datatype SubmissionRecord = SubmissionRecord(
    submissionId: string, requestedAt: Timestamp, recordedAt: Timestamp, reason: string, endpoint: EndpointKind,
    status: SubmissionStatus, requiresReconciliation: bool, failure: Option<FailureCategory>,
    planId: string, clientOrderId: string, symbol: string, side: Side, quantity: int, orderType: OrderType,
    idempotencyKey: string, riskDecisionId: string, approvalReference: string, omsTransitionReference: string,
    contractId: string, protectiveReference: Option<string>, exceptionReference: Option<string>,
    acknowledgement: Option<string>)
  {
    predicate Valid() {
      && ValidIdentifier(submissionId) && ValidIdentifier(reason) && ValidIdentifier(planId)
      && ValidIdentifier(clientOrderId) && ValidSymbol(symbol) && quantity >= 1
      && ValidIdentifier(idempotencyKey) && ValidIdentifier(riskDecisionId) && ValidIdentifier(approvalReference)
      && ValidIdentifier(omsTransitionReference) && ValidIdentifier(contractId)
      && ValidOptional(protectiveReference) && ValidOptional(exceptionReference) && ValidOptional(acknowledgement)
      && (acknowledgement.Some? <==> status in {AcceptedSubmission, DuplicateSubmission})
      && match status
         case AcceptedSubmission => !requiresReconciliation && failure.None?
         case DuplicateSubmission => !requiresReconciliation && failure.None?
         case SubmissionDisconnected => !requiresReconciliation && failure == Some(NoConnection)
         case SubmissionReconciliationRequired => requiresReconciliation && failure == Some(ReconciliationRequired)
         case StaleContractBlocked => requiresReconciliation && failure == Some(StaleContract)
         case ContractMismatchBlocked => !requiresReconciliation && failure == Some(ContractMismatch)
         case MissingProtectionBlocked => !requiresReconciliation && failure == Some(MissingProtection)
         case DuplicateConflictBlocked => !requiresReconciliation && failure == Some(DuplicateConflict)
         case SubmissionUnknown => requiresReconciliation && failure in UNKNOWN_OUTCOME_FAILURES
    }
  }

  function BuildSubmissionRecord(
    request: SubmissionRequest, recordedAt: Timestamp, endpoint: EndpointKind, status: SubmissionStatus,
    failure: Option<FailureCategory>, acknowledgement: Option<string>): (r: SubmissionRecord)
    ensures r.recordedAt == recordedAt && r.status == status && r.failure == failure && r.acknowledgement == acknowledgement
    ensures r.requiresReconciliation <==> status in {SubmissionReconciliationRequired, StaleContractBlocked, SubmissionUnknown}
  {
    SubmissionRecord(
      request.submissionId, request.requestedAt, recordedAt, request.reason, endpoint, status,
      status in {SubmissionReconciliationRequired, StaleContractBlocked, SubmissionUnknown}, failure,
      request.plan.planId, request.plan.clientOrderId, request.plan.symbol, request.plan.side,
      request.plan.quantity, request.plan.orderType, request.idempotencyKey, request.plan.riskDecisionId,
      request.plan.approvalReference, request.omsTransitionReference, request.contract.contractId,
      request.protectiveReference, request.exceptionReference, acknowledgement)
  }

  predicate ContractMatchesPlan(request: SubmissionRequest) {
    && request.contract.symbol == request.plan.symbol
    && request.contract.securityType.Stock?
    && request.contract.currency == "USD"
  }

  predicate MissingRequiredProtection(request: SubmissionRequest) {
    request.plan.side.Buy? && request.protectiveReference.None? && request.exceptionReference.None?
  }

  // ---------- callbacks ----------

  /** The fields every callback carries. */
  datatype CallbackHead = CallbackHead(
    callbackId: string, observedAt: Timestamp, receivedAt: Timestamp, reason: string,
    clientOrderId: string, correlationReference: string)
  {
    predicate Valid() {
      && ValidIdentifier(callbackId) && ValidIdentifier(reason) && ValidIdentifier(clientOrderId)
      && ValidIdentifier(correlationReference)
    }
  }

  datatype StatusCallback = StatusCallback(head: CallbackHead, paperStatus: string, cumulative: nat)
  {
    predicate Valid() {
      head.Valid() && ValidIdentifier(paperStatus)
    }
  }

  datatype FillCallback = FillCallback(head: CallbackHead, fillQuantity: nat, cumulative: nat, fillPrice: real)
  {
    predicate Valid() {
      head.Valid() && fillPrice > 0.0
    }
  }

  /** Outcomes of either kind of callback; `Invalid` is an invalid status or an invalid fill. */
  datatype CallbackOutcome =
    | AcceptedUpdate | DuplicateUpdate
    | NotAcceptedBlocked | CallbackDisconnected | CallbackReconciliationRequired | CorrelationBlocked
    | CallbackConflictBlocked | StaleCallbackBlocked | OutOfOrderBlocked | InvalidBlocked | CallbackUnknown
  {
    predicate Succeeds() {
      AcceptedUpdate? || DuplicateUpdate?
    }
  }

  datatype OmsState = Acknowledged | PartiallyFilled | Filled | Rejected

  /** The failure category each outcome must carry; `invalid` is the category of an invalid callback. */
  function CallbackFailure(outcome: CallbackOutcome, invalid: FailureCategory): Option<FailureCategory> {
    match outcome
    case AcceptedUpdate => None
    case DuplicateUpdate => None
    case NotAcceptedBlocked => Some(SubmissionNotAccepted)
    case CallbackDisconnected => Some(NoConnection)
    case CallbackReconciliationRequired => Some(ReconciliationRequired)
    case CorrelationBlocked => Some(CorrelationMismatch)
    case CallbackConflictBlocked => Some(DuplicateConflict)
    case StaleCallbackBlocked => Some(StaleCallback)
    case OutOfOrderBlocked => Some(OutOfOrderCallback)
    case InvalidBlocked => Some(invalid)
    case CallbackUnknown => Some(UnexpectedError)
  }

  datatype StatusRecord = StatusRecord(
    head: CallbackHead, recordedAt: Timestamp, endpoint: EndpointKind, status: CallbackOutcome,
    requiresReconciliation: bool, failure: Option<FailureCategory>, submissionId: string,
    paperStatus: string, cumulative: nat, target: Option<OmsState>)
  {
    predicate Valid() {
      && head.Valid() && ValidIdentifier(submissionId) && ValidIdentifier(paperStatus)
      && requiresReconciliation == !status.Succeeds()
      && failure == CallbackFailure(status, InvalidStatus)
      && (target.Some? <==> status.Succeeds())
    }
  }

  datatype FillRecord = FillRecord(
    head: CallbackHead, recordedAt: Timestamp, endpoint: EndpointKind, status: CallbackOutcome,
    requiresReconciliation: bool, failure: Option<FailureCategory>, submissionId: string,
    fillQuantity: nat, cumulative: nat, leaves: int, fillPrice: real, target: Option<OmsState>)
  {
    predicate Valid() {
      && head.Valid() && ValidIdentifier(submissionId) && leaves >= 0 && fillPrice > 0.0
      && requiresReconciliation == !status.Succeeds()
      && failure == CallbackFailure(status, InvalidFill)
      && (target.Some? <==> status.Succeeds())
    }
  }

  function BuildStatusRecord(
    callback: StatusCallback, submission: SubmissionRecord, recordedAt: Timestamp, endpoint: EndpointKind,
    status: CallbackOutcome, failure: Option<FailureCategory>, target: Option<OmsState>): (r: StatusRecord)
    ensures r.recordedAt == recordedAt && r.status == status && (r.requiresReconciliation <==> status !in {AcceptedUpdate, DuplicateUpdate})
  {
    StatusRecord(
      callback.head, recordedAt, endpoint, status, status !in {AcceptedUpdate, DuplicateUpdate}, failure,
      submission.submissionId, callback.paperStatus, callback.cumulative, target)
  }

  function BuildFillRecord(
    callback: FillCallback, submission: SubmissionRecord, recordedAt: Timestamp, endpoint: EndpointKind,
    status: CallbackOutcome, failure: Option<FailureCategory>, leaves: Option<int>, target: Option<OmsState>): (r: FillRecord)
    ensures r.recordedAt == recordedAt && r.status == status && (r.requiresReconciliation <==> status !in {AcceptedUpdate, DuplicateUpdate})
  {
    var remaining := submission.quantity - callback.cumulative;
    FillRecord(
      callback.head, recordedAt, endpoint, status, status !in {AcceptedUpdate, DuplicateUpdate}, failure,
      submission.submissionId, callback.fillQuantity, callback.cumulative,
      if leaves.Some? then leaves.value else if remaining > 0 then remaining else 0,
      callback.fillPrice, target)
  }

  predicate SubmissionTakesCallbacks(submission: SubmissionRecord) {
    submission.status in {AcceptedSubmission, DuplicateSubmission} && submission.acknowledgement.Some?
  }

  predicate CallbackMatchesSubmission(head: CallbackHead, submission: SubmissionRecord) {
    && head.clientOrderId == submission.clientOrderId
    && Some(head.correlationReference) == submission.acknowledgement
  }

  predicate CallbackIsStale(observedAt: Timestamp, recordedAt: Timestamp, maxAge: real) {
    var age := AgeSeconds(observedAt, recordedAt);
    age < 0.0 || age > maxAge
  }

  function StatusTarget(callback: StatusCallback, submission: SubmissionRecord): Option<OmsState> {
    var cumulative := callback.cumulative;
    if callback.paperStatus == "acknowledged" && cumulative == 0 then Some(Acknowledged)
    else if callback.paperStatus == "partially_filled" && 0 < cumulative < submission.quantity then Some(PartiallyFilled)
    else if callback.paperStatus == "filled" && cumulative == submission.quantity then Some(Filled)
    else if callback.paperStatus == "rejected" && cumulative == 0 then Some(Rejected)
    else None
  }

  function FillTarget(callback: FillCallback, submission: SubmissionRecord): Option<OmsState> {
    if callback.fillQuantity <= 0 then None
    else if callback.cumulative <= 0 then None
    else if callback.fillQuantity > callback.cumulative then None
    else if callback.cumulative > submission.quantity then None
    else if callback.cumulative < submission.quantity then Some(PartiallyFilled)
    else Some(Filled)
  }
}
