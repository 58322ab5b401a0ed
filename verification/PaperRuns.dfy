/** What holds in every run of calls on the paper broker adapter. */
module PaperRuns {
  import opened Foundations
  import opened Identifiers
  import opened PaperRecords
  import opened PaperProtocol
  import opened PaperLaws

  // ---------- the invariant of the memory ----------

  /** A stored acceptance: its record answers its request, which was fit to be sent when it was sent. */
  ghost predicate GuardedAcceptance(endpoint: EndpointKind, q: SubmissionRequest, r: SubmissionRecord) {
    && r == BuildSubmissionRecord(q, r.recordedAt, endpoint, AcceptedSubmission, None, Some(LocalAcknowledgement(q.idempotencyKey)))
    && FitToSend(q, r.recordedAt, 86400.0)
  }

  ghost predicate SubmissionsSound(endpoint: EndpointKind, m: Memory) {
    && m.submissionPayloads.Keys == m.submissionRecords.Keys
    && forall k :: k in m.submissionPayloads ==>
                     && m.submissionPayloads[k].idempotencyKey == k
                     && GuardedAcceptance(endpoint, m.submissionPayloads[k], m.submissionRecords[k])
  }

  ghost predicate CallbacksSound(m: Memory) {
    && m.statusPayloads.Keys == m.statusRecords.Keys
    && m.fillPayloads.Keys == m.fillRecords.Keys
    && m.observedAt.Keys == m.cumulative.Keys
    && (forall id :: id in m.statusRecords ==> m.statusRecords[id].target.Some?)
    && (forall id :: id in m.fillRecords ==> m.fillRecords[id].target.Some? && m.fillRecords[id].leaves >= 0)
  }

  ghost predicate Sound(endpoint: EndpointKind, m: Memory) {
    && m.requiresReconciliation == m.connection.UnknownState?
    && SubmissionsSound(endpoint, m)
    && CallbacksSound(m)
  }

  /** What the adapter's checks guarantee about each change it makes. */
  ghost predicate Lawful(endpoint: EndpointKind, m: Memory, change: Change) {
    match change
    case Nothing => true
    case Connect(_) => true
    case Accept(q, r) => q.idempotencyKey !in m.submissionPayloads && GuardedAcceptance(endpoint, q, r)
    case Note(c, r) => InOrder(m, c.head) && r.target.Some?
    case Fill(c, r) =>
      && InOrder(m, c.head) && CumulativeSoFar(m, c.head.clientOrderId) < c.cumulative
      && r.head == c.head && r.cumulative == c.cumulative && SoundFill(r)
  }

  predicate InOrder(m: Memory, head: CallbackHead) {
    head.clientOrderId in m.observedAt ==> m.observedAt[head.clientOrderId] <= head.observedAt.instant
  }

  predicate SoundFill(r: FillRecord) {
    && 0 < r.fillQuantity <= r.cumulative && r.leaves >= 0
    && r.target == Some(if r.leaves == 0 then Filled else PartiallyFilled)
  }

  lemma AcceptanceIsLawful(endpoint: EndpointKind, m: Memory, call: Call)
    requires call.Submit? && ValidAge(call.maxAge)
    ensures var r := SubmissionResultOf(endpoint, m, call.submission, call.recordedAt, call.maxAge, call.sent);
            && (r.status.AcceptedSubmission? ==> Lawful(endpoint, m, Accept(call.submission, r)))
            && (r.status.AcceptedSubmission? <==>
                  SubmissionBlock(m, call.submission, call.recordedAt, call.maxAge).None? && call.sent.Returned?)
  {
    hide Admissible;
  }

  lemma NoteIsLawful(endpoint: EndpointKind, m: Memory, call: Call)
    requires call.ReportStatus?
    ensures var r := StatusResultOf(endpoint, m, call.status, call.about, call.recordedAt, call.maxAge);
            r.status.AcceptedUpdate? ==> Lawful(endpoint, m, Note(call.status, r))
  {
    hide Admissible;
  }

  lemma FillIsLawful(endpoint: EndpointKind, m: Memory, call: Call)
    requires call.ReportFill?
    ensures var r := FillResultOf(endpoint, m, call.fill, call.about, call.recordedAt, call.maxAge);
            r.status.AcceptedUpdate? ==> Lawful(endpoint, m, Fill(call.fill, r)) && r.cumulative + r.leaves == call.about.quantity
  {
    hide Admissible;
  }

  lemma ChangesAreLawful(endpoint: EndpointKind, m: Memory, call: Call)
    ensures Lawful(endpoint, m, ChangeOf(endpoint, m, call))
  {
    hide Lawful, SubmissionResultOf, StatusResultOf, FillResultOf, LookupResultOf, ProbeResultOf, ValidIdentifier, ValidSymbol;
    assert Lawful(endpoint, m, Nothing) && forall state :: Lawful(endpoint, m, Connect(state)) by {
      PlainChangesAreLawful(endpoint, m);
    }
    match call
    case Submit(_, _, _, maxAge, _) => if Admissible(call) { AcceptanceIsLawful(endpoint, m, call); }
    case ReportStatus(_, _, _, _) => NoteIsLawful(endpoint, m, call);
    case ReportFill(_, _, _, _) => FillIsLawful(endpoint, m, call);
    case _ =>
  }

  lemma PlainChangesAreLawful(endpoint: EndpointKind, m: Memory)
    ensures Lawful(endpoint, m, Nothing) && forall state :: Lawful(endpoint, m, Connect(state))
  {
  }

  lemma LawfulKeepsSubmissions(endpoint: EndpointKind, m: Memory, change: Change)
    requires SubmissionsSound(endpoint, m) && Lawful(endpoint, m, change)
    ensures SubmissionsSound(endpoint, Apply(m, change))
  {
    hide GuardedAcceptance;
  }

  lemma LawfulKeepsCallbacks(endpoint: EndpointKind, m: Memory, change: Change)
    requires CallbacksSound(m) && Lawful(endpoint, m, change)
    ensures CallbacksSound(Apply(m, change))
  {
    hide GuardedAcceptance, SubmissionsSound;
  }

  lemma LawfulKeepsSound(endpoint: EndpointKind, m: Memory, change: Change)
    requires Sound(endpoint, m) && Lawful(endpoint, m, change)
    ensures Sound(endpoint, Apply(m, change))
  {
    hide Lawful, SubmissionsSound, CallbacksSound;
    LawfulKeepsSubmissions(endpoint, m, change);
    LawfulKeepsCallbacks(endpoint, m, change);
  }

  lemma EffectKeepsSound(endpoint: EndpointKind, m: Memory, call: Call)
    requires Sound(endpoint, m)
    ensures Sound(endpoint, Effect(endpoint, m, call))
  {
    hide Sound, Lawful, ChangeOf, Apply;
    ChangesAreLawful(endpoint, m, call);
    LawfulKeepsSound(endpoint, m, ChangeOf(endpoint, m, call));
  }

  /**
    In every run the reconciliation flag is up exactly in the unknown state, every stored acceptance
    matches its contract and is protected or excepted when it buys, and the callbacks' records fit.
   */
  lemma {:induction false} RunsAreSound(endpoint: EndpointKind, calls: seq<Call>)
    ensures Sound(endpoint, MemoryAfter(endpoint, calls))
  {
    hide ValidIdentifier, ValidSymbol, ValidCurrency;
    if calls != [] {
      var before, last := calls[..|calls| - 1], calls[|calls| - 1];
      assert calls == before + [last];
      RunsAreSound(endpoint, before);
      MemoryAfterCall(endpoint, before, last);
      EffectKeepsSound(endpoint, MemoryAfter(endpoint, before), last);
    }
  }

  // ---------- the reconciliation latch ----------

  /** The calls that may clear the latch. */
  predicate SetsConnection(call: Call) {
    call.RecordConnection? || call.Probe?
  }

  /** What may still be journaled while the latch is up: refusals and verbatim duplicates only. */
  predicate Quiet(e: Event) {
    match e
    case ConnectionRecorded(_) => false
    case ProbeRecorded(_) => false
    case PlanCreated(_) => false
    case LookupRecorded(r) => r.status.LookupReconciliationRequired?
    case SubmissionRecorded(r) => r.status in {SubmissionReconciliationRequired, DuplicateSubmission, DuplicateConflictBlocked}
    case StatusRecorded(r) => r.status in {CallbackReconciliationRequired, DuplicateUpdate, CallbackConflictBlocked}
    case FillRecorded(r) => r.status in {CallbackReconciliationRequired, DuplicateUpdate, CallbackConflictBlocked}
    case _ => true
  }

  /** The call changes nothing, reaches no connector and journals only quiet events. */
  ghost predicate StaysQuiet(endpoint: EndpointKind, m: Memory, call: Call) {
    && Effect(endpoint, m, call) == m
    && Sends(m, call) == [] && Asks(m, call) == []
    && forall e :: e in Emits(endpoint, m, call) ==> Quiet(e)
  }

  lemma LatchedSubmissionIsQuiet(endpoint: EndpointKind, m: Memory, call: Call)
    requires m.requiresReconciliation && m.connection.UnknownState? && call.Submit?
    ensures StaysQuiet(endpoint, m, call)
  {
    hide Admissible, BuildSubmissionRecord;
  }

  lemma LatchedStatusIsQuiet(endpoint: EndpointKind, m: Memory, call: Call)
    requires m.requiresReconciliation && m.connection.UnknownState? && call.ReportStatus?
    ensures StaysQuiet(endpoint, m, call)
  {
    hide Admissible, BuildStatusRecord;
  }

  lemma LatchedFillIsQuiet(endpoint: EndpointKind, m: Memory, call: Call)
    requires m.requiresReconciliation && m.connection.UnknownState? && call.ReportFill?
    ensures StaysQuiet(endpoint, m, call)
  {
    hide Admissible, BuildFillRecord;
  }

  lemma LatchedLookupIsQuiet(endpoint: EndpointKind, m: Memory, call: Call)
    requires m.requiresReconciliation && m.connection.UnknownState? && call.Lookup?
    ensures StaysQuiet(endpoint, m, call)
  {
    hide Admissible;
  }

  lemma LatchedCallIsQuiet(endpoint: EndpointKind, m: Memory, call: Call)
    requires Sound(endpoint, m) && m.requiresReconciliation && !SetsConnection(call)
    ensures StaysQuiet(endpoint, m, call)
  {
    hide StaysQuiet, SubmissionsSound, CallbacksSound;
    match call
    case Lookup(_, _, _, _, _) => LatchedLookupIsQuiet(endpoint, m, call);
    case Submit(_, _, _, _, _) => LatchedSubmissionIsQuiet(endpoint, m, call);
    case ReportStatus(_, _, _, _) => LatchedStatusIsQuiet(endpoint, m, call);
    case ReportFill(_, _, _, _) => LatchedFillIsQuiet(endpoint, m, call);
    case CreatePlan(_) => LatchedPlanIsQuiet(endpoint, m, call);
  }

  lemma LatchedPlanIsQuiet(endpoint: EndpointKind, m: Memory, call: Call)
    requires m.requiresReconciliation && call.CreatePlan?
    ensures StaysQuiet(endpoint, m, call)
  {
    hide Admissible;
  }

  /**
    The latch. From a run that left the flag up, any further calls other than an explicit connection
    state or a probe change nothing in memory, reach no connector, plan nothing, and journal only
    refusals and verbatim duplicates.
   */
  lemma {:induction false} LatchHolds(endpoint: EndpointKind, calls: seq<Call>, more: seq<Call>)
    requires MemoryAfter(endpoint, calls).requiresReconciliation
    requires forall i :: 0 <= i < |more| ==> !SetsConnection(more[i])
    ensures MemoryAfter(endpoint, calls + more) == MemoryAfter(endpoint, calls)
    ensures SendLog(endpoint, calls + more) == SendLog(endpoint, calls)
    ensures AskLog(endpoint, calls + more) == AskLog(endpoint, calls)
    ensures Run(endpoint, calls) <= Run(endpoint, calls + more)
    ensures forall i :: |Run(endpoint, calls)| <= i < |Run(endpoint, calls + more)| ==> Quiet(Run(endpoint, calls + more)[i])
  {
    hide Effect, Emits, Sends, Asks, Quiet, Sound, ReplayFrom, SetsConnection;
    if more == [] {
      assert calls + more == calls;
    } else {
      var front, last := more[..|more| - 1], more[|more| - 1];
      LatchHolds(endpoint, calls, front);
      var before := calls + front;
      assert calls + more == before + [last] && (before + [last])[..|before|] == before;
      MemoryAfterCall(endpoint, before, last);
      RunsAreSound(endpoint, before);
      assert Sound(endpoint, MemoryAfter(endpoint, before));
      LatchedCallIsQuiet(endpoint, MemoryAfter(endpoint, before), last);
    }
  }

  /** An event reporting an outcome that needs reconciliation. */
  predicate DemandsReconciliation(e: Event) {
    match e
    case LookupRecorded(r) => r.requiresReconciliation
    case SubmissionRecorded(r) => r.requiresReconciliation
    case StatusRecorded(r) => r.requiresReconciliation
    case FillRecorded(r) => r.requiresReconciliation
    case ProbeRecorded(r) => r.requiresReconciliation
    case _ => false
  }

  lemma DemandRaisesFlag(endpoint: EndpointKind, m: Memory, call: Call, e: Event)
    requires Sound(endpoint, m)
    requires e in Emits(endpoint, m, call) && DemandsReconciliation(e)
    ensures Effect(endpoint, m, call).requiresReconciliation
    ensures Effect(endpoint, m, call).connection.UnknownState?
  {
    hide Admissible, SubmissionsSound, CallbacksSound, BuildSubmissionRecord, BuildStatusRecord, BuildFillRecord;
    match call
    case Lookup(_, _, _, _, _) => hide ContractIsStale;
    case Submit(_, _, _, _, _) => hide SubmissionBlock;
    case ReportStatus(_, _, _, _) => hide CallbackBlock, StatusTarget;
    case ReportFill(_, _, _, _) => hide CallbackBlock, FillTarget;
    case _ =>
  }

  /** Any call that journals such an outcome leaves the latch up, whatever the state before. */
  lemma DemandRaisesLatch(endpoint: EndpointKind, calls: seq<Call>, call: Call, e: Event)
    requires e in Emits(endpoint, MemoryAfter(endpoint, calls), call) && DemandsReconciliation(e)
    ensures MemoryAfter(endpoint, calls + [call]).requiresReconciliation
    ensures MemoryAfter(endpoint, calls + [call]).connection.UnknownState?
  {
    RunsAreSound(endpoint, calls);
    DemandRaisesFlag(endpoint, MemoryAfter(endpoint, calls), call, e);
    hide Effect, Emits, DemandsReconciliation;
    MemoryAfterCall(endpoint, calls, call);
  }

  // ---------- idempotent submissions ----------

  lemma LawfulKeepsAcceptances(endpoint: EndpointKind, m: Memory, change: Change, key: string)
    requires Lawful(endpoint, m, change)
    requires key in m.submissionPayloads && key in m.submissionRecords
    ensures var next := Apply(m, change);
            && key in next.submissionPayloads && next.submissionPayloads[key] == m.submissionPayloads[key]
            && key in next.submissionRecords && next.submissionRecords[key] == m.submissionRecords[key]
  {
    hide GuardedAcceptance;
  }

  lemma {:induction false} AcceptancesPersist(endpoint: EndpointKind, calls: seq<Call>, n: nat, key: string)
    requires n <= |calls|
    requires key in MemoryAfter(endpoint, calls[..n]).submissionPayloads
    ensures key in MemoryAfter(endpoint, calls).submissionPayloads
    ensures MemoryAfter(endpoint, calls).submissionPayloads[key] == MemoryAfter(endpoint, calls[..n]).submissionPayloads[key]
    ensures key in MemoryAfter(endpoint, calls).submissionRecords
    ensures key in MemoryAfter(endpoint, calls[..n]).submissionRecords
    ensures MemoryAfter(endpoint, calls).submissionRecords[key] == MemoryAfter(endpoint, calls[..n]).submissionRecords[key]
  {
    hide Emits, ReplayFrom, Apply, ChangeOf, Lawful;
    RunsAreSound(endpoint, calls[..n]);
    if n == |calls| {
      assert calls[..n] == calls;
    } else {
      var before, last := calls[..|calls| - 1], calls[|calls| - 1];
      assert calls == before + [last] && before[..n] == calls[..n];
      AcceptancesPersist(endpoint, before, n, key);
      MemoryAfterCall(endpoint, before, last);
      ChangesAreLawful(endpoint, MemoryAfter(endpoint, before), last);
      LawfulKeepsAcceptances(endpoint, MemoryAfter(endpoint, before), ChangeOf(endpoint, MemoryAfter(endpoint, before), last), key);
    }
  }

  /** The call at position `i` of the run had its submission accepted. */
  ghost predicate AcceptedAt(endpoint: EndpointKind, calls: seq<Call>, i: nat)
    requires i < |calls|
  {
    var m, call := MemoryAfter(endpoint, calls[..i]), calls[i];
    && call.Submit? && Admissible(call)
    && SubmissionResultOf(endpoint, m, call.submission, call.recordedAt, call.maxAge, call.sent).status.AcceptedSubmission?
  }

  lemma AdmissibleLimits(call: Call)
    requires call.Submit? && Admissible(call)
    ensures ValidAge(call.maxAge)
  {
    hide ValidIdentifier;
  }

  lemma AcceptedCallStores(endpoint: EndpointKind, m: Memory, call: Call)
    requires call.Submit? && Admissible(call)
    requires SubmissionResultOf(endpoint, m, call.submission, call.recordedAt, call.maxAge, call.sent).status.AcceptedSubmission?
    ensures var next := Effect(endpoint, m, call);
            var key := call.submission.idempotencyKey;
            && key in next.submissionPayloads && next.submissionPayloads[key] == call.submission
            && key in next.submissionRecords && next.submissionRecords[key].acknowledgement == Some(LocalAcknowledgement(key))
  {
    AdmissibleLimits(call);
    AcceptanceIsLawful(endpoint, m, call);
    hide Admissible, SubmissionBlock;
  }

  lemma AcceptanceIsStored(endpoint: EndpointKind, calls: seq<Call>, i: nat, j: nat)
    requires i < j <= |calls| && AcceptedAt(endpoint, calls, i)
    ensures var m := MemoryAfter(endpoint, calls[..j]);
            var key := calls[i].submission.idempotencyKey;
            && key in m.submissionPayloads && m.submissionPayloads[key] == calls[i].submission
            && key in m.submissionRecords
            && m.submissionRecords[key].acknowledgement == Some(LocalAcknowledgement(key))
  {
    hide Admissible, Emits, Effect, SubmissionResultOf, ReplayFrom;
    var before := calls[..i];
    assert calls[..i + 1] == before + [calls[i]];
    MemoryAfterCall(endpoint, before, calls[i]);
    AcceptedCallStores(endpoint, MemoryAfter(endpoint, before), calls[i]);
    assert calls[..j][..i + 1] == calls[..i + 1];
    AcceptancesPersist(endpoint, calls[..j], i + 1, calls[i].submission.idempotencyKey);
  }

  // ---------- what every stored acceptance went through ----------

  /**
    The stored acceptance is the outcome of call `i`, made while connected and not latched, with a
    matching contract no older than that call's own limit, and protected or excepted when buying.
   */
  ghost predicate AcceptedFresh(endpoint: EndpointKind, calls: seq<Call>, i: nat, q: SubmissionRequest, r: SubmissionRecord) {
    && i < |calls| && AcceptedAt(endpoint, calls, i) && calls[i].submission == q
    && var m, call := MemoryAfter(endpoint, calls[..i]), calls[i];
    && m.connection.ConnectedPaper? && !m.requiresReconciliation
    && r == SubmissionResultOf(endpoint, m, q, call.recordedAt, call.maxAge, call.sent) && r.recordedAt == call.recordedAt
    && FitToSend(q, call.recordedAt, call.maxAge)
  }

  lemma AcceptedIsFresh(endpoint: EndpointKind, calls: seq<Call>, i: nat)
    requires i < |calls| && AcceptedAt(endpoint, calls, i)
    ensures var m, call := MemoryAfter(endpoint, calls[..i]), calls[i];
            AcceptedFresh(endpoint, calls, i, call.submission,
                          SubmissionResultOf(endpoint, m, call.submission, call.recordedAt, call.maxAge, call.sent))
  {
    hide Admissible, ReplayFrom, Run, SubmissionResultOf, FitToSend;
    var m, call := MemoryAfter(endpoint, calls[..i]), calls[i];
    SubmissionStatusExactly(endpoint, m, call.submission, call.recordedAt, call.maxAge, call.sent);
    SubmissionRecordRepeatsRequest(endpoint, m, call.submission, call.recordedAt, call.maxAge, call.sent);
  }

  lemma AddedKeyIsOfChange(m: Memory, change: Change, key: string)
    requires key !in m.submissionPayloads && key !in m.submissionRecords
    requires key in Apply(m, change).submissionPayloads
    ensures change.Accept? && Apply(m, change).submissionPayloads[key] == change.request
    ensures key in Apply(m, change).submissionRecords && Apply(m, change).submissionRecords[key] == change.acceptance
  {
  }

  lemma AcceptIsOfSubmission(endpoint: EndpointKind, m: Memory, call: Call)
    requires ChangeOf(endpoint, m, call).Accept?
    ensures call.Submit? && Admissible(call)
    ensures var r := SubmissionResultOf(endpoint, m, call.submission, call.recordedAt, call.maxAge, call.sent);
            r.status.AcceptedSubmission? && ChangeOf(endpoint, m, call) == Accept(call.submission, r)
  {
    hide Admissible, SubmissionResultOf, StatusResultOf, FillResultOf, LookupResultOf, ProbeResultOf;
  }

  /** A key that a call adds is the key of the submission it had accepted. */
  lemma AddedKeyIsAccepted(endpoint: EndpointKind, m: Memory, call: Call, key: string)
    requires key !in m.submissionPayloads && key !in m.submissionRecords
    requires key in Effect(endpoint, m, call).submissionPayloads
    ensures call.Submit? && Admissible(call)
    ensures var r := SubmissionResultOf(endpoint, m, call.submission, call.recordedAt, call.maxAge, call.sent);
            && r.status.AcceptedSubmission?
            && Effect(endpoint, m, call).submissionPayloads[key] == call.submission
            && key in Effect(endpoint, m, call).submissionRecords && Effect(endpoint, m, call).submissionRecords[key] == r
  {
    hide Admissible, SubmissionResultOf, ChangeOf, Apply;
    AddedKeyIsOfChange(m, ChangeOf(endpoint, m, call), key);
    AcceptIsOfSubmission(endpoint, m, call);
  }

  lemma StillAcceptedFresh(endpoint: EndpointKind, before: seq<Call>, last: Call, i: nat, q: SubmissionRequest, r: SubmissionRecord)
    requires AcceptedFresh(endpoint, before, i, q, r)
    ensures AcceptedFresh(endpoint, before + [last], i, q, r)
  {
    hide Admissible, ReplayFrom, Run, SubmissionResultOf;
    var calls := before + [last];
    assert calls[..i] == before[..i] && calls[i] == before[i];
  }

  /** In every run, every stored acceptance was made by some call that passed every check under its own limits. */
  lemma {:induction false} AcceptancesWereFresh(endpoint: EndpointKind, calls: seq<Call>, key: string)
    requires key in MemoryAfter(endpoint, calls).submissionPayloads
    ensures var m := MemoryAfter(endpoint, calls);
            key in m.submissionRecords
            && exists i :: AcceptedFresh(endpoint, calls, i, m.submissionPayloads[key], m.submissionRecords[key])
  {
    hide AcceptedFresh, Effect, ReplayFrom, Emits, SubmissionResultOf, Sound;
    assert calls != [] by { NothingStored(endpoint, calls); }
    var before, last := calls[..|calls| - 1], calls[|calls| - 1];
    var m := MemoryAfter(endpoint, before);
    assert calls == before + [last] && calls[..|before|] == before;
    MemoryAfterCall(endpoint, before, last);
    KeysAgree(endpoint, before);
    if key in m.submissionPayloads {
      AcceptancesWereFresh(endpoint, before, key);
      var i :| AcceptedFresh(endpoint, before, i, m.submissionPayloads[key], m.submissionRecords[key]);
      AcceptancesPersist(endpoint, calls, |before|, key);
      StillAcceptedFresh(endpoint, before, last, i, m.submissionPayloads[key], m.submissionRecords[key]);
    } else {
      AddedKeyIsAccepted(endpoint, m, last, key);
      AcceptedIsFresh(endpoint, calls, |before|);
    }
  }

  /** In every run each stored acceptance is its request's, of a dollar stock, and a purchase among them names its protection. */
  lemma StoredAcceptancesAreFit(endpoint: EndpointKind, calls: seq<Call>, key: string)
    requires key in MemoryAfter(endpoint, calls).submissionPayloads
    ensures key in MemoryAfter(endpoint, calls).submissionRecords
    ensures var q := MemoryAfter(endpoint, calls).submissionPayloads[key];
            var r := MemoryAfter(endpoint, calls).submissionRecords[key];
            && q.idempotencyKey == r.idempotencyKey == key
            && (q.plan.side == Buy ==> q.protectiveReference.Some? || q.exceptionReference.Some?)
            && q.contract.symbol == q.plan.symbol && q.contract.securityType == Stock && q.contract.currency == "USD"
            && 0 <= r.recordedAt.instant - q.contract.resolvedAt.instant <= 86400 * 1000000
            && r.status == AcceptedSubmission && r.acknowledgement == Some("paper-ack-" + key)
            && r.side == q.plan.side && r.symbol == q.plan.symbol && r.quantity == q.plan.quantity
            && r.clientOrderId == q.plan.clientOrderId && r.contractId == q.contract.contractId
            && r.protectiveReference == q.protectiveReference && r.exceptionReference == q.exceptionReference
  {
    RunsAreSound(endpoint, calls);
    hide MemoryAfter, CallbacksSound;
  }

  lemma NothingStored(endpoint: EndpointKind, calls: seq<Call>)
    ensures calls == [] ==> MemoryAfter(endpoint, calls).submissionPayloads == map[]
  {
  }

  lemma KeysAgree(endpoint: EndpointKind, calls: seq<Call>)
    ensures MemoryAfter(endpoint, calls).submissionPayloads.Keys == MemoryAfter(endpoint, calls).submissionRecords.Keys
  {
    hide MemoryAfter, CallbacksSound;
    RunsAreSound(endpoint, calls);
  }

  /** Nothing is sent; the accepted request is acknowledged again, any other under its key conflicts. */
  ghost predicate AnsweredAsRepeat(endpoint: EndpointKind, m: Memory, call: Call, accepted: SubmissionRequest)
    requires call.Submit?
  {
    var result := SubmissionResultOf(endpoint, m, call.submission, call.recordedAt, call.maxAge, call.sent);
    && Sends(m, call) == []
    && Emits(endpoint, m, call) == [SubmissionAttempted(call.submission, endpoint), SubmissionRecorded(result)]
    && if call.submission == accepted
       then result.status == DuplicateSubmission && result.acknowledgement == Some(LocalAcknowledgement(accepted.idempotencyKey))
       else result.status == DuplicateConflictBlocked && result.acknowledgement == None
  }

  /**
    Once a key has been accepted, every later request under that key, in whatever connection state,
    is answered without the connector: the identical request gets the original acknowledgement back,
    any other request is a conflict.
   */
  lemma LaterRequestsAreAnswered(endpoint: EndpointKind, calls: seq<Call>, i: nat, j: nat)
    requires i < j < |calls| && AcceptedAt(endpoint, calls, i)
    ensures calls[j].Submit? && Admissible(calls[j])
            && calls[j].submission.idempotencyKey == calls[i].submission.idempotencyKey
            ==> AnsweredAsRepeat(endpoint, MemoryAfter(endpoint, calls[..j]), calls[j], calls[i].submission)
  {
    hide ValidIdentifier, ValidSymbol, ValidCurrency;
    AcceptanceIsStored(endpoint, calls, i, j);
  }

  ghost predicate SuccessesStored(log: seq<(SubmissionRequest, CallResult<()>)>, m: Memory) {
    forall i :: 0 <= i < |log| && log[i].1.Returned? ==>
                  log[i].0.idempotencyKey in m.submissionPayloads && m.submissionPayloads[log[i].0.idempotencyKey] == log[i].0
  }

  /** Over a whole run, a success is the last thing ever sent under its key. */
  ghost predicate NothingSentAfterSuccess(log: seq<(SubmissionRequest, CallResult<()>)>) {
    forall i, j :: 0 <= i < j < |log| && log[i].0.idempotencyKey == log[j].0.idempotencyKey ==> log[i].1.Raised?
  }

  lemma EmptyLog(m: Memory)
    ensures NothingSentAfterSuccess([]) && SuccessesStored([], m)
  {
  }

  lemma SendsAreUnaccepted(endpoint: EndpointKind, m: Memory, call: Call)
    requires Sends(m, call) != []
    ensures call.Submit? && call.submission.idempotencyKey !in m.submissionPayloads
    ensures call.sent.Returned? ==>
              && call.submission.idempotencyKey in Effect(endpoint, m, call).submissionPayloads
              && Effect(endpoint, m, call).submissionPayloads[call.submission.idempotencyKey] == call.submission
  {
    hide Admissible;
    AcceptanceIsLawful(endpoint, m, call) by { AdmissibleLimits(call); }
  }

  lemma SendKeepsLog(endpoint: EndpointKind, log: seq<(SubmissionRequest, CallResult<()>)>, m: Memory, call: Call)
    requires Sound(endpoint, m) && NothingSentAfterSuccess(log) && SuccessesStored(log, m)
    ensures var next := log + if Sends(m, call) == [] then [] else [(call.submission, call.sent)];
            NothingSentAfterSuccess(next) && SuccessesStored(next, Effect(endpoint, m, call))
  {
    ChangesAreLawful(endpoint, m, call);
    hide GuardedAcceptance, CallbacksSound, Lawful, Apply, ChangeOf, Sends;
    forall i | 0 <= i < |log| && log[i].1.Returned?
      ensures var key := log[i].0.idempotencyKey;
              key in Effect(endpoint, m, call).submissionPayloads
              && Effect(endpoint, m, call).submissionPayloads[key] == log[i].0
    {
      LawfulKeepsAcceptances(endpoint, m, ChangeOf(endpoint, m, call), log[i].0.idempotencyKey);
    }
    if Sends(m, call) != [] {
      SendsAreUnaccepted(endpoint, m, call);
    }
  }

  lemma {:induction false} AtMostOneSuccessPerKey(endpoint: EndpointKind, calls: seq<Call>)
    ensures NothingSentAfterSuccess(SendLog(endpoint, calls))
    ensures SuccessesStored(SendLog(endpoint, calls), MemoryAfter(endpoint, calls))
  {
    hide Effect, Emits, Sends, ReplayFrom, NothingSentAfterSuccess, SuccessesStored;
    if calls == [] {
      assert NothingSentAfterSuccess([]) && SuccessesStored([], MemoryAfter(endpoint, [])) by { EmptyLog(MemoryAfter(endpoint, [])); }
    } else {
      var before, last := calls[..|calls| - 1], calls[|calls| - 1];
      assert calls == before + [last];
      AtMostOneSuccessPerKey(endpoint, before);
      RunsAreSound(endpoint, before);
      MemoryAfterCall(endpoint, before, last);
      SendKeepsLog(endpoint, SendLog(endpoint, before), MemoryAfter(endpoint, before), last);
    }
  }

  // ---------- fill progress ----------

  /** The accepted fills of one order, in the order the journal records them. */
  function AcceptedFills(events: seq<Event>, clientOrderId: string): seq<FillRecord> {
    if events == [] then [] else
    AcceptedFills(events[..|events| - 1], clientOrderId) + FillsIn(events[|events| - 1], clientOrderId)
  }

  function FillsIn(e: Event, clientOrderId: string): seq<FillRecord> {
    if e.FillRecorded? && e.fillRecord.status.AcceptedUpdate? && e.fillRecord.head.clientOrderId == clientOrderId
    then [e.fillRecord] else []
  }

  lemma {:induction false} AcceptedFillsConcat(first: seq<Event>, second: seq<Event>, clientOrderId: string)
    ensures AcceptedFills(first + second, clientOrderId)
         == AcceptedFills(first, clientOrderId) + AcceptedFills(second, clientOrderId)
  {
    if second == [] {
      assert first + second == first;
    } else {
      var front, last := second[..|second| - 1], second[|second| - 1];
      assert first + second == (first + front) + [last] && second == front + [last];
      AcceptedFillsConcat(first, front, clientOrderId);
      hide AcceptedFills, FillsIn;
      AcceptedFillsStep(first + front, last, clientOrderId);
      AcceptedFillsStep(front, last, clientOrderId);
    }
  }

  lemma FillsOfAnswer(m: Memory, attempt: Event, result: Event, required: bool, at: Timestamp, reason: Reason, clientOrderId: string)
    requires !attempt.FillRecorded?
    ensures AcceptedFills([attempt, result] + Escalation(m, required, at, reason), clientOrderId) == FillsIn(result, clientOrderId)
  {
    AcceptedFillsStep([], attempt, clientOrderId);
    AcceptedFillsStep([attempt], result, clientOrderId);
    assert [] + [attempt] == [attempt] && [attempt] + [result] == [attempt, result];
    var tail := Escalation(m, required, at, reason);
    AcceptedFillsConcat([attempt, result], tail, clientOrderId);
    if tail != [] {
      AcceptedFillsStep([], tail[0], clientOrderId);
      assert [] + [tail[0]] == tail;
    }
  }

  lemma FillsOfReport(endpoint: EndpointKind, m: Memory, call: Call, clientOrderId: string)
    requires call.ReportFill?
    ensures AcceptedFills(Emits(endpoint, m, call), clientOrderId) == FillOfChange(ChangeOf(endpoint, m, call), clientOrderId)
  {
    hide CallbackBlock, FillTarget, Admissible;
    var result := FillResultOf(endpoint, m, call.fill, call.about, call.recordedAt, call.maxAge);
    FillsOfAnswer(m, FillReceived(call.fill, endpoint), FillRecorded(result), result.requiresReconciliation, call.recordedAt,
                  AfterFill(result.status), clientOrderId);
  }

  /** A call journals an accepted fill exactly when that is the change it makes. */
  lemma FillsOfCall(endpoint: EndpointKind, m: Memory, call: Call, clientOrderId: string)
    ensures AcceptedFills(Emits(endpoint, m, call), clientOrderId) == FillOfChange(ChangeOf(endpoint, m, call), clientOrderId)
  {
    hide Admissible, SubmissionResultOf, StatusResultOf, FillResultOf, LookupResultOf, ProbeResultOf, AcceptedFills;
    assert AcceptedFills([], clientOrderId) == [] by { NoAcceptedFills(clientOrderId); }
    match call
    case ReportFill(_, _, _, _) =>
      FillsOfReport(endpoint, m, call, clientOrderId);
    case ReportStatus(c, about, at, maxAge) =>
      var result := StatusResultOf(endpoint, m, c, about, at, maxAge);
      FillsOfAnswer(m, StatusReceived(c, endpoint), StatusRecorded(result), result.requiresReconciliation, at,
                    AfterStatus(result.status), clientOrderId);
    case Submit(q, at, _, maxAge, sent) =>
      var result := SubmissionResultOf(endpoint, m, q, at, maxAge, sent);
      FillsOfAnswer(m, SubmissionAttempted(q, endpoint), SubmissionRecorded(result), result.requiresReconciliation, at,
                    AfterSubmission(result.status), clientOrderId);
    case Lookup(q, at, _, maxAge, found) =>
      var result := LookupResultOf(endpoint, m, q, at, maxAge, found);
      FillsOfAnswer(m, LookupAttempted(q, endpoint), LookupRecorded(result), result.requiresReconciliation, at,
                    AfterLookup(result.status), clientOrderId);
    case Probe(probeId, at, reason, _, reached) =>
      var events := Emits(endpoint, m, call);
      if events != [] {
        AcceptedFillsStep([], events[0], clientOrderId);
        AcceptedFillsStep([events[0]], events[1], clientOrderId);
        assert [] + [events[0]] == [events[0]] && [events[0]] + [events[1]] == events;
      }
    case _ =>
      var events := Emits(endpoint, m, call);
      if events != [] {
        AcceptedFillsStep([], events[0], clientOrderId);
        assert [] + [events[0]] == events;
      }
  }

  lemma NoAcceptedFills(clientOrderId: string)
    ensures AcceptedFills([], clientOrderId) == []
  {
  }

  lemma AcceptedFillsStep(events: seq<Event>, e: Event, clientOrderId: string)
    ensures AcceptedFills(events + [e], clientOrderId) == AcceptedFills(events, clientOrderId) + FillsIn(e, clientOrderId)
  {
    assert (events + [e])[..|events|] == events;
  }

  /** Successive accepted fills: cumulative strictly grows, observation times never step back. */
  ghost predicate Progresses(fills: seq<FillRecord>) {
    && (forall i :: 0 <= i < |fills| ==> 0 < fills[i].fillQuantity <= fills[i].cumulative && fills[i].leaves >= 0)
    && (forall i :: 0 <= i < |fills| ==> fills[i].target == Some(if fills[i].leaves == 0 then Filled else PartiallyFilled))
    && (forall i, j :: 0 <= i < j < |fills| ==> fills[i].cumulative < fills[j].cumulative)
    && (forall i, j :: 0 <= i < j < |fills| ==> fills[i].head.observedAt.instant <= fills[j].head.observedAt.instant)
  }

  ghost predicate CoveredBy(fills: seq<FillRecord>, m: Memory, clientOrderId: string) {
    forall i :: 0 <= i < |fills| ==>
                  && clientOrderId in m.cumulative && fills[i].cumulative <= m.cumulative[clientOrderId]
                  && clientOrderId in m.observedAt && fills[i].head.observedAt.instant <= m.observedAt[clientOrderId]
  }

  /** No change loses an order's progress or moves it back. */
  lemma ProgressNeverRetreats(endpoint: EndpointKind, m: Memory, change: Change, clientOrderId: string)
    requires CallbacksSound(m) && Lawful(endpoint, m, change)
    requires clientOrderId in m.cumulative
    ensures var next := Apply(m, change);
            && clientOrderId in next.cumulative && m.cumulative[clientOrderId] <= next.cumulative[clientOrderId]
            && clientOrderId in next.observedAt && m.observedAt[clientOrderId] <= next.observedAt[clientOrderId]
  {
    hide GuardedAcceptance;
  }

  /** The accepted fill a change journals, if it is one of the given order. */
  function FillOfChange(change: Change, clientOrderId: string): seq<FillRecord> {
    if change.Fill? && change.fill.head.clientOrderId == clientOrderId then [change.filled] else []
  }

  lemma CoveredIsKnown(fills: seq<FillRecord>, m: Memory, clientOrderId: string)
    requires CoveredBy(fills, m, clientOrderId) && fills != []
    ensures clientOrderId in m.cumulative && clientOrderId in m.observedAt
  {
    var first := fills[0];
  }

  lemma StillCovered(fills: seq<FillRecord>, m: Memory, next: Memory, clientOrderId: string)
    requires CoveredBy(fills, m, clientOrderId) && clientOrderId in m.cumulative && clientOrderId in m.observedAt
    requires clientOrderId in next.cumulative && m.cumulative[clientOrderId] <= next.cumulative[clientOrderId]
    requires clientOrderId in next.observedAt && m.observedAt[clientOrderId] <= next.observedAt[clientOrderId]
    ensures CoveredBy(fills, next, clientOrderId)
  {
  }

  lemma OneMoreFill(m: Memory, c: FillCallback, r: FillRecord, fills: seq<FillRecord>)
    requires InOrder(m, c.head) && CumulativeSoFar(m, c.head.clientOrderId) < c.cumulative
    requires r.head == c.head && r.cumulative == c.cumulative && SoundFill(r)
    requires Progresses(fills) && CoveredBy(fills, m, c.head.clientOrderId)
    requires CoveredBy(fills, Apply(m, Fill(c, r)), c.head.clientOrderId)
    ensures Progresses(fills + [r]) && CoveredBy(fills + [r], Apply(m, Fill(c, r)), c.head.clientOrderId)
  {
    var next := Apply(m, Fill(c, r));
    var id := c.head.clientOrderId;
    assert id in next.cumulative && next.cumulative[id] >= c.cumulative && id in next.observedAt
           && next.observedAt[id] == c.head.observedAt.instant;
    hide Apply;
    assert forall i :: 0 <= i < |fills| ==> fills[i].cumulative < r.cumulative
                                            && fills[i].head.observedAt.instant <= r.head.observedAt.instant;
  }

  lemma ChangeCoversFills(endpoint: EndpointKind, m: Memory, change: Change, clientOrderId: string, fills: seq<FillRecord>)
    requires CallbacksSound(m) && Lawful(endpoint, m, change)
    requires Progresses(fills) && CoveredBy(fills, m, clientOrderId)
    ensures var next := fills + FillOfChange(change, clientOrderId);
            Progresses(next) && CoveredBy(next, Apply(m, change), clientOrderId)
  {
    hide GuardedAcceptance, Apply, Progresses, CoveredBy;
    if fills != [] {
      assert clientOrderId in m.cumulative by { CoveredIsKnown(fills, m, clientOrderId); }
      ProgressNeverRetreats(endpoint, m, change, clientOrderId);
      StillCovered(fills, m, Apply(m, change), clientOrderId);
    } else {
      NoFills(Apply(m, change), clientOrderId);
    }
    if change.Fill? && change.fill.head.clientOrderId == clientOrderId {
      OneMoreFill(m, change.fill, change.filled, fills);
    } else {
      assert fills + [] == fills;
    }
  }

  lemma NoFills(m: Memory, clientOrderId: string)
    ensures Progresses([]) && CoveredBy([], m, clientOrderId)
  {
  }

  /** Fill progress over a whole run, with any other calls and callbacks in between. */
  lemma {:induction false} FillsProgress(endpoint: EndpointKind, calls: seq<Call>, clientOrderId: string)
    ensures Progresses(AcceptedFills(Run(endpoint, calls), clientOrderId))
    ensures CoveredBy(AcceptedFills(Run(endpoint, calls), clientOrderId), MemoryAfter(endpoint, calls), clientOrderId)
  {
    hide Emits, ReplayFrom, Apply, ChangeOf, Lawful, Progresses, CoveredBy, FillOfChange;
    if calls == [] {
      assert Progresses([]) && CoveredBy([], MemoryAfter(endpoint, calls), clientOrderId) by {
        NoFills(MemoryAfter(endpoint, calls), clientOrderId);
      }
    } else {
      var before, last := calls[..|calls| - 1], calls[|calls| - 1];
      assert calls == before + [last];
      FillsProgress(endpoint, before, clientOrderId);
      RunsAreSound(endpoint, before);
      MemoryAfterCall(endpoint, before, last);
      var m := MemoryAfter(endpoint, before);
      AcceptedFillsConcat(Run(endpoint, before), Emits(endpoint, m, last), clientOrderId);
      FillsOfCall(endpoint, m, last, clientOrderId);
      ChangesAreLawful(endpoint, m, last);
      ChangeCoversFills(endpoint, m, ChangeOf(endpoint, m, last), clientOrderId, AcceptedFills(Run(endpoint, before), clientOrderId));
    }
  }

  /** The i-th call reports a fill of the order, and the adapter accepts it. */
  ghost predicate FillAcceptedAt(endpoint: EndpointKind, calls: seq<Call>, i: nat, clientOrderId: string)
    requires i < |calls|
  {
    && calls[i].ReportFill?
    && FillOfChange(ChangeOf(endpoint, MemoryAfter(endpoint, calls[..i]), calls[i]), clientOrderId) != []
  }

  /** Every accepted fill of the order was reported against an order of this quantity. */
  ghost predicate FillsOfQuantity(endpoint: EndpointKind, calls: seq<Call>, clientOrderId: string, quantity: int) {
    forall i :: 0 <= i < |calls| && FillAcceptedAt(endpoint, calls, i, clientOrderId) ==> calls[i].about.quantity == quantity
  }

  lemma EarlierFillsOfQuantity(endpoint: EndpointKind, calls: seq<Call>, clientOrderId: string, quantity: int)
    requires calls != [] && FillsOfQuantity(endpoint, calls, clientOrderId, quantity)
    ensures FillsOfQuantity(endpoint, calls[..|calls| - 1], clientOrderId, quantity)
  {
    hide FillOfChange, ChangeOf, MemoryAfter;
    var before := calls[..|calls| - 1];
    forall i | 0 <= i < |before| && FillAcceptedAt(endpoint, before, i, clientOrderId)
      ensures before[i].about.quantity == quantity
    {
      assert before[..i] == calls[..i];
      assert FillAcceptedAt(endpoint, calls, i, clientOrderId);
    }
  }

  lemma LastFillOfQuantity(endpoint: EndpointKind, before: seq<Call>, last: Call, clientOrderId: string, quantity: int)
    requires FillsOfQuantity(endpoint, before + [last], clientOrderId, quantity)
    ensures last.ReportFill? && FillOfChange(ChangeOf(endpoint, MemoryAfter(endpoint, before), last), clientOrderId) != []
            ==> last.about.quantity == quantity
  {
    hide FillOfChange, ChangeOf, MemoryAfter;
    var calls := before + [last];
    assert calls[|before|] == last && calls[..|before|] == before;
    if last.ReportFill? && FillOfChange(ChangeOf(endpoint, MemoryAfter(endpoint, before), last), clientOrderId) != [] {
      assert FillAcceptedAt(endpoint, calls, |before|, clientOrderId);
    }
  }

  lemma FillLeavesRemainder(endpoint: EndpointKind, m: Memory, call: Call, clientOrderId: string, quantity: int)
    requires call.ReportFill? && FillOfChange(ChangeOf(endpoint, m, call), clientOrderId) != [] ==> call.about.quantity == quantity
    ensures forall fill :: fill in FillOfChange(ChangeOf(endpoint, m, call), clientOrderId) ==> fill.cumulative + fill.leaves == quantity
  {
    hide Admissible, SubmissionResultOf, StatusResultOf, LookupResultOf, FillResultOf;
    if call.ReportFill? {
      FillIsLawful(endpoint, m, call);
    }
  }

  lemma {:induction false} LeavesComplementCumulative(endpoint: EndpointKind, calls: seq<Call>, clientOrderId: string, quantity: int)
    requires FillsOfQuantity(endpoint, calls, clientOrderId, quantity)
    ensures forall i :: 0 <= i < |AcceptedFills(Run(endpoint, calls), clientOrderId)| ==>
                          var fill := AcceptedFills(Run(endpoint, calls), clientOrderId)[i];
                          fill.cumulative + fill.leaves == quantity
  {
    hide Emits, ReplayFrom, ChangeOf, FillOfChange, FillsOfQuantity;
    if calls != [] {
      var before, last := calls[..|calls| - 1], calls[|calls| - 1];
      assert calls == before + [last];
      EarlierFillsOfQuantity(endpoint, calls, clientOrderId, quantity);
      LeavesComplementCumulative(endpoint, before, clientOrderId, quantity);
      LastFillOfQuantity(endpoint, before, last, clientOrderId, quantity);
      MemoryAfterCall(endpoint, before, last);
      var m := MemoryAfter(endpoint, before);
      AcceptedFillsConcat(Run(endpoint, before), Emits(endpoint, m, last), clientOrderId);
      FillsOfCall(endpoint, m, last, clientOrderId);
      FillLeavesRemainder(endpoint, m, last, clientOrderId, quantity);
    }
  }

  lemma {:induction false} IncreasingFillsAreFew(fills: seq<FillRecord>, quantity: int)
    requires Progresses(fills)
    requires forall i :: 0 <= i < |fills| ==> fills[i].cumulative + fills[i].leaves == quantity
    ensures fills != [] ==> |fills| <= fills[|fills| - 1].cumulative <= quantity
  {
    if |fills| > 1 {
      IncreasingFillsAreFew(fills[..|fills| - 1], quantity);
    }
  }

  /**
    For one order, with status callbacks and other traffic interleaved at will: at most `quantity`
    fills are ever accepted, cumulative and leaves always add up to the quantity, and FILLED can only
    be the last accepted fill.
   */
  lemma FillsAreBounded(endpoint: EndpointKind, calls: seq<Call>, clientOrderId: string, quantity: nat)
    requires FillsOfQuantity(endpoint, calls, clientOrderId, quantity)
    ensures var fills := AcceptedFills(Run(endpoint, calls), clientOrderId);
            && |fills| <= quantity
            && (forall i :: 0 <= i < |fills| ==> fills[i].cumulative + fills[i].leaves == quantity)
            && (forall i :: 0 <= i < |fills| && fills[i].target == Some(Filled) ==> i == |fills| - 1)
  {
    var fills := AcceptedFills(Run(endpoint, calls), clientOrderId);
    FillsProgress(endpoint, calls, clientOrderId);
    LeavesComplementCumulative(endpoint, calls, clientOrderId, quantity);
    IncreasingFillsAreFew(fills, quantity);
    if fills != [] {
      var last := fills[|fills| - 1];
      assert forall i :: 0 <= i < |fills| - 1 ==> fills[i].cumulative < last.cumulative;
    }
  }

  // ---------- builders and validators ----------

  predicate ValidEvent(e: Event) {
    match e
    case ConnectionRecorded(r) => r.Valid()
    case ProbeRecorded(r) => r.Valid()
    case LookupAttempted(q, _) => q.Valid()
    case LookupRecorded(r) => r.Valid()
    case PlanCreated(p) => p.Valid()
    case SubmissionAttempted(q, _) => q.Valid()
    case SubmissionRecorded(r) => r.Valid()
    case StatusReceived(c, _) => c.Valid()
    case StatusRecorded(r) => r.Valid()
    case FillReceived(c, _) => c.Valid()
    case FillRecorded(r) => r.Valid()
  }

  /** The outcome fields of a submission record agree with its status. */
  predicate SubmissionOutcomeFits(status: SubmissionStatus, failure: Option<FailureCategory>, acknowledgement: Option<string>) {
    && (acknowledgement.Some? <==> status in {AcceptedSubmission, DuplicateSubmission})
    && match status
       case AcceptedSubmission => failure.None?
       case DuplicateSubmission => failure.None?
       case SubmissionDisconnected => failure == Some(NoConnection)
       case SubmissionReconciliationRequired => failure == Some(ReconciliationRequired)
       case StaleContractBlocked => failure == Some(StaleContract)
       case ContractMismatchBlocked => failure == Some(ContractMismatch)
       case MissingProtectionBlocked => failure == Some(MissingProtection)
       case DuplicateConflictBlocked => failure == Some(DuplicateConflict)
       case SubmissionUnknown => failure in UNKNOWN_OUTCOME_FAILURES
  }

  lemma BuiltSubmissionIsValid(q: SubmissionRequest, at: Timestamp, endpoint: EndpointKind, status: SubmissionStatus,
                               failure: Option<FailureCategory>, acknowledgement: Option<string>)
    requires q.Valid() && SubmissionOutcomeFits(status, failure, acknowledgement) && ValidOptional(acknowledgement)
    ensures BuildSubmissionRecord(q, at, endpoint, status, failure, acknowledgement).Valid()
  {
    hide ValidIdentifier, ValidSymbol, ValidCurrency;
  }

  lemma SubmissionKeyIsValid(q: SubmissionRequest)
    requires q.Valid()
    ensures ValidIdentifier(q.idempotencyKey)
  {
    hide ValidIdentifier, ValidSymbol;
  }

  lemma SubmissionResultIsBuilt(endpoint: EndpointKind, m: Memory, q: SubmissionRequest, at: Timestamp, maxAge: real, sent: CallResult<()>)
    ensures var r := SubmissionResultOf(endpoint, m, q, at, maxAge, sent);
            r == BuildSubmissionRecord(q, at, endpoint, r.status, r.failure, r.acknowledgement)
  {
    hide BuildSubmissionRecord, SubmissionBlock;
  }

  lemma SubmissionOutcomeIsFitting(endpoint: EndpointKind, m: Memory, q: SubmissionRequest, at: Timestamp, maxAge: real, sent: CallResult<()>)
    requires SubmissionsSound(endpoint, m)
    ensures var r := SubmissionResultOf(endpoint, m, q, at, maxAge, sent);
            && r == BuildSubmissionRecord(q, at, endpoint, r.status, r.failure, r.acknowledgement)
            && SubmissionOutcomeFits(r.status, r.failure, r.acknowledgement)
            && (r.acknowledgement.Some? ==> r.acknowledgement.value == LocalAcknowledgement(q.idempotencyKey))
  {
    hide SubmissionResultOf, BuildSubmissionRecord, FitToSend, Open, SameInstrument, Protected, Recent;
    SubmissionResultIsBuilt(endpoint, m, q, at, maxAge, sent);
    SubmissionStatusExactly(endpoint, m, q, at, maxAge, sent);
    SubmissionRecordTells(endpoint, m, q, at, maxAge, sent);
  }

  lemma SubmissionResultIsValid(endpoint: EndpointKind, m: Memory, q: SubmissionRequest, at: Timestamp, maxAge: real, sent: CallResult<()>)
    requires Sound(endpoint, m) && q.Valid()
    ensures SubmissionResultOf(endpoint, m, q, at, maxAge, sent).Valid()
  {
    hide ValidIdentifier, ValidSymbol, SubmissionResultOf, SubmissionsSound, CallbacksSound, BuildSubmissionRecord, SubmissionOutcomeFits;
    SubmissionKeyIsValid(q);
    AcknowledgementIsValidIdentifier(q.idempotencyKey);
    SubmissionOutcomeIsFitting(endpoint, m, q, at, maxAge, sent);
    var r := SubmissionResultOf(endpoint, m, q, at, maxAge, sent);
    BuiltSubmissionIsValid(q, at, endpoint, r.status, r.failure, r.acknowledgement);
  }

  lemma StatusResultIsValid(endpoint: EndpointKind, m: Memory, c: StatusCallback, about: SubmissionRecord, at: Timestamp, maxAge: real)
    requires Sound(endpoint, m) && c.Valid() && about.Valid()
    ensures StatusResultOf(endpoint, m, c, about, at, maxAge).Valid()
  {
    hide ValidIdentifier, ValidSymbol, ValidCurrency;
  }

  lemma FillResultIsValid(endpoint: EndpointKind, m: Memory, c: FillCallback, about: SubmissionRecord, at: Timestamp, maxAge: real)
    requires Sound(endpoint, m) && c.Valid() && about.Valid()
    ensures FillResultOf(endpoint, m, c, about, at, maxAge).Valid()
  {
    hide ValidIdentifier, ValidSymbol, ValidCurrency;
  }

  /** An attempt and its result, with the connection record the result may force. */
  lemma AnswerIsValid(m: Memory, attempt: Event, result: Event, required: bool, at: Timestamp, reason: Reason)
    requires !reason.Given?
    ensures ValidEvent(attempt) && ValidEvent(result) ==>
              forall e :: e in [attempt, result] + Escalation(m, required, at, reason) ==> ValidEvent(e)
  {
    hide ValidIdentifier, ReasonText;
    DerivedReasonIsValid(reason);
  }

  lemma AttemptIsValid(endpoint: EndpointKind, m: Memory, call: Call)
    requires Admissible(call)
    ensures call.Submit? ==> call.submission.Valid() && ValidEvent(SubmissionAttempted(call.submission, endpoint))
    ensures call.ReportStatus? ==> call.status.Valid() && call.about.Valid() && ValidEvent(StatusReceived(call.status, endpoint))
    ensures call.ReportFill? ==> call.fill.Valid() && call.about.Valid() && ValidEvent(FillReceived(call.fill, endpoint))
    ensures call.Lookup? ==> ValidEvent(LookupAttempted(call.lookup, endpoint))
    ensures forall r: SubmissionRecord :: r.Valid() ==> ValidEvent(SubmissionRecorded(r))
    ensures forall r: StatusRecord :: r.Valid() ==> ValidEvent(StatusRecorded(r))
    ensures forall r: FillRecord :: r.Valid() ==> ValidEvent(FillRecorded(r))
  {
    hide ValidIdentifier, ValidSymbol, ValidCurrency;
  }

  lemma LookupResultIsValid(endpoint: EndpointKind, m: Memory, call: Call)
    requires call.Lookup? && Admissible(call)
    ensures ValidEvent(LookupRecorded(LookupResultOf(endpoint, m, call.lookup, call.recordedAt, call.maxAge, call.found)))
  {
    hide ValidIdentifier, ValidSymbol, ValidCurrency;
  }

  lemma PlainEventsAreValid(endpoint: EndpointKind, m: Memory, call: Call)
    requires Admissible(call) && (call.RecordConnection? || call.Probe? || call.CreatePlan?)
    ensures forall e :: e in Emits(endpoint, m, call) ==> ValidEvent(e)
  {
    hide ValidIdentifier, ValidSymbol, ReasonText;
    forall text { GivenTextIsKept(text); }
    forall s: ProbeStatus { DerivedReasonIsValid(AfterProbe(s)); }
  }

  /**
    Builders and validators agree: from any memory a run can reach, every record a call builds passes
    the check of its own constructor, so nothing raises between an attempt and its result.
   */
  lemma EveryRecordIsValid(endpoint: EndpointKind, calls: seq<Call>, call: Call)
    ensures forall e :: e in Emits(endpoint, MemoryAfter(endpoint, calls), call) ==> ValidEvent(e)
  {
    hide MemoryAfter, Sound, SubmissionResultOf, StatusResultOf, FillResultOf, LookupResultOf, Escalation, ValidEvent, Admissible;
    var m := MemoryAfter(endpoint, calls);
    RunsAreSound(endpoint, calls);
    if Admissible(call) {
      AttemptIsValid(endpoint, m, call);
      match call
      case Submit(q, at, _, maxAge, sent) =>
        var r := SubmissionResultOf(endpoint, m, q, at, maxAge, sent);
        SubmissionResultIsValid(endpoint, m, q, at, maxAge, sent);
        AnswerIsValid(m, SubmissionAttempted(q, endpoint), SubmissionRecorded(r), r.requiresReconciliation, at, AfterSubmission(r.status));
      case ReportStatus(c, about, at, maxAge) =>
        var r := StatusResultOf(endpoint, m, c, about, at, maxAge);
        StatusResultIsValid(endpoint, m, c, about, at, maxAge);
        AnswerIsValid(m, StatusReceived(c, endpoint), StatusRecorded(r), r.requiresReconciliation, at, AfterStatus(r.status));
      case ReportFill(c, about, at, maxAge) =>
        var r := FillResultOf(endpoint, m, c, about, at, maxAge);
        FillResultIsValid(endpoint, m, c, about, at, maxAge);
        AnswerIsValid(m, FillReceived(c, endpoint), FillRecorded(r), r.requiresReconciliation, at, AfterFill(r.status));
      case Lookup(q, at, _, maxAge, found) =>
        var r := LookupResultOf(endpoint, m, q, at, maxAge, found);
        LookupResultIsValid(endpoint, m, call);
        AnswerIsValid(m, LookupAttempted(q, endpoint), LookupRecorded(r), r.requiresReconciliation, at, AfterLookup(r.status));
      case _ => PlainEventsAreValid(endpoint, m, call);
    }
  }
}
