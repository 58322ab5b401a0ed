/** The write-ahead shape of the adapter's journal: every attempt is answered at once. */
module PaperPairing {
  import opened PaperRecords
  import opened PaperProtocol
  import opened PaperRuns

  /** Events that announce work before it is decided. */
  predicate IsAttempt(e: Event) {
    e.LookupAttempted? || e.SubmissionAttempted? || e.StatusReceived? || e.FillReceived?
  }

  predicate IsAnswer(e: Event) {
    e.LookupRecorded? || e.SubmissionRecorded? || e.StatusRecorded? || e.FillRecorded?
  }

  /** The answer is about exactly the announced work. */
  predicate Answers(attempt: Event, answer: Event) {
    match attempt
    case LookupAttempted(q, endpoint) =>
      && answer.LookupRecorded?
      && var r := answer.lookupResult; r == BuildLookupResult(q, r.recordedAt, endpoint, r.status, r.failure, r.contract)
    case SubmissionAttempted(q, endpoint) =>
      && answer.SubmissionRecorded?
      && var r := answer.submissionRecord;
         r == BuildSubmissionRecord(q, r.recordedAt, endpoint, r.status, r.failure, r.acknowledgement)
    case StatusReceived(c, endpoint) =>
      && answer.StatusRecorded?
      && var r := answer.statusRecord;
         r.head == c.head && r.paperStatus == c.paperStatus && r.cumulative == c.cumulative && r.endpoint == endpoint
    case FillReceived(c, endpoint) =>
      && answer.FillRecorded?
      && var r := answer.fillRecord;
         && r.head == c.head && r.fillQuantity == c.fillQuantity && r.cumulative == c.cumulative
         && r.fillPrice == c.fillPrice && r.endpoint == endpoint
    case _ => false
  }

  /** The connection record an answer forces when it needs reconciliation. */
  function ForcedBy(answer: Event): Event
    requires IsAnswer(answer)
  {
    match answer
    case LookupRecorded(r) => ConnectionRecorded(ConnectionRecord(UnknownState, r.recordedAt, AfterLookup(r.status), true))
    case SubmissionRecorded(r) => ConnectionRecorded(ConnectionRecord(UnknownState, r.recordedAt, AfterSubmission(r.status), true))
    case StatusRecorded(r) => ConnectionRecorded(ConnectionRecord(UnknownState, r.recordedAt, AfterStatus(r.status), true))
    case FillRecorded(r) => ConnectionRecorded(ConnectionRecord(UnknownState, r.recordedAt, AfterFill(r.status), true))
  }

  /** A connection record that only an answer can have caused. */
  predicate IsForced(e: Event) {
    e.ConnectionRecorded? && (e.connection.reason.AfterLookup? || e.connection.reason.AfterSubmission? || e.connection.reason.AfterStatus? || e.connection.reason.AfterFill?)
  }

  /** The answer at `i` needs reconciliation and met a connection not yet marked unknown. */
  ghost predicate ForcesAt(journal: seq<Event>, i: nat)
    requires i < |journal|
  {
    IsAnswer(journal[i]) && DemandsReconciliation(journal[i]) && !Replay(journal[..i]).memory.connection.UnknownState?
  }

  ghost predicate AttemptsAnswered(journal: seq<Event>) {
    && (forall i :: 0 <= i < |journal| && IsAttempt(journal[i]) ==> i + 1 < |journal| && Answers(journal[i], journal[i + 1]))
    && (forall i :: 0 <= i < |journal| && IsAnswer(journal[i]) ==> i > 0 && Answers(journal[i - 1], journal[i]))
  }

  ghost predicate EscalationsExact(journal: seq<Event>) {
    && (forall i :: 0 <= i < |journal| && ForcesAt(journal, i) ==> i + 1 < |journal| && journal[i + 1] == ForcedBy(journal[i]))
    && (forall i :: 0 <= i < |journal| && IsForced(journal[i]) ==> i > 0 && ForcesAt(journal, i - 1) && journal[i] == ForcedBy(journal[i - 1]))
  }

  /** The shape of what one call appends: nothing, plain events, or an attempt, its answer and the forced record. */
  ghost predicate CallShape(m: Memory, events: seq<Event>) {
    || (forall i :: 0 <= i < |events| ==> !IsAttempt(events[i]) && !IsAnswer(events[i]) && !IsForced(events[i]))
    || (&& |events| >= 2 && IsAttempt(events[0]) && Answers(events[0], events[1])
        && events == [events[0], events[1]]
                     + if DemandsReconciliation(events[1]) && !m.connection.UnknownState? then [ForcedBy(events[1])] else [])
  }

  lemma AnswersAreAnswers(attempt: Event, answer: Event)
    requires Answers(attempt, answer)
    ensures IsAttempt(attempt) && IsAnswer(answer) && !IsAttempt(answer) && !IsForced(answer) && !IsAnswer(attempt) && !IsForced(attempt)
    ensures !IsAttempt(ForcedBy(answer)) && !IsAnswer(ForcedBy(answer)) && IsForced(ForcedBy(answer))
  {
  }

  lemma LookupAnswers(endpoint: EndpointKind, m: Memory, call: Call)
    requires call.Lookup? && Admissible(call)
    ensures CallShape(m, Emits(endpoint, m, call))
  {
    hide Admissible, ContractIsStale, LookupBlock;
  }

  lemma SubmissionAnswers(endpoint: EndpointKind, m: Memory, call: Call)
    requires call.Submit? && Admissible(call)
    ensures CallShape(m, Emits(endpoint, m, call))
  {
    hide Admissible, SubmissionBlock;
  }

  lemma StatusAnswers(endpoint: EndpointKind, m: Memory, call: Call)
    requires call.ReportStatus? && Admissible(call)
    ensures CallShape(m, Emits(endpoint, m, call))
  {
    hide Admissible, CallbackBlock, StatusTarget;
  }

  lemma FillAnswers(endpoint: EndpointKind, m: Memory, call: Call)
    requires call.ReportFill? && Admissible(call)
    ensures CallShape(m, Emits(endpoint, m, call))
  {
    hide Admissible, CallbackBlock, FillTarget;
  }

  lemma EveryCallHasShape(endpoint: EndpointKind, m: Memory, call: Call)
    ensures CallShape(m, Emits(endpoint, m, call))
  {
    if Admissible(call) {
      match call
      case Lookup(_, _, _, _, _) => LookupAnswers(endpoint, m, call);
      case Submit(_, _, _, _, _) => SubmissionAnswers(endpoint, m, call);
      case ReportStatus(_, _, _, _) => StatusAnswers(endpoint, m, call);
      case ReportFill(_, _, _, _) => FillAnswers(endpoint, m, call);
      case _ => hide Admissible, LookupResultOf, SubmissionResultOf, StatusResultOf, FillResultOf;
    }
  }

  lemma ShapeKeepsAnswered(journal: seq<Event>, events: seq<Event>, m: Memory)
    requires AttemptsAnswered(journal) && CallShape(m, events)
    ensures AttemptsAnswered(journal + events)
  {
    var all := journal + events;
    if |events| >= 2 && Answers(events[0], events[1]) {
      AnswersAreAnswers(events[0], events[1]);
    }
    hide Answers, IsAttempt, IsAnswer, IsForced, ForcedBy, DemandsReconciliation;
    forall i | 0 <= i < |all| && IsAttempt(all[i]) ensures i + 1 < |all| && Answers(all[i], all[i + 1]) {
      if i >= |journal| {
        assert all[i] == events[i - |journal|];
      }
    }
    forall i | 0 <= i < |all| && IsAnswer(all[i]) ensures i > 0 && Answers(all[i - 1], all[i]) {
      if i >= |journal| {
        assert all[i] == events[i - |journal|];
      }
    }
  }

  lemma AttemptsLeaveConnection(s: Replayed, e: Event)
    requires IsAttempt(e)
    ensures Observe(s, e).memory == s.memory
  {
  }

  lemma ForcesInPrefix(journal: seq<Event>, events: seq<Event>, i: nat)
    requires i < |journal|
    ensures ForcesAt(journal + events, i) == ForcesAt(journal, i)
  {
    assert (journal + events)[..i] == journal[..i];
  }

  lemma ForcesInAnswer(journal: seq<Event>, events: seq<Event>)
    requires |events| >= 2 && Answers(events[0], events[1])
    ensures ForcesAt(journal + events, |journal| + 1)
        <==> DemandsReconciliation(events[1]) && !Replay(journal).memory.connection.UnknownState?
  {
    AnswersAreAnswers(events[0], events[1]);
    assert (journal + events)[..|journal| + 1] == journal + [events[0]];
    ReplaySnoc(Replayed(INITIAL_MEMORY, NoAttempt), journal, events[0]);
    AttemptsLeaveConnection(Replay(journal), events[0]);
    hide Answers, DemandsReconciliation, Observe, ReplayFrom;
  }

  lemma ShapeKeepsEscalations(journal: seq<Event>, events: seq<Event>)
    requires EscalationsExact(journal) && CallShape(Replay(journal).memory, events)
    ensures EscalationsExact(journal + events)
  {
    var all := journal + events;
    if |events| >= 2 && Answers(events[0], events[1]) {
      AnswersAreAnswers(events[0], events[1]);
      ForcesInAnswer(journal, events);
    }
    hide Answers, IsAttempt, IsAnswer, IsForced, DemandsReconciliation, Replay;
    forall i | 0 <= i < |all| && ForcesAt(all, i) ensures i + 1 < |all| && all[i + 1] == ForcedBy(all[i]) {
      if i < |journal| {
        ForcesInPrefix(journal, events, i);
      } else {
        assert all[i] == events[i - |journal|];
      }
    }
    forall i | 0 <= i < |all| && IsForced(all[i])
      ensures i > 0 && ForcesAt(all, i - 1) && all[i] == ForcedBy(all[i - 1])
    {
      if i < |journal| {
        ForcesInPrefix(journal, events, i - 1);
      } else {
        assert all[i] == events[i - |journal|];
      }
    }
  }

  /**
    In every run, each attempt or received callback is followed at once by the answer to exactly that
    work, each answer has its attempt, and the adapter marks the connection unknown right after an
    answer precisely when that answer needs reconciliation and the mark is not already there.
   */
  lemma {:induction false} JournalIsWriteAhead(endpoint: EndpointKind, calls: seq<Call>)
    ensures AttemptsAnswered(Run(endpoint, calls))
    ensures EscalationsExact(Run(endpoint, calls))
  {
    hide Emits, Answers, AttemptsAnswered, EscalationsExact, CallShape, ReplayFrom;
    if calls == [] {
      EmptyJournalIsWriteAhead();
    } else {
      var before, last := calls[..|calls| - 1], calls[|calls| - 1];
      JournalIsWriteAhead(endpoint, before);
      var journal := Run(endpoint, before);
      var m := Replay(journal).memory;
      EveryCallHasShape(endpoint, m, last);
      ShapeKeepsAnswered(journal, Emits(endpoint, m, last), m);
      ShapeKeepsEscalations(journal, Emits(endpoint, m, last));
    }
  }

  lemma EmptyJournalIsWriteAhead()
    ensures AttemptsAnswered([]) && EscalationsExact([])
  {
  }
}
