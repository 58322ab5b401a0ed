/**
  The two application routes that put the emergency stop in front of ticket approvals, over one stop
  service and one ticket book.
 */
module SimulationApp {
  import opened Foundations
  import EventJournal
  import Identifiers
  import Stop = EmergencyStop
  import Tickets = ApprovalTickets

  /** The body of an approve or reject request; a decision time that is no timestamp is `None`. */
  datatype DecisionBody = DecisionBody(
    decisionId: string, decidedAt: Option<Timestamp>, actor: string, reference: string, reason: string)

  datatype ChangeBody = ChangeBody(eventId: string, requestedAt: Option<Timestamp>, actor: string, reason: string)

  datatype Call =
    | Decide(ticketId: string, approve: bool, decision: DecisionBody, operator: string)
    | ChangeStop(activate: bool, change: ChangeBody, operator': string)

  /** The HTTP status of a refused request. */
  datatype Refusal = BadRequest | Locked

  const RESOURCE_PREFIX := "approval_ticket."

  /** What the stop service and the ticket book have been asked so far. */
  datatype State = State(stop: seq<Stop.Call>, book: seq<Tickets.Call>)
  {
    function Stopped(): bool {
      Stop.MemoryAfter(stop).state.active
    }

    function Book(): Tickets.Book {
      Tickets.BookOf(Tickets.Run(book))
    }

    ghost function Approved(): set<string> {
      ApprovedIn(Book())
    }
  }

  ghost function ApprovedIn(b: Tickets.Book): set<string> {
    set id | id in b.tickets && b.tickets[id].status == Tickets.Decided(Tickets.Approved)
  }

  const DEMO_ID := "approval-ticket-001"

  const DEMO_REQUEST := Tickets.CreateRequest(
    DEMO_ID, "order-001", "client-001", "AAPL", Tickets.Buy, 10, Tickets.Increase, "risk-001",
    "order-001-pending-approval", Timestamp("2026-07-08T13:45:10Z", 1783518310000000),
    Timestamp("2026-07-08T13:50:10Z", 1783518610000000), "risk_passed_requires_human_approval")

  const INITIAL := State([], [Tickets.Create(DEMO_REQUEST)])

  function DecisionRequest(ticketId: string, approve: bool, body: DecisionBody): Tickets.DecisionRequest
    requires body.decidedAt.Some?
  {
    Tickets.DecisionRequest(body.decisionId, ticketId, if approve then Tickets.Approved else Tickets.Rejected,
                            body.decidedAt.value, body.actor, body.reference, body.reason)
  }

  function ApprovalCheck(ticketId: string, at: Timestamp, operator: string): Stop.Call {
    Stop.Check(RESOURCE_PREFIX + ticketId, "approve", at, operator)
  }

  /** The change request of a stop route, when the body makes a valid one. */
  function ChangeRequest(body: ChangeBody): Option<Stop.ChangeRequest> {
    if body.requestedAt.None? then None else
    var q := Stop.ChangeRequest(body.eventId, body.requestedAt.value, body.actor, body.reason);
    if q.Valid() then Some(q) else None
  }

  // ---------- one call ----------

  function AskBook(s: State, ticketId: string, approve: bool, body: DecisionBody): State {
    if body.decidedAt.None? || !DecisionRequest(ticketId, approve, body).Valid() then s
    else s.(book := s.book + [Tickets.Decide(DecisionRequest(ticketId, approve, body))])
  }

  function BookReply(s: State, ticketId: string, approve: bool, body: DecisionBody): Result<Tickets.DecisionRecord, Refusal> {
    if body.decidedAt.None? || !DecisionRequest(ticketId, approve, body).Valid() then Err(BadRequest) else
    var r := Tickets.DecideReply(s.Book(), DecisionRequest(ticketId, approve, body));
    if r.Err? then Err(BadRequest) else Ok(r.value)
  }

  /** Whether the stop service lets an approval through to the book. */
  predicate LetsThrough(s: State, ticketId: string, body: DecisionBody, operator: string) {
    && body.decidedAt.Some?
    && Stop.CheckReply(Stop.MemoryAfter(s.stop), ApprovalCheck(ticketId, body.decidedAt.value, operator)).Ok?
  }

  function CheckStop(s: State, ticketId: string, body: DecisionBody, operator: string): State {
    if body.decidedAt.None? then s
    else s.(stop := s.stop + [ApprovalCheck(ticketId, body.decidedAt.value, operator)])
  }

  function Step(s: State, call: Call): State {
    match call
    case Decide(id, approve, body, operator) =>
      if body.actor != operator then s
      else if !approve then AskBook(s, id, approve, body)
      else
        var checked := CheckStop(s, id, body, operator);
        if LetsThrough(s, id, body, operator) then AskBook(checked, id, approve, body) else checked
    case ChangeStop(activate, body, operator) =>
      if body.actor != operator || ChangeRequest(body).None? then s
      else s.(stop := s.stop + [Stop.Change(if activate then Stop.Activated else Stop.Deactivated, ChangeRequest(body).value)])
  }

  function DecisionReply(s: State, id: string, approve: bool, body: DecisionBody, operator: string):
    Result<Tickets.DecisionRecord, Refusal>
  {
    if body.actor != operator then Err(BadRequest)
    else if approve && !LetsThrough(s, id, body, operator) then Err(Locked)
    else BookReply(s, id, approve, body)
  }

  function ChangeReply(s: State, activate: bool, body: ChangeBody, operator: string): Result<Stop.ChangeRecord, Refusal> {
    if body.actor != operator || ChangeRequest(body).None? then Err(BadRequest) else
    var r := Stop.ChangeReply(Stop.MemoryAfter(s.stop), if activate then Stop.Activated else Stop.Deactivated, ChangeRequest(body).value);
    if r.Err? then Err(BadRequest) else Ok(r.value)
  }

  function Run(calls: seq<Call>): State {
    if calls == [] then INITIAL else Step(Run(calls[..|calls| - 1]), calls[|calls| - 1])
  }

  // ---------- no approval passes an active stop ----------

  lemma BookCallsStayValid(s: State, call: Call)
    requires Tickets.ValidCalls(s.book)
    ensures Tickets.ValidCalls(Step(s, call).book)
  {
  }

  lemma {:induction false} RunsAskValidly(calls: seq<Call>)
    ensures Tickets.ValidCalls(Run(calls).book) && Tickets.Sound(Run(calls).Book())
  {
    hide Tickets.Sound, Step;
    if calls == [] {
      DemoRequestIsValid();
    } else {
      RunsAskValidly(calls[..|calls| - 1]);
      BookCallsStayValid(Run(calls[..|calls| - 1]), calls[|calls| - 1]);
    }
    Tickets.RunsAreSound(Run(calls).book);
  }

  lemma DemoRequestIsValid()
    ensures DEMO_REQUEST.Valid()
  {
  }

  lemma CheckKeepsStop(s: State, ticketId: string, body: DecisionBody, operator: string)
    ensures CheckStop(s, ticketId, body, operator).Stopped() == s.Stopped()
  {
    if body.decidedAt.Some? {
      Stop.RunSnoc(s.stop, ApprovalCheck(ticketId, body.decidedAt.value, operator));
    }
  }

  /** What one decision can do to the approved tickets of a book. */
  lemma EffectGrowsApproved(b: Tickets.Book, q: Tickets.DecisionRequest)
    ensures var next := Tickets.Effect(b, Tickets.Decide(q));
            && ApprovedIn(b) <= ApprovedIn(next) <= ApprovedIn(b) + {q.ticketId}
            && (q.decision != Tickets.Approved ==> ApprovedIn(next) == ApprovedIn(b))
  {
    hide Tickets.NewDecision;
    if Tickets.Decidable(b, q).Ok? {
      DecisionSetsStatus(Tickets.Decidable(b, q).value, q);
    }
  }

  lemma DecisionGrowsApproved(s: State, q: Tickets.DecisionRequest)
    ensures var next := s.(book := s.book + [Tickets.Decide(q)]);
            && s.Approved() <= next.Approved() <= s.Approved() + {q.ticketId}
            && (q.decision != Tickets.Approved ==> next.Approved() == s.Approved())
  {
    hide Tickets.Run, Tickets.BookOf, Tickets.Effect;
    Tickets.RunSnoc(s.book, Tickets.Decide(q));
    EffectGrowsApproved(s.Book(), q);
  }

  lemma DecisionSetsStatus(t: Tickets.Ticket, q: Tickets.DecisionRequest)
    ensures Tickets.NewDecision(t, q).ticket.status == Tickets.Decided(q.decision)
  {
  }

  /** A step that approves a ticket is an approve call made while the stop is inactive, and leaves it inactive. */
  lemma ApprovalNeedsInactiveStop(s: State, call: Call)
    ensures s.Approved() <= Step(s, call).Approved()
    ensures Step(s, call).Approved() != s.Approved() ==>
              && call.Decide? && call.approve && Step(s, call).Approved() == s.Approved() + {call.ticketId}
              && !s.Stopped() && !Step(s, call).Stopped()
  {
    hide Tickets.Run, Tickets.BookOf, Tickets.ValidCalls, Stop.MemoryAfter, Stop.SafeIdentifier;
    if call.Decide? && call.decision.decidedAt.Some? {
      CheckKeepsStop(s, call.ticketId, call.decision, call.operator);
      var q := DecisionRequest(call.ticketId, call.approve, call.decision);
      if q.Valid() {
        var checked := CheckStop(s, call.ticketId, call.decision, call.operator);
        DecisionGrowsApproved(s, q);
        DecisionGrowsApproved(checked, q);
        SameBook(s, checked);
      }
    }
    assert Step(s, call).book == s.book ==> Step(s, call).Approved() == s.Approved() by {
      if Step(s, call).book == s.book {
        SameBook(s, Step(s, call));
      }
    }
  }

  lemma SameBook(s: State, t: State)
    requires s.book == t.book
    ensures s.Approved() == t.Approved()
  {
  }

  lemma RunStep(calls: seq<Call>, call: Call)
    ensures Run(calls + [call]) == Step(Run(calls), call)
  {
    assert (calls + [call])[..|calls|] == calls;
  }

  /** The stop is active after every prefix of `more`, the empty one included. */
  ghost predicate StoppedThroughout(calls: seq<Call>, more: seq<Call>) {
    forall k :: 0 <= k <= |more| ==> Run(calls + more[..k]).Stopped()
  }

  /** Over any interleaving, no ticket becomes approved while the stop is active. */
  lemma {:induction false} NothingApprovedWhileStopped(calls: seq<Call>, more: seq<Call>)
    requires StoppedThroughout(calls, more)
    ensures Run(calls + more).Approved() == Run(calls).Approved()
    decreases |more|
  {
    hide Step, Run, ApprovedIn, Stop.MemoryAfter, Tickets.BookOf, Tickets.Run;
    if more == [] {
      assert calls + more == calls;
    } else {
      var front, last := more[..|more| - 1], more[|more| - 1];
      assert forall k :: 0 <= k <= |front| ==> front[..k] == more[..k];
      NothingApprovedWhileStopped(calls, front);
      assert calls + more == (calls + front) + [last];
      assert more[..|front|] == front;
      assert Run(calls + more) == Step(Run(calls + front), last) by { RunStep(calls + front, last); }
      ApprovalNeedsInactiveStop(Run(calls + front), last);
    }
  }

  // ---------- exactly when the stop service refuses an approval ----------

  /** Letters the fixed texts do without, while every secret-shaped term has one of them. */
  predicate IsTelling(c: char) {
    c == 'u' || c == 'y' || c == 'f' || c == 'd' || c == 's' || c == 'n'
  }

  /** A position of such a letter in each secret-shaped term. */
  const TELLING: seq<nat> := [4, 6, 5, 5, 3, 2, 10, 0, 4]

  lemma TellingLetters(k: nat)
    requires k < |Stop.SECRET_TERMS|
    ensures |TELLING| == |Stop.SECRET_TERMS| && TELLING[k] < |Stop.SECRET_TERMS[k]|
    ensures IsTelling(Stop.SECRET_TERMS[k][TELLING[k]]) && '.' !in Stop.SECRET_TERMS[k]
  {
  }

  predicate Discreet(s: string) {
    forall i :: 0 <= i < |s| ==> Stop.Allowed(s[i]) && !IsTelling(Stop.NormalChar(s[i]))
  }

  lemma FixedTextsAreDiscreet()
    ensures Discreet(RESOURCE_PREFIX) && Discreet("approve")
  {
  }

  lemma DiscreetConcat(s: string, t: string)
    requires Discreet(s) && Discreet(t)
    ensures Discreet(s + t)
  {
    hide IsTelling, Stop.Allowed, Stop.NormalChar;
  }

  lemma PiecesAreDiscreet()
    ensures Discreet("approval") && Discreet("-ticket") && Discreet("-001")
  {
  }

  lemma DemoIdIsDiscreet()
    ensures Discreet(DEMO_ID)
  {
    hide Discreet;
    PiecesAreDiscreet();
    DiscreetConcat("approval", "-ticket");
    DiscreetConcat("approval" + "-ticket", "-001");
    assert DEMO_ID == "approval" + "-ticket" + "-001";
  }

  lemma DiscreetHasNoTerm(s: string, k: nat)
    requires Discreet(s) && k < |Stop.SECRET_TERMS|
    ensures !Identifiers.Contains(Stop.Normal(s), Stop.SECRET_TERMS[k])
  {
    hide Stop.SECRET_TERMS, TELLING, Identifiers.Contains, IsTelling, Stop.NormalChar;
    TellingLetters(k);
    Identifiers.MissingCharacter(Stop.Normal(s), Stop.SECRET_TERMS[k], TELLING[k]);
  }

  lemma DiscreetIsSafe(s: string)
    requires Discreet(s)
    ensures Stop.SafeText(s)
  {
    hide Stop.SECRET_TERMS, Identifiers.Contains, IsTelling;
    forall k | 0 <= k < |Stop.SECRET_TERMS| ensures !Identifiers.Contains(Stop.Normal(s), Stop.SECRET_TERMS[k]) {
      DiscreetHasNoTerm(s, k);
    }
  }

  lemma FixedTextsAreSafe()
    ensures Stop.SafeText(RESOURCE_PREFIX) && Stop.SafeIdentifier("approve")
  {
    hide Discreet;
    FixedTextsAreDiscreet();
    DiscreetIsSafe(RESOURCE_PREFIX);
    DiscreetIsSafe("approve");
  }

  lemma EndsInPrefix(prefix: string, own: string, term: string, i: int)
    requires Identifiers.ContainsAt(prefix + own, term, i) && i + |term| <= |prefix|
    ensures Identifiers.Contains(prefix, term)
  {
    assert prefix[i..i + |term|] == (prefix + own)[i..i + |term|];
    assert Identifiers.ContainsAt(prefix, term, i);
  }

  lemma Straddles(prefix: string, own: string, term: string, i: int)
    requires Identifiers.ContainsAt(prefix + own, term, i) && i < |prefix| < i + |term|
    ensures prefix[|prefix| - 1] in term
  {
    assert (prefix + own)[i..i + |term|][|prefix| - 1 - i] == prefix[|prefix| - 1];
  }

  /** An occurrence after a prefix that has none, and whose last character the term lacks, is all in the rest. */
  lemma OccurrenceIsInRest(prefix: string, own: string, term: string, i: int)
    requires Identifiers.ContainsAt(prefix + own, term, i)
    requires !Identifiers.Contains(prefix, term) && prefix != [] && prefix[|prefix| - 1] !in term
    ensures Identifiers.ContainsAt(own, term, i - |prefix|)
  {
    if i + |term| <= |prefix| {
      EndsInPrefix(prefix, own, term, i);
    } else if i < |prefix| {
      Straddles(prefix, own, term, i);
    } else {
      assert own[i - |prefix|..i - |prefix| + |term|] == (prefix + own)[i..i + |term|];
    }
  }

  lemma OccurrenceIsInWhole(prefix: string, own: string, term: string, i: int)
    requires Identifiers.ContainsAt(own, term, i)
    ensures Identifiers.ContainsAt(prefix + own, term, |prefix| + i)
  {
    assert (prefix + own)[|prefix| + i..|prefix| + i + |term|] == own[i..i + |term|];
  }

  /** No secret-shaped term has a dot, so none can begin in the prefix and end in the ticket id. */
  lemma TermsDoNotStraddle(id: string, k: nat)
    requires k < |Stop.SECRET_TERMS|
    ensures var term := Stop.SECRET_TERMS[k];
            Identifiers.Contains(Stop.Normal(RESOURCE_PREFIX + id), term) <==> Identifiers.Contains(Stop.Normal(id), term)
  {
    var term, prefix, own := Stop.SECRET_TERMS[k], Stop.Normal(RESOURCE_PREFIX), Stop.Normal(id);
    assert Stop.Normal(RESOURCE_PREFIX + id) == prefix + own;
    TellingLetters(k);
    FixedTextsAreDiscreet();
    DiscreetHasNoTerm(RESOURCE_PREFIX, k);
    assert prefix[|prefix| - 1] == '.';
    hide Identifiers.ContainsAt;
    if Identifiers.Contains(own, term) {
      var i :| 0 <= i <= |own| && Identifiers.ContainsAt(own, term, i);
      OccurrenceIsInWhole(prefix, own, term, i);
    }
    if Identifiers.Contains(prefix + own, term) {
      var i :| 0 <= i <= |prefix + own| && Identifiers.ContainsAt(prefix + own, term, i);
      OccurrenceIsInRest(prefix, own, term, i);
      assert 0 <= i - |prefix| <= |own| by { OccurrenceIsWithin(own, term, i - |prefix|); }
    }
  }

  lemma OccurrenceIsWithin(text: string, term: string, i: int)
    requires Identifiers.ContainsAt(text, term, i)
    ensures 0 <= i <= |text|
  {
  }

  lemma ResourceIsSafe(id: string)
    ensures Stop.SafeIdentifier(RESOURCE_PREFIX + id) <==> Stop.SafeText(id)
  {
    FixedTextsAreSafe();
    forall k | 0 <= k < |Stop.SECRET_TERMS|
      ensures Identifiers.Contains(Stop.Normal(RESOURCE_PREFIX + id), Stop.SECRET_TERMS[k])
              <==> Identifiers.Contains(Stop.Normal(id), Stop.SECRET_TERMS[k])
    {
      TermsDoNotStraddle(id, k);
    }
    var whole := RESOURCE_PREFIX + id;
    assert forall i :: 0 <= i < |id| ==> whole[|RESOURCE_PREFIX| + i] == id[i];
  }

  /**
    An operator's own approval is refused as locked exactly while the stop is active or when the time,
    the ticket id or the operator is a text the stop service does not accept.
   */
  lemma LockedExactlyWhen(s: State, id: string, body: DecisionBody)
    ensures DecisionReply(s, id, true, body, body.actor) == Err(Locked) <==>
            s.Stopped() || body.decidedAt.None? || !Stop.SafeText(id) || !Stop.SafeIdentifier(body.actor)
  {
    FixedTextsAreSafe();
    ResourceIsSafe(id);
    hide Stop.SafeIdentifier, Stop.SafeText;
  }

  /** A well-formed approval refused by an active stop is journaled as blocked, and the book is not asked. */
  lemma BlockedApprovalIsJournaled(s: State, id: string, body: DecisionBody)
    requires s.Stopped() && body.decidedAt.Some? && Stop.SafeText(id) && Stop.SafeIdentifier(body.actor)
    ensures var next := Step(s, Decide(id, true, body, body.actor));
            && DecisionReply(s, id, true, body, body.actor) == Err(Locked)
            && next.book == s.book
            && Stop.Run(next.stop) ==
               Stop.Run(s.stop) + [Stop.Blocked("approval_ticket." + id, "approve", body.decidedAt.value, body.actor)]
  {
    FixedTextsAreSafe();
    ResourceIsSafe(id);
    hide Stop.SafeIdentifier, Stop.SafeText;
    Stop.RunSnoc(s.stop, ApprovalCheck(id, body.decidedAt.value, body.actor));
  }

  // ---------- the one ticket the routes can decide ----------

  /** A decision adds no ticket. */
  lemma DecidingKeepsTickets(b: Tickets.Book, q: Tickets.DecisionRequest)
    ensures Tickets.Effect(b, Tickets.Decide(q)).tickets.Keys == b.tickets.Keys
  {
    hide Tickets.NewDecision;
  }

  lemma StepKeepsTickets(s: State, call: Call)
    ensures Step(s, call).Book().tickets.Keys == s.Book().tickets.Keys
  {
    hide Tickets.Run, Tickets.BookOf, Tickets.Effect, Stop.SafeIdentifier, Stop.MemoryAfter;
    if call.Decide? && call.decision.decidedAt.Some? {
      var q := DecisionRequest(call.ticketId, call.approve, call.decision);
      Tickets.RunSnoc(s.book, Tickets.Decide(q));
      DecidingKeepsTickets(s.Book(), q);
    }
  }

  lemma InitialTicket()
    ensures INITIAL.Book().tickets.Keys == {DEMO_ID}
  {
    assert INITIAL.book == [] + [Tickets.Create(DEMO_REQUEST)];
    Tickets.RunSnoc([], Tickets.Create(DEMO_REQUEST));
    assert Tickets.Run([]) == Tickets.Ledger(map[], []);
    hide DEMO_REQUEST;
  }

  /** Whatever is called, the book holds the demo ticket and no other. */
  lemma {:induction false} OnlyTheDemoTicket(calls: seq<Call>)
    ensures Run(calls).Book().tickets.Keys == {DEMO_ID}
  {
    hide Step, DEMO_REQUEST, INITIAL, Tickets.BookOf, Tickets.Run;
    if calls == [] {
      InitialTicket();
    } else {
      OnlyTheDemoTicket(calls[..|calls| - 1]);
      StepKeepsTickets(Run(calls[..|calls| - 1]), calls[|calls| - 1]);
    }
  }

  /**
    What a run can answer to a decision: a ticket other than the demo ticket is unknown and refused
    as a bad request, and the demo ticket's own id never locks it.
   */
  lemma DecisionsInRuns(calls: seq<Call>, id: string, approve: bool, body: DecisionBody)
    ensures var reply := DecisionReply(Run(calls), id, approve, body, body.actor);
            if id != DEMO_ID then reply.Err? && (!approve ==> reply == Err(BadRequest))
            else approve ==> (reply == Err(Locked) <==> Run(calls).Stopped() || body.decidedAt.None? || !Stop.SafeIdentifier(body.actor))
  {
    var s := Run(calls);
    OnlyTheDemoTicket(calls);
    DemoIdIsDiscreet();
    DiscreetIsSafe(DEMO_ID);
    hide DEMO_REQUEST, Stop.SafeText, Stop.SafeIdentifier, Run, Tickets.Run, Tickets.BookOf;
    if approve {
      LockedExactlyWhen(s, id, body);
    }
    if id != DEMO_ID && body.decidedAt.Some? && DecisionRequest(id, approve, body).Valid() {
      UnknownIsRefused(calls, DecisionRequest(id, approve, body));
    }
  }

  lemma UnknownIsRefused(calls: seq<Call>, q: Tickets.DecisionRequest)
    requires q.ticketId !in Run(calls).Book().tickets
    ensures Tickets.DecideReply(Run(calls).Book(), q).Err?
  {
    hide Run, Tickets.Run, Tickets.BookOf, Tickets.Sound, Tickets.DecideReply;
    RunsAskValidly(calls);
    SoundBookRefuses(Run(calls).Book(), q);
  }

  lemma SoundBookRefuses(b: Tickets.Book, q: Tickets.DecisionRequest)
    requires Tickets.Sound(b) && q.ticketId !in b.tickets
    ensures Tickets.DecideReply(b, q).Err?
  {
    hide Tickets.TicketFits, Tickets.NewDecision;
    if q.decisionId in b.decisionRecords {
      assert Tickets.RecordFits(b, q.decisionId);
    }
  }

  // ---------- the routes ----------

  class App {
    const stop: Stop.EmergencyStopService
    const book: Tickets.ApprovalTicketBook
    ghost var calls: seq<Call>

    ghost predicate Valid()
      reads this, stop, stop.journal, book, book.journal
    {
      && Apart()
      && stop.Valid() && book.Valid()
      && State(stop.calls, book.calls) == Run(calls)
    }

    /** The two services and their journals are separate objects. */
    ghost predicate Apart() {
      var journals: set<object> := {stop.journal, book.journal};
      |journals| == 2 && this !in journals
    }

    /** Both services start afresh, each on its own journal, and the book is given its demo ticket. */
    constructor (stopJournal: EventJournal.Journal<Stop.StopEvent>, bookJournal: EventJournal.Journal<Tickets.BookEvent>)
      requires stopJournal.Valid() && bookJournal.Valid()
      requires var journals: set<object> := {stopJournal, bookJournal}; |journals| == 2
      modifies bookJournal
      ensures Valid() && calls == []
      ensures fresh(stop) && fresh(book) && stop.journal == stopJournal && book.journal == bookJournal
    {
      hide DEMO_REQUEST, Tickets.Run, Tickets.BookOf, Tickets.CreateReply, Tickets.ValidCalls, Stop.Run, Stop.MemoryAfter;
      DemoRequestIsValid();
      var s := new Stop.EmergencyStopService(stopJournal);
      var b := new Tickets.ApprovalTicketBook(bookJournal);
      var _ := b.CreateTicket(DEMO_REQUEST);
      stop, book := s, b;
      calls := [];
      new;
      assert b.calls == [Tickets.Create(DEMO_REQUEST)];
    }

    method ApplyDecision(ticketId: string, approve: bool, decision: DecisionBody, operator: string)
      returns (r: Result<Tickets.DecisionRecord, Refusal>)
      requires Valid()
      modifies this, stop, stop.journal, book, book.journal
      ensures Valid() && calls == old(calls) + [Decide(ticketId, approve, decision, operator)]
      ensures r == DecisionReply(Run(old(calls)), ticketId, approve, decision, operator)
    {
      hide Tickets.Sound, Tickets.Run, Tickets.BookOf, Stop.Run, Stop.SafeIdentifier;
      ghost var before := Run(calls);
      ghost var call := Decide(ticketId, approve, decision, operator);
      assert (calls + [call])[..|calls|] == calls;
      calls := calls + [call];
      if decision.actor != operator {
        return Err(BadRequest);
      }
      if approve {
        if decision.decidedAt.None? {
          return Err(Locked);
        }
        var allowed := stop.EnsureRiskIncreasingAllowed(RESOURCE_PREFIX + ticketId, "approve", decision.decidedAt.value, operator);
        if allowed.Err? {
          return Err(Locked);
        }
      }
      if decision.decidedAt.None? {
        return Err(BadRequest);
      }
      var q := DecisionRequest(ticketId, approve, decision);
      if !q.Valid() {
        return Err(BadRequest);
      }
      var applied := book.ApplyDecision(q);
      if applied.Err? {
        return Err(BadRequest);
      }
      return Ok(applied.value);
    }

    method ApplyStopChange(activate: bool, change: ChangeBody, operator: string) returns (r: Result<Stop.ChangeRecord, Refusal>)
      requires Valid()
      modifies this, stop, stop.journal
      ensures Valid() && calls == old(calls) + [ChangeStop(activate, change, operator)]
      ensures r == ChangeReply(Run(old(calls)), activate, change, operator)
    {
      hide Tickets.Sound, Tickets.Run, Tickets.BookOf, Stop.Run, Stop.SafeIdentifier;
      ghost var call := ChangeStop(activate, change, operator);
      assert (calls + [call])[..|calls|] == calls;
      calls := calls + [call];
      if change.actor != operator {
        return Err(BadRequest);
      }
      var q := ChangeRequest(change);
      if q.None? {
        return Err(BadRequest);
      }
      var changed: Result<Stop.ChangeRecord, Stop.StopError>;
      if activate {
        changed := stop.Activate(q.value);
      } else {
        changed := stop.Deactivate(q.value);
      }
      if changed.Err? {
        return Err(BadRequest);
      }
      return Ok(changed.value);
    }
  }
}
