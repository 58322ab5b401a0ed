/** The approval ticket book: tickets created, restored and decided once, beside a journal. */
module ApprovalTickets {
  import opened Foundations
  import opened EventJournal
  import opened Identifiers

  datatype Side = Buy | Sell

  datatype RiskIntent = Increase | Reduce

  datatype Decision = Approved | Rejected | Expired | Cancelled

  datatype Status = Pending | Decided(decision: Decision)

  /** A request that has passed the risk check and awaits approval. */
  datatype CreateRequest = CreateRequest(
    ticketId: string, orderId: string, clientOrderId: string, symbol: string, side: Side, quantity: int,
    riskIntent: RiskIntent, riskDecisionId: string, omsTransitionReference: string,
    createdAt: Timestamp, expiresAt: Timestamp, reason: string)
  {
    predicate Valid() {
      && NonBlank(ticketId) && NonBlank(orderId) && NonBlank(clientOrderId) && PlainSymbol(symbol)
      && quantity >= 1 && NonBlank(riskDecisionId) && NonBlank(omsTransitionReference)
      && createdAt.instant < expiresAt.instant && NonBlank(reason)
    }
  }

  datatype DecisionRequest = DecisionRequest(
    decisionId: string, ticketId: string, decision: Decision, decidedAt: Timestamp,
    actor: string, reference: string, reason: string)
  {
    predicate Valid() {
      NonBlank(decisionId) && NonBlank(ticketId) && NonBlank(actor) && NonBlank(reference) && NonBlank(reason)
    }
  }

  datatype Ticket = Ticket(
    ticketId: string, orderId: string, clientOrderId: string, symbol: string, side: Side, quantity: int,
    riskIntent: RiskIntent, riskDecisionId: string, omsTransitionReference: string, status: Status,
    createdAt: Timestamp, expiresAt: Timestamp, decisionId: Option<string>, decidedAt: Option<Timestamp>,
    actor: Option<string>, reference: Option<string>, reason: Option<string>, createRequest: CreateRequest)

  predicate ValidTicket(t: Ticket) {
    && NonBlank(t.ticketId) && NonBlank(t.orderId) && NonBlank(t.clientOrderId) && PlainSymbol(t.symbol)
    && t.quantity >= 1 && NonBlank(t.riskDecisionId) && NonBlank(t.omsTransitionReference)
    && t.createdAt.instant < t.expiresAt.instant
    && if t.status.Pending? then DecisionFieldsEmpty(t) else DecisionFieldsFit(t)
  }

  predicate DecisionFieldsEmpty(t: Ticket) {
    t.decisionId.None? && t.decidedAt.None? && t.actor.None? && t.reference.None? && t.reason.None?
  }

  /** Expired no earlier than the expiry, any other decision no later. */
  predicate DecisionFieldsFit(t: Ticket) {
    && t.status.Decided?
    && t.decisionId.Some? && NonBlank(t.decisionId.value) && t.decidedAt.Some?
    && t.actor.Some? && NonBlank(t.actor.value) && t.reference.Some? && NonBlank(t.reference.value)
    && t.reason.Some? && NonBlank(t.reason.value)
    && if t.status.decision.Expired? then t.decidedAt.value.instant >= t.expiresAt.instant
       else t.decidedAt.value.instant <= t.expiresAt.instant
  }

  datatype DecisionRecord = DecisionRecord(
    decisionId: string, ticketId: string, previousStatus: Status, newStatus: Status, decidedAt: Timestamp,
    actor: string, reference: string, reason: string, request: DecisionRequest, ticket: Ticket)

  datatype BookEvent = TicketCreated(ticket: Ticket) | TicketDecided(record: DecisionRecord)

  datatype BookError =
    | ConflictingTicketId | NotRestorable | ConflictingRestore
    | ConflictingDecisionId | UnknownTicket | NotPending | ExpiredTooEarly | TicketExpired | InvalidIdentifier

  // ---------- the book, and its reconstruction ----------

  datatype Book = Book(
    createRequests: map<string, CreateRequest>, createTickets: map<string, Ticket>, tickets: map<string, Ticket>,
    decisionRequests: map<string, DecisionRequest>, decisionRecords: map<string, DecisionRecord>)

  function Enter(b: Book, t: Ticket): Book {
    b.(createRequests := b.createRequests[t.ticketId := t.createRequest],
       createTickets := b.createTickets[t.ticketId := t], tickets := b.tickets[t.ticketId := t])
  }

  function Learn(b: Book, e: BookEvent): Book {
    match e
    case TicketCreated(t) => Enter(b, t)
    case TicketDecided(r) =>
      b.(tickets := b.tickets[r.ticketId := r.ticket],
         decisionRequests := b.decisionRequests[r.decisionId := r.request],
         decisionRecords := b.decisionRecords[r.decisionId := r])
  }

  /** A book that holds just the restored tickets. */
  function Restored(restored: map<string, Ticket>): Book {
    Book(map id | id in restored :: restored[id].createRequest, restored, restored, map[], map[])
  }

  /** The journal folded onto the restored tickets. */
  function Replay(restored: map<string, Ticket>, events: seq<BookEvent>): Book {
    if events == [] then Restored(restored) else Learn(Replay(restored, events[..|events| - 1]), events[|events| - 1])
  }

  // ---------- calls ----------

  datatype Call =
    | Create(create: CreateRequest)
    | Restore(ticket: Ticket)
    | Decide(decide: DecisionRequest)

  function NewTicket(q: CreateRequest): Ticket {
    Ticket(q.ticketId, q.orderId, q.clientOrderId, q.symbol, q.side, q.quantity, q.riskIntent, q.riskDecisionId,
           q.omsTransitionReference, Pending, q.createdAt, q.expiresAt, None, None, None, None, None, q)
  }

  function DecidedTicket(t: Ticket, q: DecisionRequest): Ticket {
    t.(status := Decided(q.decision), decisionId := Some(q.decisionId), decidedAt := Some(q.decidedAt),
       actor := Some(q.actor), reference := Some(q.reference), reason := Some(q.reason))
  }

  function NewDecision(t: Ticket, q: DecisionRequest): DecisionRecord {
    DecisionRecord(q.decisionId, q.ticketId, t.status, Decided(q.decision), q.decidedAt, q.actor, q.reference, q.reason,
                   q, DecidedTicket(t, q))
  }

  /** In a sound book every known request has its ticket, so only a different request conflicts. */
  function CreateReply(b: Book, q: CreateRequest): Result<Ticket, BookError> {
    if q.ticketId !in b.createRequests then Ok(NewTicket(q))
    else if b.createRequests[q.ticketId] != q || q.ticketId !in b.createTickets then Err(ConflictingTicketId)
    else Ok(b.createTickets[q.ticketId])
  }

  function RestoreReply(b: Book, t: Ticket): Result<(), BookError> {
    if !t.status.Pending? then Err(NotRestorable)
    else if t.ticketId in b.tickets && b.tickets[t.ticketId] != t then Err(ConflictingRestore)
    else Ok(())
  }

  /** Expiry no earlier than the ticket's expiry time, any other decision no later. */
  predicate Timely(t: Ticket, q: DecisionRequest) {
    if q.decision.Expired? then q.decidedAt.instant >= t.expiresAt.instant else q.decidedAt.instant <= t.expiresAt.instant
  }

  /** The pending ticket a fresh decision applies to, if its timing allows the decision. */
  function Decidable(b: Book, q: DecisionRequest): Result<Ticket, BookError> {
    if q.ticketId !in b.tickets then Err(UnknownTicket) else
    var t := b.tickets[q.ticketId];
    if !t.status.Pending? then Err(NotPending)
    else if q.decision.Expired? then
      if q.decidedAt.instant < t.expiresAt.instant then Err(ExpiredTooEarly) else Ok(t)
    else if q.decidedAt.instant > t.expiresAt.instant then Err(TicketExpired)
    else Ok(t)
  }

  function DecideReply(b: Book, q: DecisionRequest): Result<DecisionRecord, BookError> {
    if q.decisionId in b.decisionRequests then
      if b.decisionRequests[q.decisionId] != q || q.decisionId !in b.decisionRecords then Err(ConflictingDecisionId)
      else Ok(b.decisionRecords[q.decisionId])
    else
      var t := Decidable(b, q);
      if t.Err? then Err(t.error) else Ok(NewDecision(t.value, q))
  }

  function Emits(b: Book, call: Call): seq<BookEvent> {
    match call
    case Create(q) => if q.ticketId !in b.createRequests then [TicketCreated(NewTicket(q))] else []
    case Restore(_) => []
    case Decide(q) =>
      if q.decisionId !in b.decisionRequests && Decidable(b, q).Ok?
      then [TicketDecided(NewDecision(Decidable(b, q).value, q))] else []
  }

  /** The ticket a call restores, if it restores one. */
  function Restores(b: Book, call: Call): map<string, Ticket> {
    if call.Restore? && RestoreReply(b, call.ticket).Ok? && call.ticket.ticketId !in b.tickets
    then map[call.ticket.ticketId := call.ticket] else map[]
  }

  /** The restored tickets and the journal after a run. */
  datatype Ledger = Ledger(restored: map<string, Ticket>, events: seq<BookEvent>)

  function BookOf(l: Ledger): Book {
    Replay(l.restored, l.events)
  }

  function Run(calls: seq<Call>): Ledger {
    if calls == [] then Ledger(map[], []) else
    var l, last := Run(calls[..|calls| - 1]), calls[|calls| - 1];
    Entered(l, last)
  }

  /** The ledger after one more call. */
  function Entered(l: Ledger, call: Call): Ledger {
    Ledger(l.restored + Restores(BookOf(l), call), l.events + Emits(BookOf(l), call))
  }

  /** The fields a call changes, as the book's code changes them. */
  function Effect(b: Book, call: Call): Book {
    match call
    case Create(q) => if q.ticketId !in b.createRequests then Enter(b, NewTicket(q)) else b
    case Restore(t) => if RestoreReply(b, t).Ok? && t.ticketId !in b.tickets then Enter(b, t) else b
    case Decide(q) =>
      if q.decisionId !in b.decisionRequests && Decidable(b, q).Ok? then
        var r := NewDecision(Decidable(b, q).value, q);
        b.(tickets := b.tickets[q.ticketId := r.ticket], decisionRequests := b.decisionRequests[q.decisionId := q],
           decisionRecords := b.decisionRecords[q.decisionId := r])
      else b
  }

  // ---------- what every run keeps ----------

  /** One decision record names the ticket, and only one. */
  ghost predicate DecidedOnce(b: Book, id: string) {
    && (exists d :: d in b.decisionRecords && b.decisionRecords[d].ticketId == id)
    && (forall d, e :: d in b.decisionRecords && e in b.decisionRecords && b.decisionRecords[d].ticketId == b.decisionRecords[e].ticketId == id ==> d == e)
  }

  ghost predicate TicketFits(b: Book, id: string) {
    && id in b.tickets && id in b.createTickets && id in b.createRequests
    && b.tickets[id].ticketId == id && ValidTicket(b.tickets[id])
    && b.createTickets[id].status.Pending? && b.createTickets[id].createRequest == b.createRequests[id]
    && (b.tickets[id].status.Pending? ==> b.tickets[id] == b.createTickets[id])
    && (b.tickets[id].status.Decided? ==>
          && b.tickets[id].decisionId.Some?
          && var d := b.tickets[id].decisionId.value;
          d in b.decisionRecords && b.decisionRecords[d].ticketId == id)
  }

  ghost predicate RecordFits(b: Book, d: string) {
    && d in b.decisionRecords && d in b.decisionRequests
    && var r := b.decisionRecords[d];
    && r.decisionId == d && r.request == b.decisionRequests[d] && r.request.decisionId == d
    && r.request.ticketId == r.ticketId && r.ticketId in b.tickets && b.tickets[r.ticketId] == r.ticket
    && r.ticket.decisionId == Some(d) && r.ticket.status == r.newStatus == Decided(r.request.decision)
    && r.previousStatus.Pending?
  }

  ghost predicate SameKeys(b: Book) {
    && b.createRequests.Keys == b.createTickets.Keys == b.tickets.Keys
    && b.decisionRequests.Keys == b.decisionRecords.Keys
  }

  ghost predicate Sound(b: Book) {
    && SameKeys(b)
    && (forall id :: id in b.tickets ==> TicketFits(b, id))
    && (forall d :: d in b.decisionRecords ==> RecordFits(b, d))
  }

  ghost predicate ValidCall(call: Call) {
    match call
    case Create(q) => q.Valid()
    case Restore(t) => ValidTicket(t)
    case Decide(q) => q.Valid()
  }

  ghost predicate ValidCalls(calls: seq<Call>) {
    forall i :: 0 <= i < |calls| ==> ValidCall(calls[i])
  }

  // ---------- one call at a time ----------

  /** Restoring a ticket late or early makes the same book, as long as no event names it. */
  lemma {:induction false} RestoringCommutes(restored: map<string, Ticket>, events: seq<BookEvent>, t: Ticket)
    requires t.ticketId !in Replay(restored, events).tickets
    ensures Replay(restored + map[t.ticketId := t], events) == Enter(Replay(restored, events), t)
  {
    var more := restored + map[t.ticketId := t];
    if events == [] {
      var before, after := Restored(restored), Restored(more);
      assert after.createRequests == before.createRequests[t.ticketId := t.createRequest];
      assert more == restored[t.ticketId := t];
    } else {
      var front, e := events[..|events| - 1], events[|events| - 1];
      RestoringCommutes(restored, front, t);
      EnteringCommutes(Replay(restored, front), e, t);
    }
  }

  lemma EnteringCommutes(b: Book, e: BookEvent, t: Ticket)
    requires t.ticketId !in Learn(b, e).tickets
    ensures Learn(Enter(b, t), e) == Enter(Learn(b, e), t)
  {
    match e
    case TicketCreated(u) =>
      UpdatesCommute(b.createRequests, t.ticketId, t.createRequest, u.ticketId, u.createRequest);
      UpdatesCommute(b.createTickets, t.ticketId, t, u.ticketId, u);
      UpdatesCommute(b.tickets, t.ticketId, t, u.ticketId, u);
    case TicketDecided(r) =>
      UpdatesCommute(b.tickets, t.ticketId, t, r.ticketId, r.ticket);
  }

  lemma UpdatesCommute<V>(m: map<string, V>, k: string, v: V, l: string, w: V)
    requires k != l
    ensures m[k := v][l := w] == m[l := w][k := v]
  {
  }

  lemma ReplaySnoc(restored: map<string, Ticket>, events: seq<BookEvent>, e: BookEvent)
    ensures Replay(restored, events + [e]) == Learn(Replay(restored, events), e)
  {
    assert (events + [e])[..|events|] == events;
  }

  lemma EmittedIsLearned(l: Ledger, call: Call)
    requires Emits(BookOf(l), call) != []
    ensures BookOf(Entered(l, call)) == Learn(BookOf(l), Emits(BookOf(l), call)[0])
  {
    hide Replay, Learn;
    var e := Emits(BookOf(l), call)[0];
    assert Emits(BookOf(l), call) == [e];
    var kept: map<string, Ticket> := map[];
    assert Restores(BookOf(l), call) == kept && l.restored + kept == l.restored;
    ReplaySnoc(l.restored, l.events, e);
  }

  lemma RestoredIsEntered(l: Ledger, call: Call)
    requires call.Restore? && RestoreReply(BookOf(l), call.ticket).Ok? && call.ticket.ticketId !in BookOf(l).tickets
    ensures BookOf(Entered(l, call)) == Enter(BookOf(l), call.ticket)
  {
    hide Replay, Enter;
    assert Emits(BookOf(l), call) == [] && l.events + [] == l.events;
    RestoringCommutes(l.restored, l.events, call.ticket);
  }

  lemma LedgerStep(l: Ledger, call: Call)
    ensures BookOf(Entered(l, call)) == Effect(BookOf(l), call)
  {
    hide Replay, Enter, BookOf;
    if Emits(BookOf(l), call) != [] {
      EmittedIsLearned(l, call);
    } else if call.Restore? && RestoreReply(BookOf(l), call.ticket).Ok? && call.ticket.ticketId !in BookOf(l).tickets {
      RestoredIsEntered(l, call);
    } else {
      NothingAdded(l);
    }
  }

  lemma NothingAdded(l: Ledger)
    ensures var kept: map<string, Ticket> := map[];
            Ledger(l.restored + kept, l.events + []) == l
  {
    var kept: map<string, Ticket> := map[];
    assert l.restored + kept == l.restored && l.events + [] == l.events;
  }

  /** The fields after a call are the journal folded onto the restored tickets. */
  lemma RunSnoc(calls: seq<Call>, call: Call)
    ensures Run(calls + [call]) == Ledger(Run(calls).restored + Restores(BookOf(Run(calls)), call),
                                          Run(calls).events + Emits(BookOf(Run(calls)), call))
    ensures BookOf(Run(calls + [call])) == Effect(BookOf(Run(calls)), call)
  {
    hide BookOf, Restores, Emits, Effect;
    assert (calls + [call])[..|calls|] == calls;
    LedgerStep(Run(calls), call);
  }

  lemma EnterKeepsTicket(b: Book, t: Ticket, id: string)
    requires ValidTicket(t) && t.status.Pending?
    requires id == t.ticketId || TicketFits(b, id)
    ensures TicketFits(Enter(b, t), id)
  {
    hide ValidTicket;
  }

  lemma EnterKeepsRecord(b: Book, t: Ticket, d: string)
    requires RecordFits(b, d) && t.ticketId !in b.tickets
    ensures RecordFits(Enter(b, t), d)
  {
  }

  lemma EnterKeepsKeys(b: Book, t: Ticket)
    requires SameKeys(b) && t.ticketId !in b.tickets
    ensures SameKeys(Enter(b, t)) && Enter(b, t).tickets.Keys == b.tickets.Keys + {t.ticketId}
    ensures Enter(b, t).decisionRecords == b.decisionRecords
  {
  }

  lemma EnterKeepsSound(b: Book, t: Ticket)
    requires Sound(b) && ValidTicket(t) && t.status.Pending? && t.ticketId !in b.tickets
    ensures Sound(Enter(b, t))
  {
    hide ValidTicket, TicketFits, RecordFits, Enter, SameKeys;
    var after := Enter(b, t);
    EnterKeepsKeys(b, t);
    forall id | id in after.tickets ensures TicketFits(after, id) {
      EnterKeepsTicket(b, t, id);
    }
    forall d | d in after.decisionRecords ensures RecordFits(after, d) {
      EnterKeepsRecord(b, t, d);
    }
  }

  lemma DecisionFits(t: Ticket, q: DecisionRequest)
    requires ValidTicket(t) && t.status.Pending? && q.Valid() && Timely(t, q)
    ensures var r := NewDecision(t, q);
            && ValidTicket(r.ticket) && r.ticket.ticketId == t.ticketId && r.ticket.createRequest == t.createRequest
            && r.decisionId == q.decisionId && r.ticketId == q.ticketId && r.request == q
            && r.previousStatus.Pending? && r.newStatus == r.ticket.status == Decided(q.decision)
            && r.ticket.decisionId == Some(q.decisionId)
  {
  }

  /** The record decides a ticket that is pending in the book, under an id the book does not know. */
  ghost predicate Records(b: Book, r: DecisionRecord) {
    && r.decisionId !in b.decisionRecords && r.ticketId in b.tickets && b.tickets[r.ticketId].status.Pending?
    && ValidTicket(r.ticket) && r.ticket.ticketId == r.ticketId && r.ticket.createRequest == b.tickets[r.ticketId].createRequest
    && r.request.decisionId == r.decisionId && r.request.ticketId == r.ticketId && r.previousStatus.Pending?
    && r.newStatus == r.ticket.status == Decided(r.request.decision) && r.ticket.decisionId == Some(r.decisionId)
  }

  lemma RecordingKeepsTicket(b: Book, r: DecisionRecord, id: string)
    requires Records(b, r) && TicketFits(b, id)
    ensures TicketFits(Learn(b, TicketDecided(r)), id)
  {
    hide ValidTicket;
  }

  lemma RecordingKeepsRecord(b: Book, r: DecisionRecord, d: string)
    requires Records(b, r) && (d == r.decisionId || RecordFits(b, d))
    ensures RecordFits(Learn(b, TicketDecided(r)), d)
  {
    hide ValidTicket;
  }

  lemma RecordingKeepsKeys(b: Book, r: DecisionRecord)
    requires SameKeys(b) && Records(b, r)
    ensures var after := Learn(b, TicketDecided(r));
            && SameKeys(after) && after.tickets.Keys == b.tickets.Keys
            && after.decisionRecords.Keys == b.decisionRecords.Keys + {r.decisionId}
  {
    hide ValidTicket;
  }

  /** A decided ticket and its record take their places in a sound book. */
  lemma RecordingKeepsSound(b: Book, r: DecisionRecord)
    requires Sound(b) && Records(b, r)
    ensures Sound(Learn(b, TicketDecided(r)))
  {
    hide Records, TicketFits, RecordFits, Learn, SameKeys;
    var after := Learn(b, TicketDecided(r));
    RecordingKeepsKeys(b, r);
    assert forall id :: id in after.tickets ==> TicketFits(after, id) by {
      forall id | id in after.tickets ensures TicketFits(after, id) {
        assert id in b.tickets.Keys;
        RecordingKeepsTicket(b, r, id);
      }
    }
    assert forall d :: d in after.decisionRecords ==> RecordFits(after, d) by {
      forall d | d in after.decisionRecords ensures RecordFits(after, d) {
        assert d in b.decisionRecords.Keys + {r.decisionId};
        RecordingKeepsRecord(b, r, d);
      }
    }
  }

  lemma NewDecisionRecords(b: Book, q: DecisionRequest)
    requires Sound(b) && q.Valid() && q.decisionId !in b.decisionRequests && Decidable(b, q).Ok?
    ensures Records(b, NewDecision(Decidable(b, q).value, q))
    ensures Effect(b, Decide(q)) == Learn(b, TicketDecided(NewDecision(Decidable(b, q).value, q)))
  {
    hide ValidTicket;
    assert SameKeys(b) && TicketFits(b, q.ticketId);
    hide Sound;
    DecisionFits(Decidable(b, q).value, q);
  }

  lemma EffectKeepsSound(b: Book, call: Call)
    requires Sound(b) && ValidCall(call)
    ensures Sound(Effect(b, call))
  {
    assert SameKeys(b);
    hide Sound;
    if call.Decide? && call.decide.decisionId !in b.decisionRequests && Decidable(b, call.decide).Ok? {
      NewDecisionRecords(b, call.decide);
      RecordingKeepsSound(b, NewDecision(Decidable(b, call.decide).value, call.decide));
    } else if call.Create? && call.create.ticketId !in b.createRequests {
      EnterKeepsSound(b, NewTicket(call.create));
    } else if call.Restore? && RestoreReply(b, call.ticket).Ok? && call.ticket.ticketId !in b.tickets {
      EnterKeepsSound(b, call.ticket);
    }
  }

  /** A ticket is no longer pending exactly when one decision record names it, and then only that one does. */
  lemma DecidedExactlyOnce(b: Book, id: string)
    requires Sound(b) && id in b.tickets
    ensures b.tickets[id].status.Decided? <==> DecidedOnce(b, id)
  {
    hide ValidTicket, Sound;
    SoundAt(b, id);
    forall d | d in b.decisionRecords
      ensures RecordFits(b, d)
    {
      SoundRecordAt(b, d);
    }
  }

  lemma SoundAt(b: Book, id: string)
    requires Sound(b) && id in b.tickets
    ensures TicketFits(b, id)
  {
  }

  lemma SoundRecordAt(b: Book, d: string)
    requires Sound(b) && d in b.decisionRecords
    ensures RecordFits(b, d)
  {
  }

  lemma EmptyIsSound()
    ensures Sound(BookOf(Run([])))
  {
  }

  lemma {:induction false} RunsAreSound(calls: seq<Call>)
    requires ValidCalls(calls)
    ensures Sound(BookOf(Run(calls)))
  {
    hide Sound, Effect, BookOf, ValidCall;
    if calls == [] {
      EmptyIsSound();
    } else {
      var before, last := calls[..|calls| - 1], calls[|calls| - 1];
      assert calls == before + [last];
      RunsAreSound(before);
      RunSnoc(before, last);
      EffectKeepsSound(BookOf(Run(before)), last);
    }
  }

  // ---------- what later calls cannot undo ----------

  /** What a later book still holds of an earlier one: everything but the tickets then pending. */
  ghost predicate Extends(b: Book, later: Book) {
    && (forall id :: id in b.createRequests ==> id in later.createRequests && later.createRequests[id] == b.createRequests[id])
    && (forall id :: id in b.createTickets ==> id in later.createTickets && later.createTickets[id] == b.createTickets[id])
    && (forall d :: d in b.decisionRequests ==> d in later.decisionRequests && later.decisionRequests[d] == b.decisionRequests[d])
    && (forall d :: d in b.decisionRecords ==> d in later.decisionRecords && later.decisionRecords[d] == b.decisionRecords[d])
    && (forall id :: id in b.tickets ==> id in later.tickets && (b.tickets[id].status.Decided? ==> later.tickets[id] == b.tickets[id]))
  }

  lemma EnterExtends(b: Book, t: Ticket)
    requires SameKeys(b) && t.ticketId !in b.tickets
    ensures Extends(b, Enter(b, t))
  {
  }

  lemma DecideExtends(b: Book, q: DecisionRequest)
    requires SameKeys(b)
    ensures Extends(b, Effect(b, Decide(q)))
  {
    hide NewDecision;
  }

  lemma NothingExtends(b: Book)
    ensures Extends(b, b)
  {
  }

  lemma EffectExtends(b: Book, call: Call)
    requires SameKeys(b)
    ensures Extends(b, Effect(b, call))
  {
    hide Extends, NewDecision, Enter;
    if call.Decide? {
      DecideExtends(b, call.decide);
    } else if Effect(b, call) != b {
      EnterExtends(b, if call.Create? then NewTicket(call.create) else call.ticket);
    } else {
      NothingExtends(b);
    }
  }

  /** Once decided, a ticket keeps its decision for ever; requests and records are never rewritten. */
  lemma {:induction false} LaterBooksExtend(calls: seq<Call>, more: seq<Call>)
    requires ValidCalls(calls + more)
    ensures Extends(BookOf(Run(calls)), BookOf(Run(calls + more)))
    decreases |more|
  {
    if more == [] {
      assert calls + more == calls;
    } else {
      var before, last := calls + more[..|more| - 1], more[|more| - 1];
      assert calls + more == before + [last];
      assert forall i :: 0 <= i < |before| ==> before[i] == (calls + more)[i];
      LaterBooksExtend(calls, more[..|more| - 1]);
      RunsAreSound(before);
      RunSnoc(before, last);
      EffectExtends(BookOf(Run(before)), last);
      ExtendsTransitive(BookOf(Run(calls)), BookOf(Run(before)), Effect(BookOf(Run(before)), last));
    }
  }

  lemma ExtendsTransitive(b: Book, middle: Book, later: Book)
    requires Extends(b, middle) && Extends(middle, later)
    ensures Extends(b, later)
  {
  }

  lemma CreateIsKept(b: Book, q: CreateRequest, later: Book)
    requires CreateReply(b, q).Ok? && Extends(Effect(b, Create(q)), later)
    ensures CreateReply(later, q) == CreateReply(b, q)
    ensures Emits(later, Create(q)) == [] && Restores(later, Create(q)) == map[]
  {
    assert NewTicket(q).ticketId == q.ticketId && NewTicket(q).createRequest == q;
    hide NewTicket;
  }

  lemma DecisionIsKept(b: Book, q: DecisionRequest, later: Book)
    requires DecideReply(b, q).Ok? && Extends(Effect(b, Decide(q)), later)
    ensures DecideReply(later, q) == DecideReply(b, q)
    ensures Emits(later, Decide(q)) == [] && Restores(later, Decide(q)) == map[]
  {
    hide NewDecision;
  }

  /** A creation that once succeeded is answered with the same ticket ever after, and changes nothing. */
  lemma RepeatedCreateIsHistory(calls: seq<Call>, q: CreateRequest, more: seq<Call>)
    requires ValidCalls(calls + [Create(q)] + more) && CreateReply(BookOf(Run(calls)), q).Ok?
    ensures var all := calls + [Create(q)] + more;
            && CreateReply(BookOf(Run(all)), q) == CreateReply(BookOf(Run(calls)), q)
            && Run(all + [Create(q)]) == Run(all)
  {
    hide CreateReply, Effect, Extends, BookOf, Run, Emits, Restores;
    var all := calls + [Create(q)] + more;
    RunSnoc(calls, Create(q));
    LaterBooksExtend(calls + [Create(q)], more);
    CreateIsKept(BookOf(Run(calls)), q, BookOf(Run(all)));
    RunSnoc(all, Create(q));
    NothingAdded(Run(all));
  }

  /** A decision that once succeeded is answered with the same record ever after, and changes nothing. */
  lemma RepeatedDecisionIsHistory(calls: seq<Call>, q: DecisionRequest, more: seq<Call>)
    requires ValidCalls(calls + [Decide(q)] + more) && DecideReply(BookOf(Run(calls)), q).Ok?
    ensures var all := calls + [Decide(q)] + more;
            && DecideReply(BookOf(Run(all)), q) == DecideReply(BookOf(Run(calls)), q)
            && Run(all + [Decide(q)]) == Run(all)
  {
    hide DecideReply, Effect, Extends, BookOf, Run, Emits, Restores;
    var all := calls + [Decide(q)] + more;
    RunSnoc(calls, Decide(q));
    LaterBooksExtend(calls + [Decide(q)], more);
    DecisionIsKept(BookOf(Run(calls)), q, BookOf(Run(all)));
    RunSnoc(all, Decide(q));
    NothingAdded(Run(all));
  }

  // ---------- the journal ----------

  /** Journaled decisions and the book's records are the same, and no two share a decision id or a ticket. */
  ghost predicate JournalDecidesOnce(b: Book, events: seq<BookEvent>) {
    && (forall i :: 0 <= i < |events| && events[i].TicketDecided? ==>
                      var r := events[i].record;
                      r.decisionId in b.decisionRecords && b.decisionRecords[r.decisionId] == r)
    && (forall d :: d in b.decisionRecords ==> b.decisionRecords[d].decisionId == d && TicketDecided(b.decisionRecords[d]) in events)
    && (forall i, j :: 0 <= i < j < |events| && events[i].TicketDecided? && events[j].TicketDecided? ==>
                         && events[i].record.decisionId != events[j].record.decisionId
                         && events[i].record.ticketId != events[j].record.ticketId)
  }

  lemma JournalGainsDecision(b: Book, events: seq<BookEvent>, r: DecisionRecord, later: Book)
    requires JournalDecidesOnce(b, events) && r.decisionId !in b.decisionRecords
    requires forall d :: d in b.decisionRecords ==> b.decisionRecords[d].ticketId != r.ticketId
    requires later.decisionRecords == b.decisionRecords[r.decisionId := r]
    ensures JournalDecidesOnce(later, events + [TicketDecided(r)])
  {
    var all := events + [TicketDecided(r)];
    assert all[|events|] == TicketDecided(r);
    forall i, j | 0 <= i < j < |all| && all[i].TicketDecided? && all[j].TicketDecided?
      ensures all[i].record.decisionId != all[j].record.decisionId && all[i].record.ticketId != all[j].record.ticketId
    {
      assert all[i] == events[i];
      if j < |events| {
        assert all[j] == events[j];
      } else {
        assert events[i].record.decisionId in b.decisionRecords;
      }
    }
  }

  lemma FreshDecisionIsUnnamed(b: Book, q: DecisionRequest)
    requires Sound(b) && q.decisionId !in b.decisionRequests && Decidable(b, q).Ok?
    ensures q.decisionId !in b.decisionRecords
    ensures forall d :: d in b.decisionRecords ==> b.decisionRecords[d].ticketId != q.ticketId
  {
    assert SameKeys(b);
    forall d | d in b.decisionRecords ensures b.decisionRecords[d].ticketId != q.ticketId {
      assert RecordFits(b, d);
    }
  }

  lemma RecordsAfter(b: Book, call: Call)
    ensures Effect(b, call).decisionRecords ==
            if Emits(b, call) != [] && call.Decide?
            then b.decisionRecords[call.decide.decisionId := NewDecision(Decidable(b, call.decide).value, call.decide)]
            else b.decisionRecords
    ensures Emits(b, call) == [] || (exists e :: Emits(b, call) == [e] && (e.TicketDecided? <==> call.Decide?))
  {
    if Emits(b, call) != [] {
      assert Emits(b, call) == [Emits(b, call)[0]];
    }
  }

  lemma JournalDecidesOnceStep(b: Book, events: seq<BookEvent>, call: Call)
    requires Sound(b) && JournalDecidesOnce(b, events)
    ensures JournalDecidesOnce(Effect(b, call), events + Emits(b, call))
  {
    hide Sound, Effect, NewDecision;
    RecordsAfter(b, call);
    if call.Decide? && Emits(b, call) != [] {
      hide JournalDecidesOnce;
      FreshDecisionIsUnnamed(b, call.decide);
      var r := NewDecision(Decidable(b, call.decide).value, call.decide);
      assert r.decisionId == call.decide.decisionId && r.ticketId == call.decide.ticketId by {
        DecisionNames(Decidable(b, call.decide).value, call.decide);
      }
      JournalGainsDecision(b, events, r, Effect(b, call));
    }
  }

  lemma DecisionNames(t: Ticket, q: DecisionRequest)
    ensures NewDecision(t, q).decisionId == q.decisionId && NewDecision(t, q).ticketId == q.ticketId
  {
  }

  lemma {:induction false} RunsDecideOnce(calls: seq<Call>)
    requires ValidCalls(calls)
    ensures JournalDecidesOnce(BookOf(Run(calls)), Run(calls).events)
  {
    hide JournalDecidesOnce, Sound, Effect, Emits, BookOf;
    if calls == [] {
      NothingDecided();
    } else {
      var before, last := calls[..|calls| - 1], calls[|calls| - 1];
      assert calls == before + [last];
      RunsDecideOnce(before);
      RunsAreSound(before);
      RunSnoc(before, last);
      JournalDecidesOnceStep(BookOf(Run(before)), Run(before).events, last);
    }
  }

  lemma NothingDecided()
    ensures JournalDecidesOnce(BookOf(Run([])), [])
  {
  }

  // ---------- the ticket book ----------

  class ApprovalTicketBook {
    const journal: Journal<BookEvent>
    var createRequests: map<string, CreateRequest>
    var createTickets: map<string, Ticket>
    var tickets: map<string, Ticket>
    var decisionRequests: map<string, DecisionRequest>
    var decisionRecords: map<string, DecisionRecord>
    ghost var calls: seq<Call>
    ghost const earlier: seq<BookEvent>

    ghost function Snapshot(): Book
      reads this
    {
      Book(createRequests, createTickets, tickets, decisionRequests, decisionRecords)
    }

    /** The fields are the journal folded onto the restored tickets, and earlier journal entries are kept. */
    ghost predicate Valid()
      reads this, journal
    {
      && journal.Valid()
      && ValidCalls(calls)
      && journal.Events() == earlier + Run(calls).events
      && Snapshot() == BookOf(Run(calls))
    }

    constructor (journal: Journal<BookEvent>)
      requires journal.Valid()
      ensures Valid() && calls == [] && this.journal == journal && earlier == journal.Events()
    {
      this.journal := journal;
      createRequests, createTickets, tickets, decisionRequests, decisionRecords := map[], map[], map[], map[], map[];
      calls := [];
      earlier := journal.Events();
      new;
      assert Snapshot() == BookOf(Run([]));
    }

    method CreateTicket(q: CreateRequest) returns (r: Result<Ticket, BookError>)
      requires Valid() && q.Valid()
      modifies this, journal
      ensures Valid() && calls == old(calls) + [Create(q)]
      ensures r == CreateReply(old(Snapshot()), q)
    {
      hide BookOf, Run, Sound;
      RunsAreSound(calls);
      RunSnoc(calls, Create(q));
      SoundKeys(Snapshot());
      calls := calls + [Create(q)];
      if q.ticketId in createRequests {
        if createRequests[q.ticketId] != q {
          return Err(ConflictingTicketId);
        }
        return Ok(createTickets[q.ticketId]);
      }
      var ticket := NewTicket(q);
      var _ := journal.Append(ticket.createdAt, TicketCreated(ticket));
      createRequests := createRequests[q.ticketId := q];
      createTickets := createTickets[q.ticketId := ticket];
      tickets := tickets[q.ticketId := ticket];
      return Ok(ticket);
    }

    method RestorePendingTicket(t: Ticket) returns (r: Result<(), BookError>)
      requires Valid() && ValidTicket(t)
      modifies this
      ensures Valid() && calls == old(calls) + [Restore(t)]
      ensures r == RestoreReply(old(Snapshot()), t)
    {
      hide BookOf, Run, Sound, ValidTicket;
      RunSnoc(calls, Restore(t));
      calls := calls + [Restore(t)];
      if !t.status.Pending? {
        return Err(NotRestorable);
      }
      if t.ticketId in tickets {
        return if tickets[t.ticketId] != t then Err(ConflictingRestore) else Ok(());
      }
      createRequests := createRequests[t.ticketId := t.createRequest];
      createTickets := createTickets[t.ticketId := t];
      tickets := tickets[t.ticketId := t];
      return Ok(());
    }

    /** The ticket a decision may be applied to; nothing changes. */
    method ValidateDecision(q: DecisionRequest) returns (r: Result<Ticket, BookError>)
      ensures r == Decidable(Snapshot(), q)
    {
      if q.ticketId !in tickets {
        return Err(UnknownTicket);
      }
      var ticket := tickets[q.ticketId];
      if !ticket.status.Pending? {
        return Err(NotPending);
      }
      if q.decision.Expired? {
        if q.decidedAt.instant < ticket.expiresAt.instant {
          return Err(ExpiredTooEarly);
        }
      } else if q.decidedAt.instant > ticket.expiresAt.instant {
        return Err(TicketExpired);
      }
      return Ok(ticket);
    }

    method ApplyDecision(q: DecisionRequest) returns (r: Result<DecisionRecord, BookError>)
      requires Valid() && q.Valid()
      modifies this, journal
      ensures Valid() && calls == old(calls) + [Decide(q)]
      ensures r == DecideReply(old(Snapshot()), q)
    {
      hide BookOf, Run, Sound, Decidable;
      RunsAreSound(calls);
      RunSnoc(calls, Decide(q));
      SoundKeys(Snapshot());
      calls := calls + [Decide(q)];
      if q.decisionId in decisionRequests {
        if decisionRequests[q.decisionId] != q {
          return Err(ConflictingDecisionId);
        }
        return Ok(decisionRecords[q.decisionId]);
      }
      var validated := ValidateDecision(q);
      if validated.Err? {
        return Err(validated.error);
      }
      var record := NewDecision(validated.value, q);
      var _ := journal.Append(record.decidedAt, TicketDecided(record));
      tickets := tickets[q.ticketId := record.ticket];
      decisionRequests := decisionRequests[q.decisionId := q];
      decisionRecords := decisionRecords[q.decisionId := record];
      return Ok(record);
    }

    method CurrentTicket(ticketId: string) returns (r: Result<Ticket, BookError>)
      requires Valid()
      ensures r.Ok? <==> NonBlank(ticketId) && ticketId in tickets
      ensures r.Ok? ==> r.value == tickets[ticketId] && r.value.ticketId == ticketId && ValidTicket(r.value)
      ensures r.Err? ==> r.error == if NonBlank(ticketId) then UnknownTicket else InvalidIdentifier
    {
      hide BookOf, Run, ValidTicket, NonBlank;
      if !NonBlank(ticketId) {
        return Err(InvalidIdentifier);
      }
      if ticketId !in tickets {
        return Err(UnknownTicket);
      }
      RunsAreSound(calls);
      assert TicketFits(Snapshot(), ticketId);
      return Ok(tickets[ticketId]);
    }
  }

  lemma SoundKeys(b: Book)
    requires Sound(b)
    ensures SameKeys(b)
  {
  }
}
