/** What the ticket book makes of its requests, told in the fields of requests, tickets and records. */
module ApprovalLaws {
  import opened Foundations
  import opened Identifiers
  import opened ApprovalTickets

  // ---------- fields that are carried over ----------

  /** The ticket has the order fields and the times of the request. */
  predicate Carries(t: Ticket, q: CreateRequest) {
    && t.ticketId == q.ticketId && t.orderId == q.orderId && t.clientOrderId == q.clientOrderId
    && t.symbol == q.symbol && t.side == q.side && t.quantity == q.quantity && t.riskIntent == q.riskIntent
    && t.riskDecisionId == q.riskDecisionId && t.omsTransitionReference == q.omsTransitionReference
    && t.createdAt == q.createdAt && t.expiresAt == q.expiresAt && t.createRequest == q
  }

  /** The two tickets differ in nothing but their status and decision fields. */
  predicate SameOrder(t: Ticket, u: Ticket) {
    && t.ticketId == u.ticketId && t.orderId == u.orderId && t.clientOrderId == u.clientOrderId
    && t.symbol == u.symbol && t.side == u.side && t.quantity == u.quantity && t.riskIntent == u.riskIntent
    && t.riskDecisionId == u.riskDecisionId && t.omsTransitionReference == u.omsTransitionReference
    && t.createdAt == u.createdAt && t.expiresAt == u.expiresAt && t.createRequest == u.createRequest
  }

  predicate Undecided(t: Ticket) {
    && t.status == Pending && t.decisionId == None && t.decidedAt == None
    && t.actor == None && t.reference == None && t.reason == None
  }

  /** The ticket was decided by this request, at a time the ticket allows. */
  predicate DecidedBy(t: Ticket, q: DecisionRequest) {
    && t.ticketId == q.ticketId && t.status == Decided(q.decision) && t.decisionId == Some(q.decisionId)
    && t.decidedAt == Some(q.decidedAt) && t.actor == Some(q.actor) && t.reference == Some(q.reference)
    && t.reason == Some(q.reason)
    && (q.decision == Expired ==> t.expiresAt.instant <= q.decidedAt.instant)
    && (q.decision != Expired ==> q.decidedAt.instant <= t.expiresAt.instant)
  }

  /** The record of a decision that took the ticket out of its pending state. */
  predicate Records(r: DecisionRecord, q: DecisionRequest, t: Ticket) {
    && r.decisionId == q.decisionId && r.ticketId == q.ticketId && r.previousStatus == Pending
    && r.newStatus == Decided(q.decision) && r.decidedAt == q.decidedAt && r.actor == q.actor
    && r.reference == q.reference && r.reason == q.reason && r.request == q && r.ticket == t
  }

  // ---------- exactly when each reply is given ----------

  /** A creation is new, repeated, or in conflict; a new ticket carries its request and awaits a decision. */
  lemma CreationExactly(b: Book, q: CreateRequest)
    requires SameKeys(b)
    ensures var r, known := CreateReply(b, q), q.ticketId in b.createRequests;
            && (r.Err? <==> known && b.createRequests[q.ticketId] != q)
            && (r.Err? ==> r.error == ConflictingTicketId)
            && (known && b.createRequests[q.ticketId] == q ==> r == Ok(b.createTickets[q.ticketId]))
            && (!known ==> r.Ok? && Carries(r.value, q) && Undecided(r.value))
  {
  }

  lemma RestorationExactly(b: Book, t: Ticket)
    ensures var r := RestoreReply(b, t);
            && (r == Err(NotRestorable) <==> t.status != Pending)
            && (r == Err(ConflictingRestore) <==> t.status == Pending && t.ticketId in b.tickets && b.tickets[t.ticketId] != t)
            && (r == Ok(()) <==> t.status == Pending && (t.ticketId in b.tickets ==> b.tickets[t.ticketId] == t))
  {
  }

  /** Exactly which refusal a decision meets. */
  lemma DecisionRefusedExactly(b: Book, q: DecisionRequest)
    requires SameKeys(b)
    ensures var r, known, here := DecideReply(b, q), q.decisionId in b.decisionRequests, q.ticketId in b.tickets;
            && (r == Err(ConflictingDecisionId) <==> known && b.decisionRequests[q.decisionId] != q)
            && (r == Err(UnknownTicket) <==> !known && !here)
            && (r == Err(NotPending) <==> !known && here && b.tickets[q.ticketId].status != Pending)
            && (r == Err(ExpiredTooEarly) <==>
                  && !known && here && b.tickets[q.ticketId].status == Pending
                  && q.decision == Expired && q.decidedAt.instant < b.tickets[q.ticketId].expiresAt.instant)
            && (r == Err(TicketExpired) <==>
                  && !known && here && b.tickets[q.ticketId].status == Pending
                  && q.decision != Expired && q.decidedAt.instant > b.tickets[q.ticketId].expiresAt.instant)
            && (r.Err? ==> r.error in {ConflictingDecisionId, UnknownTicket, NotPending, ExpiredTooEarly, TicketExpired})
            && (r.Ok? && known ==> r.value == b.decisionRecords[q.decisionId])
            && (r.Ok? && !known ==> here && b.tickets[q.ticketId].status == Pending)
  {
    hide NewDecision;
  }

  /** A new decision takes the ticket out of its pending state, with the request's fields and nothing else changed. */
  lemma DecisionCarriesRequest(b: Book, q: DecisionRequest)
    requires q.decisionId !in b.decisionRequests && DecideReply(b, q).Ok?
    requires q.ticketId in b.tickets ==> b.tickets[q.ticketId].ticketId == q.ticketId
    ensures q.ticketId in b.tickets
    ensures var r := DecideReply(b, q).value;
            Records(r, q, r.ticket) && DecidedBy(r.ticket, q) && SameOrder(r.ticket, b.tickets[q.ticketId])
  {
  }

  // ---------- over whole runs ----------

  ghost predicate WasCreated(calls: seq<Call>, q: CreateRequest) {
    exists i :: 0 <= i < |calls| && calls[i] == Create(q)
  }

  ghost predicate WasDecided(calls: seq<Call>, q: DecisionRequest) {
    exists i :: 0 <= i < |calls| && calls[i] == Decide(q)
  }

  /** The ticket is as it was entered, undecided or decided by one of the calls, and its first entry was asked for. */
  ghost predicate TicketIsAsked(l: Ledger, b: Book, calls: seq<Call>, id: string)
    requires SameKeys(b) && id in b.tickets
  {
    var t, first := b.tickets[id], b.createTickets[id];
    && SameOrder(t, first) && Undecided(first)
    && (id in l.restored ==> first == l.restored[id])
    && (id !in l.restored ==> Carries(first, b.createRequests[id]) && WasCreated(calls, b.createRequests[id]))
    && (t == first || exists q :: WasDecided(calls, q) && DecidedBy(t, q))
  }

  /** Each record is of a decision that was asked for, on a ticket as it stands. */
  ghost predicate RecordIsAsked(b: Book, calls: seq<Call>, d: string)
    requires d in b.decisionRecords
  {
    var r := b.decisionRecords[d];
    WasDecided(calls, r.request) && r.request.decisionId == d && Records(r, r.request, r.ticket) && DecidedBy(r.ticket, r.request)
  }

  ghost predicate AllAsked(l: Ledger, b: Book, calls: seq<Call>) {
    && SameKeys(b) && l.restored.Keys <= b.tickets.Keys
    && (forall id :: id in b.tickets ==> TicketIsAsked(l, b, calls, id))
    && (forall d :: d in b.decisionRecords ==> RecordIsAsked(b, calls, d))
  }

  /** Whatever was asked for in the calls was asked for in these. */
  ghost predicate AsksAll(more: seq<Call>, calls: seq<Call>) {
    && (forall q :: WasCreated(calls, q) ==> WasCreated(more, q))
    && (forall q :: WasDecided(calls, q) ==> WasDecided(more, q))
  }

  lemma MoreCallsAsk(calls: seq<Call>, call: Call)
    ensures AsksAll(calls + [call], calls)
    ensures call.Create? ==> WasCreated(calls + [call], call.create)
    ensures call.Decide? ==> WasDecided(calls + [call], call.decide)
  {
    var more := calls + [call];
    assert more[|calls|] == call;
    forall q | WasCreated(calls, q) ensures WasCreated(more, q) {
      var i :| 0 <= i < |calls| && calls[i] == Create(q);
      assert more[i] == Create(q);
    }
    forall q | WasDecided(calls, q) ensures WasDecided(more, q) {
      var i :| 0 <= i < |calls| && calls[i] == Decide(q);
      assert more[i] == Decide(q);
    }
  }

  /** A ticket that a call leaves alone, with its entry, is as it was asked for. */
  lemma TicketStaysAsked(l: Ledger, b: Book, calls: seq<Call>, later: Ledger, next: Book, more: seq<Call>, id: string)
    requires SameKeys(b) && SameKeys(next) && AsksAll(more, calls)
    requires id in b.tickets && id in next.tickets && TicketIsAsked(l, b, calls, id)
    requires next.tickets[id] == b.tickets[id] && next.createTickets[id] == b.createTickets[id]
    requires next.createRequests[id] == b.createRequests[id]
    requires id in later.restored <==> id in l.restored
    requires id in l.restored ==> later.restored[id] == l.restored[id]
    ensures TicketIsAsked(later, next, more, id)
  {
    hide WasCreated, WasDecided, DecidedBy, SameOrder, Carries, Undecided;
    var t := b.tickets[id];
    if t != b.createTickets[id] {
      var q :| WasDecided(calls, q) && DecidedBy(t, q);
      assert WasDecided(more, q);
    }
  }

  lemma RecordStaysAsked(b: Book, calls: seq<Call>, next: Book, more: seq<Call>, d: string)
    requires AsksAll(more, calls) && d in b.decisionRecords && RecordIsAsked(b, calls, d)
    requires d in next.decisionRecords && next.decisionRecords[d] == b.decisionRecords[d]
    ensures RecordIsAsked(next, more, d)
  {
    hide WasCreated, WasDecided, DecidedBy, Records;
  }

  lemma UnchangedStaysAsked(l: Ledger, b: Book, calls: seq<Call>, later: Ledger, more: seq<Call>)
    requires AllAsked(l, b, calls) && AsksAll(more, calls) && later.restored == l.restored
    ensures AllAsked(later, b, more)
  {
    hide AsksAll, TicketIsAsked, RecordIsAsked;
    forall id | id in b.tickets ensures TicketIsAsked(later, b, more, id) {
      TicketStaysAsked(l, b, calls, later, b, more, id);
    }
    forall d | d in b.decisionRecords ensures RecordIsAsked(b, more, d) {
      RecordStaysAsked(b, calls, b, more, d);
    }
  }

  lemma SameAsItself(t: Ticket)
    ensures SameOrder(t, t)
  {
  }

  /** A ticket just entered, by a restoration or by a creation that carries its request. */
  lemma NewTicketIsAsked(later: Ledger, next: Book, more: seq<Call>, t: Ticket)
    requires SameKeys(next) && Undecided(t) && t.ticketId in next.tickets
    requires next.tickets[t.ticketId] == next.createTickets[t.ticketId] == t && next.createRequests[t.ticketId] == t.createRequest
    requires if t.ticketId in later.restored then later.restored[t.ticketId] == t
             else Carries(t, t.createRequest) && WasCreated(more, t.createRequest)
    ensures TicketIsAsked(later, next, more, t.ticketId)
  {
    hide WasCreated, WasDecided, DecidedBy, SameOrder, Carries, Undecided;
    SameAsItself(t);
  }

  /** Entering a ticket that no call has named yet. */
  lemma EnteredIsAsked(l: Ledger, b: Book, calls: seq<Call>, later: Ledger, more: seq<Call>, t: Ticket)
    requires AllAsked(l, b, calls) && AsksAll(more, calls) && t.ticketId !in b.tickets && Undecided(t)
    requires || later.restored == l.restored[t.ticketId := t]
             || (later.restored == l.restored && Carries(t, t.createRequest) && WasCreated(more, t.createRequest))
    ensures AllAsked(later, Enter(b, t), more)
  {
    hide AsksAll, TicketIsAsked, RecordIsAsked, Carries, Undecided, WasCreated;
    var next := Enter(b, t);
    forall id | id in next.tickets ensures TicketIsAsked(later, next, more, id) {
      if id == t.ticketId {
        NewTicketIsAsked(later, next, more, t);
      } else {
        TicketStaysAsked(l, b, calls, later, next, more, id);
      }
    }
    forall d | d in next.decisionRecords ensures RecordIsAsked(next, more, d) {
      RecordStaysAsked(b, calls, next, more, d);
    }
  }

  lemma SameOrderIsTransitive(t: Ticket, u: Ticket, v: Ticket)
    requires SameOrder(t, u) && SameOrder(u, v)
    ensures SameOrder(t, v)
  {
  }

  /** What a new decision changes in the book. */
  lemma DecisionIsStored(b: Book, q: DecisionRequest)
    requires q.decisionId !in b.decisionRequests && DecideReply(b, q).Ok?
    ensures var r, next := DecideReply(b, q).value, Effect(b, Decide(q));
            && q.ticketId in b.tickets
            && next == b.(tickets := b.tickets[q.ticketId := r.ticket], decisionRequests := b.decisionRequests[q.decisionId := q],
                          decisionRecords := b.decisionRecords[q.decisionId := r])
  {
    hide NewDecision;
  }

  lemma DecidedTicketIsAsked(l: Ledger, b: Book, calls: seq<Call>, next: Book, q: DecisionRequest)
    requires SameKeys(b) && SameKeys(next) && q.ticketId in b.tickets && TicketIsAsked(l, b, calls, q.ticketId)
    requires q.ticketId in next.tickets && next.createTickets == b.createTickets && next.createRequests == b.createRequests
    requires WasDecided(calls, q) && DecidedBy(next.tickets[q.ticketId], q) && SameOrder(next.tickets[q.ticketId], b.tickets[q.ticketId])
    ensures TicketIsAsked(l, next, calls, q.ticketId)
  {
    hide WasCreated, WasDecided, DecidedBy, SameOrder, Carries, Undecided;
    SameOrderIsTransitive(next.tickets[q.ticketId], b.tickets[q.ticketId], b.createTickets[q.ticketId]);
  }

  lemma NewRecordIsAsked(calls: seq<Call>, next: Book, q: DecisionRequest)
    requires q.decisionId in next.decisionRecords && WasDecided(calls, q)
    requires var r := next.decisionRecords[q.decisionId]; Records(r, q, r.ticket) && DecidedBy(r.ticket, q)
    ensures RecordIsAsked(next, calls, q.decisionId)
  {
    hide WasDecided, DecidedBy;
  }

  lemma DecidedIsAsked(l: Ledger, b: Book, calls: seq<Call>, q: DecisionRequest)
    requires AllAsked(l, b, calls) && WasDecided(calls, q) && q.decisionId !in b.decisionRequests && DecideReply(b, q).Ok?
    requires q.ticketId in b.tickets ==> b.tickets[q.ticketId].ticketId == q.ticketId
    ensures AllAsked(l, Effect(b, Decide(q)), calls)
  {
    hide AsksAll, TicketIsAsked, RecordIsAsked, WasDecided, DecidedBy, SameOrder, Records, Effect, DecideReply;
    DecisionCarriesRequest(b, q);
    DecisionIsStored(b, q);
    AsksItself(calls);
    var next := Effect(b, Decide(q));
    forall id | id in next.tickets ensures TicketIsAsked(l, next, calls, id) {
      if id == q.ticketId {
        DecidedTicketIsAsked(l, b, calls, next, q);
      } else {
        TicketStaysAsked(l, b, calls, l, next, calls, id);
      }
    }
    forall d | d in next.decisionRecords ensures RecordIsAsked(next, calls, d) {
      if d == q.decisionId {
        NewRecordIsAsked(calls, next, q);
      } else {
        RecordStaysAsked(b, calls, next, calls, d);
      }
    }
  }

  lemma AsksItself(calls: seq<Call>)
    ensures AsksAll(calls, calls)
  {
  }

  lemma CreateAsked(l: Ledger, b: Book, calls: seq<Call>, later: Ledger, more: seq<Call>, q: CreateRequest)
    requires AllAsked(l, b, calls) && AsksAll(more, calls) && WasCreated(more, q) && later.restored == l.restored
    ensures AllAsked(later, Effect(b, Create(q)), more)
  {
    hide AllAsked, AsksAll, WasCreated, Enter;
    if q.ticketId !in b.createRequests {
      assert SameKeys(b) by { KeysAgree(l, b, calls); }
      CreationExactly(b, q);
      EnteredIsAsked(l, b, calls, later, more, NewTicket(q));
    } else {
      UnchangedStaysAsked(l, b, calls, later, more);
    }
  }

  lemma RestoreAsked(l: Ledger, b: Book, calls: seq<Call>, later: Ledger, more: seq<Call>, t: Ticket)
    requires AllAsked(l, b, calls) && AsksAll(more, calls) && ValidTicket(t)
    requires later.restored == if RestoreReply(b, t).Ok? && t.ticketId !in b.tickets then l.restored[t.ticketId := t] else l.restored
    ensures AllAsked(later, Effect(b, Restore(t)), more)
  {
    hide AllAsked, AsksAll, Enter, NonBlank, PlainSymbol;
    if RestoreReply(b, t).Ok? && t.ticketId !in b.tickets {
      EnteredIsAsked(l, b, calls, later, more, t);
    } else {
      UnchangedStaysAsked(l, b, calls, later, more);
    }
  }

  lemma DecideAsked(l: Ledger, b: Book, calls: seq<Call>, later: Ledger, more: seq<Call>, q: DecisionRequest)
    requires AllAsked(l, b, calls) && AsksAll(more, calls) && WasDecided(more, q) && later.restored == l.restored
    requires q.ticketId in b.tickets ==> b.tickets[q.ticketId].ticketId == q.ticketId
    ensures AllAsked(later, Effect(b, Decide(q)), more)
  {
    hide AllAsked, AsksAll, WasDecided, NewDecision;
    UnchangedStaysAsked(l, b, calls, later, more);
    if q.decisionId !in b.decisionRequests && DecideReply(b, q).Ok? {
      DecidedIsAsked(later, b, more, q);
    }
  }

  lemma KeysAgree(l: Ledger, b: Book, calls: seq<Call>)
    requires AllAsked(l, b, calls)
    ensures SameKeys(b)
  {
  }

  lemma NothingRestored(l: Ledger, call: Call)
    requires !call.Restore?
    ensures Entered(l, call).restored == l.restored
  {
    hide BookOf, Emits;
  }

  lemma RestoredIsAdded(l: Ledger, call: Call)
    requires call.Restore?
    ensures Entered(l, call).restored ==
            if RestoreReply(BookOf(l), call.ticket).Ok? && call.ticket.ticketId !in BookOf(l).tickets
            then l.restored[call.ticket.ticketId := call.ticket] else l.restored
  {
    hide BookOf, Emits, RestoreReply;
  }

  lemma SoundIds(b: Book, id: string)
    requires Sound(b) && id in b.tickets
    ensures b.tickets[id].ticketId == id
  {
    hide ValidTicket, RecordFits;
    assert TicketFits(b, id);
  }

  lemma AskedStep(l: Ledger, calls: seq<Call>, call: Call)
    requires AllAsked(l, BookOf(l), calls) && Sound(BookOf(l)) && ValidCall(call)
    ensures AllAsked(Entered(l, call), Effect(BookOf(l), call), calls + [call])
  {
    hide AllAsked, AsksAll, BookOf, Effect, Entered, Sound, ValidTicket, WasCreated, WasDecided;
    var b, later, more := BookOf(l), Entered(l, call), calls + [call];
    MoreCallsAsk(calls, call);
    match call
    case Create(q) =>
      NothingRestored(l, call);
      CreateAsked(l, b, calls, later, more, q);
    case Restore(t) =>
      RestoredIsAdded(l, call);
      RestoreAsked(l, b, calls, later, more, t);
    case Decide(q) =>
      NothingRestored(l, call);
      if q.ticketId in b.tickets {
        SoundIds(b, q.ticketId);
      }
      DecideAsked(l, b, calls, later, more, q);
  }

  /**
    In every run each ticket still has the order fields it was entered with, those of a request that was
    made unless it was restored; it awaits a decision, or carries exactly the fields of one decision that
    was made, at a time it allows; and every record is of such a decision.
   */
  lemma {:induction false} TicketsAreAsAsked(calls: seq<Call>)
    requires ValidCalls(calls)
    ensures AllAsked(Run(calls), BookOf(Run(calls)), calls)
  {
    hide AllAsked, Sound, Effect, BookOf, ValidCall;
    if calls == [] {
      NothingAsked();
    } else {
      var before, last := calls[..|calls| - 1], calls[|calls| - 1];
      assert calls == before + [last];
      TicketsAreAsAsked(before);
      RunsAreSound(before);
      RunSnoc(before, last);
      AskedStep(Run(before), before, last);
    }
  }

  lemma NothingAsked()
    ensures AllAsked(Run([]), BookOf(Run([])), [])
  {
  }

  /** A journaled creation is of a request that was made and carries it; a journaled decision, of one that was made. */
  ghost predicate EntryIsAsked(e: BookEvent, calls: seq<Call>) {
    match e
    case TicketCreated(t) => WasCreated(calls, t.createRequest) && Carries(t, t.createRequest) && Undecided(t)
    case TicketDecided(r) => WasDecided(calls, r.request) && Records(r, r.request, r.ticket) && DecidedBy(r.ticket, r.request)
  }

  lemma EntryStaysAsked(e: BookEvent, calls: seq<Call>, more: seq<Call>)
    requires EntryIsAsked(e, calls) && AsksAll(more, calls)
    ensures EntryIsAsked(e, more)
  {
    hide WasCreated, WasDecided, Carries, Undecided, Records, DecidedBy;
  }

  lemma EmittedIsAsked(b: Book, call: Call, more: seq<Call>)
    requires Sound(b)
    requires call.Create? ==> WasCreated(more, call.create)
    requires call.Decide? ==> WasDecided(more, call.decide)
    ensures forall e :: e in Emits(b, call) ==> EntryIsAsked(e, more)
  {
    hide WasCreated, WasDecided, Sound, Carries, Undecided, Records, DecidedBy, NewDecision, NewTicket;
    match call
    case Create(q) =>
      if q.ticketId !in b.createRequests {
        SoundKeys(b);
        CreationExactly(b, q);
        CarriesItsRequest(NewTicket(q), q);
      }
    case Decide(q) =>
      if q.decisionId !in b.decisionRequests && Decidable(b, q).Ok? {
        if q.ticketId in b.tickets {
          SoundIds(b, q.ticketId);
        }
        DecisionCarriesRequest(b, q);
        RecordsItsRequest(NewDecision(Decidable(b, q).value, q), q);
      }
    case _ =>
  }

  lemma CarriesItsRequest(t: Ticket, q: CreateRequest)
    requires Carries(t, q)
    ensures t.createRequest == q
  {
  }

  lemma RecordsItsRequest(r: DecisionRecord, q: DecisionRequest)
    requires Records(r, q, r.ticket)
    ensures r.request == q
  {
  }

  /** Everything a run journals is what was asked for, field by field. */
  lemma {:induction false} JournalIsAsAsked(calls: seq<Call>)
    requires ValidCalls(calls)
    ensures forall e :: e in Run(calls).events ==> EntryIsAsked(e, calls)
  {
    hide EntryIsAsked, Sound, Effect, Emits, BookOf, ValidCall, WasCreated, WasDecided, AsksAll;
    if calls != [] {
      var before, last := calls[..|calls| - 1], calls[|calls| - 1];
      assert calls == before + [last];
      JournalIsAsAsked(before);
      RunsAreSound(before);
      RunSnoc(before, last);
      MoreCallsAsk(before, last);
      EmittedIsAsked(BookOf(Run(before)), last, calls);
      forall e | e in Run(before).events ensures EntryIsAsked(e, calls) {
        EntryStaysAsked(e, before, calls);
      }
    }
  }

  /** In every run each ticket is whole: named, for a quantity of a symbol, over a span of time, decided within it or expired after it. */
  lemma TicketsAreWhole(calls: seq<Call>, id: string)
    requires ValidCalls(calls) && id in BookOf(Run(calls)).tickets
    ensures var t := BookOf(Run(calls)).tickets[id];
            && t.ticketId == id && NonBlank(id) && NonBlank(t.orderId) && NonBlank(t.clientOrderId)
            && NonBlank(t.riskDecisionId) && NonBlank(t.omsTransitionReference)
            && NonBlank(t.symbol) && !(exists i :: 0 <= i < |t.symbol| && 'a' <= t.symbol[i] <= 'z')
            && t.quantity >= 1 && t.createdAt.instant < t.expiresAt.instant
            && (t.status == Pending <==> t.decisionId == None) && (t.status == Pending <==> t.decidedAt == None)
            && (t.status == Pending <==> t.actor == None) && (t.status == Pending <==> t.reference == None)
            && (t.status == Pending <==> t.reason == None)
            && (t.status == Decided(Expired) ==> t.expiresAt.instant <= t.decidedAt.value.instant)
            && (t.status.Decided? && t.status != Decided(Expired) ==> t.decidedAt.value.instant <= t.expiresAt.instant)
  {
    hide BookOf, Run, Sound, NonBlank;
    RunsAreSound(calls);
    SoundAt(BookOf(Run(calls)), id);
  }
}
