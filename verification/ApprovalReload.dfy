/** Reading journaled tickets and decisions back: the attribution checks, and when the book's own entries pass them. */
module ApprovalReload {
  import opened Foundations
  import opened ApprovalTickets
  import opened Identifiers

  /** The ticket repeats what its embedded creation request says. */
  predicate Attributed(t: Ticket) {
    var q := t.createRequest;
    && q.Valid()
    && q.ticketId == t.ticketId && q.orderId == t.orderId && q.clientOrderId == t.clientOrderId
    && q.riskDecisionId == t.riskDecisionId && q.omsTransitionReference == t.omsTransitionReference
    && q.createdAt == t.createdAt && q.expiresAt == t.expiresAt
  }

  predicate TicketReloads(t: Ticket) {
    Attributed(t) && ValidTicket(t)
  }

  predicate RecordReloads(r: DecisionRecord) {
    && r.request.Valid() && TicketReloads(r.ticket)
    && NonBlank(r.decisionId) && NonBlank(r.ticketId) && r.newStatus.Decided?
    && NonBlank(r.actor) && NonBlank(r.reference) && NonBlank(r.reason)
    && r.request.decisionId == r.decisionId && r.request.ticketId == r.ticketId
    && Decided(r.request.decision) == r.newStatus
    && r.ticket.ticketId == r.ticketId && r.ticket.status == r.newStatus
  }

  predicate Reloads(e: BookEvent) {
    match e
    case TicketCreated(t) => TicketReloads(t)
    case TicketDecided(r) => RecordReloads(r)
  }

  /** A decision on a pending ticket can be read back exactly when the ticket itself could be. */
  lemma DecisionReloadsExactly(t: Ticket, q: DecisionRequest)
    requires ValidTicket(t) && t.status.Pending? && q.Valid() && Timely(t, q) && t.ticketId == q.ticketId
    ensures RecordReloads(NewDecision(t, q)) <==> Attributed(t)
  {
    hide NonBlank, PlainSymbol;
    DecisionFits(t, q);
  }

  lemma DecidingKeepsAttribution(t: Ticket, q: DecisionRequest)
    requires Attributed(t)
    ensures Attributed(NewDecision(t, q).ticket)
  {
  }

  ghost predicate AllAttributed(b: Book) {
    forall id :: id in b.tickets ==> Attributed(b.tickets[id])
  }

  ghost predicate RestoresAttributed(call: Call) {
    call.Restore? ==> Attributed(call.ticket)
  }

  lemma DecideReloads(b: Book, q: DecisionRequest)
    requires Sound(b) && AllAttributed(b) && q.Valid() && Decidable(b, q).Ok?
    ensures RecordReloads(NewDecision(Decidable(b, q).value, q))
    ensures Attributed(NewDecision(Decidable(b, q).value, q).ticket)
  {
    hide Attributed, RecordReloads, NewDecision, ValidTicket;
    var t := Decidable(b, q).value;
    assert TicketFits(b, q.ticketId);
    hide Sound;
    DecisionReloadsExactly(t, q);
    DecidingKeepsAttribution(t, q);
  }

  lemma StepReloads(b: Book, call: Call)
    requires Sound(b) && AllAttributed(b) && ValidCall(call) && RestoresAttributed(call)
    ensures AllAttributed(Effect(b, call))
    ensures forall e :: e in Emits(b, call) ==> Reloads(e)
  {
    hide Sound, Attributed, TicketReloads, RecordReloads, NewDecision, NewTicket, ValidTicket, Decidable;
    if call.Create? {
      CreatedIsAttributed(call.create);
    } else if call.Decide? && Decidable(b, call.decide).Ok? {
      DecideReloads(b, call.decide);
    }
  }

  lemma CreatedIsAttributed(q: CreateRequest)
    requires q.Valid()
    ensures TicketReloads(NewTicket(q)) && Attributed(NewTicket(q)) && NewTicket(q).ticketId == q.ticketId
  {
  }

  /** As long as restored tickets came with their attribution, everything the book journals can be read back. */
  lemma {:induction false} JournalReloads(calls: seq<Call>)
    requires ValidCalls(calls)
    requires forall i :: 0 <= i < |calls| ==> RestoresAttributed(calls[i])
    ensures AllAttributed(BookOf(Run(calls)))
    ensures forall e :: e in Run(calls).events ==> Reloads(e)
  {
    hide Sound, Effect, Emits, BookOf, AllAttributed, ValidCall, Reloads;
    if calls == [] {
      NothingToReload();
    } else {
      var before, last := calls[..|calls| - 1], calls[|calls| - 1];
      assert calls == before + [last];
      JournalReloads(before);
      RunsAreSound(before);
      RunSnoc(before, last);
      StepReloads(BookOf(Run(before)), last);
    }
  }

  lemma NothingToReload()
    ensures AllAttributed(BookOf(Run([]))) && Run([]).events == []
  {
  }
}
