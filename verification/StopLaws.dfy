/** What a stop change and a routed decision do, told in the fields of the requests. */
module StopLaws {
  import opened Foundations
  import opened EmergencyStop
  import App = SimulationApp
  import Tickets = ApprovalTickets
  import ApprovalLaws
  import Identifiers

  // ---------- the texts the service accepts ----------

  /** The part spells the term in whatever case, with underscores for hyphens at will. */
  predicate Spells(part: string, term: string) {
    && |part| == |term|
    && forall i :: 0 <= i < |part| ==> term[i] == if part[i] == '_' then '-' else Identifiers.LowerChar(part[i])
  }

  /** A text is safe exactly when it is letters, digits, dots, underscores and hyphens, and no part spells a secret-shaped term. */
  lemma SafeTextExactly(s: string)
    ensures SafeText(s) <==>
              && (forall i :: 0 <= i < |s| ==> 'a' <= s[i] <= 'z' || 'A' <= s[i] <= 'Z' || '0' <= s[i] <= '9' || s[i] in {'.', '_', '-'})
              && !exists i, j, k :: 0 <= i <= j <= |s| && 0 <= k < |SECRET_TERMS| && Spells(s[i..j], SECRET_TERMS[k])
    ensures SafeIdentifier(s) <==> s != "" && SafeText(s)
  {
    hide SECRET_TERMS, NormalChar;
    if SecretShaped(s) {
      var k :| 0 <= k < |SECRET_TERMS| && Identifiers.Contains(Normal(s), SECRET_TERMS[k]);
      var i :| 0 <= i <= |Normal(s)| && Identifiers.ContainsAt(Normal(s), SECRET_TERMS[k], i);
      var j := i + |SECRET_TERMS[k]|;
      PartIsSpelt(s, i, j, SECRET_TERMS[k]);
      assert Spells(s[i..j], SECRET_TERMS[k]);
    }
    if i, j, k :| 0 <= i <= j <= |s| && 0 <= k < |SECRET_TERMS| && Spells(s[i..j], SECRET_TERMS[k]) {
      PartIsSpelt(s, i, j, SECRET_TERMS[k]);
      assert Identifiers.ContainsAt(Normal(s), SECRET_TERMS[k], i);
      assert Identifiers.Contains(Normal(s), SECRET_TERMS[k]);
    }
  }

  lemma PartIsSpelt(s: string, i: nat, j: nat, term: string)
    requires i <= j <= |s|
    ensures Normal(s)[i..j] == term <==> Spells(s[i..j], term)
  {
    hide Identifiers.LowerChar;
    var part := s[i..j];
    assert forall n :: 0 <= n < |part| ==> Normal(s)[i..j][n] == (if part[n] == '_' then '-' else Identifiers.LowerChar(part[n]));
  }

  // ---------- one change ----------

  /** The state an activation leaves: who, when and why, with no word of a deactivation. */
  predicate ActivatedBy(s: StopState, q: ChangeRequest) {
    && s.active && s.status == Active && s.blocking && s.updatedAt == q.requestedAt
    && s.activatedAt == Some(q.requestedAt) && s.activatedBy == Some(q.actor) && s.activationReason == Some(q.reason)
    && s.deactivatedAt == None && s.deactivatedBy == None && s.deactivationReason == None
  }

  /** The state a deactivation leaves: who, when and why, beside what the earlier state said of its activation. */
  predicate DeactivatedBy(s: StopState, q: ChangeRequest, earlier: StopState) {
    && !s.active && s.status == Inactive && !s.blocking && s.updatedAt == q.requestedAt
    && s.activatedAt == earlier.activatedAt && s.activatedBy == earlier.activatedBy && s.activationReason == earlier.activationReason
    && s.deactivatedAt == Some(q.requestedAt) && s.deactivatedBy == Some(q.actor) && s.deactivationReason == Some(q.reason)
  }

  /** The record has the fields of the request. */
  predicate IsOf(r: ChangeRecord, action: Action, q: ChangeRequest) {
    r.eventId == q.eventId && r.action == action && r.requestedAt == q.requestedAt && r.actor == q.actor && r.reason == q.reason
  }

  /** Exactly when a change is refused or answered from history, and what a new one leaves. */
  lemma ChangeExactly(m: Memory, action: Action, q: ChangeRequest)
    ensures var r, known := ChangeReply(m, action, q), q.eventId in m.changes;
            && (r == Err(ConflictingEventId) <==> known && !IsOf(m.changes[q.eventId], action, q))
            && (r == Err(AlreadyActive) <==> !known && action == Activated && m.state.active)
            && (r == Err(NotActive) <==> !known && action == Deactivated && !m.state.active)
            && (r.Err? ==> r.error in {ConflictingEventId, AlreadyActive, NotActive})
            && (known && r.Ok? ==> r.value == m.changes[q.eventId])
            && (!known && r.Ok? ==>
                  && IsOf(r.value, action, q) && r.value.previous == m.state
                  && (action == Activated ==> ActivatedBy(r.value.state, q))
                  && (action == Deactivated ==> DeactivatedBy(r.value.state, q, m.state)))
  {
  }

  /** A new service is inactive, blocks nothing and knows of no change. */
  lemma FreshStopIsInactive()
    ensures var m := MemoryAfter([]);
            && !m.state.active && m.state.status == Inactive && !m.state.blocking && m.changes == map[]
            && m.state.updatedAt.text == "2026-07-08T00:00:00Z"
            && m.state.activatedAt == None && m.state.activatedBy == None && m.state.activationReason == None
            && m.state.deactivatedAt == None && m.state.deactivatedBy == None && m.state.deactivationReason == None
  {
  }

  /** A new change sets the state and is kept under its event id, and any other call changes nothing. */
  lemma ChangeIsKept(m: Memory, call: Call)
    ensures var next := Effect(m, call);
            if call.Change? && call.request.eventId !in m.changes && ChangeReply(m, call.action, call.request).Ok?
            then var r := ChangeReply(m, call.action, call.request).value;
                 next.state == r.state && next.changes == m.changes[call.request.eventId := r]
            else next == m
  {
    hide NextState;
  }

  /** A check passes exactly while the stop is inactive and the texts are ones the service accepts. */
  lemma CheckExactly(m: Memory, check: Call)
    requires check.Check?
    ensures var r, safe := CheckReply(m, check), SafeIdentifier(check.resource) && SafeIdentifier(check.action') && SafeIdentifier(check.actor);
            && (r == Ok(()) <==> safe && !m.state.active)
            && (r == Err(StopIsActive) <==> safe && m.state.active)
            && (r == Err(InvalidIdentifier) <==> !safe)
            && Emits(m, check) == (if safe && m.state.active
                                   then [Blocked(check.resource, check.action', check.checkedAt, check.actor)] else [])
  {
    hide SafeIdentifier;
  }

  // ---------- what the state says after any run ----------

  ghost predicate WasAsked(calls: seq<Call>, r: ChangeRecord) {
    exists i :: 0 <= i < |calls| && calls[i].Change? && IsOf(r, calls[i].action, calls[i].request)
  }

  /** The request a record repeats. */
  function RequestOf(r: ChangeRecord): ChangeRequest {
    ChangeRequest(r.eventId, r.requestedAt, r.actor, r.reason)
  }

  /** Each change was asked for and left the state its own fields and its predecessor's state tell. */
  ghost predicate ChangesTell(calls: seq<Call>, changes: seq<ChangeRecord>) {
    forall i :: 0 <= i < |changes| ==>
                  && WasAsked(calls, changes[i])
                  && (changes[i].action == Activated ==> ActivatedBy(changes[i].state, RequestOf(changes[i])))
                  && (changes[i].action == Deactivated ==> DeactivatedBy(changes[i].state, RequestOf(changes[i]), StateBefore(changes, i)))
  }

  lemma StillAsked(calls: seq<Call>, call: Call, r: ChangeRecord)
    requires WasAsked(calls, r)
    ensures WasAsked(calls + [call], r)
  {
    var i :| 0 <= i < |calls| && calls[i].Change? && IsOf(r, calls[i].action, calls[i].request);
    assert (calls + [call])[i] == calls[i];
  }

  lemma JustAsked(calls: seq<Call>, call: Call, r: ChangeRecord)
    requires call.Change? && IsOf(r, call.action, call.request)
    ensures WasAsked(calls + [call], r)
  {
    assert (calls + [call])[|calls|] == call;
  }

  lemma ChangesTellMore(calls: seq<Call>, changes: seq<ChangeRecord>, call: Call, r: ChangeRecord)
    requires ChangesTell(calls, changes) && call.Change? && IsOf(r, call.action, call.request)
    requires call.action == Activated ==> ActivatedBy(r.state, call.request)
    requires call.action == Deactivated ==> DeactivatedBy(r.state, call.request, StateBefore(changes, |changes|))
    ensures ChangesTell(calls + [call], changes + [r])
  {
    hide WasAsked, ActivatedBy, DeactivatedBy, StateBefore;
    JustAsked(calls, call, r);
    var next := changes + [r];
    forall i | 0 <= i < |next|
      ensures WasAsked(calls + [call], next[i])
      ensures StateBefore(next, i) == StateBefore(changes, i)
    {
      StateBeforeIsKept(changes, r, i);
      if i < |changes| {
        StillAsked(calls, call, changes[i]);
      }
    }
  }

  lemma ChangesStillTell(calls: seq<Call>, changes: seq<ChangeRecord>, call: Call)
    requires ChangesTell(calls, changes)
    ensures ChangesTell(calls + [call], changes)
  {
    hide WasAsked, ActivatedBy, DeactivatedBy, StateBefore;
    forall i | 0 <= i < |changes| ensures WasAsked(calls + [call], changes[i]) {
      StillAsked(calls, call, changes[i]);
    }
  }

  /** In every run each distinct change was asked for, and its state names who asked, when and why. */
  lemma {:induction false} StateTellsItsChanges(calls: seq<Call>)
    ensures ChangesTell(calls, Changes(Run(calls)))
  {
    hide ChangesTell, Remembers, Chained, Emits, ActivatedBy, DeactivatedBy, IsOf, NewRecord;
    if calls == [] {
      NothingTold();
    } else {
      var before, last := calls[..|calls| - 1], calls[|calls| - 1];
      assert calls == before + [last];
      StateTellsItsChanges(before);
      RunSnoc(before, last);
      RunsChain(before);
      LastStateIsKept(MemoryAfter(before), Changes(Run(before)));
      StepTells(before, MemoryAfter(before), Run(before), last);
    }
  }

  lemma NothingTold()
    ensures ChangesTell([], Changes(Run([])))
  {
  }

  lemma StepTells(before: seq<Call>, m: Memory, events: seq<StopEvent>, call: Call)
    requires ChangesTell(before, Changes(events)) && m.state == StateBefore(Changes(events), |Changes(events)|)
    ensures ChangesTell(before + [call], Changes(events + Emits(m, call)))
  {
    hide ChangesTell, ActivatedBy, DeactivatedBy, IsOf, NewRecord, StateBefore, Changes, SafeIdentifier;
    if Emits(m, call) == [] {
      assert events + [] == events;
      ChangesStillTell(before, Changes(events), call);
    } else {
      var e := Emits(m, call)[0];
      assert Emits(m, call) == [e];
      ChangesConcat(events, e);
      if call.Change? {
        ChangeExactly(m, call.action, call.request);
        ChangesTellMore(before, Changes(events), call, e.record);
      } else {
        assert Changes(events) + [] == Changes(events);
        ChangesStillTell(before, Changes(events), call);
      }
    }
  }

  // ---------- the routes ----------

  /** A body whose actor is not the operator is refused and reaches neither service. */
  lemma OnlyTheOperatorActs(s: App.State, call: App.Call)
    requires if call.Decide? then call.decision.actor != call.operator else call.change.actor != call.operator'
    ensures App.Step(s, call) == s
    ensures call.Decide? ==> App.DecisionReply(s, call.ticketId, call.approve, call.decision, call.operator) == Err(App.BadRequest)
    ensures call.ChangeStop? ==> App.ChangeReply(s, call.activate, call.change, call.operator') == Err(App.BadRequest)
  {
  }

  /** A decision newly answered with success has taken effect: the ticket is approved or rejected, with the body's fields. */
  lemma DecisionTakesEffect(s: App.State, id: string, approve: bool, body: App.DecisionBody, operator: string)
    requires Tickets.ValidCalls(s.book) && App.DecisionReply(s, id, approve, body, operator).Ok?
    requires body.decisionId !in s.Book().decisionRequests
    ensures body.actor == operator && body.decidedAt.Some? && (approve ==> !s.Stopped())
    ensures var r, book := App.DecisionReply(s, id, approve, body, operator).value,
                           App.Step(s, App.Decide(id, approve, body, operator)).Book();
            && id in book.tickets && book.tickets[id] == r.ticket
            && r.decisionId == body.decisionId && r.ticketId == id && r.actor == operator
            && r.ticket.status == Tickets.Decided(if approve then Tickets.Approved else Tickets.Rejected)
            && r.ticket.decisionId == Some(body.decisionId) && r.ticket.decidedAt == body.decidedAt && r.ticket.actor == Some(operator)
            && r.ticket.reference == Some(body.reference) && r.ticket.reason == Some(body.reason)
  {
    hide Tickets.Run, Tickets.BookOf, Tickets.Sound, Tickets.ValidCalls, SafeIdentifier, MemoryAfter, Tickets.NewDecision;
    var q := App.DecisionRequest(id, approve, body);
    Tickets.RunsAreSound(s.book);
    if id in s.Book().tickets {
      ApprovalLaws.SoundIds(s.Book(), id);
    }
    ApprovalLaws.DecisionCarriesRequest(s.Book(), q);
    ApprovalLaws.DecisionIsStored(s.Book(), q);
    Tickets.RunSnoc(s.book, Tickets.Decide(q));
  }

  /** A stop change newly answered with success has taken effect, in the operator's name. */
  lemma StopChangeTakesEffect(s: App.State, activate: bool, body: App.ChangeBody, operator: string)
    requires App.ChangeReply(s, activate, body, operator).Ok? && body.eventId !in MemoryAfter(s.stop).changes
    ensures body.actor == operator && s.Stopped() == !activate
    ensures var r, next := App.ChangeReply(s, activate, body, operator).value, App.Step(s, App.ChangeStop(activate, body, operator));
            && next.book == s.book && next.Stopped() == activate && MemoryAfter(next.stop).state == r.state
            && r.eventId == body.eventId && r.actor == operator && r.reason == body.reason && body.requestedAt == Some(r.requestedAt)
  {
    hide MemoryAfter, SafeIdentifier;
    var action, q := if activate then Activated else Deactivated, App.ChangeRequest(body).value;
    ChangeExactly(MemoryAfter(s.stop), action, q);
    ChangeIsKept(MemoryAfter(s.stop), Change(action, q));
    RunSnoc(s.stop, Change(action, q));
  }
}
