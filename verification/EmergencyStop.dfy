/** The emergency stop: journaled, idempotent activation and deactivation. */
module EmergencyStop {
  import opened Foundations
  import opened EventJournal
  import Identifiers

  // ---------- identifiers ----------

  const SECRET_TERMS: seq<string> := [
    "account", "api-key", "apikey", "certificate", "credential", "password", "private-key", "secret", "token"]

  predicate Allowed(c: char) {
    'a' <= c <= 'z' || 'A' <= c <= 'Z' || '0' <= c <= '9' || c == '.' || c == '_' || c == '-'
  }

  /** The text in lower case with hyphens for underscores, in which secret-shaped terms are looked for. */
  function Normal(s: string): (r: string)
    ensures |r| == |s|
    ensures forall i :: 0 <= i < |s| ==> r[i] == NormalChar(s[i])
  {
    seq(|s|, i requires 0 <= i < |s| => NormalChar(s[i]))
  }

  function NormalChar(c: char): char {
    if c == '_' then '-' else Identifiers.LowerChar(c)
  }

  predicate SecretShaped(s: string) {
    exists k :: 0 <= k < |SECRET_TERMS| && Identifiers.Contains(Normal(s), SECRET_TERMS[k])
  }

  /** The allowed characters hold no blank, so a text made of them has none to strip. */
  predicate SafeText(s: string) {
    (forall i :: 0 <= i < |s| ==> Allowed(s[i])) && !SecretShaped(s)
  }

  predicate SafeIdentifier(s: string) {
    |s| > 0 && SafeText(s)
  }

  datatype ChangeRequest = ChangeRequest(eventId: string, requestedAt: Timestamp, actor: string, reason: string)
  {
    predicate Valid() {
      SafeIdentifier(eventId) && SafeIdentifier(actor) && SafeIdentifier(reason)
    }
  }

  datatype Status = Active | Inactive

  datatype StopState = StopState(
    active: bool, status: Status, updatedAt: Timestamp,
    activatedAt: Option<Timestamp>, activatedBy: Option<string>, activationReason: Option<string>,
    deactivatedAt: Option<Timestamp>, deactivatedBy: Option<string>, deactivationReason: Option<string>,
    blocking: bool)
  {
    predicate Valid() {
      active == status.Active? && active == blocking
    }
  }

  const INITIAL_TIMESTAMP := Timestamp("2026-07-08T00:00:00Z", 1783468800000000)

  const INACTIVE := StopState(false, Inactive, INITIAL_TIMESTAMP, None, None, None, None, None, None, false)

  datatype Action = Activated | Deactivated

  datatype ChangeRecord = ChangeRecord(
    eventId: string, action: Action, requestedAt: Timestamp, actor: string, reason: string,
    previous: StopState, state: StopState)
  {
    predicate MatchesRequest(a: Action, q: ChangeRequest) {
      action == a && eventId == q.eventId && requestedAt == q.requestedAt && actor == q.actor && reason == q.reason
    }
  }

  datatype StopEvent =
    | Changed(record: ChangeRecord)
    | Blocked(resource: string, action: string, checkedAt: Timestamp, actor: string)

  datatype StopError = ConflictingEventId | AlreadyActive | NotActive | StopIsActive | InvalidIdentifier

  // ---------- memory, and its reconstruction from the journal ----------

  datatype Memory = Memory(state: StopState, changes: map<string, ChangeRecord>)

  function Learn(m: Memory, e: StopEvent): Memory {
    match e
    case Changed(r) => Memory(r.state, m.changes[r.eventId := r])
    case Blocked(_, _, _, _) => m
  }

  function Replay(events: seq<StopEvent>): Memory {
    if events == [] then Memory(INACTIVE, map[]) else Learn(Replay(events[..|events| - 1]), events[|events| - 1])
  }

  // ---------- calls ----------

  datatype Call =
    | Change(action: Action, request: ChangeRequest)
    | Check(resource: string, action': string, checkedAt: Timestamp, actor: string)

  function NextState(previous: StopState, action: Action, q: ChangeRequest): StopState {
    match action
    case Activated =>
      StopState(true, Active, q.requestedAt, Some(q.requestedAt), Some(q.actor), Some(q.reason), None, None, None, true)
    case Deactivated =>
      StopState(false, Inactive, q.requestedAt, previous.activatedAt, previous.activatedBy, previous.activationReason,
                Some(q.requestedAt), Some(q.actor), Some(q.reason), false)
  }

  function NewRecord(m: Memory, action: Action, q: ChangeRequest): ChangeRecord {
    ChangeRecord(q.eventId, action, q.requestedAt, q.actor, q.reason, m.state, NextState(m.state, action, q))
  }

  /** The reply to a change: history for a verbatim replay, an error, or a new record. */
  function ChangeReply(m: Memory, action: Action, q: ChangeRequest): Result<ChangeRecord, StopError> {
    if q.eventId in m.changes then
      if m.changes[q.eventId].MatchesRequest(action, q) then Ok(m.changes[q.eventId]) else Err(ConflictingEventId)
    else if action.Activated? && m.state.active then Err(AlreadyActive)
    else if action.Deactivated? && !m.state.active then Err(NotActive)
    else Ok(NewRecord(m, action, q))
  }

  /** Whether a risk-increasing action may go ahead. */
  function CheckReply(m: Memory, check: Call): Result<(), StopError>
    requires check.Check?
  {
    if !SafeIdentifier(check.resource) || !SafeIdentifier(check.action') || !SafeIdentifier(check.actor)
    then Err(InvalidIdentifier)
    else if m.state.active then Err(StopIsActive)
    else Ok(())
  }

  function Emits(m: Memory, call: Call): seq<StopEvent> {
    match call
    case Change(action, q) =>
      if q.eventId !in m.changes && ChangeReply(m, action, q).Ok? then [Changed(NewRecord(m, action, q))] else []
    case Check(resource, action, at, actor) =>
      if CheckReply(m, call) == Err(StopIsActive) then [Blocked(resource, action, at, actor)] else []
  }

  function Run(calls: seq<Call>): seq<StopEvent> {
    if calls == [] then [] else
    var before := Run(calls[..|calls| - 1]);
    before + Emits(Replay(before), calls[|calls| - 1])
  }

  function MemoryAfter(calls: seq<Call>): Memory {
    Replay(Run(calls))
  }

  function Effect(m: Memory, call: Call): Memory {
    if call.Change? && call.request.eventId !in m.changes && ChangeReply(m, call.action, call.request).Ok? then
      var r := NewRecord(m, call.action, call.request);
      Memory(r.state, m.changes[r.eventId := r])
    else m
  }

  lemma RunSnoc(calls: seq<Call>, call: Call)
    ensures Run(calls + [call]) == Run(calls) + Emits(MemoryAfter(calls), call)
    ensures MemoryAfter(calls + [call]) == Effect(MemoryAfter(calls), call)
  {
    assert (calls + [call])[..|calls|] == calls;
    var before, events := Run(calls), Emits(MemoryAfter(calls), call);
    if events == [] {
      assert before + events == before;
    } else {
      assert (before + events)[..|before|] == before;
    }
  }

  // ---------- what every run keeps ----------

  /** The distinct stop changes, in journal order. */
  function Changes(events: seq<StopEvent>): seq<ChangeRecord> {
    if events == [] then [] else
    var last := events[|events| - 1];
    Changes(events[..|events| - 1]) + if last.Changed? then [last.record] else []
  }

  /** The state before the i-th change. */
  function StateBefore(changes: seq<ChangeRecord>, i: nat): StopState
    requires i <= |changes|
  {
    if i == 0 then INACTIVE else changes[i - 1].state
  }

  ghost predicate Linked(changes: seq<ChangeRecord>) {
    forall i :: 0 <= i < |changes| ==> changes[i].previous == StateBefore(changes, i)
  }

  ghost predicate Alternating(changes: seq<ChangeRecord>) {
    && (forall i :: 0 <= i < |changes| ==> changes[i].action == if i % 2 == 0 then Activated else Deactivated)
    && (forall i :: 0 <= i < |changes| ==> changes[i].state.Valid() && changes[i].state.active == (i % 2 == 0))
  }

  /**
    Changes chain and alternate: the first starts from the initial inactive state, each later one from
    the state the one before left, activations and deactivations take turns, and no event id repeats.
   */
  ghost predicate Chained(changes: seq<ChangeRecord>) {
    && Linked(changes) && Alternating(changes)
    && forall i, j :: 0 <= i < j < |changes| ==> changes[i].eventId != changes[j].eventId
  }

  /** The memory is the last change's state, and every change under its event id. */
  ghost predicate Remembers(m: Memory, changes: seq<ChangeRecord>) {
    && m.state == StateBefore(changes, |changes|)
    && (forall i :: 0 <= i < |changes| ==> changes[i].eventId in m.changes && m.changes[changes[i].eventId] == changes[i])
    && (forall id :: id in m.changes ==> exists i :: 0 <= i < |changes| && changes[i].eventId == id)
  }

  lemma NewRecordFollows(m: Memory, action: Action, q: ChangeRequest)
    ensures var r := NewRecord(m, action, q);
            && r.previous == m.state && r.action == action && r.eventId == q.eventId
            && r.state.Valid() && r.state.active == action.Activated?
  {
  }

  lemma NewIdIsNew(m: Memory, changes: seq<ChangeRecord>, id: string)
    requires Remembers(m, changes) && id !in m.changes
    ensures forall i :: 0 <= i < |changes| ==> changes[i].eventId != id
  {
  }

  lemma StatesTakeTurns(changes: seq<ChangeRecord>)
    requires Chained(changes)
    ensures StateBefore(changes, |changes|).active == (|changes| % 2 == 1)
  {
    hide StopState.Valid, Linked;
    if changes != [] {
      var last := |changes| - 1;
      assert changes[last].state.active == (last % 2 == 0);
      hide Chained;
    }
  }

  lemma LastStateIsKept(m: Memory, changes: seq<ChangeRecord>)
    requires Chained(changes) && Remembers(m, changes)
    ensures m.state == StateBefore(changes, |changes|)
    ensures m.state.active == (|changes| % 2 == 1)
  {
    hide Chained;
    StatesTakeTurns(changes);
  }

  lemma ReplyNeedsTurn(m: Memory, action: Action, q: ChangeRequest)
    requires q.eventId !in m.changes && ChangeReply(m, action, q).Ok?
    ensures action.Activated? == !m.state.active
  {
  }

  lemma StateBeforeIsKept(changes: seq<ChangeRecord>, r: ChangeRecord, i: nat)
    requires i <= |changes|
    ensures StateBefore(changes + [r], i) == StateBefore(changes, i)
  {
  }

  lemma ChainSnoc(changes: seq<ChangeRecord>, r: ChangeRecord)
    requires Chained(changes)
    requires r.previous == StateBefore(changes, |changes|)
    requires r.action == if |changes| % 2 == 0 then Activated else Deactivated
    requires r.state.Valid() && r.state.active == (|changes| % 2 == 0)
    requires forall i :: 0 <= i < |changes| ==> changes[i].eventId != r.eventId
    ensures Chained(changes + [r])
  {
    hide StopState.Valid, INACTIVE, StateBefore;
    var next := changes + [r];
    forall i | 0 <= i < |next| ensures next[i].previous == StateBefore(next, i) {
      StateBeforeIsKept(changes, r, i);
    }
    forall i, j | 0 <= i < j < |next| ensures next[i].eventId != next[j].eventId {
      assert next[i] == changes[i];
    }
  }

  lemma ChainGrows(m: Memory, changes: seq<ChangeRecord>, action: Action, q: ChangeRequest)
    requires Chained(changes) && Remembers(m, changes)
    requires q.eventId !in m.changes && ChangeReply(m, action, q).Ok?
    ensures Chained(changes + [NewRecord(m, action, q)])
  {
    hide NewRecord, NextState, Remembers, Chained, ChangeReply;
    NewRecordFollows(m, action, q);
    NewIdIsNew(m, changes, q.eventId);
    LastStateIsKept(m, changes);
    ReplyNeedsTurn(m, action, q);
    ChainSnoc(changes, NewRecord(m, action, q));
  }

  lemma MemoryGrows(m: Memory, changes: seq<ChangeRecord>, action: Action, q: ChangeRequest)
    requires Remembers(m, changes) && q.eventId !in m.changes && ChangeReply(m, action, q).Ok?
    ensures Remembers(Effect(m, Change(action, q)), changes + [NewRecord(m, action, q)])
  {
    var r := NewRecord(m, action, q);
    var next := changes + [r];
    var stored := m.changes[r.eventId := r];
    forall id | id in stored ensures exists i :: 0 <= i < |next| && next[i].eventId == id {
      if id == r.eventId {
        assert next[|changes|].eventId == id;
      } else {
        var i :| 0 <= i < |changes| && changes[i].eventId == id;
        assert next[i].eventId == id;
      }
    }
  }

  lemma {:induction false} ChangesConcat(first: seq<StopEvent>, e: StopEvent)
    ensures Changes(first + [e]) == Changes(first) + if e.Changed? then [e.record] else []
  {
    assert (first + [e])[..|first|] == first;
  }

  lemma ChainStep(m: Memory, journal: seq<StopEvent>, call: Call)
    requires Chained(Changes(journal)) && Remembers(m, Changes(journal)) && m.state.Valid()
    ensures var next := Changes(journal + Emits(m, call));
            Chained(next) && Remembers(Effect(m, call), next) && Effect(m, call).state.Valid()
  {
    hide Chained, Remembers, NewRecord, ChangeReply;
    if Emits(m, call) == [] {
      assert journal + [] == journal;
    } else {
      var e := Emits(m, call)[0];
      assert Emits(m, call) == [e];
      ChangesConcat(journal, e);
      assert Changes(journal) + [] == Changes(journal);
      if call.Change? {
        ChainGrows(m, Changes(journal), call.action, call.request);
        MemoryGrows(m, Changes(journal), call.action, call.request);
        NewStateIsValid(m, call.action, call.request);
      }
    }
  }

  lemma EmptyChain()
    ensures Chained([]) && Remembers(Memory(INACTIVE, map[]), [])
  {
  }

  lemma {:induction false} RunsChain(calls: seq<Call>)
    ensures Chained(Changes(Run(calls)))
    ensures Remembers(MemoryAfter(calls), Changes(Run(calls)))
    ensures MemoryAfter(calls).state.Valid()
  {
    hide Chained, Remembers, Emits, Effect;
    if calls == [] {
      EmptyChain();
    } else {
      var before, last := calls[..|calls| - 1], calls[|calls| - 1];
      assert calls == before + [last];
      RunsChain(before);
      RunSnoc(before, last);
      ChainStep(MemoryAfter(before), Run(before), last);
    }
  }

  lemma NewStateIsValid(m: Memory, action: Action, q: ChangeRequest)
    ensures NewRecord(m, action, q).state.Valid()
  {
  }

  /** A change already made is answered from history, and neither state nor journal moves. */
  lemma ReplayedChangeIsHistory(calls: seq<Call>, i: nat)
    requires i < |Changes(Run(calls))|
    ensures var r := Changes(Run(calls))[i];
            var q := ChangeRequest(r.eventId, r.requestedAt, r.actor, r.reason);
            && ChangeReply(MemoryAfter(calls), r.action, q) == Ok(r)
            && Run(calls + [Change(r.action, q)]) == Run(calls)
            && MemoryAfter(calls + [Change(r.action, q)]) == MemoryAfter(calls)
  {
    RunsChain(calls);
    var r := Changes(Run(calls))[i];
    var q := ChangeRequest(r.eventId, r.requestedAt, r.actor, r.reason);
    RunSnoc(calls, Change(r.action, q));
  }

  // ---------- the service ----------

  class EmergencyStopService {
    const journal: Journal<StopEvent>
    var state: StopState
    var changes: map<string, ChangeRecord>
    ghost var calls: seq<Call>
    ghost const earlier: seq<StopEvent>

    ghost function Snapshot(): Memory
      reads this
    {
      Memory(state, changes)
    }

    ghost predicate Valid()
      reads this, journal
    {
      && journal.Valid()
      && journal.Events() == earlier + Run(calls)
      && Snapshot() == MemoryAfter(calls)
    }

    constructor (journal: Journal<StopEvent>)
      requires journal.Valid()
      ensures Valid() && calls == [] && state == INACTIVE && this.journal == journal && earlier == journal.Events()
    {
      this.journal := journal;
      state, changes := INACTIVE, map[];
      calls := [];
      earlier := journal.Events();
    }

    method Activate(q: ChangeRequest) returns (r: Result<ChangeRecord, StopError>)
      requires Valid()
      modifies this, journal
      ensures Valid() && calls == old(calls) + [Change(Activated, q)]
      ensures r == ChangeReply(old(Snapshot()), Activated, q)
    {
      hide Replay, Run;
      RunSnoc(calls, Change(Activated, q));
      calls := calls + [Change(Activated, q)];
      if q.eventId in changes {
        var existing := changes[q.eventId];
        return if existing.MatchesRequest(Activated, q) then Ok(existing) else Err(ConflictingEventId);
      }
      if state.active {
        return Err(AlreadyActive);
      }
      var nextState := StopState(true, Active, q.requestedAt, Some(q.requestedAt), Some(q.actor), Some(q.reason), None, None, None, true);
      var record := ChangeRecord(q.eventId, Activated, q.requestedAt, q.actor, q.reason, state, nextState);
      var _ := journal.Append(q.requestedAt, Changed(record));
      state := nextState;
      changes := changes[q.eventId := record];
      return Ok(record);
    }

    method Deactivate(q: ChangeRequest) returns (r: Result<ChangeRecord, StopError>)
      requires Valid()
      modifies this, journal
      ensures Valid() && calls == old(calls) + [Change(Deactivated, q)]
      ensures r == ChangeReply(old(Snapshot()), Deactivated, q)
    {
      hide Replay, Run;
      RunSnoc(calls, Change(Deactivated, q));
      calls := calls + [Change(Deactivated, q)];
      if q.eventId in changes {
        var existing := changes[q.eventId];
        return if existing.MatchesRequest(Deactivated, q) then Ok(existing) else Err(ConflictingEventId);
      }
      if !state.active {
        return Err(NotActive);
      }
      var nextState := StopState(
        false, Inactive, q.requestedAt, state.activatedAt, state.activatedBy, state.activationReason,
        Some(q.requestedAt), Some(q.actor), Some(q.reason), false);
      var record := ChangeRecord(q.eventId, Deactivated, q.requestedAt, q.actor, q.reason, state, nextState);
      var _ := journal.Append(q.requestedAt, Changed(record));
      state := nextState;
      changes := changes[q.eventId := record];
      return Ok(record);
    }

    /** Refuses, and journals the refusal, while the stop is active. */
    method EnsureRiskIncreasingAllowed(resource: string, action: string, checkedAt: Timestamp, actor: string)
      returns (r: Result<(), StopError>)
      requires Valid()
      modifies this`calls, journal
      ensures Valid() && calls == old(calls) + [Check(resource, action, checkedAt, actor)]
      ensures r == CheckReply(old(Snapshot()), Check(resource, action, checkedAt, actor))
    {
      hide SafeIdentifier, Replay, Run;
      RunSnoc(calls, Check(resource, action, checkedAt, actor));
      calls := calls + [Check(resource, action, checkedAt, actor)];
      if !SafeIdentifier(resource) || !SafeIdentifier(action) || !SafeIdentifier(actor) {
        return Err(InvalidIdentifier);
      }
      if !state.active {
        return Ok(());
      }
      var _ := journal.Append(checkedAt, Blocked(resource, action, checkedAt, actor));
      return Err(StopIsActive);
    }
  }
}
