/**
 * Durable tool execution: the database behind the lifecycle, its clients, and everything they can do to each other.
 * A transaction is one step; a client is the memory of one process driving one plan, and may disappear at any time.
 */
module DurableExecution {

  type ExecutionId(==, !new)

  type ApprovalId(==, !new)

  type SessionId(==, !new)

  type ClientId = nat

  datatype Option<+T> = None | Some(value: T)

  datatype Result<+T> = Ok(value: T) | Err(error: StoreError)

  datatype StoreError = IdempotencyConflict | IntegrityViolation | OptimisticLock | BindingMismatch | ApprovalExpired

  datatype ExecutionState =
    | Planned | WaitingApproval | Queued | Running | Verifying | Succeeded | Failed | Cancelled | RollingBack | RolledBack

  datatype ApprovalState = Pending | Approved | Denied | Expired

  datatype Approval = Approval(id: ApprovalId, precondition: int, expiresAt: int)

  /** A plan as the planner makes it: queued at version 1, or waiting for an approval at version 1. */
  datatype Plan = Plan(session: SessionId, key: string, tool: string, digest: string, approval: Option<Approval>)

  /** Execution ids are drawn fresh, so an id belongs to one plan. */
  type Planner = ExecutionId -> Plan

  datatype Row = Row(tool: string, digest: string, state: ExecutionState, version: nat)

  datatype ApprovalRow = ApprovalRow(
    execution: ExecutionId, state: ApprovalState, version: nat, digest: string, precondition: int, expiresAt: int)

  datatype EventRow = EventRow(execution: ExecutionId, sequence: nat, kind: string, state: ExecutionState)

  datatype AuditRow = AuditRow(action: string, execution: ExecutionId, outcome: string)

  /** The tables; `byKey` is the unique index over session and idempotency key. */
  datatype Database = Database(
    rows: map<ExecutionId, Row>, byKey: map<(SessionId, string), ExecutionId>, approvals: map<ApprovalId, ApprovalRow>,
    events: seq<EventRow>, outbox: seq<EventRow>, audit: seq<AuditRow>)

  /** The transitions of the domain aggregate. The store itself checks none of them. */
  predicate Allowed(source: ExecutionState, target: ExecutionState) {
    match source
    case Planned => target.WaitingApproval? || target.Queued? || target.Cancelled?
    case WaitingApproval => target.Queued? || target.Cancelled?
    case Queued => target.Running? || target.Cancelled? || target.Failed?
    case Running => target.Verifying? || target.Cancelled? || target.Failed?
    case Verifying => target.Succeeded? || target.Failed? || target.RollingBack?
    case Failed => target.RollingBack?
    case RollingBack => target.RolledBack? || target.Failed?
    case _ => false
  }

  /** The event type that tells of a state. */
  function KindOf(state: ExecutionState): string {
    match state
    case Planned => "tool.planned"
    case WaitingApproval => "tool.approval.required"
    case Queued => "tool.queued"
    case Running => "tool.started"
    case Verifying => "tool.verifying"
    case Succeeded => "tool.completed"
    case Failed => "tool.failed"
    case Cancelled => "tool.cancelled"
    case _ => ""
  }

  function InitialState(p: Plan): ExecutionState {
    if p.approval.None? then Queued else WaitingApproval
  }

  // -------------------------------------------------------------------------
  // The store's transactions
  // -------------------------------------------------------------------------

  predicate HasEvent(events: seq<EventRow>, e: ExecutionId, sequence: nat) {
    exists i :: 0 <= i < |events| && events[i].execution == e && events[i].sequence == sequence
  }

  /** Insert the event and its outbox row, unless the sequence number is taken. */
  function AppendEvent(db: Database, event: EventRow): Result<Database> {
    if HasEvent(db.events, event.execution, event.sequence) then Err(IntegrityViolation)
    else Ok(db.(events := db.events + [event], outbox := db.outbox + [event]))
  }

  /** A new plan becomes a planned row and takes its first transition in the same transaction. */
  function Persist(db: Database, e: ExecutionId, p: Plan): Result<Database> {
    if (p.session, p.key) in db.byKey then
      var prior := db.byKey[(p.session, p.key)];
      if prior in db.rows && (db.rows[prior].tool != p.tool || db.rows[prior].digest != p.digest) then
        Err(IdempotencyConflict)
      else Ok(db)
    else if e in db.rows then Err(IntegrityViolation)
    else
      var inserted := db.(byKey := db.byKey[(p.session, p.key) := e]);
      var planned := AppendEvent(inserted, EventRow(e, 0, "tool.planned", Planned));
      if planned.Err? then planned
      else
        var state := InitialState(p);
        var kind := if state.Queued? then "tool.queued" else "tool.approval.required";
        var updated := planned.value.(rows := db.rows[e := Row(p.tool, p.digest, state, 1)]);
        var moved := AppendEvent(updated, EventRow(e, 1, kind, state));
        if moved.Err? then moved
        else if p.approval.Some? && p.approval.value.id in db.approvals then Err(IntegrityViolation)
        else
          var a := p.approval;
          Ok(moved.value.(
             approvals := if a.None? then db.approvals
                          else db.approvals[a.value.id := ApprovalRow(e, Pending, 0, p.digest, a.value.precondition, a.value.expiresAt)],
             audit := db.audit + [AuditRow("tool.plan.persisted", e, if state.Queued? then "QUEUED" else "WAITING_APPROVAL")]))
  }

  /** One decision, bound to its approval and to the execution. An expired one is computed and then rolled back. */
  function Decide(
    db: Database, id: ApprovalId, approved: bool, digest: string, precondition: int, expected: nat, now: int)
    : Result<Database>
  {
    if id !in db.approvals then Err(OptimisticLock)
    else
      var a := db.approvals[id];
      var e := a.execution;
      if e !in db.rows then Err(IntegrityViolation)
      else if !a.state.Pending? then Err(OptimisticLock)
      else if a.version != expected then Err(OptimisticLock)
      else if a.digest != digest || a.precondition != precondition then Err(BindingMismatch)
      else if !db.rows[e].state.WaitingApproval? then Err(OptimisticLock)
      else
        var decision := if now >= a.expiresAt then Expired else if approved then Approved else Denied;
        var target := if decision.Approved? then Queued else Cancelled;
        var row := db.rows[e];
        var decided := db.(
          approvals := db.approvals[id := a.(state := decision, version := a.version + 1)],
          rows := db.rows[e := row.(state := target, version := row.version + 1)],
          audit := db.audit + [AuditRow("tool.approval.decided", e, if decision.Approved? then "APPROVED" else "DENIED")]);
        var moved := AppendEvent(decided,
                                 EventRow(e, row.version + 1, if target.Queued? then "tool.queued" else "tool.cancelled", target));
        if moved.Ok? && decision.Expired? then Err(ApprovalExpired) else moved
  }

  /** Compare and swap on the version. */
  function Transition(db: Database, e: ExecutionId, expected: nat, target: ExecutionState, kind: string): Result<Database> {
    if e !in db.rows || db.rows[e].version != expected then Err(OptimisticLock)
    else
      var updated := db.(rows := db.rows[e := db.rows[e].(state := target, version := expected + 1)]);
      AppendEvent(updated, EventRow(e, expected + 1, kind, target))
  }

  // -------------------------------------------------------------------------
  // Clients
  // -------------------------------------------------------------------------

  /** What the executor port returned. */
  datatype Outcome = RequestFailed | ReceiptInvalid | ReceiptVerified

  /** Where a client stands; the version is the one it will expect next. */
  datatype Phase =
    | New
    | Waiting
    | Ready(version: nat)
    | Started(version: nat)
    | Dispatched(version: nat, outcome: Outcome)
    | Checking(version: nat, outcome: Outcome)

  /** A call to the executor and what came of it. */
  datatype ExecutorCall = ExecutorCall(execution: ExecutionId, outcome: Outcome)

  datatype Client = Client(execution: ExecutionId, phase: Phase)

  datatype System = System(
    db: Database, clients: map<ClientId, Client>, nextClient: ClientId, dispatches: seq<ExecutorCall>)

  const EMPTY := Database(map[], map[], map[], [], [], [])

  datatype Step =
    | Arrive(e: ExecutionId)
    | PersistPlan(c: ClientId)
    | DecideApproval(c: ClientId, approved: bool, digest: string, now: int)
    | Start(c: ClientId)
    | Dispatch(c: ClientId, outcome: Outcome)
    | Report(c: ClientId)
    | Conclude(c: ClientId)
    | Crash(c: ClientId)

  function Leave(s: System, c: ClientId): System {
    s.(clients := s.clients - {c})
  }

  /** Commit a transaction's result and move the client on, or let its error end the client. */
  function Commit(s: System, c: ClientId, result: Result<Database>, phase: Phase): System
    requires c in s.clients
  {
    if result.Err? then Leave(s, c)
    else s.(db := result.value, clients := s.clients[c := s.clients[c].(phase := phase)])
  }

  function Next(s: System, planner: Planner, step: Step): System {
    if step.Arrive? then
      s.(clients := s.clients[s.nextClient := Client(step.e, New)], nextClient := s.nextClient + 1)
    else if step.c !in s.clients then s
    else
      var c := step.c;
      var e := s.clients[c].execution;
      var p := planner(e);
      var phase := s.clients[c].phase;
      match step
      case PersistPlan(_) =>
        if !phase.New? then s
        else Commit(s, c, Persist(s.db, e, p), if p.approval.None? then Ready(1) else Waiting)
      case DecideApproval(_, approved, digest, now) =>
        if !phase.Waiting? || p.approval.None? then s
        else
          var result := Decide(s.db, p.approval.value.id, approved, digest, p.approval.value.precondition, 0, now);
          if result.Err? then s
          else if approved then Commit(s, c, result, Ready(2))
          else Leave(s.(db := result.value), c)
      case Start(_) =>
        if !phase.Ready? then s
        else Commit(s, c, Transition(s.db, e, phase.version, Running, "tool.started"), Started(phase.version + 1))
      case Dispatch(_, outcome) =>
        if !phase.Started? then s
        else s.(dispatches := s.dispatches + [ExecutorCall(e, outcome)],
                clients := s.clients[c := Client(e, Dispatched(phase.version, outcome))])
      case Report(_) =>
        if !phase.Dispatched? then s
        else if phase.outcome.RequestFailed? then
          var result := Transition(s.db, e, phase.version, Failed, "tool.failed");
          Leave(if result.Ok? then s.(db := result.value) else s, c)
        else Commit(s, c, Transition(s.db, e, phase.version, Verifying, "tool.verifying"),
                    Checking(phase.version + 1, phase.outcome))
      case Conclude(_) =>
        if !phase.Checking? then s
        else
          var result := if phase.outcome.ReceiptVerified? then Transition(s.db, e, phase.version, Succeeded, "tool.completed")
                        else Transition(s.db, e, phase.version, Failed, "tool.failed");
          Leave(if result.Ok? then s.(db := result.value) else s, c)
      case Crash(_) => Leave(s, c)
  }

  function Run(planner: Planner, steps: seq<Step>): System
    decreases |steps|
  {
    if steps == [] then System(EMPTY, map[], 0, [])
    else Next(Run(planner, steps[..|steps| - 1]), planner, steps[|steps| - 1])
  }

  // -------------------------------------------------------------------------
  // The history of one execution
  // -------------------------------------------------------------------------

  /** The durable events of one execution, in the order of insertion. */
  function History(events: seq<EventRow>, e: ExecutionId): seq<EventRow> {
    if events == [] then []
    else
      var last := events[|events| - 1];
      History(events[..|events| - 1], e) + if last.execution == e then [last] else []
  }

  /**
   * Event i has number i, tells of its state and follows the one before it as the domain's table allows; the first one is
   * planned.
   */
  predicate Linked(h: seq<EventRow>, i: nat)
    requires i < |h|
  {
    h[i].sequence == i && h[i].kind == KindOf(h[i].state) && if i == 0 then h[i].state.Planned? else Allowed(h[i - 1].state, h[i].state)
  }

  /** Sequences 0, 1, 2, ..., starting with a planned execution, each step allowed by the domain's table. */
  predicate Chain(h: seq<EventRow>) {
    forall i :: 0 <= i < |h| ==> Linked(h, i)
  }

  /** The row is exactly what the history of its execution says. */
  ghost predicate Recorded(db: Database, e: ExecutionId) {
    var h := History(db.events, e);
    if e in db.rows then
      && Chain(h) && |h| == db.rows[e].version + 1
      && h[|h| - 1].state == db.rows[e].state
    else h == []
  }

  lemma HistorySnoc(events: seq<EventRow>, event: EventRow, e: ExecutionId)
    ensures History(events + [event], e) == History(events, e) + if event.execution == e then [event] else []
  {
    assert (events + [event])[..|events|] == events;
  }

  lemma ChainSnoc(h: seq<EventRow>, event: EventRow)
    requires Chain(h) && event.sequence == |h| && event.kind == KindOf(event.state)
    requires if h == [] then event.state.Planned? else Allowed(h[|h| - 1].state, event.state)
    ensures Chain(h + [event])
  {
    forall i | 0 <= i < |h + [event]| ensures Linked(h + [event], i) {
      if i < |h| {
        assert Linked(h, i);
      }
    }
  }

  lemma {:induction false} InHistory(events: seq<EventRow>, e: ExecutionId, i: nat)
    requires i < |events| && events[i].execution == e
    ensures events[i] in History(events, e)
    decreases |events|
  {
    if i < |events| - 1 {
      InHistory(events[..|events| - 1], e, i);
    }
  }

  /** The unique index never refuses the next number of a history. */
  lemma {:induction false} SequenceFree(events: seq<EventRow>, e: ExecutionId)
    requires Chain(History(events, e))
    ensures !HasEvent(events, e, |History(events, e)|)
  {
    hide History, Allowed;
    var h := History(events, e);
    forall i | 0 <= i < |events| && events[i].execution == e ensures events[i].sequence != |h| {
      InHistory(events, e, i);
      var j :| 0 <= j < |h| && h[j] == events[i];
      assert Linked(h, j);
    }
  }

  /** Appending the next allowed event of an execution succeeds and leaves every other history alone. */
  lemma AppendNext(db: Database, event: EventRow)
    requires var h := History(db.events, event.execution);
             Chain(h) && event.sequence == |h| && event.kind == KindOf(event.state)
             && if h == [] then event.state.Planned? else Allowed(h[|h| - 1].state, event.state)
    ensures var h := History(db.events, event.execution);
            var result := AppendEvent(db, event);
            && result == Ok(db.(events := db.events + [event], outbox := db.outbox + [event]))
            && History(result.value.events, event.execution) == h + [event]
            && Chain(h + [event])
    ensures forall e :: e != event.execution ==> History(db.events + [event], e) == History(db.events, e)
  {
    hide History, Chain, HasEvent;
    SequenceFree(db.events, event.execution);
    HistorySnoc(db.events, event, event.execution);
    ChainSnoc(History(db.events, event.execution), event);
    forall e | e != event.execution ensures History(db.events + [event], e) == History(db.events, e) {
      HistorySnoc(db.events, event, e);
    }
  }

  // -------------------------------------------------------------------------
  // What every step keeps
  // -------------------------------------------------------------------------

  /** The version at which the execution of a plan is queued. */
  function QueuedAt(p: Plan): nat {
    if p.approval.None? then 1 else 2
  }

  /** The state that belongs to a version of the row. */
  predicate Staged(p: Plan, row: Row) {
    match row.state
    case WaitingApproval => p.approval.Some? && row.version == 1
    case Cancelled => p.approval.Some? && row.version == 2
    case Queued => row.version == QueuedAt(p)
    case Running => row.version == QueuedAt(p) + 1
    case Verifying => row.version == QueuedAt(p) + 2
    case Succeeded => row.version == QueuedAt(p) + 3
    case Failed => row.version == QueuedAt(p) + 2 || row.version == QueuedAt(p) + 3
    case _ => false
  }

  function Count(dispatches: seq<ExecutorCall>, e: ExecutionId): nat {
    if dispatches == [] then 0
    else Count(dispatches[..|dispatches| - 1], e) + if dispatches[|dispatches| - 1].execution == e then 1 else 0
  }

  /** What came of the last call for an execution. */
  function OutcomeOf(dispatches: seq<ExecutorCall>, e: ExecutionId): Option<Outcome> {
    if dispatches == [] then None
    else
      var last := dispatches[|dispatches| - 1];
      if last.execution == e then Some(last.outcome) else OutcomeOf(dispatches[..|dispatches| - 1], e)
  }

  /**
   * What the row says of the executor's answer: succeeded exactly behind a verified receipt, failed at once behind a failed
   * request and after verification behind an invalid receipt.
   */
  predicate Reported(p: Plan, row: Row, outcome: Option<Outcome>) {
    match row.state
    case Running => true
    case Verifying => outcome == Some(ReceiptInvalid) || outcome == Some(ReceiptVerified)
    case Succeeded => outcome == Some(ReceiptVerified)
    case Failed => outcome == Some(if row.version == QueuedAt(p) + 2 then RequestFailed else ReceiptInvalid)
    case _ => outcome == None
  }

  /** How often the executor may have been called, by the state of the row. */
  predicate Counted(state: ExecutionState, n: nat) {
    match state
    case Running => n <= 1
    case Verifying => n == 1
    case Succeeded => n == 1
    case Failed => n == 1
    case _ => n == 0
  }

  /** The audit rows of an execution, in order. */
  function AuditOf(audit: seq<AuditRow>, e: ExecutionId): seq<AuditRow> {
    if audit == [] then []
    else
      AuditOf(audit[..|audit| - 1], e) + if audit[|audit| - 1].execution == e then [audit[|audit| - 1]] else []
  }

  lemma AuditSnoc(audit: seq<AuditRow>, row: AuditRow, e: ExecutionId)
    ensures AuditOf(audit + [row], e) == AuditOf(audit, e) + if row.execution == e then [row] else []
  {
    assert (audit + [row])[..|audit|] == audit;
  }

  /** What the audit log says of an execution in this state: how its plan was recorded, and how its approval was decided. */
  function Trail(p: Plan, e: ExecutionId, state: ExecutionState): seq<AuditRow> {
    [AuditRow("tool.plan.persisted", e, if p.approval.None? then "QUEUED" else "WAITING_APPROVAL")]
    + if p.approval.None? || state.WaitingApproval? then []
      else [AuditRow("tool.approval.decided", e, if state.Cancelled? then "DENIED" else "APPROVED")]
  }

  ghost predicate RowOk(s: System, planner: Planner, e: ExecutionId) {
    && Recorded(s.db, e)
    && (e !in s.db.rows ==>
          Count(s.dispatches, e) == 0 && OutcomeOf(s.dispatches, e) == None && AuditOf(s.db.audit, e) == [])
    && (e in s.db.rows ==>
          var p := planner(e);
          && Staged(p, s.db.rows[e])
          && Counted(s.db.rows[e].state, Count(s.dispatches, e))
          && Reported(p, s.db.rows[e], OutcomeOf(s.dispatches, e))
          && AuditOf(s.db.audit, e) == Trail(p, e, s.db.rows[e].state)
          && s.db.rows[e].tool == p.tool && s.db.rows[e].digest == p.digest
          && (p.session, p.key) in s.db.byKey && s.db.byKey[(p.session, p.key)] == e
          && (p.approval.Some? ==> Authorized(s.db, p.approval.value.id, e)))
  }

  /** The approval of an execution agrees with its row: an execution past approval has been approved. */
  predicate Authorized(db: Database, id: ApprovalId, e: ExecutionId)
    requires e in db.rows
  {
    && id in db.approvals && db.approvals[id].execution == e
    && match db.rows[e].state
       case WaitingApproval => db.approvals[id].state.Pending? && db.approvals[id].version == 0
       case Cancelled => db.approvals[id].state.Denied?
       case _ => db.approvals[id].state.Approved?
  }

  predicate Owner(phase: Phase) {
    phase.Started? || phase.Dispatched? || phase.Checking?
  }

  ghost predicate ClientOk(s: System, planner: Planner, c: ClientId)
    requires c in s.clients
  {
    var e := s.clients[c].execution;
    var p := planner(e);
    && c < s.nextClient
    && match s.clients[c].phase
       case New => true
       case Waiting => p.approval.Some?
       case Ready(v) =>
         && v == QueuedAt(p)
         && (p.approval.Some? ==> e in s.db.rows)
         && (e in s.db.rows ==> s.db.rows[e].version >= v && !s.db.rows[e].state.Cancelled?)
       case Started(v) =>
         e in s.db.rows && s.db.rows[e].state.Running? && s.db.rows[e].version == v && Count(s.dispatches, e) == 0
       case Dispatched(v, outcome) =>
         && e in s.db.rows && s.db.rows[e].state.Running? && s.db.rows[e].version == v
         && Count(s.dispatches, e) == 1 && OutcomeOf(s.dispatches, e) == Some(outcome)
       case Checking(v, outcome) =>
         && e in s.db.rows && s.db.rows[e].state.Verifying? && s.db.rows[e].version == v
         && OutcomeOf(s.dispatches, e) == Some(outcome) && !outcome.RequestFailed?
  }

  ghost predicate OneOwner(s: System) {
    forall c, d :: c in s.clients && d in s.clients && Owner(s.clients[c].phase) && Owner(s.clients[d].phase)
                   && s.clients[c].execution == s.clients[d].execution
                   ==> c == d
  }

  ghost predicate Tables(db: Database, planner: Planner) {
    && db.outbox == db.events
    && (forall k :: k in db.byKey ==> db.byKey[k] in db.rows)
    && (forall id :: id in db.approvals ==>
          db.approvals[id].execution in db.rows
          && planner(db.approvals[id].execution).approval.Some?
          && planner(db.approvals[id].execution).approval.value.id == id
          && planner(db.approvals[id].execution).approval.value.expiresAt == db.approvals[id].expiresAt)
  }

  ghost predicate Inv(s: System, planner: Planner) {
    && Tables(s.db, planner)
    && (forall e :: RowOk(s, planner, e))
    && (forall c :: c in s.clients ==> ClientOk(s, planner, c))
    && OneOwner(s)
  }

  /** Approval ids are drawn fresh as well. */
  ghost predicate FreshApprovals(planner: Planner) {
    forall e, f :: planner(e).approval.Some? && planner(f).approval.Some?
                   && planner(e).approval.value.id == planner(f).approval.value.id
                   ==> e == f
  }

  lemma LeaveKeeps(s: System, planner: Planner, c: ClientId)
    requires Inv(s, planner)
    ensures Inv(Leave(s, c), planner)
  {
    hide Recorded, Count, Staged, AuditOf, OutcomeOf, Reported;
    forall d | d in Leave(s, c).clients ensures ClientOk(Leave(s, c), planner, d) {
      assert ClientOk(s, planner, d);
    }
    forall e ensures RowOk(Leave(s, c), planner, e) {
      assert RowOk(s, planner, e);
    }
  }

  lemma ArriveKeeps(s: System, planner: Planner, e: ExecutionId)
    requires Inv(s, planner)
    ensures Inv(Next(s, planner, Arrive(e)), planner)
  {
    hide Recorded, Count, Staged, AuditOf, OutcomeOf, Reported;
    var next := Next(s, planner, Arrive(e));
    forall d | d in next.clients ensures ClientOk(next, planner, d) {
      if d in s.clients {
        assert ClientOk(s, planner, d);
      }
    }
    forall x ensures RowOk(next, planner, x) {
      assert RowOk(s, planner, x);
    }
  }

  /** One transition of an existing row, with its event. */
  lemma TransitionGoes(db: Database, e: ExecutionId, target: ExecutionState, kind: string)
    requires e in db.rows && Recorded(db, e) && Allowed(db.rows[e].state, target) && kind == KindOf(target)
    ensures var v := db.rows[e].version;
            var result := Transition(db, e, v, target, kind);
            && result.Ok?
            && result.value == db.(rows := db.rows[e := db.rows[e].(state := target, version := v + 1)],
                                   events := result.value.events, outbox := result.value.outbox)
            && (db.outbox == db.events ==> result.value.outbox == result.value.events)
            && Recorded(result.value, e)
            && forall x :: x != e ==> (Recorded(db, x) <==> Recorded(result.value, x))
  {
    hide History, Chain, HasEvent;
    var v := db.rows[e].version;
    var row := db.rows[e].(state := target, version := v + 1);
    var updated := db.(rows := db.rows[e := row]);
    AppendNext(updated, EventRow(e, v + 1, kind, target));
  }

  /** What a client's transition changes: one row, one history, and the client's own phase. */
  ghost predicate Advances(s: System, next: System, e: ExecutionId, target: ExecutionState) {
    && e in s.db.rows && e in next.db.rows
    && next.db == s.db.(rows := s.db.rows[e := s.db.rows[e].(state := target, version := s.db.rows[e].version + 1)],
                        events := next.db.events, outbox := next.db.outbox)
    && (s.db.outbox == s.db.events ==> next.db.outbox == next.db.events)
    && Recorded(next.db, e)
    && (forall x :: x != e ==> (Recorded(s.db, x) <==> Recorded(next.db, x)))
    && next.dispatches == s.dispatches
    && next.nextClient == s.nextClient
  }

  /** Rows under an advance. */
  lemma AdvanceRows(s: System, next: System, planner: Planner, e: ExecutionId, target: ExecutionState)
    requires Inv(s, planner) && Advances(s, next, e, target)
    requires !s.db.rows[e].state.WaitingApproval? && !s.db.rows[e].state.Cancelled?
             && !target.WaitingApproval? && !target.Cancelled?
    requires Staged(planner(e), next.db.rows[e]) && Counted(target, Count(s.dispatches, e))
    requires Reported(planner(e), next.db.rows[e], OutcomeOf(s.dispatches, e))
    ensures Tables(next.db, planner) && forall x :: RowOk(next, planner, x)
  {
    hide Recorded, Count, Staged, Counted, AuditOf, OutcomeOf, Reported;
    forall x ensures RowOk(next, planner, x) {
      assert RowOk(s, planner, x);
    }
  }

  /** The other clients under an advance by a client that owns its execution, or is the first to. */
  lemma AdvanceClients(s: System, next: System, planner: Planner, c: ClientId, target: ExecutionState)
    requires Inv(s, planner) && c in s.clients && Advances(s, next, s.clients[c].execution, target)
    requires !target.Cancelled?
    requires forall d :: d in next.clients && d != c ==> d in s.clients && next.clients[d] == s.clients[d]
    requires forall d :: d in s.clients && d != c && s.clients[d].execution == s.clients[c].execution
                         ==> !Owner(s.clients[d].phase)
    requires c in next.clients ==> next.clients[c].execution == s.clients[c].execution && ClientOk(next, planner, c)
    ensures forall d :: d in next.clients ==> ClientOk(next, planner, d)
    ensures OneOwner(next)
  {
    hide Recorded, Count, Staged, RowOk;
    forall d | d in next.clients ensures ClientOk(next, planner, d) {
      if d != c {
        assert ClientOk(s, planner, d);
      }
    }
  }

  lemma {:induction false} StartKeeps(s: System, planner: Planner, c: ClientId)
    requires Inv(s, planner)
    ensures Inv(Next(s, planner, Start(c)), planner)
  {
    hide Recorded, Count, Transition, Advances, RowOk, OutcomeOf;
    if c in s.clients && s.clients[c].phase.Ready? {
      var e, v := s.clients[c].execution, s.clients[c].phase.version;
      assert ClientOk(s, planner, c);
      if e in s.db.rows && s.db.rows[e].version == v {
        RowFacts(s, planner, e);
        TransitionGoes(s.db, e, Running, "tool.started");
        var next := Next(s, planner, Start(c));
        Advanced(s, next, e, Running);
        AdvanceRows(s, next, planner, e, Running);
        forall d | d in s.clients && d != c && s.clients[d].execution == e ensures !Owner(s.clients[d].phase) {
          assert ClientOk(s, planner, d);
        }
        AdvanceClients(s, next, planner, c, Running);
      } else {
        Stale(s.db, e, v, Running, "tool.started");
        LeaveKeeps(s, planner, c);
      }
    }
  }

  lemma RowFacts(s: System, planner: Planner, e: ExecutionId)
    requires Inv(s, planner) && e in s.db.rows
    ensures Recorded(s.db, e) && s.db.outbox == s.db.events && Staged(planner(e), s.db.rows[e])
    ensures Counted(s.db.rows[e].state, Count(s.dispatches, e))
  {
    assert RowOk(s, planner, e);
  }

  lemma Advanced(s: System, next: System, e: ExecutionId, target: ExecutionState)
    requires e in s.db.rows && Recorded(next.db, e)
    requires next.db == s.db.(rows := s.db.rows[e := s.db.rows[e].(state := target, version := s.db.rows[e].version + 1)],
                              events := next.db.events, outbox := next.db.outbox)
    requires s.db.outbox == s.db.events ==> next.db.outbox == next.db.events
    requires forall x :: x != e ==> (Recorded(s.db, x) <==> Recorded(next.db, x))
    requires next.dispatches == s.dispatches && next.nextClient == s.nextClient
    ensures Advances(s, next, e, target)
  {
  }

  /** A stale or missing version is refused. */
  lemma Stale(db: Database, e: ExecutionId, v: nat, target: ExecutionState, kind: string)
    requires e !in db.rows || db.rows[e].version != v
    ensures Transition(db, e, v, target, kind) == Err(OptimisticLock)
  {
  }

  /** The store itself takes any target on the current version. */
  lemma AnyTargetIsTaken(db: Database, e: ExecutionId, target: ExecutionState, kind: string)
    requires e in db.rows && Recorded(db, e)
    ensures var result := Transition(db, e, db.rows[e].version, target, kind);
            result.Ok? && result.value.rows == db.rows[e := db.rows[e].(state := target, version := db.rows[e].version + 1)]
  {
    hide History, Chain, HasEvent;
    SequenceFree(db.events, e);
  }

  lemma CountSnoc(dispatches: seq<ExecutorCall>, call: ExecutorCall, x: ExecutionId)
    ensures Count(dispatches + [call], x) == Count(dispatches, x) + if call.execution == x then 1 else 0
    ensures OutcomeOf(dispatches + [call], x) == if call.execution == x then Some(call.outcome) else OutcomeOf(dispatches, x)
  {
    assert (dispatches + [call])[..|dispatches|] == dispatches;
  }

  lemma {:induction false} DispatchKeeps(s: System, planner: Planner, c: ClientId, outcome: Outcome)
    requires Inv(s, planner)
    ensures Inv(Next(s, planner, Dispatch(c, outcome)), planner)
  {
    hide Recorded, Count, Staged, AuditOf, OutcomeOf;
    if c in s.clients && s.clients[c].phase.Started? {
      var e := s.clients[c].execution;
      var next := Next(s, planner, Dispatch(c, outcome));
      assert ClientOk(s, planner, c);
      forall x
        ensures Count(next.dispatches, x) == Count(s.dispatches, x) + if e == x then 1 else 0
        ensures OutcomeOf(next.dispatches, x) == if e == x then Some(outcome) else OutcomeOf(s.dispatches, x)
      {
        CountSnoc(s.dispatches, ExecutorCall(e, outcome), x);
      }
      forall x ensures RowOk(next, planner, x) {
        assert RowOk(s, planner, x);
      }
      forall d | d in next.clients ensures ClientOk(next, planner, d) {
        assert ClientOk(s, planner, d);
      }
    }
  }

  /** An owner's transition always succeeds: nobody else can have moved its row. */
  lemma OwnerAdvances(s: System, planner: Planner, c: ClientId, target: ExecutionState, kind: string)
    requires Inv(s, planner) && c in s.clients
    requires s.clients[c].phase.Dispatched? || s.clients[c].phase.Checking?
    requires s.clients[c].phase.Dispatched? ==> target.Failed? || target.Verifying?
    requires s.clients[c].phase.Checking? ==> target.Failed? || target.Succeeded?
    requires kind == KindOf(target)
    requires target.Failed? && s.clients[c].phase.Dispatched? ==> s.clients[c].phase.outcome.RequestFailed?
    requires target.Failed? && s.clients[c].phase.Checking? ==> s.clients[c].phase.outcome.ReceiptInvalid?
    requires target.Verifying? ==> !s.clients[c].phase.outcome.RequestFailed?
    requires target.Succeeded? ==> s.clients[c].phase.outcome.ReceiptVerified?
    ensures var e := s.clients[c].execution;
            var result := Transition(s.db, e, s.clients[c].phase.version, target, kind);
            && result.Ok?
            && (var left := Leave(s.(db := result.value), c);
                Inv(left, planner))
            && (target.Verifying? ==>
                  Inv(Commit(s, c, result, Checking(s.clients[c].phase.version + 1, s.clients[c].phase.outcome)), planner))
  {
    hide Recorded, Count, Transition, Advances, RowOk, OutcomeOf;
    var e := s.clients[c].execution;
    assert ClientOk(s, planner, c);
    RowFacts(s, planner, e);
    TransitionGoes(s.db, e, target, kind);
    var result := Transition(s.db, e, s.clients[c].phase.version, target, kind);
    var left := Leave(s.(db := result.value), c);
    Advanced(s, left, e, target);
    AdvanceRows(s, left, planner, e, target);
    AdvanceClients(s, left, planner, c, target);
    if target.Verifying? {
      var next := Commit(s, c, result, Checking(s.clients[c].phase.version + 1, s.clients[c].phase.outcome));
      Advanced(s, next, e, target);
      AdvanceRows(s, next, planner, e, target);
      AdvanceClients(s, next, planner, c, target);
    }
  }

  lemma CheckedOutcome(s: System, planner: Planner, c: ClientId)
    requires Inv(s, planner) && c in s.clients && s.clients[c].phase.Checking?
    ensures !s.clients[c].phase.outcome.RequestFailed?
  {
    assert ClientOk(s, planner, c);
  }

  lemma {:induction false} ReportKeeps(s: System, planner: Planner, c: ClientId)
    requires Inv(s, planner)
    ensures Inv(Next(s, planner, Report(c)), planner)
    ensures Inv(Next(s, planner, Conclude(c)), planner)
  {
    hide Inv, Transition;
    if c in s.clients {
      var phase := s.clients[c].phase;
      if phase.Dispatched? {
        if phase.outcome.RequestFailed? {
          OwnerAdvances(s, planner, c, Failed, "tool.failed");
        } else {
          OwnerAdvances(s, planner, c, Verifying, "tool.verifying");
        }
      } else if phase.Checking? {
        CheckedOutcome(s, planner, c);
        if phase.outcome.ReceiptVerified? {
          OwnerAdvances(s, planner, c, Succeeded, "tool.completed");
        } else {
          OwnerAdvances(s, planner, c, Failed, "tool.failed");
        }
      }
    }
  }

  // -------------------------------------------------------------------------
  // Approval decisions
  // -------------------------------------------------------------------------

  /** When a decision is accepted, and what it leaves behind. An expired decision leaves nothing. */
  lemma DecideGoes(
    db: Database, id: ApprovalId, approved: bool, digest: string, precondition: int, expected: nat, now: int)
    requires id in db.approvals && db.approvals[id].execution in db.rows && Recorded(db, db.approvals[id].execution)
    ensures var a := db.approvals[id];
            var e := a.execution;
            var row := db.rows[e];
            var result := Decide(db, id, approved, digest, precondition, expected, now);
            && (result.Ok? <==> && a.state.Pending? && a.version == expected && a.digest == digest
                                && a.precondition == precondition && row.state.WaitingApproval? && now < a.expiresAt)
            && (result.Ok? ==>
                  && result.value == db.(
                       approvals := db.approvals[id := a.(state := if approved then Approved else Denied, version := a.version + 1)],
                       rows := db.rows[e := row.(state := if approved then Queued else Cancelled, version := row.version + 1)],
                       events := result.value.events, outbox := result.value.outbox, audit := result.value.audit)
                  && (db.outbox == db.events ==> result.value.outbox == result.value.events)
                  && Recorded(result.value, e)
                  && (forall x :: x != e ==> (Recorded(db, x) <==> Recorded(result.value, x)))
                  && forall x :: AuditOf(result.value.audit, x) == AuditOf(db.audit, x)
                       + if x == e then [AuditRow("tool.approval.decided", e, if approved then "APPROVED" else "DENIED")] else [])
  {
    hide History, Chain, HasEvent, AuditOf;
    var a := db.approvals[id];
    var e := a.execution;
    var row := db.rows[e];
    if a.state.Pending? && row.state.WaitingApproval? {
      var decision := if now >= a.expiresAt then Expired else if approved then Approved else Denied;
      var entry := AuditRow("tool.approval.decided", e, if decision.Approved? then "APPROVED" else "DENIED");
      forall x ensures AuditOf(db.audit + [entry], x) == AuditOf(db.audit, x) + if x == e then [entry] else [] {
        AuditSnoc(db.audit, entry, x);
      }
      var target := if decision.Approved? then Queued else Cancelled;
      var decided := db.(
        approvals := db.approvals[id := a.(state := decision, version := a.version + 1)],
        rows := db.rows[e := row.(state := target, version := row.version + 1)],
        audit := db.audit + [AuditRow("tool.approval.decided", e, if decision.Approved? then "APPROVED" else "DENIED")]);
      AppendNext(decided, EventRow(e, row.version + 1, if target.Queued? then "tool.queued" else "tool.cancelled", target));
    }
  }

  /** What an accepted decision changes: the approval, its row with history and audit, and the client that made it. */
  ghost predicate DecidedBy(s: System, next: System, planner: Planner, c: ClientId, approved: bool)
    requires c in s.clients && planner(s.clients[c].execution).approval.Some?
  {
    var e := s.clients[c].execution;
    var id := planner(e).approval.value.id;
    && id in s.db.approvals && s.db.approvals[id].execution == e
    && e in s.db.rows && s.db.rows[e].state.WaitingApproval?
    && next.db == s.db.(
         approvals := s.db.approvals[id := s.db.approvals[id].(
           state := if approved then Approved else Denied, version := s.db.approvals[id].version + 1)],
         rows := s.db.rows[e := s.db.rows[e].(
           state := if approved then Queued else Cancelled, version := s.db.rows[e].version + 1)],
         events := next.db.events, outbox := next.db.outbox, audit := next.db.audit)
    && next.db.outbox == next.db.events
    && Recorded(next.db, e)
    && (forall x :: x != e ==> (Recorded(s.db, x) <==> Recorded(next.db, x)))
    && (forall x :: AuditOf(next.db.audit, x) == AuditOf(s.db.audit, x)
          + if x == e then [AuditRow("tool.approval.decided", e, if approved then "APPROVED" else "DENIED")] else [])
    && next.dispatches == s.dispatches && next.nextClient == s.nextClient
    && next.clients == if approved then s.clients[c := Client(e, Ready(2))] else s.clients - {c}
  }

  lemma DecidedRows(s: System, next: System, planner: Planner, c: ClientId, approved: bool)
    requires Inv(s, planner) && FreshApprovals(planner) && c in s.clients && planner(s.clients[c].execution).approval.Some?
    requires DecidedBy(s, next, planner, c, approved)
    ensures Tables(next.db, planner) && forall x :: RowOk(next, planner, x)
  {
    hide Recorded, Count, AuditOf, OutcomeOf, ClientOk;
    forall x ensures RowOk(next, planner, x) {
      assert RowOk(s, planner, x);
    }
  }

  lemma DecidedClients(s: System, next: System, planner: Planner, c: ClientId, approved: bool)
    requires Inv(s, planner) && c in s.clients && planner(s.clients[c].execution).approval.Some?
    requires DecidedBy(s, next, planner, c, approved)
    ensures (forall d :: d in next.clients ==> ClientOk(next, planner, d)) && OneOwner(next)
  {
    hide Recorded, Count, AuditOf, OutcomeOf;
    assert RowOk(s, planner, s.clients[c].execution);
    forall d | d in next.clients ensures ClientOk(next, planner, d) {
      assert ClientOk(s, planner, d);
      assert ClientOk(s, planner, c);
    }
  }

  lemma {:induction false} DecideKeeps(
    s: System, planner: Planner, c: ClientId, approved: bool, digest: string, now: int)
    requires Inv(s, planner) && FreshApprovals(planner)
    ensures Inv(Next(s, planner, DecideApproval(c, approved, digest, now)), planner)
  {
    hide Recorded, Count, Decide, AuditOf, OutcomeOf, RowOk;
    if c in s.clients && s.clients[c].phase.Waiting? {
      var e := s.clients[c].execution;
      assert ClientOk(s, planner, c);
      var a := planner(e).approval.value;
      var result := Decide(s.db, a.id, approved, digest, a.precondition, 0, now);
      var next := Next(s, planner, DecideApproval(c, approved, digest, now));
      if a.id !in s.db.approvals {
        DecideMissing(s.db, a.id, approved, digest, a.precondition, 0, now);
      } else {
        assert s.db.approvals[a.id].execution == e;
        RowFacts(s, planner, e);
        DecideGoes(s.db, a.id, approved, digest, a.precondition, 0, now);
        if result.Ok? {
          assert DecidedBy(s, next, planner, c, approved);
          DecidedRows(s, next, planner, c, approved);
          DecidedClients(s, next, planner, c, approved);
        }
      }
    }
  }

  lemma DecideMissing(
    db: Database, id: ApprovalId, approved: bool, digest: string, precondition: int, expected: nat, now: int)
    requires id !in db.approvals
    ensures Decide(db, id, approved, digest, precondition, expected, now) == Err(OptimisticLock)
  {
  }

  // -------------------------------------------------------------------------
  // Persisting a plan
  // -------------------------------------------------------------------------

  /** A new plan is recorded as planned and first transition in one go. */
  lemma PersistGoes(db: Database, e: ExecutionId, p: Plan)
    requires (p.session, p.key) !in db.byKey && e !in db.rows && Recorded(db, e)
    requires p.approval.Some? ==> p.approval.value.id !in db.approvals
    ensures var result := Persist(db, e, p);
            && result.Ok?
            && result.value == db.(
                 rows := db.rows[e := Row(p.tool, p.digest, InitialState(p), 1)],
                 byKey := db.byKey[(p.session, p.key) := e],
                 approvals := if p.approval.None? then db.approvals
                              else db.approvals[p.approval.value.id := ApprovalRow(
                                     e, Pending, 0, p.digest, p.approval.value.precondition, p.approval.value.expiresAt)],
                 events := result.value.events, outbox := result.value.outbox, audit := result.value.audit)
            && (db.outbox == db.events ==> result.value.outbox == result.value.events)
            && Recorded(result.value, e)
            && (forall x :: x != e ==> (Recorded(db, x) <==> Recorded(result.value, x)))
            && forall x :: AuditOf(result.value.audit, x) == AuditOf(db.audit, x)
                 + if x == e then [AuditRow("tool.plan.persisted", e, if p.approval.None? then "QUEUED" else "WAITING_APPROVAL")]
                   else []
  {
    hide HasEvent, History, AuditOf;
    var state := InitialState(p);
    var entry := AuditRow("tool.plan.persisted", e, if state.Queued? then "QUEUED" else "WAITING_APPROVAL");
    forall x ensures AuditOf(db.audit + [entry], x) == AuditOf(db.audit, x) + if x == e then [entry] else [] {
      AuditSnoc(db.audit, entry, x);
    }
    var kind := if state.Queued? then "tool.queued" else "tool.approval.required";
    var inserted := db.(byKey := db.byKey[(p.session, p.key) := e]);
    AppendNext(inserted, EventRow(e, 0, "tool.planned", Planned));
    var planned := AppendEvent(inserted, EventRow(e, 0, "tool.planned", Planned)).value;
    var updated := planned.(rows := db.rows[e := Row(p.tool, p.digest, state, 1)]);
    AppendNext(updated, EventRow(e, 1, kind, state));
  }

  /** A client whose plan turns out to be recorded already moves on without touching the database. */
  lemma PriorKeeps(s: System, planner: Planner, c: ClientId)
    requires Inv(s, planner) && c in s.clients && s.clients[c].phase.New?
    requires var p := planner(s.clients[c].execution); (p.session, p.key) in s.db.byKey
    ensures var p := planner(s.clients[c].execution);
            Inv(Commit(s, c, Ok(s.db), if p.approval.None? then Ready(1) else Waiting), planner)
  {
    hide Recorded, Count, Counted, AuditOf, OutcomeOf, Reported;
    var p := planner(s.clients[c].execution);
    var next := Commit(s, c, Ok(s.db), if p.approval.None? then Ready(1) else Waiting);
    assert RowOk(s, planner, s.clients[c].execution);
    forall x ensures RowOk(next, planner, x) {
      assert RowOk(s, planner, x);
    }
    forall d | d in next.clients ensures ClientOk(next, planner, d) {
      assert ClientOk(s, planner, d);
    }
  }

  lemma {:induction false} PersistKeeps(s: System, planner: Planner, c: ClientId)
    requires Inv(s, planner) && FreshApprovals(planner)
    ensures Inv(Next(s, planner, PersistPlan(c)), planner)
  {
    hide Recorded, Count, Persist, AuditOf, OutcomeOf;
    if c in s.clients && s.clients[c].phase.New? {
      var e := s.clients[c].execution;
      var p := planner(e);
      var result := Persist(s.db, e, p);
      var next := Next(s, planner, PersistPlan(c));
      assert ClientOk(s, planner, c);
      assert RowOk(s, planner, e);
      if (p.session, p.key) in s.db.byKey {
        PersistPrior(s.db, e, p);
        if result.Ok? {
          PriorKeeps(s, planner, c);
        } else {
          LeaveKeeps(s, planner, c);
        }
      } else {
        PersistGoes(s.db, e, p);
        forall x ensures RowOk(next, planner, x) {
          assert RowOk(s, planner, x);
        }
        forall d | d in next.clients ensures ClientOk(next, planner, d) {
          assert ClientOk(s, planner, d);
        }
      }
    }
  }

  /** A used idempotency key inserts nothing. */
  lemma PersistPrior(db: Database, e: ExecutionId, p: Plan)
    requires (p.session, p.key) in db.byKey
    ensures Persist(db, e, p) == Ok(db) || Persist(db, e, p) == Err(IdempotencyConflict)
  {
  }

  // -------------------------------------------------------------------------
  // Runs
  // -------------------------------------------------------------------------

  lemma {:induction false} StepKeeps(s: System, planner: Planner, step: Step)
    requires Inv(s, planner) && FreshApprovals(planner)
    ensures Inv(Next(s, planner, step), planner)
  {
    hide Inv, Persist, Decide, Transition;
    match step
    case Arrive(e) => ArriveKeeps(s, planner, e);
    case PersistPlan(c) => PersistKeeps(s, planner, c);
    case DecideApproval(c, approved, digest, now) => DecideKeeps(s, planner, c, approved, digest, now);
    case Start(c) => StartKeeps(s, planner, c);
    case Dispatch(c, outcome) => DispatchKeeps(s, planner, c, outcome);
    case Report(c) => ReportKeeps(s, planner, c);
    case Conclude(c) => ReportKeeps(s, planner, c);
    case Crash(c) => LeaveKeeps(s, planner, c);
  }

  lemma {:induction false} RunKeeps(planner: Planner, steps: seq<Step>)
    requires FreshApprovals(planner)
    ensures Inv(Run(planner, steps), planner)
    decreases |steps|
  {
    hide Inv, Next;
    if steps == [] {
      StartInv(planner);
    } else {
      RunKeeps(planner, steps[..|steps| - 1]);
      StepKeeps(Run(planner, steps[..|steps| - 1]), planner, steps[|steps| - 1]);
    }
  }

  lemma StartInv(planner: Planner)
    ensures Inv(System(EMPTY, map[], 0, []), planner)
  {
  }

  /**
   * For every interleaving and every crash or restart of clients: the durable events and the outbox rows of an execution
   * are exactly the sequences 0 to its version, they start planned, every step between them is allowed by the domain's
   * table although the store never looks at it, each event's type tells of its state, and the row's state is the last event's
   * state.
   */
  lemma {:induction false} LogMatchesRow(planner: Planner, steps: seq<Step>, e: ExecutionId)
    requires FreshApprovals(planner)
    ensures var db := Run(planner, steps).db;
            var h := History(db.events, e);
            && History(db.outbox, e) == h
            && (e !in db.rows ==> h == [])
            && (e in db.rows ==>
                  && |h| == db.rows[e].version + 1
                  && h[db.rows[e].version].state == db.rows[e].state
                  && h[0].state == Planned
                  && (forall i :: 0 <= i < |h| ==> h[i].sequence == i && h[i].kind == KindOf(h[i].state))
                  && forall i :: 0 <= i < db.rows[e].version ==> Allowed(h[i].state, h[i + 1].state))
  {
    hide Run, History, Allowed;
    RunKeeps(planner, steps);
    var s := Run(planner, steps);
    assert RowOk(s, planner, e);
    var h := History(s.db.events, e);
    if e in s.db.rows {
      forall i | 0 <= i < |h|
        ensures h[i].sequence == i && h[i].kind == KindOf(h[i].state) && (i == 0 ==> h[i].state.Planned?)
      {
        assert Linked(h, i);
      }
      forall i | 0 <= i < s.db.rows[e].version ensures Allowed(h[i].state, h[i + 1].state) {
        assert Linked(h, i + 1);
      }
    }
  }

  /**
   * The executor is called at most once per execution in every run; an execution recorded as verified, succeeded or
   * failed was dispatched exactly once; one that needs an approval is dispatched only after it was approved; and the audit
   * log has its trail: one row for the persisted plan and one for the decision, if there was one.
   */
  lemma {:induction false} DispatchedOnce(planner: Planner, steps: seq<Step>, e: ExecutionId)
    requires FreshApprovals(planner)
    ensures var s := Run(planner, steps);
            var n := Count(s.dispatches, e);
            && n <= 1
            && (n == 1 ==> e in s.db.rows && s.db.rows[e].version > QueuedAt(planner(e)))
            && (e in s.db.rows && (s.db.rows[e].state.Verifying? || s.db.rows[e].state.Succeeded? || s.db.rows[e].state.Failed?)
                ==> n == 1)
            && AuditOf(s.db.audit, e) == (if e in s.db.rows then Trail(planner(e), e, s.db.rows[e].state) else [])
            && (n == 1 && planner(e).approval.Some? ==>
                  planner(e).approval.value.id in s.db.approvals
                  && s.db.approvals[planner(e).approval.value.id].state == Approved)
  {
    hide Run, Recorded, Count, AuditOf;
    RunKeeps(planner, steps);
    var s := Run(planner, steps);
    assert RowOk(s, planner, e);
  }

  // -------------------------------------------------------------------------
  // An approval that has expired
  // -------------------------------------------------------------------------

  /** A decision on the approval of this execution comes no earlier than its expiry. */
  predicate Late(s: System, planner: Planner, step: Step, e: ExecutionId)
    requires planner(e).approval.Some?
  {
    step.DecideApproval? && step.c in s.clients && s.clients[step.c].execution == e ==>
      step.now >= planner(e).approval.value.expiresAt
  }

  /** Not recorded, or waiting for its approval. */
  predicate Waits(s: System, e: ExecutionId) {
    e in s.db.rows ==> s.db.rows[e].state.WaitingApproval?
  }

  /** A transaction of a client leaves a waiting execution waiting, unless it is its own decision and in time. */
  lemma TransitionWaits(s: System, planner: Planner, c: ClientId, e: ExecutionId, target: ExecutionState, kind: string)
    requires Inv(s, planner) && c in s.clients && Waits(s, e) && planner(e).approval.Some?
    requires s.clients[c].phase.Ready? || Owner(s.clients[c].phase)
    ensures var result := Transition(s.db, s.clients[c].execution, s.clients[c].phase.version, target, kind);
            result.Ok? && e in result.value.rows ==> result.value.rows[e].state.WaitingApproval?
  {
    hide Recorded, Count, AuditOf, HasEvent, OutcomeOf;
    assert ClientOk(s, planner, c);
    assert RowOk(s, planner, e);
  }

  lemma PersistWaits(s: System, planner: Planner, c: ClientId, e: ExecutionId)
    requires Inv(s, planner) && c in s.clients && Waits(s, e) && planner(e).approval.Some?
    ensures var x := s.clients[c].execution;
            var result := Persist(s.db, x, planner(x));
            result.Ok? && e in result.value.rows ==> result.value.rows[e].state.WaitingApproval?
  {
    hide RowOk, ClientOk, HasEvent;
  }

  lemma DecisionWaits(s: System, planner: Planner, c: ClientId, approved: bool, digest: string, now: int, e: ExecutionId)
    requires Inv(s, planner) && FreshApprovals(planner) && Waits(s, e) && planner(e).approval.Some?
    requires Late(s, planner, DecideApproval(c, approved, digest, now), e)
    ensures Waits(Next(s, planner, DecideApproval(c, approved, digest, now)), e)
  {
    hide Decide, RowOk, Recorded;
    if c in s.clients && s.clients[c].phase.Waiting? && planner(s.clients[c].execution).approval.Some? {
      var a := planner(s.clients[c].execution).approval.value;
      if a.id !in s.db.approvals {
        DecideMissing(s.db, a.id, approved, digest, a.precondition, 0, now);
      } else {
        assert s.db.approvals[a.id].execution == s.clients[c].execution;
        RowFacts(s, planner, s.clients[c].execution);
        DecideGoes(s.db, a.id, approved, digest, a.precondition, 0, now);
      }
    }
  }

  lemma StepWaits(s: System, planner: Planner, step: Step, e: ExecutionId)
    requires Inv(s, planner) && FreshApprovals(planner) && Waits(s, e) && planner(e).approval.Some?
    requires Late(s, planner, step, e)
    ensures Waits(Next(s, planner, step), e)
  {
    hide Inv, Persist, Decide, Transition, FreshApprovals, Late;
    match step
    case DecideApproval(c, approved, digest, now) => DecisionWaits(s, planner, c, approved, digest, now, e);
    case Arrive(_) =>
    case Crash(_) =>
    case PersistPlan(c) => if c in s.clients { PersistWaits(s, planner, c, e); }
    case Dispatch(c, _) =>
    case Start(c) =>
      if c in s.clients && s.clients[c].phase.Ready? {
        TransitionWaits(s, planner, c, e, Running, "tool.started");
      }
    case Report(c) =>
      if c in s.clients && s.clients[c].phase.Dispatched? {
        TransitionWaits(s, planner, c, e, Failed, "tool.failed");
        TransitionWaits(s, planner, c, e, Verifying, "tool.verifying");
      }
    case Conclude(c) =>
      if c in s.clients && s.clients[c].phase.Checking? {
        TransitionWaits(s, planner, c, e, Succeeded, "tool.completed");
        TransitionWaits(s, planner, c, e, Failed, "tool.failed");
      }
  }

  ghost predicate AllLate(planner: Planner, steps: seq<Step>, e: ExecutionId)
    requires planner(e).approval.Some?
  {
    forall i :: 0 <= i < |steps| ==> Late(Run(planner, steps[..i]), planner, steps[i], e)
  }

  /**
   * An execution whose approval nobody decides in time waits for good: whatever clients do, crash or try again, its
   * approval stays pending, and it is never dispatched.
   */
  lemma {:induction false} ExpiredWaits(planner: Planner, steps: seq<Step>, e: ExecutionId)
    requires FreshApprovals(planner) && planner(e).approval.Some? && AllLate(planner, steps, e)
    ensures var s := Run(planner, steps);
            && Count(s.dispatches, e) == 0
            && (e in s.db.rows ==>
                  && s.db.rows[e].state == WaitingApproval
                  && planner(e).approval.value.id in s.db.approvals
                  && s.db.approvals[planner(e).approval.value.id].state == Pending)
    decreases |steps|
  {
    hide Next, Recorded, AuditOf, Count, Late, OutcomeOf;
    if steps != [] {
      var before := steps[..|steps| - 1];
      forall i | 0 <= i < |before| ensures Late(Run(planner, before[..i]), planner, before[i], e) {
        assert before[..i] == steps[..i];
      }
      ExpiredWaits(planner, before, e);
      RunKeeps(planner, before);
      assert Late(Run(planner, steps[..|steps| - 1]), planner, steps[|steps| - 1], e);
      StepWaits(Run(planner, before), planner, steps[|steps| - 1], e);
    }
    RunKeeps(planner, steps);
    assert RowOk(Run(planner, steps), planner, e);
  }

  // -------------------------------------------------------------------------
  // What the executor answered
  // -------------------------------------------------------------------------

  lemma {:induction false} OutcomeIsOfACall(dispatches: seq<ExecutorCall>, e: ExecutionId)
    ensures OutcomeOf(dispatches, e).Some? ==> ExecutorCall(e, OutcomeOf(dispatches, e).value) in dispatches
    ensures forall i :: 0 <= i < |dispatches| && dispatches[i].execution == e && Count(dispatches, e) <= 1 ==>
              OutcomeOf(dispatches, e) == Some(dispatches[i].outcome)
    decreases |dispatches|
  {
    if dispatches != [] {
      var before := dispatches[..|dispatches| - 1];
      OutcomeIsOfACall(before, e);
      forall i | 0 <= i < |before| && before[i].execution == e ensures Count(before, e) >= 1 {
        CountsCall(before, e, i);
      }
    }
  }

  lemma {:induction false} CountsCall(dispatches: seq<ExecutorCall>, e: ExecutionId, i: nat)
    requires i < |dispatches| && dispatches[i].execution == e
    ensures Count(dispatches, e) >= 1
    decreases |dispatches|
  {
    if i < |dispatches| - 1 {
      CountsCall(dispatches[..|dispatches| - 1], e, i);
    }
  }

  /**
   * Over every run the row never says anything else than the executor: it is succeeded only behind a verified receipt, failed
   * only behind a failed request or an invalid receipt, and a call with a verified receipt never ends up failed.
   */
  lemma {:induction false} RowTellsOutcome(planner: Planner, steps: seq<Step>, e: ExecutionId, i: nat)
    requires FreshApprovals(planner) && i < |Run(planner, steps).dispatches|
    requires Run(planner, steps).dispatches[i].execution == e
    ensures var s := Run(planner, steps);
            var outcome := s.dispatches[i].outcome;
            && e in s.db.rows
            && match s.db.rows[e].state
               case Running => true
               case Verifying => !outcome.RequestFailed?
               case Succeeded => outcome.ReceiptVerified?
               case Failed =>
                 if s.db.rows[e].version == QueuedAt(planner(e)) + 2 then outcome.RequestFailed? else outcome.ReceiptInvalid?
               case _ => false
  {
    hide Run, Recorded, Count, AuditOf;
    DispatchedOnce(planner, steps, e);
    RunKeeps(planner, steps);
    var s := Run(planner, steps);
    assert RowOk(s, planner, e);
    OutcomeIsOfACall(s.dispatches, e);
  }

  /**
   * The client that called the executor brings the row to the state of the answer: failed at once if the request failed,
   * otherwise verifying, and from there succeeded exactly for a verified receipt.
   */
  lemma {:induction false} AnswerIsRecorded(planner: Planner, steps: seq<Step>, c: ClientId)
    requires FreshApprovals(planner) && c in Run(planner, steps).clients
    ensures var s := Run(planner, steps);
            var client := s.clients[c];
            var reported, concluded := Next(s, planner, Report(c)).db.rows, Next(s, planner, Conclude(c)).db.rows;
            && (client.phase.Dispatched? ==>
                  && ExecutorCall(client.execution, client.phase.outcome) in s.dispatches
                  && client.execution in reported
                  && reported[client.execution].state == if client.phase.outcome.RequestFailed? then Failed else Verifying)
            && (client.phase.Checking? ==>
                  && ExecutorCall(client.execution, client.phase.outcome) in s.dispatches
                  && client.execution in concluded
                  && concluded[client.execution].state == if client.phase.outcome.ReceiptVerified? then Succeeded else Failed)
  {
    hide Run, Recorded, Count, AuditOf, RowOk, Transition;
    RunKeeps(planner, steps);
    var s := Run(planner, steps);
    assert ClientOk(s, planner, c);
    var e, phase := s.clients[c].execution, s.clients[c].phase;
    OutcomeIsOfACall(s.dispatches, e);
    if phase.Dispatched? || phase.Checking? {
      RowFacts(s, planner, e);
      var target := if phase.Dispatched? then (if phase.outcome.RequestFailed? then Failed else Verifying)
                    else if phase.outcome.ReceiptVerified? then Succeeded else Failed;
      TransitionGoes(s.db, e, target, KindOf(target));
    }
  }

  // -------------------------------------------------------------------------
  // Idempotency keys
  // -------------------------------------------------------------------------

  /** Under a used key a plan is accepted exactly if it is the recorded one, and nothing is written either way. */
  lemma PersistUsedKey(db: Database, e: ExecutionId, p: Plan)
    requires (p.session, p.key) in db.byKey && db.byKey[(p.session, p.key)] in db.rows
    ensures var prior := db.rows[db.byKey[(p.session, p.key)]];
            Persist(db, e, p) == if prior.tool == p.tool && prior.digest == p.digest then Ok(db) else Err(IdempotencyConflict)
  {
  }

  /** The key of a plan stands for a row with the plan's tool and digest. */
  predicate KeyHeld(db: Database, p: Plan) {
    && (p.session, p.key) in db.byKey
    && db.byKey[(p.session, p.key)] in db.rows
    && db.rows[db.byKey[(p.session, p.key)]].tool == p.tool
    && db.rows[db.byKey[(p.session, p.key)]].digest == p.digest
  }

  /** Keys and what their rows are about never change. */
  ghost predicate KeysKept(db: Database, next: Database) {
    && (forall k :: k in db.byKey ==> k in next.byKey && next.byKey[k] == db.byKey[k])
    && (forall e :: e in db.rows ==>
          e in next.rows && next.rows[e].tool == db.rows[e].tool && next.rows[e].digest == db.rows[e].digest)
  }

  lemma StepKeepsKeys(s: System, planner: Planner, step: Step)
    ensures KeysKept(s.db, Next(s, planner, step).db)
  {
    hide AppendEvent, Persist, Decide, Transition;
    if !step.Arrive? && step.c in s.clients {
      var c := step.c;
      var e, p, phase := s.clients[c].execution, planner(s.clients[c].execution), s.clients[c].phase;
      if step.PersistPlan? {
        PersistKeepsKeys(s.db, e, p);
      } else if step.DecideApproval? && phase.Waiting? && p.approval.Some? {
        DecideKeepsKeys(s.db, p.approval.value.id, step.approved, step.digest, p.approval.value.precondition, 0, step.now);
      } else if phase.Ready? || Owner(phase) {
        TransitionKeepsKeys(s.db, e, phase.version, Running, "tool.started");
        TransitionKeepsKeys(s.db, e, phase.version, Failed, "tool.failed");
        TransitionKeepsKeys(s.db, e, phase.version, Verifying, "tool.verifying");
        TransitionKeepsKeys(s.db, e, phase.version, Succeeded, "tool.completed");
      }
    }
  }

  lemma PersistKeepsKeys(db: Database, e: ExecutionId, p: Plan)
    ensures Persist(db, e, p).Ok? ==> KeysKept(db, Persist(db, e, p).value) && ((p.session, p.key) !in db.byKey ==> KeyHeld(Persist(db, e, p).value, p))
  {
    hide HasEvent;
  }

  lemma DecideKeepsKeys(
    db: Database, id: ApprovalId, approved: bool, digest: string, precondition: int, expected: nat, now: int)
    ensures var result := Decide(db, id, approved, digest, precondition, expected, now);
            result.Ok? ==> KeysKept(db, result.value)
  {
    hide HasEvent;
  }

  lemma TransitionKeepsKeys(db: Database, e: ExecutionId, expected: nat, target: ExecutionState, kind: string)
    ensures var result := Transition(db, e, expected, target, kind);
            result.Ok? ==> KeysKept(db, result.value)
  {
    hide HasEvent;
  }

  /**
   * Over every run a client whose plan was accepted finds its key bound to its own tool and digest: no second plan ever gets
   * past the recording under a key that belongs to another one.
   */
  lemma {:induction false} AcceptedHoldsKey(planner: Planner, steps: seq<Step>, c: ClientId)
    requires FreshApprovals(planner) && c in Run(planner, steps).clients && !Run(planner, steps).clients[c].phase.New?
    ensures KeyHeld(Run(planner, steps).db, planner(Run(planner, steps).clients[c].execution))
    decreases |steps|
  {
    hide Persist, Decide, Transition, KeyHeld, KeysKept, Inv;
    var before, step := steps[..|steps| - 1], steps[|steps| - 1];
    var s := Run(planner, before);
    RunKeeps(planner, before);
    StepKeepsKeys(s, planner, step);
    if c in s.clients && !s.clients[c].phase.New? {
      AcceptedHoldsKey(planner, before, c);
      HeldIsKept(s.db, Next(s, planner, step).db, planner(s.clients[c].execution));
    } else {
      var e := s.clients[c].execution;
      PersistKeepsKeys(s.db, e, planner(e));
      KeyHeldIfUsed(s, planner, e);
    }
  }

  lemma HeldIsKept(db: Database, next: Database, p: Plan)
    requires KeyHeld(db, p) && KeysKept(db, next)
    ensures KeyHeld(next, p)
  {
  }

  lemma KeyHeldIfUsed(s: System, planner: Planner, e: ExecutionId)
    requires Inv(s, planner)
    ensures var p := planner(e);
            (p.session, p.key) in s.db.byKey && Persist(s.db, e, p).Ok? ==> Persist(s.db, e, p).value == s.db && KeyHeld(s.db, p)
  {
    hide RowOk, ClientOk, HasEvent;
  }
}
