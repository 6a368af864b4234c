/**
 * The durable store and the lifecycle around the executor as the objects they are: each store method is one
 * transaction, and the lifecycle's execute is its sequence of transactions around one dispatch.
 */
module DurableStore {
  import opened DurableExecution

  class PostgresStateStore {
    var rows: map<ExecutionId, Row>
    var byKey: map<(SessionId, string), ExecutionId>
    var approvals: map<ApprovalId, ApprovalRow>
    var events: seq<EventRow>
    var outbox: seq<EventRow>
    var audit: seq<AuditRow>

    function Contents(): Database
      reads this
    {
      Database(rows, byKey, approvals, events, outbox, audit)
    }

    constructor ()
      ensures Contents() == EMPTY
    {
      rows, byKey, approvals, events, outbox, audit := map[], map[], map[], [], [], [];
    }

    /** Undo the changes of a transaction that raised. */
    method Rollback(before: Database)
      modifies this
      ensures Contents() == before
    {
      rows, byKey, approvals := before.rows, before.byKey, before.approvals;
      events, outbox, audit := before.events, before.outbox, before.audit;
    }

    method AppendExecutionEvent(event: EventRow) returns (inserted: bool)
      modifies this`events, this`outbox
      ensures inserted == AppendEvent(old(Contents()), event).Ok?
      ensures Contents() == if inserted then AppendEvent(old(Contents()), event).value else old(Contents())
    {
      inserted := true;
      for i := 0 to |events|
        invariant inserted
        invariant forall k :: 0 <= k < i ==> !(events[k].execution == event.execution && events[k].sequence == event.sequence)
      {
        if events[i].execution == event.execution && events[i].sequence == event.sequence {
          return false;
        }
      }
      events := events + [event];
      outbox := outbox + [event];
    }

    method TransitionToolExecution(e: ExecutionId, expected: nat, target: ExecutionState, kind: string)
      returns (moved: bool)
      modifies this
      ensures var result := Transition(old(Contents()), e, expected, target, kind);
              moved == result.Ok? && Contents() == if moved then result.value else old(Contents())
    {
      var before := Contents();
      if e !in rows || rows[e].version != expected {
        return false;
      }
      rows := rows[e := rows[e].(state := target, version := expected + 1)];
      moved := AppendExecutionEvent(EventRow(e, expected + 1, kind, target));
      if !moved {
        Rollback(before);
      }
    }

    method PersistPlannedPlan(e: ExecutionId, p: Plan) returns (persisted: bool)
      modifies this
      ensures var result := Persist(old(Contents()), e, p);
              persisted == result.Ok? && Contents() == if persisted then result.value else old(Contents())
    {
      hide HasEvent;
      var before := Contents();
      if (p.session, p.key) in byKey {
        var prior := byKey[(p.session, p.key)];
        return prior !in rows || (rows[prior].tool == p.tool && rows[prior].digest == p.digest);
      }
      if e in rows {
        return false;
      }
      byKey := byKey[(p.session, p.key) := e];
      persisted := AppendExecutionEvent(EventRow(e, 0, "tool.planned", Planned));
      if !persisted {
        Rollback(before);
        return;
      }
      var state := InitialState(p);
      rows := rows[e := Row(p.tool, p.digest, state, 1)];
      persisted := AppendExecutionEvent(
        EventRow(e, 1, if state.Queued? then "tool.queued" else "tool.approval.required", state));
      if !persisted {
        Rollback(before);
        return;
      }
      if p.approval.Some? {
        var a := p.approval.value;
        if a.id in approvals {
          Rollback(before);
          return false;
        }
        approvals := approvals[a.id := ApprovalRow(e, Pending, 0, p.digest, a.precondition, a.expiresAt)];
      }
      audit := audit + [AuditRow("tool.plan.persisted", e, if state.Queued? then "QUEUED" else "WAITING_APPROVAL")];
    }

    method DecideApproval(
      id: ApprovalId, approved: bool, digest: string, precondition: int, expected: nat, now: int) returns (decided: bool)
      modifies this
      ensures var result := Decide(old(Contents()), id, approved, digest, precondition, expected, now);
              decided == result.Ok? && Contents() == if decided then result.value else old(Contents())
    {
      hide HasEvent;
      var before := Contents();
      if id !in approvals {
        return false;
      }
      var a := approvals[id];
      var e := a.execution;
      if e !in rows || !a.state.Pending? || a.version != expected
         || a.digest != digest || a.precondition != precondition || !rows[e].state.WaitingApproval?
      {
        return false;
      }
      var decision := if now >= a.expiresAt then Expired else if approved then Approved else Denied;
      approvals := approvals[id := a.(state := decision, version := a.version + 1)];
      var target := if decision.Approved? then Queued else Cancelled;
      var version := rows[e].version + 1;
      rows := rows[e := rows[e].(state := target, version := version)];
      audit := audit + [AuditRow("tool.approval.decided", e, if decision.Approved? then "APPROVED" else "DENIED")];
      decided := AppendExecutionEvent(
        EventRow(e, version, if target.Queued? then "tool.queued" else "tool.cancelled", target));
      if !decided || decision.Expired? {
        Rollback(before);
        return false;
      }
    }
  }

  class DurableToolExecutionLifecycle {
    const store: PostgresStateStore
    /** The calls made to the executor. */
    var dispatches: seq<ExecutorCall>

    constructor (store: PostgresStateStore)
      ensures this.store == store && dispatches == []
    {
      this.store := store;
      dispatches := [];
    }

    /**
     * Execute a queued plan without interference. The executor is called exactly if the row is still at the plan's
     * version; the history then grows by exactly the transitions of the outcome, and otherwise nothing changes.
     */
    method Execute(e: ExecutionId, version: nat, outcome: Outcome) returns (executed: bool)
      requires Recorded(store.Contents(), e)
      requires e in store.rows && store.rows[e].version == version ==> store.rows[e].state.Queued?
      modifies this, store
      ensures executed <==> e in old(store.rows) && old(store.rows)[e].version == version
      ensures !executed ==> store.Contents() == old(store.Contents()) && dispatches == old(dispatches)
      ensures executed ==>
                && dispatches == old(dispatches) + [ExecutorCall(e, outcome)]
                && Recorded(store.Contents(), e)
                && e in store.rows
                && store.rows[e].state == (if outcome.ReceiptVerified? then Succeeded else Failed)
                && store.rows[e].version == version + (if outcome.RequestFailed? then 2 else 3)
      ensures forall x :: x != e ==> (Recorded(old(store.Contents()), x) <==> Recorded(store.Contents(), x))
    {
      hide Transition, Recorded;
      ghost var d0 := store.Contents();
      if e in store.rows && store.rows[e].version == version {
        TransitionGoes(d0, e, Running, "tool.started");
      } else {
        Stale(d0, e, version, Running, "tool.started");
      }
      executed := store.TransitionToolExecution(e, version, Running, "tool.started");
      if !executed {
        return;
      }
      dispatches := dispatches + [ExecutorCall(e, outcome)];
      ghost var d1 := store.Contents();
      if outcome.RequestFailed? {
        TransitionGoes(d1, e, Failed, "tool.failed");
        var failed := store.TransitionToolExecution(e, version + 1, Failed, "tool.failed");
        return;
      }
      TransitionGoes(d1, e, Verifying, "tool.verifying");
      var verifying := store.TransitionToolExecution(e, version + 1, Verifying, "tool.verifying");
      ghost var d2 := store.Contents();
      if outcome.ReceiptVerified? {
        TransitionGoes(d2, e, Succeeded, "tool.completed");
        var completed := store.TransitionToolExecution(e, version + 2, Succeeded, "tool.completed");
      } else {
        TransitionGoes(d2, e, Failed, "tool.failed");
        var failed := store.TransitionToolExecution(e, version + 2, Failed, "tool.failed");
      }
    }
  }
}
