/**
 * What each transaction of a client makes of its execution, in every reachable state: when it goes through, what the tables
 * then say, and where the client stands.
 */
module LifecycleSteps {
  import opened DurableExecution

  /** Where a client stands once its plan is on record. */
  function Persisted(p: Plan): Phase {
    if p.approval.Some? then Waiting else Ready(1)
  }

  lemma FreshIsFree(s: System, planner: Planner, e: ExecutionId)
    requires Inv(s, planner) && FreshApprovals(planner)
    requires var p := planner(e); (p.session, p.key) !in s.db.byKey
    ensures e !in s.db.rows && DurableExecution.Recorded(s.db, e)
    ensures var p := planner(e); p.approval.Some? ==> p.approval.value.id !in s.db.approvals
  {
    hide DurableExecution.Recorded, Count, AuditOf, Staged, Counted, Reported;
    assert RowOk(s, planner, e);
  }

  /**
   * A client records its plan exactly if nobody has recorded another one under its key: under an unused key row, key and
   * pending approval are new, under a used one nothing is written, and a client with another plan gives up.
   */
  lemma PlanStep(planner: Planner, steps: seq<Step>, c: ClientId)
    requires FreshApprovals(planner) && c in Run(planner, steps).clients && Run(planner, steps).clients[c].phase.New?
    ensures var s := Run(planner, steps);
            var next := Next(s, planner, PersistPlan(c));
            var e := s.clients[c].execution;
            var p := planner(e);
            var state := if p.approval.Some? then WaitingApproval else Queued;
            if (p.session, p.key) in s.db.byKey then
              && next.db == s.db
              && (if KeyHeld(s.db, p) then c in next.clients && next.clients[c] == Client(e, Persisted(p))
                  else c !in next.clients)
            else
              && c in next.clients && next.clients[c] == Client(e, Persisted(p))
              && e !in s.db.rows && next.db.rows == s.db.rows[e := Row(p.tool, p.digest, state, 1)]
              && next.db.byKey == s.db.byKey[(p.session, p.key) := e]
              && (p.approval.Some? ==>
                    var a := p.approval.value;
                    next.db.approvals == s.db.approvals[a.id := ApprovalRow(e, Pending, 0, p.digest, a.precondition, a.expiresAt)])
  {
    hide Run, DurableExecution.Recorded, RowOk, ClientOk, OneOwner, Persist, AuditOf;
    RunKeeps(planner, steps);
    var s := Run(planner, steps);
    var e := s.clients[c].execution;
    var p := planner(e);
    if (p.session, p.key) in s.db.byKey {
      PersistUsedKey(s.db, e, p);
    } else {
      FreshIsFree(s, planner, e);
      PersistGoes(s.db, e, p);
    }
  }

  /** The approval a client waits for is its own execution's. */
  lemma OwnApproval(s: System, planner: Planner, c: ClientId)
    requires Inv(s, planner) && FreshApprovals(planner) && c in s.clients && s.clients[c].phase.Waiting?
    ensures var e := s.clients[c].execution;
            var p := planner(e);
            p.approval.Some? && (p.approval.value.id in s.db.approvals ==>
              var a := s.db.approvals[p.approval.value.id];
              && a.execution == e && e in s.db.rows && DurableExecution.Recorded(s.db, e)
              && (a.state.Pending? ==> s.db.rows[e].state.WaitingApproval? && a.version == 0))
  {
    hide DurableExecution.Recorded, Count, AuditOf, Staged, Counted, Reported;
    assert ClientOk(s, planner, c);
    assert RowOk(s, planner, s.clients[c].execution);
  }

  /**
   * A decision goes through exactly if the approval is on record and pending, the digest and the precondition are those it is
   * bound to and it has not expired; then approval and execution carry it, and the client goes on or is done. Otherwise
   * nothing happens.
   */
  lemma DecisionStep(planner: Planner, steps: seq<Step>, c: ClientId, approved: bool, digest: string, now: int)
    requires FreshApprovals(planner) && c in Run(planner, steps).clients && Run(planner, steps).clients[c].phase.Waiting?
    ensures var s := Run(planner, steps);
            var next := Next(s, planner, DecideApproval(c, approved, digest, now));
            var e := s.clients[c].execution;
            var p := planner(e);
            && p.approval.Some?
            && var id := p.approval.value.id;
               if id in s.db.approvals && s.db.approvals[id].state.Pending? && s.db.approvals[id].digest == digest
                  && s.db.approvals[id].precondition == p.approval.value.precondition && now < s.db.approvals[id].expiresAt then
                 && e in s.db.rows
                 && next.db.approvals == s.db.approvals[id := s.db.approvals[id].(
                                           state := if approved then Approved else Denied, version := 1)]
                 && next.db.rows == s.db.rows[e := s.db.rows[e].(
                                      state := if approved then Queued else Cancelled, version := s.db.rows[e].version + 1)]
                 && (if approved then c in next.clients && next.clients[c] == Client(e, Ready(2)) else c !in next.clients)
               else next == s
  {
    hide Run, DurableExecution.Recorded, RowOk, ClientOk, OneOwner, Decide, AuditOf;
    RunKeeps(planner, steps);
    var s := Run(planner, steps);
    OwnApproval(s, planner, c);
    var p := planner(s.clients[c].execution);
    var id := p.approval.value.id;
    if id in s.db.approvals {
      DecideGoes(s.db, id, approved, digest, p.approval.value.precondition, 0, now);
    } else {
      NoApproval(s.db, id, approved, digest, p.approval.value.precondition, 0, now);
    }
  }

  lemma NoApproval(
    db: Database, id: ApprovalId, approved: bool, digest: string, precondition: int, expected: nat, now: int)
    requires id !in db.approvals
    ensures Decide(db, id, approved, digest, precondition, expected, now).Err?
  {}

  /** How a decision that does not go through is refused; an unknown approval like one that has been decided already. */
  lemma DecisionRefused(
    db: Database, id: ApprovalId, approved: bool, digest: string, precondition: int, expected: nat, now: int)
    requires id in db.approvals ==> db.approvals[id].execution in db.rows
                                    && DurableExecution.Recorded(db, db.approvals[id].execution)
    requires Decide(db, id, approved, digest, precondition, expected, now).Err?
    ensures Decide(db, id, approved, digest, precondition, expected, now) == Err(
              if id !in db.approvals then OptimisticLock
              else
                var a := db.approvals[id];
                if !a.state.Pending? || a.version != expected then OptimisticLock
                else if a.digest != digest || a.precondition != precondition then BindingMismatch
                else if !db.rows[a.execution].state.WaitingApproval? then OptimisticLock
                else ApprovalExpired)
  {
    hide DurableExecution.Recorded, AuditOf, HasEvent;
    if id in db.approvals {
      DecideGoes(db, id, approved, digest, precondition, expected, now);
      NextIsFree(db, db.approvals[id].execution);
    }
  }

  /** The next number of a recorded history is free. */
  lemma NextIsFree(db: Database, e: ExecutionId)
    requires e in db.rows && DurableExecution.Recorded(db, e)
    ensures !HasEvent(db.events, e, db.rows[e].version + 1)
  {
    SequenceFree(db.events, e);
  }

  /**
   * A client that may start wins the execution exactly if it still is where the client left it, which is queued; otherwise
   * the client gives up and nothing is written.
   */
  lemma StartStep(planner: Planner, steps: seq<Step>, c: ClientId)
    requires FreshApprovals(planner) && c in Run(planner, steps).clients && Run(planner, steps).clients[c].phase.Ready?
    ensures var s := Run(planner, steps);
            var next := Next(s, planner, Start(c));
            var e := s.clients[c].execution;
            var v := s.clients[c].phase.version;
            if e in s.db.rows && s.db.rows[e].version == v then
              && s.db.rows[e].state.Queued?
              && next.db.rows == s.db.rows[e := s.db.rows[e].(state := Running, version := v + 1)]
              && c in next.clients && next.clients[c] == Client(e, Started(v + 1))
            else next.db == s.db && c !in next.clients
  {
    hide Run, DurableExecution.Recorded, RowOk, OneOwner, Transition, AuditOf;
    RunKeeps(planner, steps);
    var s := Run(planner, steps);
    var e := s.clients[c].execution;
    assert ClientOk(s, planner, c);
    if e in s.db.rows && s.db.rows[e].version == s.clients[c].phase.version {
      RowFacts(s, planner, e);
      TransitionGoes(s.db, e, Running, KindOf(Running));
    } else {
      Stale(s.db, e, s.clients[c].phase.version, Running, "tool.started");
    }
  }

  /** Only a client that has won the start calls the executor, and that is all it does then. */
  lemma CallStep(s: System, planner: Planner, c: ClientId, outcome: Outcome)
    requires c in s.clients
    ensures var next := Next(s, planner, Dispatch(c, outcome));
            var client := s.clients[c];
            if client.phase.Started? then
              next == s.(dispatches := s.dispatches + [ExecutorCall(client.execution, outcome)],
                         clients := s.clients[c := Client(client.execution, Dispatched(client.phase.version, outcome))])
            else next == s
  {
  }

  /** An execution that has succeeded, was cancelled or rolled back stays so; every other state has a way on. */
  lemma FinalIff(source: ExecutionState)
    ensures source in {Succeeded, ExecutionState.Cancelled, RolledBack} <==> forall target :: !Allowed(source, target)
  {
    assert Allowed(source, Queued) || Allowed(source, Running) || Allowed(source, Verifying) || Allowed(source, Failed)
        || Allowed(source, RollingBack) || source in {Succeeded, ExecutionState.Cancelled, RolledBack};
  }
}
