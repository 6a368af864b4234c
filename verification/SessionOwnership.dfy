/**
 * Who holds a usage, step by step: for the session a step concerns and for all others, the accounting stays exact unless
 * the step gives up a usage early.
 */
module SessionOwnership {
  import opened SessionUsage

  lemma {:induction false} StartOwns(st: State, e: Event)
    requires Sound(st) && Enabled(st, e) && Owns(st, SessionOf(st, e))
    requires e.StartRequested? || e.StartAdmitted? || e.StartAbandoned?
    ensures Owns(Next(st, e), SessionOf(st, e)) <==> !EarlyRelease(st, e)
  {
  }

  lemma {:induction false} InputOwns(st: State, e: Event)
    requires Sound(st) && Enabled(st, e) && Owns(st, SessionOf(st, e))
    requires e.ChunkReceived? || e.ChunkAnalyzed? || e.BargeIn? || e.BargeInClosed?
    ensures Owns(Next(st, e), SessionOf(st, e)) <==> !EarlyRelease(st, e)
  {
  }

  lemma {:induction false} CancelOwns(st: State, e: Event)
    requires Sound(st) && Enabled(st, e) && Owns(st, SessionOf(st, e))
    requires e.CancelClosed? || e.CancelAwaited? || e.ApprovalCancelled?
    ensures Owns(Next(st, e), SessionOf(st, e)) <==> !EarlyRelease(st, e)
  {
  }

  lemma {:induction false} CancelRequestedOwns(st: State, e: Event)
    requires Sound(st) && Enabled(st, e) && Owns(st, SessionOf(st, e))
    requires e.CancelRequested?
    ensures Owns(Next(st, e), SessionOf(st, e)) <==> !EarlyRelease(st, e)
  {
    var next := Next(st, e);
    assert forall u :: u in next.tasks ==>
                         u in st.tasks && st.tasks[u].(cancelled := next.tasks[u].cancelled) == next.tasks[u];
    assert forall u :: u in st.tasks ==> u in next.tasks;
  }

  lemma {:induction false} DisconnectOwns(st: State, e: Event)
    requires Sound(st) && Enabled(st, e) && Owns(st, SessionOf(st, e))
    requires e.Disconnected? || e.ActiveClosed? || e.ApprovalDropped?
    ensures Owns(Next(st, e), SessionOf(st, e)) <==> !EarlyRelease(st, e)
  {
  }

  lemma {:induction false} DisconnectResponseOwns(st: State, e: Event)
    requires Sound(st) && Enabled(st, e) && Owns(st, SessionOf(st, e))
    requires e.ProcessingClosed? || e.ProcessingAwaited?
    ensures Owns(Next(st, e), SessionOf(st, e)) <==> !EarlyRelease(st, e)
  {
  }

  lemma {:induction false} ScheduledOwns(st: State, e: Event)
    requires Sound(st) && Enabled(st, e) && Owns(st, SessionOf(st, e))
    requires e.TaskScheduled?
    ensures Owns(Next(st, e), SessionOf(st, e)) <==> !EarlyRelease(st, e)
  {
    var next := Next(st, e);
    assert forall u :: u in next.tasks && next.tasks[u].started ==> u in st.tasks && st.tasks[u] == next.tasks[u];
    assert forall u :: u in st.tasks ==> u in next.tasks && st.tasks[u] == next.tasks[u];
  }

  lemma {:induction false} StartedOwns(st: State, e: Event)
    requires Sound(st) && Enabled(st, e) && Owns(st, SessionOf(st, e))
    requires e.TaskStarted?
    ensures Owns(Next(st, e), SessionOf(st, e)) <==> !EarlyRelease(st, e)
  {
    var next := Next(st, e);
    assert forall u :: u in next.tasks && u != e.t ==> u in st.tasks && st.tasks[u] == next.tasks[u];
    assert forall u :: u in st.tasks && u != e.t ==> u in next.tasks && st.tasks[u] == next.tasks[u];
  }

  lemma {:induction false} FinishedOwns(st: State, e: Event)
    requires Sound(st) && Enabled(st, e) && Owns(st, SessionOf(st, e))
    requires e.TaskFinished?
    ensures Owns(Next(st, e), SessionOf(st, e)) <==> !EarlyRelease(st, e)
  {
  }

  lemma {:induction false} CancelledOwns(st: State, e: Event)
    requires Sound(st) && Enabled(st, e) && Owns(st, SessionOf(st, e))
    requires e.TaskCancelled?
    ensures Owns(Next(st, e), SessionOf(st, e)) <==> !EarlyRelease(st, e)
  {
    var next := Next(st, e);
    assert forall u :: u in next.tasks ==>
                         u in st.tasks && st.tasks[u].(cancelled := next.tasks[u].cancelled) == next.tasks[u];
    assert forall u :: u in st.tasks && st.tasks[u].started ==> u in next.tasks;
  }

  lemma {:induction false} SwitchOwns(st: State, e: Event)
    requires Sound(st) && Enabled(st, e) && Owns(st, SessionOf(st, e))
    requires e.SwitchRequested? || e.Drained? || e.DrainAbandoned? || e.SwitchEnded?
    ensures Owns(Next(st, e), SessionOf(st, e)) <==> !EarlyRelease(st, e)
  {
  }

  /** One step of the session it concerns. */
  lemma {:induction false} OwnStep(st: State, e: Event)
    requires Sound(st) && Enabled(st, e) && Owns(st, SessionOf(st, e))
    ensures Owns(Next(st, e), SessionOf(st, e)) <==> !EarlyRelease(st, e)
  {
    hide *;
    match e
    case StartRequested(_, _) => StartOwns(st, e);
    case StartAdmitted(_, _) => StartOwns(st, e);
    case StartAbandoned(_) => StartOwns(st, e);
    case ChunkReceived(_, _) => InputOwns(st, e);
    case ChunkAnalyzed(_, _) => InputOwns(st, e);
    case BargeIn(_, _) => InputOwns(st, e);
    case BargeInClosed(_) => InputOwns(st, e);
    case CancelClosed(_, _) => CancelOwns(st, e);
    case CancelAwaited(_, _) => CancelOwns(st, e);
    case ApprovalCancelled(_) => CancelOwns(st, e);
    case CancelRequested(_, _) => CancelRequestedOwns(st, e);
    case Disconnected(_, _) => DisconnectOwns(st, e);
    case ActiveClosed(_, _) => DisconnectOwns(st, e);
    case ApprovalDropped(_) => DisconnectOwns(st, e);
    case ProcessingClosed(_, _) => DisconnectResponseOwns(st, e);
    case ProcessingAwaited(_, _) => DisconnectResponseOwns(st, e);
    case TaskScheduled(_, _) => ScheduledOwns(st, e);
    case TaskStarted(_, _) => StartedOwns(st, e);
    case TaskFinished(_, _) => FinishedOwns(st, e);
    case TaskCancelled(_) => CancelledOwns(st, e);
    case SwitchRequested => SwitchOwns(st, e);
    case Drained => SwitchOwns(st, e);
    case DrainAbandoned => SwitchOwns(st, e);
    case SwitchEnded => SwitchOwns(st, e);
  }

  /**
   * The exact condition for usage accounting: a step keeps "a session holds a usage exactly when it has a turn, and at
   * most one" if and only if it is not a failure path that gives up the usage of a response that has not ended.
   */
  lemma {:induction false} OwnedUnlessEarly(st: State, e: Event)
    requires Sound(st) && Owned(st) && Enabled(st, e)
    ensures Owned(Next(st, e)) <==> !EarlyRelease(st, e)
  {
    hide Sound, Owns, SameSession, Next, Enabled, EarlyRelease;
    var s, next := SessionOf(st, e), Next(st, e);
    assert Owns(st, s);
    OwnStep(st, e);
    StepKeeps(st, e);
    assert Elsewhere(st, next, s);
    forall x | x != s ensures Owns(next, x) {
      assert SameSession(st, next, x);
      SameOwns(st, next, x);
    }
  }

  /** The accounting of one step: it stays exact unless the step is an early release. */
  ghost predicate Accounted(st: State, next: State, e: Event)
    requires Enabled(st, e)
  {
    Owned(st) ==> (Owned(next) <==> !EarlyRelease(st, e))
  }

  lemma StepAccounted(st: State, e: Event)
    requires Sound(st) && Enabled(st, e)
    ensures Sound(Next(st, e)) && Accounted(st, Next(st, e), e)
  {
    hide Sound, Owned, EarlyRelease, Next, Enabled;
    StepKeeps(st, e);
    SoundAfter(st, Next(st, e), SessionOf(st, e));
    if Owned(st) {
      OwnedUnlessEarly(st, e);
    }
  }
}
