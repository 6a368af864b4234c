/**
 * The barrier and the session event handler as the objects they are. Each method is one stretch of handler code between
 * two suspension points and is proved to be a step of the state machine in SessionUsage that keeps the consistency
 * invariant on the objects, so everything proved in SessionRuns holds of runs of these methods. Taking and giving up a
 * usage is part of the handler's stretches and keeps the barrier's own invariant.
 */
module VoiceSessions {
  import opened SessionOwnership
  import opened SessionUsage

  /**
   * The barrier counts; who the users are only its callers know. The ghost field names them, so that each contract says
   * whose usage a call takes or gives up, and the invariant that the number is theirs.
   */
  class ModelActivityBarrier {
    var activeUsers: int
    var phase: Phase
    ghost var holders: set<Session>

    /** The number is the number of the holders, and between begin_switch and end_switch there are none. */
    ghost predicate Valid()
      reads this
    {
      activeUsers == |holders| && (phase.Switching? ==> holders == {})
    }

    constructor ()
      ensures Valid() && holders == {} && phase == Open
    {
      activeUsers, phase, holders := 0, Open, {};
    }

    /** The rest of acquire_usage once its condition holds: one more holder, and never during a switch. */
    method AcquireUsage(ghost s: Session)
      requires Valid() && phase.Open? && s !in holders
      modifies this
      ensures Valid() && holders == old(holders) + {s} && phase == old(phase)
    {
      activeUsers := activeUsers + 1;
      holders := holders + {s};
    }

    /**
     * A release without any holder is refused. Otherwise exactly one usage is given up: the caller's if it has one, and
     * somebody else's if it has none.
     */
    method ReleaseUsage(ghost s: Session) returns (unbalanced: bool)
      requires Valid()
      modifies this
      ensures Valid() && phase == old(phase)
      ensures unbalanced <==> old(holders) == {}
      ensures unbalanced ==> holders == {}
      ensures s in old(holders) ==> holders == old(holders) - {s}
      ensures !unbalanced ==> exists x :: x in old(holders) && holders == old(holders) - {x}
    {
      if activeUsers < 1 {
        return true;
      }
      activeUsers := activeUsers - 1;
      ghost var x :| x in holders && (s in holders ==> x == s);
      holders := holders - {x};
      unbalanced := false;
    }

    /**
     * Up to the first wait: refused exactly while another switch waits or runs; through at once exactly if nobody holds a
     * usage. In the terms of the whole system it is the step SwitchRequested, and keeps its invariant.
     */
    method BeginSwitch(ghost handler: VoiceSessionEventHandler) returns (begun: bool)
      requires handler.barrier == this && handler.Valid()
      modifies this
      ensures Valid() && holders == old(holders)
      ensures begun <==> old(phase).Open?
      ensures begun ==> !phase.Open? && (phase.Switching? <==> handler.usage == {})
      ensures handler.Valid() && handler.Contents() == Next(old(handler.Contents()), SwitchRequested)
      ensures Accounted(old(handler.Contents()), handler.Contents(), SwitchRequested)
    {
      hide Sound, Accounted;
      StepAccounted(handler.Contents(), SwitchRequested);
      begun := phase.Open?;
      if begun {
        phase := if activeUsers == 0 then Switching else Draining;
      }
    }

    /**
     * A wake-up of the waiting switch: it goes on exactly if the last holder has left, and then no session has a usage. In
     * the terms of the whole system going on is the step Drained.
     */
    method WakeSwitch(ghost handler: VoiceSessionEventHandler) returns (drained: bool)
      requires handler.barrier == this && handler.Valid() && phase.Draining?
      modifies this
      ensures Valid() && holders == old(holders) && handler.Valid()
      ensures drained <==> handler.usage == {}
      ensures drained ==> handler.Contents() == Next(old(handler.Contents()), Drained)
      ensures drained ==> Accounted(old(handler.Contents()), handler.Contents(), Drained)
      ensures !drained ==> handler.Contents() == old(handler.Contents())
    {
      hide Sound, Accounted;
      drained := activeUsers == 0;
      if drained {
        StepAccounted(handler.Contents(), Drained);
        phase := Switching;
      }
    }

    /** The timeout or a cancellation ends the wait: starts are admitted again and nobody has lost a usage. */
    method AbandonSwitch(ghost handler: VoiceSessionEventHandler)
      requires handler.barrier == this && handler.Valid() && phase.Draining?
      modifies this
      ensures Valid() && holders == old(holders) && phase.Open?
      ensures handler.Valid() && handler.Contents() == Next(old(handler.Contents()), DrainAbandoned)
      ensures Accounted(old(handler.Contents()), handler.Contents(), DrainAbandoned)
    {
      hide Sound, Accounted;
      StepAccounted(handler.Contents(), DrainAbandoned);
      phase := Open;
    }

    /**
     * The end of a switch, refused if there is none: until here nobody held a usage, and from here starts are admitted
     * again. Only the switch that went on calls it, so never while one still waits.
     */
    method EndSwitch(ghost handler: VoiceSessionEventHandler) returns (inactive: bool)
      requires handler.barrier == this && handler.Valid() && !phase.Draining?
      modifies this
      ensures inactive <==> old(phase).Open?
      ensures Valid() && phase.Open? && holders == old(holders) && handler.Valid()
      ensures inactive ==> handler.Contents() == old(handler.Contents())
      ensures !inactive ==>
                && holders == handler.usage == {}
                && handler.Contents() == Next(old(handler.Contents()), SwitchEnded)
                && Accounted(old(handler.Contents()), handler.Contents(), SwitchEnded)
    {
      hide Sound, Accounted;
      inactive := phase.Open?;
      if !inactive {
        StepAccounted(handler.Contents(), SwitchEnded);
        phase := Open;
      }
    }
  }

  class VoiceSessionEventHandler {
    const barrier: ModelActivityBarrier
    var usage: set<Session>
    var active: set<Session>
    var processing: map<Session, TaskId>
    var pending: set<Session>
    // The event loop's own bookkeeping.
    var tasks: map<TaskId, Task>
    var nextTask: TaskId
    var foreground: map<Session, Foreground>

    ghost function Contents(): State
      reads this, barrier
    {
      State(barrier.phase, barrier.activeUsers, usage, active, processing, pending, tasks, nextTask, foreground)
    }

    /** The barrier's holders are the sessions that hold a usage. */
    ghost predicate Agreed()
      reads this, barrier
    {
      barrier.Valid() && barrier.holders == usage
    }

    /** What every method keeps. */
    ghost predicate Valid()
      reads this, barrier
    {
      Agreed() && Sound(Contents())
    }

    constructor (barrier: ModelActivityBarrier)
      requires barrier.Valid() && barrier.holders == {} && barrier.phase == Open
      ensures this.barrier == barrier && Contents() == INITIAL && Valid()
    {
      this.barrier := barrier;
      usage, active, processing, pending := {}, {}, map[], {};
      tasks, nextTask, foreground := map[], 0, map[];
      new;
      InitialSound();
    }

    /** Give up the usage of a session if it has one; the barrier never finds that unbalanced. */
    method ReleaseUsage(s: Session)
      requires Agreed()
      modifies this`usage, barrier
      ensures Agreed() && Contents() == Release(old(Contents()), s)
    {
      if s in usage {
        usage := usage - {s};
        var unbalanced := barrier.ReleaseUsage(s);
        assert !unbalanced;
      }
    }

    /** The part of a start behind the wait for the barrier. */
    method BeginTurn(s: Session, succeeds: bool)
      requires barrier.phase.Open?
      requires Agreed() && s !in usage
      modifies this, barrier
      ensures Agreed()
      ensures Contents() == Admit(old(Contents()), s, succeeds)
    {
      foreground := foreground - {s};
      barrier.AcquireUsage(s);
      usage := usage + {s};
      if s !in active && s !in processing && s !in pending {
        active := active + {s};
        if succeeds {
          return;
        }
      }
      active := active - {s};
      ReleaseUsage(s);
    }

    method Start(s: Session, succeeds: bool)
      requires Valid() && Enabled(Contents(), StartRequested(s, succeeds))
      modifies this, barrier
      ensures Valid() && Contents() == Next(old(Contents()), StartRequested(s, succeeds))
      ensures Accounted(old(Contents()), Contents(), StartRequested(s, succeeds))
    {
      hide Sound, Accounted;
      StepAccounted(Contents(), StartRequested(s, succeeds));
      if s in active || s in processing || s in pending {
        return;
      }
      if s in usage {
        return;
      }
      if !barrier.phase.Open? {
        foreground := foreground[s := Waiting];
        return;
      }
      BeginTurn(s, succeeds);
      assert old(foreground) - {s} == old(foreground);
    }

    method ResumeStart(s: Session, succeeds: bool)
      requires Valid() && Enabled(Contents(), StartAdmitted(s, succeeds))
      modifies this, barrier
      ensures Valid() && Contents() == Next(old(Contents()), StartAdmitted(s, succeeds))
      ensures Accounted(old(Contents()), Contents(), StartAdmitted(s, succeeds))
    {
      hide Sound, Accounted;
      StepAccounted(Contents(), StartAdmitted(s, succeeds));
      Resumed(Contents(), s);
      BeginTurn(s, succeeds);
    }

    method Chunk(s: Session, accepted: bool)
      requires Valid() && Enabled(Contents(), ChunkReceived(s, accepted))
      modifies this, barrier
      ensures Valid() && Contents() == Next(old(Contents()), ChunkReceived(s, accepted))
      ensures Accounted(old(Contents()), Contents(), ChunkReceived(s, accepted))
    {
      hide Sound, Accounted;
      StepAccounted(Contents(), ChunkReceived(s, accepted));
      if s in active && accepted {
        foreground := foreground[s := Analyzing];
      }
    }

    /** What the handler does about an unavailable worker, whichever request it was. */
    method WorkerFailed(s: Session)
      requires Agreed()
      modifies this, barrier
      ensures Agreed()
      ensures Contents() == Release(Deactivate(Return(old(Contents()), s), s), s)
    {
      foreground := foreground - {s};
      active := active - {s};
      ReleaseUsage(s);
    }

    method ChunkDone(s: Session, unavailable: bool)
      requires Valid() && Enabled(Contents(), ChunkAnalyzed(s, unavailable))
      modifies this, barrier
      ensures Valid() && Contents() == Next(old(Contents()), ChunkAnalyzed(s, unavailable))
      ensures Accounted(old(Contents()), Contents(), ChunkAnalyzed(s, unavailable))
    {
      hide Sound, Accounted;
      StepAccounted(Contents(), ChunkAnalyzed(s, unavailable));
      if unavailable {
        WorkerFailed(s);
      } else {
        foreground := foreground - {s};
      }
    }

    method EndByBargeIn(s: Session, accepted: bool)
      requires Valid() && Enabled(Contents(), BargeIn(s, accepted))
      modifies this, barrier
      ensures Valid() && Contents() == Next(old(Contents()), BargeIn(s, accepted))
      ensures Accounted(old(Contents()), Contents(), BargeIn(s, accepted))
    {
      hide Sound, Accounted;
      StepAccounted(Contents(), BargeIn(s, accepted));
      if s !in active {
        return;
      }
      if accepted {
        foreground := foreground[s := BargingIn];
      } else {
        active := active - {s};
        ReleaseUsage(s);
      }
    }

    method BargeInDone(s: Session)
      requires Valid() && Enabled(Contents(), BargeInClosed(s))
      modifies this, barrier
      ensures Valid() && Contents() == Next(old(Contents()), BargeInClosed(s))
      ensures Accounted(old(Contents()), Contents(), BargeInClosed(s))
    {
      hide Sound, Accounted;
      StepAccounted(Contents(), BargeInClosed(s));
      foreground := foreground - {s};
      active := active - {s};
      ReleaseUsage(s);
    }

    /** The `finally` of a response task. */
    method ConcludeTask(t: TaskId)
      requires t in tasks
      requires Agreed()
      modifies this, barrier
      ensures Agreed()
      ensures Contents() == Conclude(old(Contents()), t)
    {
      var s := tasks[t].session;
      tasks := tasks - {t};
      if s in processing && processing[s] == t {
        processing := processing - {s};
      }
      if s !in pending {
        ReleaseUsage(s);
      }
    }

    method BeginTask(t: TaskId, accepted: bool)
      requires Valid() && Enabled(Contents(), TaskStarted(t, accepted))
      modifies this, barrier
      ensures Valid() && Contents() == Next(old(Contents()), TaskStarted(t, accepted))
      ensures Accounted(old(Contents()), Contents(), TaskStarted(t, accepted))
    {
      hide Sound, Accounted;
      StepAccounted(Contents(), TaskStarted(t, accepted));
      var task := tasks[t];
      var s := task.session;
      if task.kind.End? {
        if s !in active {
          tasks := tasks - {t};
          return;
        }
        active := active - {s};
        if s in foreground && foreground[s].BargingIn? {
          ConcludeTask(t);
          return;
        }
      } else {
        if s !in pending || !accepted {
          tasks := tasks - {t};
          return;
        }
        pending := pending - {s};
      }
      processing := processing[s := t];
      tasks := tasks[t := task.(started := true)];
    }

    method FinishTask(t: TaskId, outcome: Outcome)
      requires Valid() && Enabled(Contents(), TaskFinished(t, outcome))
      modifies this, barrier
      ensures Valid() && Contents() == Next(old(Contents()), TaskFinished(t, outcome))
      ensures Accounted(old(Contents()), Contents(), TaskFinished(t, outcome))
    {
      hide Sound, Accounted;
      StepAccounted(Contents(), TaskFinished(t, outcome));
      var s := tasks[t].session;
      if outcome.AwaitsApproval? {
        pending := pending + {s};
      }
      ConcludeTask(t);
      if outcome.Unavailable? {
        active := active - {s};
        ReleaseUsage(s);
      }
    }

    method Cancel(s: Session, matches: bool)
      requires Valid() && Enabled(Contents(), CancelRequested(s, matches))
      modifies this, barrier
      ensures Valid() && Contents() == Next(old(Contents()), CancelRequested(s, matches))
      ensures Accounted(old(Contents()), Contents(), CancelRequested(s, matches))
    {
      hide Sound, Accounted;
      StepAccounted(Contents(), CancelRequested(s, matches));
      if !matches {
        return;
      }
      if s in processing {
        var t := processing[s];
        processing := processing - {s};
        CancelTask(t);
        foreground := foreground[s := ClosingCancelled(t)];
      } else if s in pending {
        pending := pending - {s};
        foreground := foreground[s := CancellingApproval];
      }
    }

    method CancelTask(t: TaskId)
      requires Agreed()
      modifies this`tasks
      ensures Agreed()
      ensures Contents() == MarkCancelled(old(Contents()), t)
    {
      if t in tasks {
        tasks := tasks[t := tasks[t].(cancelled := true)];
      }
    }

    method CancelStreamClosed(s: Session, closing: Closing)
      requires Valid() && Enabled(Contents(), CancelClosed(s, closing))
      modifies this, barrier
      ensures Valid() && Contents() == Next(old(Contents()), CancelClosed(s, closing))
      ensures Accounted(old(Contents()), Contents(), CancelClosed(s, closing))
    {
      hide Sound, Accounted;
      StepAccounted(Contents(), CancelClosed(s, closing));
      match closing
      case Closed => foreground := foreground[s := AwaitingCancelled(foreground[s].task)];
      case WorkerUnavailable => WorkerFailed(s);
      case Broken => foreground := foreground - {s};
    }

    method Disconnect(s: Session, preserve: bool)
      requires Valid() && Enabled(Contents(), Disconnected(s, preserve))
      modifies this, barrier
      ensures Valid() && Contents() == Next(old(Contents()), Disconnected(s, preserve))
      ensures Accounted(old(Contents()), Contents(), Disconnected(s, preserve))
    {
      hide Sound, Accounted;
      StepAccounted(Contents(), Disconnected(s, preserve));
      if s in active {
        active := active - {s};
        foreground := foreground[s := ClosingActive(preserve)];
      } else {
        DisconnectResponse(s, preserve);
      }
    }

    method DisconnectResponse(s: Session, preserve: bool)
      requires Agreed()
      modifies this
      ensures Agreed()
      ensures Contents() == DisconnectProcessing(old(Contents()), s, preserve)
    {
      if s in processing {
        var t := processing[s];
        CancelTask(t);
        foreground := foreground[s := ClosingProcessing(t, preserve)];
      } else {
        DisconnectApproval(s, preserve);
      }
    }

    method DisconnectApproval(s: Session, preserve: bool)
      requires Agreed()
      modifies this
      ensures Agreed()
      ensures Contents() == DisconnectPending(old(Contents()), s, preserve)
    {
      if !preserve && s in pending {
        pending := pending - {s};
        foreground := foreground[s := DroppingApproval];
      } else {
        foreground := foreground - {s};
      }
    }

    method ActiveStreamClosed(s: Session, complete: bool)
      requires Valid() && Enabled(Contents(), ActiveClosed(s, complete))
      modifies this, barrier
      ensures Valid() && Contents() == Next(old(Contents()), ActiveClosed(s, complete))
      ensures Accounted(old(Contents()), Contents(), ActiveClosed(s, complete))
    {
      hide Sound, Accounted;
      StepAccounted(Contents(), ActiveClosed(s, complete));
      ReleaseUsage(s);
      if complete {
        DisconnectResponse(s, foreground[s].preserve);
      } else {
        foreground := foreground - {s};
      }
    }

    method ResponseStreamClosed(s: Session, complete: bool)
      requires Valid() && Enabled(Contents(), ProcessingClosed(s, complete))
      modifies this, barrier
      ensures Valid() && Contents() == Next(old(Contents()), ProcessingClosed(s, complete))
      ensures Accounted(old(Contents()), Contents(), ProcessingClosed(s, complete))
    {
      hide Sound, Accounted;
      StepAccounted(Contents(), ProcessingClosed(s, complete));
      if complete {
        foreground := foreground[s := AwaitingProcessing(foreground[s].task, foreground[s].preserve)];
      } else {
        foreground := foreground - {s};
        processing := processing - {s};
        ReleaseUsage(s);
      }
    }

    method ResponseAwaited(s: Session, complete: bool)
      requires Valid() && Enabled(Contents(), ProcessingAwaited(s, complete))
      modifies this, barrier
      ensures Valid() && Contents() == Next(old(Contents()), ProcessingAwaited(s, complete))
      ensures Accounted(old(Contents()), Contents(), ProcessingAwaited(s, complete))
    {
      hide Sound, Accounted;
      StepAccounted(Contents(), ProcessingAwaited(s, complete));
      processing := processing - {s};
      ReleaseUsage(s);
      if complete {
        DisconnectApproval(s, foreground[s].preserve);
      } else {
        foreground := foreground - {s};
      }
    }

    /** The end of a cancelled or dropped approval, whether or not cancelling it failed. */
    method ApprovalClosed(s: Session)
      requires Valid() && s in foreground && (foreground[s].CancellingApproval? || foreground[s].DroppingApproval?)
      modifies this, barrier
      ensures Valid()
      ensures old(foreground)[s].CancellingApproval? ==>
                && Contents() == Next(old(Contents()), ApprovalCancelled(s))
                && Accounted(old(Contents()), Contents(), ApprovalCancelled(s))
      ensures old(foreground)[s].DroppingApproval? ==>
                && Contents() == Next(old(Contents()), ApprovalDropped(s))
                && Accounted(old(Contents()), Contents(), ApprovalDropped(s))
    {
      hide Sound, Accounted;
      if foreground[s].CancellingApproval? {
        StepAccounted(Contents(), ApprovalCancelled(s));
      } else {
        StepAccounted(Contents(), ApprovalDropped(s));
      }
      foreground := foreground - {s};
      ReleaseUsage(s);
    }
  }
}
