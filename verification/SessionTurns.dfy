/**
 * What the requests of a session come to: the turn a session is in, what every step makes of it, and what is left of it when
 * a disconnect or a cancel has come to its end.
 */
module SessionTurns {
  import opened SessionOwnership
  import opened SessionUsage

  /** Where a session is in its turn. */
  datatype Turn = Idle | Capturing | Responding | AwaitingApproval

  function TurnOf(st: State, s: Session): Turn {
    if s in st.active then Capturing
    else if s in st.processing then Responding
    else if s in st.pending then AwaitingApproval
    else Idle
  }

  // -------------------------------------------------------------------------
  // A request from its first step to its last
  // -------------------------------------------------------------------------

  /** A run in which the session's request in the foreground is suspended until the last state, and then has ended. */
  ghost predicate Until(st: State, events: seq<Event>, last: State, s: Session)
    decreases |events|
  {
    if s !in st.foreground then events == [] && last == st
    else
      && events != [] && Enabled(st, events[0]) && !Broken(events[0], s)
      && Until(Next(st, events[0]), events[1..], last, s)
  }

  /** The VAD worker or a wait fails the session's cancel or disconnect, which then ends without having done its work. */
  predicate Broken(e: Event, s: Session) {
    match e
    case ActiveClosed(x, complete) => x == s && !complete
    case ProcessingClosed(x, complete) => x == s && !complete
    case ProcessingAwaited(x, complete) => x == s && !complete
    case CancelClosed(x, closing) => x == s && !closing.Closed?
    case CancelAwaited(x, complete) => x == s && !complete
    case _ => false
  }

  /** A response task that an earlier cancel has given up waiting for. */
  ghost predicate Abandons(st: State, s: Session) {
    InFlight(st, s) && s !in st.processing
  }

  /** Nothing is left of a turn: no map, no task, no usage. */
  ghost predicate Gone(st: State, s: Session) {
    TurnOf(st, s).Idle? && !InFlight(st, s) && s !in st.usage
  }

  // -------------------------------------------------------------------------
  // Disconnect
  // -------------------------------------------------------------------------

  /** A disconnect on its way; `was` tells whether an approval was pending when it began. */
  ghost predicate Leaving(st: State, s: Session, preserve: bool, was: bool) {
    && Sound(st) && Owns(st, s) && s in st.foreground
    && match st.foreground[s]
       case ClosingActive(p) => p == preserve && !was && !InFlight(st, s)
       case ClosingProcessing(_, p) => p == preserve && !was
       case AwaitingProcessing(_, p) => p == preserve && !was
       case DroppingApproval => !preserve && was && !InFlight(st, s)
       case _ => false
  }

  /** After it: an approval that was to be preserved and nothing else. */
  ghost predicate Left(st: State, s: Session, preserve: bool, was: bool) {
    if was && preserve then TurnOf(st, s).AwaitingApproval? && s in st.usage && !InFlight(st, s) else Gone(st, s)
  }

  lemma DisconnectBegins(st: State, s: Session, preserve: bool)
    requires Sound(st) && Owns(st, s) && !Abandons(st, s) && Enabled(st, Disconnected(s, preserve))
    ensures var next := Next(st, Disconnected(s, preserve));
            if s in next.foreground then Leaving(next, s, preserve, s in st.pending)
            else Left(next, s, preserve, s in st.pending)
  {
    var e := Disconnected(s, preserve);
    var next := Next(st, e);
    StepAccounted(st, e);
    OwnStep(st, e);
    assert forall t :: t in next.tasks && next.tasks[t].started ==> t in st.tasks && st.tasks[t].started
                                                                    && st.tasks[t].session == next.tasks[t].session;
  }

  /** A step of another session or of the switcher leaves a disconnect or a cancel where it is. */
  lemma SameWay(st: State, e: Event, s: Session)
    requires Sound(st) && Enabled(st, e) && Owns(st, s)
    requires SessionOf(st, e) != s || e.SwitchRequested? || e.Drained? || e.DrainAbandoned? || e.SwitchEnded?
    ensures var next := Next(st, e);
            && Sound(next) && Owns(next, s) && SameSession(st, next, s)
            && (InFlight(next, s) <==> InFlight(st, s))
  {
    hide Owns, Sound;
    StepKeeps(st, e);
    SoundAfter(st, Next(st, e), SessionOf(st, e));
    var next := Next(st, e);
    if SessionOf(st, e) == s {
      SwitchSame(st, e, s);
    }
    SameOwns(st, next, s);
    InFlightSame(st, next, s);
  }

  lemma SwitchSame(st: State, e: Event, s: Session)
    requires Enabled(st, e) && (e.SwitchRequested? || e.Drained? || e.DrainAbandoned? || e.SwitchEnded?)
    ensures SameSession(st, Next(st, e), s)
  {
  }

  lemma InFlightSame(st: State, next: State, s: Session)
    requires SameSession(st, next, s)
    ensures InFlight(next, s) <==> InFlight(st, s)
  {
    if InFlight(st, s) {
      var t :| t in st.tasks && st.tasks[t].started && st.tasks[t].session == s;
      assert Runs(next, t, s);
    }
    if InFlight(next, s) {
      var t :| t in next.tasks && next.tasks[t].started && next.tasks[t].session == s;
      assert Runs(st, t, s);
    }
  }

  lemma DisconnectGoesOn(st: State, e: Event, s: Session, preserve: bool, was: bool)
    requires Leaving(st, s, preserve, was) && Enabled(st, e) && !Broken(e, s)
    ensures var next := Next(st, e);
            if s in next.foreground then Leaving(next, s, preserve, was) else Left(next, s, preserve, was)
  {
    if SessionOf(st, e) != s || e.SwitchRequested? || e.Drained? || e.DrainAbandoned? || e.SwitchEnded? {
      hide Owns, Sound, Next, Enabled, InFlight;
      SameWay(st, e, s);
    } else if e.TaskStarted? || e.TaskFinished? || e.TaskCancelled? {
      TaskDuringDisconnect(st, e, s, preserve, was);
    } else {
      RequestDuringDisconnect(st, e, s, preserve, was);
    }
  }

  lemma TaskDuringDisconnect(st: State, e: Event, s: Session, preserve: bool, was: bool)
    requires Leaving(st, s, preserve, was) && Enabled(st, e) && SessionOf(st, e) == s
    requires e.TaskStarted? || e.TaskFinished? || e.TaskCancelled?
    ensures Leaving(Next(st, e), s, preserve, was)
  {
    var next := Next(st, e);
    StepAccounted(st, e);
    OwnStep(st, e);
  }

  lemma RequestDuringDisconnect(st: State, e: Event, s: Session, preserve: bool, was: bool)
    requires Leaving(st, s, preserve, was) && Enabled(st, e) && SessionOf(st, e) == s && !Broken(e, s)
    requires !(e.TaskStarted? || e.TaskFinished? || e.TaskCancelled?)
    requires !(e.SwitchRequested? || e.Drained? || e.DrainAbandoned? || e.SwitchEnded?)
    ensures var next := Next(st, e);
            if s in next.foreground then Leaving(next, s, preserve, was) else Left(next, s, preserve, was)
  {
    StepAccounted(st, e);
    OwnStep(st, e);
    var next := Next(st, e);
    assert forall t :: t in next.tasks && next.tasks[t].started ==> t in st.tasks && st.tasks[t].started
                                                                    && st.tasks[t].session == next.tasks[t].session;
  }

  lemma {:induction false} DisconnectRuns(
    st: State, events: seq<Event>, last: State, s: Session, preserve: bool, was: bool)
    requires Leaving(st, s, preserve, was) && Until(st, events, last, s)
    ensures Left(last, s, preserve, was)
    decreases |events|
  {
    hide Leaving, Left, Next, Enabled, Broken;
    LeavingIsForeground(st, s, preserve, was);
    DisconnectGoesOn(st, events[0], s, preserve, was);
    var next := Next(st, events[0]);
    if s in next.foreground {
      DisconnectRuns(next, events[1..], last, s, preserve, was);
    }
  }

  lemma LeavingIsForeground(st: State, s: Session, preserve: bool, was: bool)
    requires Leaving(st, s, preserve, was)
    ensures s in st.foreground
  {
  }

  /**
   * A disconnect that comes to its end, whatever other sessions, tasks and switches do meanwhile: an approval that was
   * pending and is to be preserved is still pending and holds its usage; in every other case nothing is left of the
   * session's turn, neither a map entry nor a response task nor a usage.
   */
  lemma DisconnectEnds(st: State, events: seq<Event>, last: State, s: Session, preserve: bool)
    requires Sound(st) && Owns(st, s) && !Abandons(st, s) && Enabled(st, Disconnected(s, preserve))
    requires Until(Next(st, Disconnected(s, preserve)), events, last, s)
    ensures if preserve && s in st.pending then TurnOf(last, s).AwaitingApproval? && s in last.usage && !InFlight(last, s)
            else TurnOf(last, s).Idle? && s !in last.usage && !InFlight(last, s)
  {
    hide Sound, Owns, Next, Enabled, Leaving;
    DisconnectBegins(st, s, preserve);
    var next := Next(st, Disconnected(s, preserve));
    if s in next.foreground {
      DisconnectRuns(next, events, last, s, preserve, s in st.pending);
    }
  }

  // -------------------------------------------------------------------------
  // Cancel
  // -------------------------------------------------------------------------

  /** A cancel on its way: nothing is registered any more, and at most the cancelled task is left. */
  ghost predicate Cancelling(st: State, s: Session) {
    && Sound(st) && Owns(st, s) && s in st.foreground
    && match st.foreground[s]
       case ClosingCancelled(_) => true
       case AwaitingCancelled(t) => NoOther(st, t, s)
       case CancellingApproval => !InFlight(st, s)
       case _ => false
  }

  lemma CancelBegins(st: State, s: Session)
    requires Sound(st) && Owns(st, s) && Enabled(st, CancelRequested(s, true))
    requires TurnOf(st, s).Responding? || TurnOf(st, s).AwaitingApproval?
    ensures Cancelling(Next(st, CancelRequested(s, true)), s)
  {
    var e := CancelRequested(s, true);
    var next := Next(st, e);
    StepAccounted(st, e);
    OwnStep(st, e);
    assert forall t :: t in next.tasks && next.tasks[t].started ==> t in st.tasks && st.tasks[t].started
                                                                    && st.tasks[t].session == next.tasks[t].session;
  }

  lemma CancelGoesOn(st: State, e: Event, s: Session)
    requires Cancelling(st, s) && Enabled(st, e) && !Broken(e, s)
    ensures var next := Next(st, e);
            if s in next.foreground then Cancelling(next, s) else Gone(next, s)
  {
    if SessionOf(st, e) != s || e.SwitchRequested? || e.Drained? || e.DrainAbandoned? || e.SwitchEnded? {
      hide Owns, Sound, Next, Enabled, InFlight;
      SameWay(st, e, s);
    } else if e.TaskStarted? || e.TaskFinished? || e.TaskCancelled? {
      TaskDuringCancel(st, e, s);
    } else {
      RequestDuringCancel(st, e, s);
    }
  }

  lemma TaskDuringCancel(st: State, e: Event, s: Session)
    requires Cancelling(st, s) && Enabled(st, e) && SessionOf(st, e) == s
    requires e.TaskStarted? || e.TaskFinished? || e.TaskCancelled?
    ensures Cancelling(Next(st, e), s)
  {
    StepAccounted(st, e);
    OwnStep(st, e);
  }

  lemma RequestDuringCancel(st: State, e: Event, s: Session)
    requires Cancelling(st, s) && Enabled(st, e) && SessionOf(st, e) == s && !Broken(e, s)
    requires !(e.TaskStarted? || e.TaskFinished? || e.TaskCancelled?)
    requires !(e.SwitchRequested? || e.Drained? || e.DrainAbandoned? || e.SwitchEnded?)
    ensures var next := Next(st, e);
            if s in next.foreground then Cancelling(next, s) else Gone(next, s)
  {
    StepAccounted(st, e);
    OwnStep(st, e);
    var next := Next(st, e);
    assert forall t :: t in next.tasks && next.tasks[t].started ==> t in st.tasks && st.tasks[t].started
                                                                    && st.tasks[t].session == next.tasks[t].session;
  }

  lemma {:induction false} CancelRuns(st: State, events: seq<Event>, last: State, s: Session)
    requires Cancelling(st, s) && Until(st, events, last, s)
    ensures Gone(last, s)
    decreases |events|
  {
    hide Cancelling, Gone, Next, Enabled, Broken;
    CancellingIsForeground(st, s);
    CancelGoesOn(st, events[0], s);
    var next := Next(st, events[0]);
    if s in next.foreground {
      CancelRuns(next, events[1..], last, s);
    }
  }

  lemma CancellingIsForeground(st: State, s: Session)
    requires Cancelling(st, s)
    ensures s in st.foreground
  {
  }

  /**
   * A cancel of the running response or of the pending approval that comes to its end leaves nothing of the session's turn. A
   * cancel of anything else, or in any other state, changes nothing.
   */
  lemma CancelEnds(st: State, events: seq<Event>, last: State, s: Session, matches: bool)
    requires Sound(st) && Owns(st, s) && Enabled(st, CancelRequested(s, matches))
    requires Until(Next(st, CancelRequested(s, matches)), events, last, s)
    ensures if matches && (TurnOf(st, s).Responding? || TurnOf(st, s).AwaitingApproval?)
            then TurnOf(last, s).Idle? && s !in last.usage && !InFlight(last, s)
            else last == st
  {
    if matches && (TurnOf(st, s).Responding? || TurnOf(st, s).AwaitingApproval?) {
      hide Sound, Owns, Next, Enabled;
      CancelBegins(st, s);
      CancelRuns(Next(st, CancelRequested(s, matches)), events, last, s);
    }
  }

  // -------------------------------------------------------------------------
  // The turn, step by step
  // -------------------------------------------------------------------------

  /** What a step makes of the turn of its session. */
  ghost function TurnAfter(st: State, e: Event): Turn
    requires Enabled(st, e)
  {
    var s := SessionOf(st, e);
    var turn := TurnOf(st, s);
    match e
    case StartRequested(_, succeeds) =>
      if turn.Idle? && !InFlight(st, s) && st.phase.Open? && succeeds then Capturing else turn
    case StartAdmitted(_, succeeds) => if succeeds then Capturing else Idle
    case BargeIn(_, accepted) => if turn.Capturing? && !accepted then Idle else turn
    case ChunkAnalyzed(_, unavailable) => if unavailable then Idle else turn
    case TaskStarted(t, accepted) =>
      if st.tasks[t].kind.End? then
        if !turn.Capturing? then turn
        else if s in st.foreground && st.foreground[s].BargingIn? then Idle
        else Responding
      else if turn.AwaitingApproval? && accepted then Responding
      else turn
    case TaskFinished(_, outcome) => if outcome.AwaitsApproval? then AwaitingApproval else Idle
    case CancelRequested(_, matches) =>
      if matches && (turn.Responding? || turn.AwaitingApproval?) then Idle else turn
    case Disconnected(_, preserve) =>
      if turn.Capturing? || (turn.AwaitingApproval? && !preserve) then Idle else turn
    case StartAbandoned(_) => Idle
    case BargeInClosed(_) => Idle
    case CancelClosed(_, _) => Idle
    case CancelAwaited(_, _) => Idle
    case ApprovalCancelled(_) => Idle
    case ActiveClosed(_, _) => Idle
    case ProcessingAwaited(_, _) => Idle
    case ApprovalDropped(_) => Idle
    case ProcessingClosed(_, complete) => if complete then turn else Idle
    case _ => turn
  }

  /** Which requests are suspended by their first step. */
  ghost predicate Suspends(st: State, e: Event)
    requires Enabled(st, e)
  {
    var s := SessionOf(st, e);
    var turn := TurnOf(st, s);
    match e
    case StartRequested(_, _) => turn.Idle? && !InFlight(st, s) && !st.phase.Open?
    case ChunkReceived(_, accepted) => turn.Capturing? && accepted
    case BargeIn(_, accepted) => turn.Capturing? && accepted
    case CancelRequested(_, matches) => matches && (turn.Responding? || turn.AwaitingApproval?)
    case Disconnected(_, preserve) => turn.Capturing? || turn.Responding? || (turn.AwaitingApproval? && !preserve)
    case _ => s in st.foreground && s in Next(st, e).foreground
  }

  lemma StartTurns(st: State, e: Event)
    requires Sound(st) && Enabled(st, e) && Owns(st, SessionOf(st, e))
    requires e.StartRequested? || e.StartAdmitted? || e.StartAbandoned? || e.ChunkReceived? || e.ChunkAnalyzed? || e.BargeIn?
             || e.BargeInClosed?
    requires !EarlyRelease(st, e)
    ensures TurnOf(Next(st, e), SessionOf(st, e)) == TurnAfter(st, e)
    ensures SessionOf(st, e) in Next(st, e).foreground <==> Suspends(st, e)
  {
  }

  lemma TaskTurns(st: State, e: Event)
    requires Sound(st) && Enabled(st, e) && Owns(st, SessionOf(st, e))
    requires e.TaskScheduled? || e.TaskStarted? || e.TaskFinished? || e.TaskCancelled?
    requires !EarlyRelease(st, e)
    ensures TurnOf(Next(st, e), SessionOf(st, e)) == TurnAfter(st, e)
    ensures SessionOf(st, e) in Next(st, e).foreground <==> Suspends(st, e)
  {
  }

  lemma CancelTurns(st: State, e: Event)
    requires Sound(st) && Enabled(st, e) && Owns(st, SessionOf(st, e))
    requires e.CancelRequested? || e.CancelClosed? || e.CancelAwaited? || e.ApprovalCancelled?
    requires !EarlyRelease(st, e)
    ensures TurnOf(Next(st, e), SessionOf(st, e)) == TurnAfter(st, e)
    ensures SessionOf(st, e) in Next(st, e).foreground <==> Suspends(st, e)
  {
  }

  lemma DisconnectTurns(st: State, e: Event)
    requires Sound(st) && Enabled(st, e) && Owns(st, SessionOf(st, e))
    requires e.Disconnected? || e.ActiveClosed? || e.ProcessingClosed? || e.ProcessingAwaited? || e.ApprovalDropped?
    requires !EarlyRelease(st, e)
    ensures TurnOf(Next(st, e), SessionOf(st, e)) == TurnAfter(st, e)
    ensures SessionOf(st, e) in Next(st, e).foreground <==> Suspends(st, e)
  {
  }

  /**
   * The turn's life: what every step that is not an early release makes of the turn of its session, which requests it
   * suspends, and that the session then holds a usage exactly if it has a turn, a response task or a request closing it.
   */
  lemma TurnStep(st: State, e: Event)
    requires Sound(st) && Enabled(st, e) && Owns(st, SessionOf(st, e)) && !EarlyRelease(st, e)
    requires !(e.SwitchRequested? || e.Drained? || e.DrainAbandoned? || e.SwitchEnded?)
    ensures var s, next := SessionOf(st, e), Next(st, e);
            && TurnOf(next, s) == TurnAfter(st, e)
            && (s in next.foreground <==> Suspends(st, e))
            && (s in next.usage <==> !TurnOf(next, s).Idle? || InFlight(next, s) || Keeper(next, s))
  {
    OwnStep(st, e);
    hide Sound, Next, Enabled, EarlyRelease, TurnAfter, Suspends;
    if e.TaskScheduled? || e.TaskStarted? || e.TaskFinished? || e.TaskCancelled? {
      TaskTurns(st, e);
    } else if e.StartRequested? || e.StartAdmitted? || e.StartAbandoned? || e.ChunkReceived? || e.ChunkAnalyzed? || e.BargeIn?
              || e.BargeInClosed? {
      StartTurns(st, e);
    } else if e.CancelRequested? || e.CancelClosed? || e.CancelAwaited? || e.ApprovalCancelled? {
      CancelTurns(st, e);
    } else {
      DisconnectTurns(st, e);
    }
  }
}
