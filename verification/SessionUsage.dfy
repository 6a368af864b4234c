/**
 * Live voice turns against model switches. Every session that runs a turn holds one usage of the activity barrier,
 * and a switch first drains all of them. The model is a state machine whose steps are the stretches of code between
 * two suspension points; inside such a stretch the barrier's lock is never held across a suspension, so taking and
 * giving up a usage is part of the stretch.
 *
 * Per session the WebSocket loop handles one request at a time (the foreground: start, chunk, barge-in, cancel,
 * disconnect, expiry), while audio ends and approval responses run as background tasks.
 */
module SessionUsage {

  type Session = nat

  type TaskId = nat

  /** The switcher: none, waiting for active turns to drain, or between begin_switch and end_switch. */
  datatype Phase = Open | Draining | Switching

  datatype Kind = End | Approval

  /** A background task; `started` once it has taken over the session's turn and until its last statement. */
  datatype Task = Task(session: Session, kind: Kind, started: bool, cancelled: bool)

  /** Where the foreground request of a session is suspended. */
  datatype Foreground =
    | Waiting                                            // a start, waiting for the switch to end
    | Analyzing                                          // a chunk, in the VAD worker
    | BargingIn                                          // a barge-in, closing the VAD stream
    | ClosingCancelled(task: TaskId)                     // a cancel, closing the VAD stream
    | AwaitingCancelled(task: TaskId)                    // a cancel, awaiting the cancelled task
    | CancellingApproval                                 // a cancel, cancelling the pending approval
    | ClosingActive(preserve: bool)                      // a disconnect, closing the active turn's VAD stream
    | ClosingProcessing(task: TaskId, preserve: bool)    // a disconnect, closing the response's VAD stream
    | AwaitingProcessing(task: TaskId, preserve: bool)   // a disconnect, awaiting the cancelled task
    | DroppingApproval                                   // a disconnect, cancelling the pending approval

  datatype State = State(
    phase: Phase, activeUsers: int, usage: set<Session>,
    active: set<Session>, processing: map<Session, TaskId>, pending: set<Session>,
    tasks: map<TaskId, Task>, nextTask: TaskId, foreground: map<Session, Foreground>)

  const INITIAL := State(Open, 0, {}, {}, map[], {}, map[], 0, map[])

  datatype Outcome = Completes | AwaitsApproval | Fails | Unavailable

  datatype Closing = Closed | WorkerUnavailable | Broken

  datatype Event =
    | StartRequested(s: Session, succeeds: bool)
    | StartAdmitted(s: Session, succeeds: bool)
    | StartAbandoned(s: Session)
    | ChunkReceived(s: Session, accepted: bool)
    | ChunkAnalyzed(s: Session, unavailable: bool)
    | BargeIn(s: Session, accepted: bool)
    | BargeInClosed(s: Session)
    | TaskScheduled(s: Session, kind: Kind)
    | TaskStarted(t: TaskId, accepted: bool)
    | TaskFinished(t: TaskId, outcome: Outcome)
    | TaskCancelled(t: TaskId)
    | CancelRequested(s: Session, matches: bool)
    | CancelClosed(s: Session, closing: Closing)
    | CancelAwaited(s: Session, complete: bool)
    | ApprovalCancelled(s: Session)
    | Disconnected(s: Session, preserve: bool)
    | ActiveClosed(s: Session, complete: bool)
    | ProcessingClosed(s: Session, complete: bool)
    | ProcessingAwaited(s: Session, complete: bool)
    | ApprovalDropped(s: Session)
    | SwitchRequested
    | Drained
    | DrainAbandoned
    | SwitchEnded

  // -------------------------------------------------------------------------
  // Pieces of steps
  // -------------------------------------------------------------------------

  predicate Busy(st: State, s: Session) {
    s in st.active || s in st.processing || s in st.pending
  }

  ghost predicate Runs(st: State, t: TaskId, s: Session) {
    t in st.tasks && st.tasks[t].started && st.tasks[t].session == s
  }

  ghost predicate InFlight(st: State, s: Session) {
    exists t :: t in st.tasks && st.tasks[t].started && st.tasks[t].session == s
  }

  function Release(st: State, s: Session): State {
    if s !in st.usage then st
    else st.(usage := st.usage - {s}, activeUsers := if st.activeUsers < 1 then st.activeUsers else st.activeUsers - 1)
  }

  function Suspend(st: State, s: Session, f: Foreground): State {
    st.(foreground := st.foreground[s := f])
  }

  function Return(st: State, s: Session): State {
    st.(foreground := st.foreground - {s})
  }

  function Deactivate(st: State, s: Session): State {
    st.(active := st.active - {s})
  }

  /** The admitted start: take a usage, check again, create and start the turn, and undo all of it on failure. */
  function Admit(st: State, s: Session, succeeds: bool): State {
    var held := Return(st, s).(activeUsers := st.activeUsers + 1, usage := st.usage + {s});
    if Busy(st, s) || !succeeds then Release(Deactivate(held, s), s) else held.(active := st.active + {s})
  }

  /** Remove a task, and its registration if that is still its own. */
  function Deregister(st: State, t: TaskId): State
    requires t in st.tasks
  {
    var s := st.tasks[t].session;
    st.(tasks := st.tasks - {t},
        processing := if s in st.processing && st.processing[s] == t then st.processing - {s} else st.processing)
  }

  /** The end of a task: deregister it, and give up the usage unless an approval is pending. */
  function Conclude(st: State, t: TaskId): State
    requires t in st.tasks
  {
    var s := st.tasks[t].session;
    if s in st.pending then Deregister(st, t) else Release(Deregister(st, t), s)
  }

  function MarkCancelled(st: State, t: TaskId): State {
    if t in st.tasks then st.(tasks := st.tasks[t := st.tasks[t].(cancelled := true)]) else st
  }

  /** The last part of a disconnect. */
  function DisconnectPending(st: State, s: Session, preserve: bool): State {
    if !preserve && s in st.pending then Suspend(st.(pending := st.pending - {s}), s, DroppingApproval)
    else Return(st, s)
  }

  /** The middle part of a disconnect: cancel the response task. */
  function DisconnectProcessing(st: State, s: Session, preserve: bool): State {
    if s in st.processing then
      Suspend(MarkCancelled(st, st.processing[s]), s, ClosingProcessing(st.processing[s], preserve))
    else DisconnectPending(st, s, preserve)
  }

  // -------------------------------------------------------------------------
  // Steps
  // -------------------------------------------------------------------------

  /** Which steps can be taken: one foreground request per session, and each suspension resumed by its own event. */
  predicate Enabled(st: State, e: Event) {
    match e
    case StartRequested(s, _) => s !in st.foreground
    case StartAdmitted(s, _) => s in st.foreground && st.foreground[s].Waiting? && st.phase.Open?
    case StartAbandoned(s) => s in st.foreground && st.foreground[s].Waiting?
    case ChunkReceived(s, _) => s !in st.foreground
    case ChunkAnalyzed(s, _) => s in st.foreground && st.foreground[s].Analyzing?
    case BargeIn(s, _) => s !in st.foreground
    case BargeInClosed(s) => s in st.foreground && st.foreground[s].BargingIn?
    case TaskScheduled(s, _) => s !in st.foreground
    case TaskStarted(t, _) => t in st.tasks && !st.tasks[t].started
    case TaskFinished(t, outcome) =>
      t in st.tasks && st.tasks[t].started && (st.tasks[t].cancelled ==> outcome.Fails? || outcome.Unavailable?)
    case TaskCancelled(t) => t in st.tasks
    case CancelRequested(s, _) => s !in st.foreground
    case CancelClosed(s, _) => s in st.foreground && st.foreground[s].ClosingCancelled?
    case CancelAwaited(s, complete) =>
      s in st.foreground && st.foreground[s].AwaitingCancelled? && (complete ==> st.foreground[s].task !in st.tasks)
    case ApprovalCancelled(s) => s in st.foreground && st.foreground[s].CancellingApproval?
    case Disconnected(s, _) => s !in st.foreground
    case ActiveClosed(s, _) => s in st.foreground && st.foreground[s].ClosingActive?
    case ProcessingClosed(s, _) => s in st.foreground && st.foreground[s].ClosingProcessing?
    case ProcessingAwaited(s, complete) =>
      s in st.foreground && st.foreground[s].AwaitingProcessing? && (complete ==> st.foreground[s].task !in st.tasks)
    case ApprovalDropped(s) => s in st.foreground && st.foreground[s].DroppingApproval?
    case SwitchRequested => true
    case Drained => st.phase.Draining? && st.activeUsers == 0
    case DrainAbandoned => st.phase.Draining?
    case SwitchEnded => st.phase.Switching?
  }

  function Next(st: State, e: Event): State
    requires Enabled(st, e)
  {
    match e
    case StartRequested(s, succeeds) =>
      if Busy(st, s) || s in st.usage then st
      else if st.phase.Open? then Admit(st, s, succeeds)
      else Suspend(st, s, Waiting)
    case StartAdmitted(s, succeeds) => Admit(st, s, succeeds)
    case StartAbandoned(s) => Return(st, s)
    case ChunkReceived(s, accepted) =>
      if s in st.active && accepted then Suspend(st, s, Analyzing) else st
    case ChunkAnalyzed(s, unavailable) =>
      if unavailable then Release(Deactivate(Return(st, s), s), s) else Return(st, s)
    case BargeIn(s, accepted) =>
      if s !in st.active then st
      else if accepted then Suspend(st, s, BargingIn)
      else Release(Deactivate(st, s), s)
    case BargeInClosed(s) => Release(Deactivate(Return(st, s), s), s)
    case TaskScheduled(s, kind) =>
      st.(tasks := st.tasks[st.nextTask := Task(s, kind, false, false)], nextTask := st.nextTask + 1)
    case TaskStarted(t, accepted) =>
      var task := st.tasks[t];
      var s := task.session;
      var running := st.(tasks := st.tasks[t := task.(started := true)]);
      if task.kind.End? then
        if s !in st.active then st.(tasks := st.tasks - {t})
        else if s in st.foreground && st.foreground[s].BargingIn? then
          // The barge-in has already cancelled the stream, so finishing it fails at once.
          Conclude(Deactivate(st, s), t)
        else Deactivate(running, s).(processing := st.processing[s := t])
      else if s !in st.pending || !accepted then st.(tasks := st.tasks - {t})
      else running.(pending := st.pending - {s}, processing := st.processing[s := t])
    case TaskFinished(t, outcome) =>
      var s := st.tasks[t].session;
      if outcome.AwaitsApproval? then Conclude(st.(pending := st.pending + {s}), t)
      else if outcome.Unavailable? then Release(Deactivate(Conclude(st, t), s), s)
      else Conclude(st, t)
    case TaskCancelled(t) =>
      if st.tasks[t].started then MarkCancelled(st, t) else st.(tasks := st.tasks - {t})
    case CancelRequested(s, matches) =>
      if !matches then st
      else if s in st.processing then
        var t := st.processing[s];
        Suspend(MarkCancelled(st, t).(processing := st.processing - {s}), s, ClosingCancelled(t))
      else if s in st.pending then Suspend(st.(pending := st.pending - {s}), s, CancellingApproval)
      else st
    case CancelClosed(s, closing) =>
      (match closing
       case Closed => Suspend(st, s, AwaitingCancelled(st.foreground[s].task))
       case WorkerUnavailable => Release(Deactivate(Return(st, s), s), s)
       case Broken => Return(st, s))
    case CancelAwaited(s, _) => Return(st, s)
    case ApprovalCancelled(s) => Release(Return(st, s), s)
    case Disconnected(s, preserve) =>
      if s in st.active then Suspend(Deactivate(st, s), s, ClosingActive(preserve))
      else DisconnectProcessing(st, s, preserve)
    case ActiveClosed(s, complete) =>
      if complete then DisconnectProcessing(Release(st, s), s, st.foreground[s].preserve)
      else Release(Return(st, s), s)
    case ProcessingClosed(s, complete) =>
      var f := st.foreground[s];
      if complete then Suspend(st, s, AwaitingProcessing(f.task, f.preserve))
      else Release(Return(st, s).(processing := st.processing - {s}), s)
    case ProcessingAwaited(s, complete) =>
      var done := Release(st.(processing := st.processing - {s}), s);
      if complete then DisconnectPending(done, s, st.foreground[s].preserve) else Return(done, s)
    case ApprovalDropped(s) => Release(Return(st, s), s)
    case SwitchRequested =>
      if !st.phase.Open? then st
      else st.(phase := if st.activeUsers == 0 then Switching else Draining)
    case Drained => st.(phase := Switching)
    case DrainAbandoned => st.(phase := Open)
    case SwitchEnded => st.(phase := Open)
  }

  // -------------------------------------------------------------------------
  // What every step keeps
  // -------------------------------------------------------------------------

  /** The counter counts the holders, and nobody holds a usage during a switch. */
  ghost predicate Counted(st: State) {
    && st.activeUsers == |st.usage|
    && (st.phase.Switching? ==> st.activeUsers == 0)
    && forall s :: s in st.foreground && st.foreground[s].Waiting? ==> s !in st.usage
  }

  /** The registry facts about the maps: disjoint, and exactly the uncancelled started tasks are registered. */
  ghost predicate Registered(st: State) {
    && st.active !! st.pending
    && st.active !! st.processing.Keys
    && st.pending !! st.processing.Keys
    && (forall t :: t in st.tasks ==> t < st.nextTask)
    && (forall s :: s in st.processing ==> Runs(st, st.processing[s], s))
    && (forall t :: t in st.tasks && st.tasks[t].started && !st.tasks[t].cancelled ==>
          st.tasks[t].session in st.processing && st.processing[st.tasks[t].session] == t)
  }

  /** What a suspended foreground request can rely on when it resumes. */
  ghost predicate Suspended(st: State, s: Session, f: Foreground) {
    match f
    case Waiting => !Busy(st, s)
    case Analyzing => true
    case BargingIn => s !in st.processing && s !in st.pending
    case ClosingCancelled(t) => !Busy(st, s) && Abandoned(st, t, s)
    case AwaitingCancelled(t) => !Busy(st, s) && Abandoned(st, t, s)
    case CancellingApproval => !Busy(st, s)
    case ClosingActive(_) => !Busy(st, s)
    case ClosingProcessing(t, _) =>
      s !in st.active && s !in st.pending && (s in st.processing ==> st.processing[s] == t) && Abandoned(st, t, s)
    case AwaitingProcessing(t, _) =>
      s !in st.active && s !in st.pending && (s in st.processing ==> st.processing[s] == t) && Abandoned(st, t, s)
    case DroppingApproval => !Busy(st, s)
  }

  /** A task that has been cancelled and, if it has not yet ended, will not be registered again. */
  ghost predicate Abandoned(st: State, t: TaskId, s: Session) {
    t < st.nextTask && (t in st.tasks ==> Runs(st, t, s) && st.tasks[t].cancelled)
  }

  /** The maps are in order, whoever holds a usage. */
  ghost predicate Ordered(st: State) {
    && Registered(st)
    && forall s :: s in st.foreground ==> Suspended(st, s, st.foreground[s])
  }

  ghost predicate Sound(st: State) {
    Counted(st) && Ordered(st)
  }

  lemma InitialSound()
    ensures Sound(INITIAL)
  {
  }

  // -------------------------------------------------------------------------
  // Who holds a usage
  // -------------------------------------------------------------------------

  /** The foreground request that will itself give up the usage of the turn it has taken out of the maps. */
  predicate Keeper(st: State, s: Session) {
    s in st.foreground
    && (st.foreground[s].CancellingApproval? || st.foreground[s].ClosingActive? || st.foreground[s].DroppingApproval?)
  }

  ghost predicate NoOther(st: State, t: TaskId, s: Session) {
    forall u :: u in st.tasks && st.tasks[u].started && st.tasks[u].session == s ==> u == t
  }

  ghost predicate OnlyTask(st: State, s: Session) {
    forall t :: t in st.tasks && st.tasks[t].started && st.tasks[t].session == s ==> NoOther(st, t, s)
  }

  /**
   * A session holds a usage exactly when it has a turn: in one of the maps, in a task that has not yet ended, or in
   * the hands of a request that is closing it; and it has at most one of these.
   */
  ghost predicate Owns(st: State, s: Session) {
    && (s in st.usage <==> Busy(st, s) || InFlight(st, s) || Keeper(st, s))
    && (InFlight(st, s) ==> s !in st.active && s !in st.pending && !Keeper(st, s))
    && OnlyTask(st, s)
    && (s in st.foreground ==>
          match st.foreground[s]
          case BargingIn => !InFlight(st, s)
          case ClosingCancelled(t) => NoOther(st, t, s)
          case ClosingProcessing(t, _) => NoOther(st, t, s)
          case AwaitingProcessing(t, _) => NoOther(st, t, s)
          case _ => true)
  }

  ghost predicate Owned(st: State) {
    forall s :: Owns(st, s)
  }

  /** The session whose usage a foreground request gives up because a VAD worker or its own wait has failed. */
  function GivesUp(st: State, e: Event): set<Session>
    requires Enabled(st, e)
  {
    match e
    case ChunkAnalyzed(s, unavailable) => if unavailable then {s} else {}
    case CancelClosed(s, closing) => if closing.WorkerUnavailable? then {s} else {}
    case ProcessingClosed(s, complete) => if complete then {} else {s}
    case ProcessingAwaited(s, complete) => if complete then {} else {s}
    case _ => {}
  }

  /** A failure path that gives up the usage of a session whose response has not ended or waits for an approval. */
  ghost predicate EarlyRelease(st: State, e: Event)
    requires Enabled(st, e)
  {
    exists s :: s in GivesUp(st, e) && (InFlight(st, s) || s in st.pending)
  }

  /** The step changed nothing of any other session. */
  ghost predicate Elsewhere(st: State, next: State, s: Session) {
    forall x :: x != s ==> SameSession(st, next, x)
  }

  ghost predicate SameSession(st: State, next: State, x: Session) {
    && (x in st.usage <==> x in next.usage)
    && (x in st.active <==> x in next.active)
    && (x in st.pending <==> x in next.pending)
    && (x in st.processing <==> x in next.processing)
    && (x in st.processing ==> st.processing[x] == next.processing[x])
    && (x in st.foreground <==> x in next.foreground)
    && (x in st.foreground ==> st.foreground[x] == next.foreground[x])
    && (forall t :: t in st.tasks && st.tasks[t].started && st.tasks[t].session == x ==> Runs(next, t, x))
    && (forall t :: t in next.tasks && next.tasks[t].started && next.tasks[t].session == x ==> Runs(st, t, x))
  }

  function SessionOf(st: State, e: Event): Session
    requires Enabled(st, e)
  {
    match e
    case StartRequested(s, _) => s
    case StartAdmitted(s, _) => s
    case StartAbandoned(s) => s
    case ChunkReceived(s, _) => s
    case ChunkAnalyzed(s, _) => s
    case BargeIn(s, _) => s
    case BargeInClosed(s) => s
    case TaskScheduled(s, _) => s
    case TaskStarted(t, _) => st.tasks[t].session
    case TaskFinished(t, _) => st.tasks[t].session
    case TaskCancelled(t) => st.tasks[t].session
    case CancelRequested(s, _) => s
    case CancelClosed(s, _) => s
    case CancelAwaited(s, _) => s
    case ApprovalCancelled(s) => s
    case Disconnected(s, _) => s
    case ActiveClosed(s, _) => s
    case ProcessingClosed(s, _) => s
    case ProcessingAwaited(s, _) => s
    case ApprovalDropped(s) => s
    case _ => 0
  }

  lemma SameOwns(st: State, next: State, x: Session)
    requires Owns(st, x) && SameSession(st, next, x)
    ensures Owns(next, x)
  {
  }

  /** A sound state that differs from `st` in nothing but session `s`. */
  ghost predicate Reaches(st: State, next: State, s: Session) {
    Sound(next) && Elsewhere(st, next, s)
  }

  lemma Then(st: State, mid: State, next: State, s: Session)
    requires Reaches(st, mid, s) && Reaches(mid, next, s)
    ensures Reaches(st, next, s)
  {
    forall x | x != s ensures SameSession(st, next, x) {
      assert SameSession(st, mid, x) && SameSession(mid, next, x);
    }
  }

  lemma ReleaseKeeps(st: State, s: Session)
    requires Sound(st)
    ensures Reaches(st, Release(st, s), s)
  {
    hide Counted, Ordered;
    ReleaseCounts(st, s);
    SameMaps(st, Release(st, s));
  }

  lemma SameMaps(st: State, next: State)
    requires Ordered(st) && next == st.(usage := next.usage, activeUsers := next.activeUsers, phase := next.phase)
    ensures Ordered(next)
  {
  }

  lemma ReleaseCounts(st: State, s: Session)
    requires Counted(st)
    ensures Counted(Release(st, s))
  {
  }

  lemma ReturnKeeps(st: State, s: Session)
    requires Sound(st)
    ensures Reaches(st, Return(st, s), s)
  {
  }

  lemma DeactivateKeeps(st: State, s: Session)
    requires Sound(st)
    ensures Reaches(st, Deactivate(st, s), s)
  {
  }

  lemma UnpendKeeps(st: State, s: Session)
    requires Sound(st)
    ensures Reaches(st, st.(pending := st.pending - {s}), s)
  {
  }

  lemma MarkCancelledKeeps(st: State, t: TaskId, s: Session)
    requires Sound(st) && Runs(st, t, s)
    ensures Reaches(st, MarkCancelled(st, t), s)
  {
  }

  lemma DropKeeps(st: State, t: TaskId, s: Session)
    requires Sound(st) && t in st.tasks && !st.tasks[t].started
    ensures Reaches(st, st.(tasks := st.tasks - {t}), s)
  {
  }

  lemma DeregisterKeeps(st: State, s: Session)
    requires Sound(st) && (s in st.processing ==> st.tasks[st.processing[s]].cancelled)
    ensures Reaches(st, st.(processing := st.processing - {s}), s)
  {
  }

  lemma SuspendKeeps(st: State, s: Session, f: Foreground)
    requires Sound(st) && Suspended(st, s, f) && (f.Waiting? ==> s !in st.usage)
    ensures Reaches(st, Suspend(st, s, f), s)
  {
  }

  lemma DeregisterTaskKeeps(st: State, t: TaskId)
    requires Sound(st) && t in st.tasks
    ensures Reaches(st, Deregister(st, t), st.tasks[t].session)
  {
    hide Counted;
    SameCount(st, Deregister(st, t));
  }

  lemma ConcludeKeeps(st: State, t: TaskId, s: Session)
    requires Sound(st) && t in st.tasks && st.tasks[t].session == s
    ensures Reaches(st, Conclude(st, t), s)
  {
    hide Sound, Elsewhere, Deregister;
    DeregisterTaskKeeps(st, t);
    ReleaseKeeps(Deregister(st, t), s);
    Then(st, Deregister(st, t), Release(Deregister(st, t), s), s);
  }

  lemma TakeUsageKeeps(st: State, s: Session)
    requires Sound(st) && st.phase.Open? && s !in st.usage && s !in st.foreground
    ensures Reaches(st, st.(activeUsers := st.activeUsers + 1, usage := st.usage + {s}), s)
  {
    hide Ordered;
    SameMaps(st, st.(activeUsers := st.activeUsers + 1, usage := st.usage + {s}));
  }

  lemma ActivateKeeps(st: State, s: Session)
    requires Sound(st) && !Busy(st, s) && s !in st.foreground
    ensures Reaches(st, st.(active := st.active + {s}), s)
  {
    hide Counted;
    SameCount(st, st.(active := st.active + {s}));
  }

  lemma AdmitKeeps(st: State, s: Session, succeeds: bool)
    requires Sound(st) && st.phase.Open? && s !in st.usage && !Busy(st, s)
    requires s in st.foreground ==> st.foreground[s].Waiting?
    ensures Reaches(st, Admit(st, s, succeeds), s)
  {
    hide Sound, Elsewhere, Release, Deactivate;
    var back := Return(st, s);
    var held := back.(activeUsers := st.activeUsers + 1, usage := st.usage + {s});
    ReturnKeeps(st, s);
    TakeUsageKeeps(back, s);
    Then(st, back, held, s);
    if succeeds {
      ActivateKeeps(held, s);
      Then(st, held, held.(active := held.active + {s}), s);
    } else {
      GiveUpKeeps(held, s);
      Then(st, held, Release(Deactivate(held, s), s), s);
    }
  }

  lemma ScheduleKeeps(st: State, s: Session, kind: Kind)
    requires Sound(st) && s !in st.foreground
    ensures Reaches(st, Next(st, TaskScheduled(s, kind)), s)
  {
  }

  /** What a task that takes over a session's turn makes of the tasks and the registry. */
  function TakenOver(st: State, t: TaskId): State
    requires t in st.tasks
  {
    var task := st.tasks[t];
    st.(tasks := st.tasks[t := task.(started := true)], processing := st.processing[task.session := t])
  }

  lemma TakeActiveKeeps(st: State, t: TaskId)
    requires Sound(st) && t in st.tasks && !st.tasks[t].started
    requires var s := st.tasks[t].session; s in st.active && !(s in st.foreground && st.foreground[s].BargingIn?)
    ensures Reaches(st, Deactivate(TakenOver(st, t), st.tasks[t].session), st.tasks[t].session)
  {
    hide Counted;
    var next := Deactivate(TakenOver(st, t), st.tasks[t].session);
    SameCount(st, next);
  }

  lemma TakePendingKeeps(st: State, t: TaskId)
    requires Sound(st) && t in st.tasks && !st.tasks[t].started && st.tasks[t].session in st.pending
    ensures var s := st.tasks[t].session;
            Reaches(st, TakenOver(st, t).(pending := st.pending - {s}), s)
  {
    hide Counted;
    var next := TakenOver(st, t).(pending := st.pending - {st.tasks[t].session});
    SameCount(st, next);
  }

  lemma SameCount(st: State, next: State)
    requires Counted(st) && next.activeUsers == st.activeUsers && next.usage == st.usage && next.phase == st.phase
             && next.foreground == st.foreground
    ensures Counted(next)
  {
  }

  lemma AwaitApprovalKeeps(st: State, t: TaskId)
    requires Sound(st) && t in st.tasks && st.tasks[t].started && !st.tasks[t].cancelled
    ensures var s := st.tasks[t].session;
            Reaches(st, Conclude(st.(pending := st.pending + {s}), t), s)
  {
  }

  /** What a request can rely on when it resumes. */
  lemma Resumed(st: State, s: Session)
    requires Sound(st) && s in st.foreground
    ensures Suspended(st, s, st.foreground[s])
    ensures st.foreground[s].Waiting? ==> s !in st.usage
  {
  }

  /** The maps are disjoint and registered tasks are running. */
  lemma MapsDisjoint(st: State, s: Session)
    requires Sound(st)
    ensures s in st.active ==> s !in st.processing && s !in st.pending
    ensures s in st.processing ==> s !in st.pending && st.processing[s] < st.nextTask && Runs(st, st.processing[s], s)
  {
  }

  lemma DisconnectPendingKeeps(st: State, s: Session, preserve: bool)
    requires Sound(st) && s !in st.active && s !in st.processing
    ensures Reaches(st, DisconnectPending(st, s, preserve), s)
  {
    hide Sound, Elsewhere;
    if !preserve && s in st.pending {
      var mid := st.(pending := st.pending - {s});
      UnpendKeeps(st, s);
      SuspendKeeps(mid, s, DroppingApproval);
      Then(st, mid, Suspend(mid, s, DroppingApproval), s);
    } else {
      ReturnKeeps(st, s);
    }
  }

  lemma DisconnectProcessingKeeps(st: State, s: Session, preserve: bool)
    requires Sound(st) && s !in st.active
    ensures Reaches(st, DisconnectProcessing(st, s, preserve), s)
  {
    hide Sound, Elsewhere;
    MapsDisjoint(st, s);
    if s in st.processing {
      var t := st.processing[s];
      var mid := MarkCancelled(st, t);
      MarkCancelledKeeps(st, t, s);
      SuspendKeeps(mid, s, ClosingProcessing(t, preserve));
      Then(st, mid, Suspend(mid, s, ClosingProcessing(t, preserve)), s);
    } else {
      DisconnectPendingKeeps(st, s, preserve);
    }
  }

  /** Taking a turn out of the active map and giving up its usage. */
  lemma GiveUpKeeps(st: State, s: Session)
    requires Sound(st)
    ensures Reaches(st, Release(Deactivate(st, s), s), s)
    ensures Reaches(st, Release(Deactivate(Return(st, s), s), s), s)
    ensures Reaches(st, Release(Return(st, s), s), s)
  {
    hide *;
    var back := Return(st, s);
    ReturnKeeps(st, s);
    SoundAfter(st, back, s);
    DeactivateKeeps(st, s);
    SoundAfter(st, Deactivate(st, s), s);
    DeactivateKeeps(back, s);
    SoundAfter(back, Deactivate(back, s), s);
    ReleaseKeeps(Deactivate(st, s), s);
    ReleaseKeeps(Deactivate(back, s), s);
    ReleaseKeeps(back, s);
    Then(st, Deactivate(st, s), Release(Deactivate(st, s), s), s);
    Then(back, Deactivate(back, s), Release(Deactivate(back, s), s), s);
    Then(st, back, Release(Deactivate(back, s), s), s);
    Then(st, back, Release(back, s), s);
  }

  lemma SoundAfter(st: State, next: State, s: Session)
    requires Reaches(st, next, s)
    ensures Sound(next)
  {
  }

  lemma Unchanged(st: State, s: Session)
    requires Sound(st)
    ensures Reaches(st, st, s)
  {
  }

  lemma {:induction false} RequestKeeps(st: State, e: Event)
    requires Sound(st) && Enabled(st, e)
    requires e.StartRequested? || e.ChunkReceived? || e.BargeIn? || e.CancelRequested? || e.Disconnected?
    ensures Reaches(st, Next(st, e), SessionOf(st, e))
  {
    hide Sound, Elsewhere, Reaches;
    var s := SessionOf(st, e);
    Unchanged(st, s);
    MapsDisjoint(st, s);
    GiveUpKeeps(st, s);
    match e
    case StartRequested(_, succeeds) =>
      if !Busy(st, s) && s !in st.usage {
        if st.phase.Open? {
          AdmitKeeps(st, s, succeeds);
        } else {
          SuspendKeeps(st, s, Waiting);
        }
      }
    case ChunkReceived(_, accepted) => SuspendKeeps(st, s, Analyzing);
    case BargeIn(_, accepted) =>
      if s in st.active && accepted {
        SuspendKeeps(st, s, BargingIn);
      }
    case CancelRequested(_, matches) =>
      if s in st.processing {
        var t := st.processing[s];
        var marked := MarkCancelled(st, t);
        var mid := marked.(processing := st.processing - {s});
        MarkCancelledKeeps(st, t, s);
        SoundAfter(st, marked, s);
        DeregisterKeeps(marked, s);
        SoundAfter(marked, mid, s);
        SuspendKeeps(mid, s, ClosingCancelled(t));
        Then(st, marked, mid, s);
        Then(st, mid, Suspend(mid, s, ClosingCancelled(t)), s);
      } else if s in st.pending {
        var mid := st.(pending := st.pending - {s});
        UnpendKeeps(st, s);
        SoundAfter(st, mid, s);
        SuspendKeeps(mid, s, CancellingApproval);
        Then(st, mid, Suspend(mid, s, CancellingApproval), s);
      }
    case Disconnected(_, preserve) =>
      if s in st.active {
        var mid := Deactivate(st, s);
        DeactivateKeeps(st, s);
        SoundAfter(st, mid, s);
        SuspendKeeps(mid, s, ClosingActive(preserve));
        Then(st, mid, Suspend(mid, s, ClosingActive(preserve)), s);
      } else {
        DisconnectProcessingKeeps(st, s, preserve);
      }
  }

  lemma {:induction false} ResumeKeeps(st: State, e: Event)
    requires Sound(st) && Enabled(st, e)
    requires e.StartAdmitted? || e.StartAbandoned? || e.ChunkAnalyzed? || e.BargeInClosed? || e.CancelClosed?
             || e.CancelAwaited? || e.ApprovalCancelled? || e.ApprovalDropped?
    ensures Reaches(st, Next(st, e), SessionOf(st, e))
  {
    hide Sound, Elsewhere, Reaches;
    var s := SessionOf(st, e);
    Resumed(st, s);
    ReturnKeeps(st, s);
    GiveUpKeeps(st, s);
    match e
    case StartAdmitted(_, succeeds) => AdmitKeeps(st, s, succeeds);
    case CancelClosed(_, _) => SuspendKeeps(st, s, AwaitingCancelled(st.foreground[s].task));
    case _ =>
  }

  lemma {:induction false} DisconnectKeeps(st: State, e: Event)
    requires Sound(st) && Enabled(st, e) && (e.ActiveClosed? || e.ProcessingClosed? || e.ProcessingAwaited?)
    ensures Reaches(st, Next(st, e), SessionOf(st, e))
  {
    hide Sound, Elsewhere, Reaches;
    var s := SessionOf(st, e);
    var f := st.foreground[s];
    Resumed(st, s);
    MapsDisjoint(st, s);
    GiveUpKeeps(st, s);
    match e
    case ActiveClosed(_, complete) =>
      var mid := Release(st, s);
      ReleaseKeeps(st, s);
      SoundAfter(st, mid, s);
      DisconnectProcessingKeeps(mid, s, f.preserve);
      Then(st, mid, DisconnectProcessing(mid, s, f.preserve), s);
    case ProcessingClosed(_, complete) =>
      if complete {
        SuspendKeeps(st, s, AwaitingProcessing(f.task, f.preserve));
      } else {
        var mid := Return(st, s);
        var gone := mid.(processing := st.processing - {s});
        ReturnKeeps(st, s);
        SoundAfter(st, mid, s);
        DeregisterKeeps(mid, s);
        SoundAfter(mid, gone, s);
        ReleaseKeeps(gone, s);
        Then(st, mid, gone, s);
        Then(st, gone, Release(gone, s), s);
      }
    case ProcessingAwaited(_, complete) =>
      var gone := st.(processing := st.processing - {s});
      var done := Release(gone, s);
      DeregisterKeeps(st, s);
      SoundAfter(st, gone, s);
      ReleaseKeeps(gone, s);
      SoundAfter(gone, done, s);
      Then(st, gone, done, s);
      if complete {
        DisconnectPendingKeeps(done, s, f.preserve);
        Then(st, done, DisconnectPending(done, s, f.preserve), s);
      } else {
        ReturnKeeps(done, s);
        Then(st, done, Return(done, s), s);
      }
  }

  lemma {:induction false} TaskKeeps(st: State, e: Event)
    requires Sound(st) && Enabled(st, e)
    requires e.TaskScheduled? || e.TaskStarted? || e.TaskFinished? || e.TaskCancelled?
    ensures Reaches(st, Next(st, e), SessionOf(st, e))
  {
    hide Sound, Elsewhere, Reaches;
    var s := SessionOf(st, e);
    MapsDisjoint(st, s);
    match e
    case TaskScheduled(_, kind) => ScheduleKeeps(st, s, kind);
    case TaskStarted(t, accepted) =>
      DropKeeps(st, t, s);
      if s in st.active && !(s in st.foreground && st.foreground[s].BargingIn?) {
        TakeActiveKeeps(st, t);
      }
      if s in st.pending {
        TakePendingKeeps(st, t);
      }
      var mid := Deactivate(st, s);
      DeactivateKeeps(st, s);
      SoundAfter(st, mid, s);
      ConcludeKeeps(mid, t, s);
      Then(st, mid, Conclude(mid, t), s);
    case TaskFinished(t, outcome) =>
      if outcome.AwaitsApproval? {
        AwaitApprovalKeeps(st, t);
      } else {
        var mid := Conclude(st, t);
        ConcludeKeeps(st, t, s);
        SoundAfter(st, mid, s);
        GiveUpKeeps(mid, s);
        Then(st, mid, Release(Deactivate(mid, s), s), s);
      }
    case TaskCancelled(t) =>
      if st.tasks[t].started {
        MarkCancelledKeeps(st, t, s);
      } else {
        DropKeeps(st, t, s);
      }
  }

  lemma {:induction false} SwitchKeeps(st: State, e: Event)
    requires Sound(st) && Enabled(st, e)
    requires e.SwitchRequested? || e.Drained? || e.DrainAbandoned? || e.SwitchEnded?
    ensures Reaches(st, Next(st, e), SessionOf(st, e))
  {
    hide Sound, Elsewhere;
    PhaseKeeps(st, Open);
    PhaseKeeps(st, Draining);
    if st.activeUsers == 0 {
      PhaseKeeps(st, Switching);
    }
    Unchanged(st, SessionOf(st, e));
  }

  /** A change of phase touches no session; a switch can only begin when nobody is active. */
  lemma PhaseKeeps(st: State, phase: Phase)
    requires Sound(st) && (phase.Switching? ==> st.activeUsers == 0)
    ensures Sound(st.(phase := phase)) && forall s :: Elsewhere(st, st.(phase := phase), s)
  {
    hide Ordered;
    SameMaps(st, st.(phase := phase));
  }

  /** Every step keeps a sound state sound and touches one session only. */
  lemma {:induction false} StepKeeps(st: State, e: Event)
    requires Sound(st) && Enabled(st, e)
    ensures Reaches(st, Next(st, e), SessionOf(st, e))
  {
    hide *;
    match e
    case StartRequested(_, _) => RequestKeeps(st, e);
    case ChunkReceived(_, _) => RequestKeeps(st, e);
    case BargeIn(_, _) => RequestKeeps(st, e);
    case CancelRequested(_, _) => RequestKeeps(st, e);
    case Disconnected(_, _) => RequestKeeps(st, e);
    case ActiveClosed(_, _) => DisconnectKeeps(st, e);
    case ProcessingClosed(_, _) => DisconnectKeeps(st, e);
    case ProcessingAwaited(_, _) => DisconnectKeeps(st, e);
    case TaskScheduled(_, _) => TaskKeeps(st, e);
    case TaskStarted(_, _) => TaskKeeps(st, e);
    case TaskFinished(_, _) => TaskKeeps(st, e);
    case TaskCancelled(_) => TaskKeeps(st, e);
    case SwitchRequested => SwitchKeeps(st, e);
    case Drained => SwitchKeeps(st, e);
    case DrainAbandoned => SwitchKeeps(st, e);
    case SwitchEnded => SwitchKeeps(st, e);
    case _ => ResumeKeeps(st, e);
  }
}
