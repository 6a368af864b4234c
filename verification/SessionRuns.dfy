/**
 * Runs of the barrier and the session event handler: what holds over every interleaving, what holds as long as no step
 * gives up a usage early, and two runs in which one does.
 */
module SessionRuns {
  import opened SessionOwnership
  import opened SessionUsage

  ghost predicate Run(st: State, events: seq<Event>, last: State)
    decreases |events|
  {
    if events == [] then last == st
    else Enabled(st, events[0]) && Run(Next(st, events[0]), events[1..], last)
  }

  /** No step of the run is an early release. */
  ghost predicate Timely(st: State, events: seq<Event>)
    decreases |events|
  {
    events == [] ||
    (Enabled(st, events[0]) && !EarlyRelease(st, events[0]) && Timely(Next(st, events[0]), events[1..]))
  }

  /**
   * In every interleaving, whatever fails: the counter equals the number of sessions holding a usage, nobody holds one
   * between begin_switch and end_switch, and the three maps stay disjoint.
   */
  lemma {:induction false} RunSound(st: State, events: seq<Event>, last: State)
    requires Sound(st) && Run(st, events, last)
    ensures Sound(last)
    decreases |events|
  {
    hide Sound, Next, Enabled, Accounted;
    if events != [] {
      StepAccounted(st, events[0]);
      RunSound(Next(st, events[0]), events[1..], last);
    }
  }

  lemma {:induction false} RunOwned(st: State, events: seq<Event>, last: State)
    requires Sound(st) && Owned(st) && Run(st, events, last) && Timely(st, events)
    ensures Sound(last) && Owned(last)
    decreases |events|
  {
    hide Sound, Owned, Next, Enabled, EarlyRelease;
    if events != [] {
      StepAccounted(st, events[0]);
      RunOwned(Next(st, events[0]), events[1..], last);
    }
  }

  /** The barrier's promise over every run. */
  lemma {:induction false} UsersCounted(events: seq<Event>, last: State)
    requires Run(INITIAL, events, last)
    ensures last.activeUsers == |last.usage|
    ensures last.phase.Switching? ==> last.usage == {}
    ensures last.active !! last.pending && last.active !! last.processing.Keys && last.pending !! last.processing.Keys
  {
    InitialSound();
    RunSound(INITIAL, events, last);
  }

  /**
   * The handler's promise over every run without an early release: during a switch no session has a turn in any of the
   * maps and no response task is in flight; and a session at rest holds a usage exactly when it is in one of the maps.
   */
  lemma {:induction false} NoTurnDuringSwitch(events: seq<Event>, last: State)
    requires Run(INITIAL, events, last) && Timely(INITIAL, events)
    ensures last.phase.Switching? ==>
              last.active == {} && last.processing == map[] && last.pending == {}
              && forall s :: !InFlight(last, s)
    ensures forall s :: !InFlight(last, s) && s !in last.foreground ==> (s in last.usage <==> Busy(last, s))
  {
    InitialSound();
    RunOwned(INITIAL, events, last);
    assert last.usage == {} ==> forall s :: Owns(last, s) ==> !Busy(last, s) && !InFlight(last, s);
    if last.phase.Switching? {
      assert last.usage == {};
      forall s ensures !Busy(last, s) && !InFlight(last, s) {
        assert Owns(last, s);
      }
    }
    forall s | !InFlight(last, s) && s !in last.foreground ensures s in last.usage <==> Busy(last, s) {
      assert Owns(last, s);
    }
  }

  // -------------------------------------------------------------------------
  // Two runs with an early release
  // -------------------------------------------------------------------------

  lemma Prepend(st: State, e: Event, rest: seq<Event>, last: State)
    requires Enabled(st, e) && Run(Next(st, e), rest, last)
    ensures Run(st, [e] + rest, last)
  {
    assert ([e] + rest)[1..] == rest;
  }

  const CAPTURING := INITIAL.(activeUsers := 1, usage := {1}, active := {1})

  const RESPONDING := CAPTURING.(
    tasks := map[0 := Task(1, End, true, false)], nextTask := 1, active := {}, processing := map[1 := 0])

  lemma TurnStarts(rest: seq<Event>, last: State)
    requires Run(RESPONDING, rest, last)
    ensures Run(INITIAL, [StartRequested(1, true)] + ([TaskScheduled(1, End)] + ([TaskStarted(0, true)] + rest)), last)
  {
    hide Run;
    var scheduled := CAPTURING.(tasks := map[0 := Task(1, End, false, false)], nextTask := 1);
    assert Next(scheduled, TaskStarted(0, true)) == RESPONDING;
    Prepend(scheduled, TaskStarted(0, true), rest, last);
    Prepend(CAPTURING, TaskScheduled(1, End), [TaskStarted(0, true)] + rest, last);
    assert Next(INITIAL, StartRequested(1, true)) == CAPTURING;
    Prepend(INITIAL, StartRequested(1, true), [TaskScheduled(1, End)] + ([TaskStarted(0, true)] + rest), last);
  }

  /**
   * A cancel request loses the VAD worker while it closes the stream of the response it has cancelled. The usage is
   * given up at once; the client's next turn takes a new one, the old task gives that one up too when it ends, and a
   * switch begins under the live turn.
   */
  lemma CancelReleasesTwice()
    ensures exists events, last :: Run(INITIAL, events, last)
                                   && last.phase.Switching? && last.active == {1} && last.usage == {}
  {
    var closing := RESPONDING.(tasks := map[0 := Task(1, End, true, true)], processing := map[],
                               foreground := map[1 := ClosingCancelled(0)]);
    var rest := [StartRequested(1, true), TaskFinished(0, Fails), SwitchRequested];
    var last := CAPTURING.(activeUsers := 0, usage := {}, nextTask := 1, phase := Switching);
    SecondTurnLosesUsage(closing, last);
    hide Run;
    assert Next(RESPONDING, CancelRequested(1, true)) == closing;
    Prepend(RESPONDING, CancelRequested(1, true), [CancelClosed(1, WorkerUnavailable)] + rest, last);
    TurnStarts([CancelRequested(1, true)] + ([CancelClosed(1, WorkerUnavailable)] + rest), last);
  }

  lemma SecondTurnLosesUsage(closing: State, last: State)
    requires closing == RESPONDING.(tasks := map[0 := Task(1, End, true, true)], processing := map[],
                                    foreground := map[1 := ClosingCancelled(0)])
    requires last == CAPTURING.(activeUsers := 0, usage := {}, nextTask := 1, phase := Switching)
    ensures Run(closing, [CancelClosed(1, WorkerUnavailable)]
                         + [StartRequested(1, true), TaskFinished(0, Fails), SwitchRequested], last)
  {
    var given := closing.(foreground := map[], activeUsers := 0, usage := {});
    var again := given.(activeUsers := 1, usage := {1}, active := {1});
    var lost := last.(phase := Open);
    Prepend(lost, SwitchRequested, [], last);
    hide Run;
    assert Next(again, TaskFinished(0, Fails)) == lost;
    Prepend(again, TaskFinished(0, Fails), [SwitchRequested], last);
    assert [TaskFinished(0, Fails)] + [SwitchRequested] == [TaskFinished(0, Fails), SwitchRequested];
    assert Next(given, StartRequested(1, true)) == again;
    Prepend(given, StartRequested(1, true), [TaskFinished(0, Fails), SwitchRequested], last);
    assert [StartRequested(1, true)] + [TaskFinished(0, Fails), SwitchRequested]
        == [StartRequested(1, true), TaskFinished(0, Fails), SwitchRequested];
    assert Next(closing, CancelClosed(1, WorkerUnavailable)) == given;
    Prepend(closing, CancelClosed(1, WorkerUnavailable),
            [StartRequested(1, true), TaskFinished(0, Fails), SwitchRequested], last);
  }

  /**
   * The end of a stream is received, and a chunk of the same stream behind it. The end is processed while the chunk is in
   * the VAD worker, and asks for an approval; the worker then fails the chunk, the usage of the waiting turn is given up,
   * and a switch begins under it.
   */
  lemma ChunkReleasesPendingTurn()
    ensures exists events, last :: Run(INITIAL, events, last)
                                   && last.phase.Switching? && last.pending == {1} && last.usage == {}
  {
    var scheduled := CAPTURING.(tasks := map[0 := Task(1, End, false, false)], nextTask := 1);
    var analyzing := scheduled.(foreground := map[1 := Analyzing]);
    var last := INITIAL.(nextTask := 1, pending := {1}, phase := Switching);
    PendingTurnLosesUsage(analyzing, last);
    hide Run;
    var rest := [TaskStarted(0, true), TaskFinished(0, AwaitsApproval), ChunkAnalyzed(1, true), SwitchRequested];
    assert Next(scheduled, ChunkReceived(1, true)) == analyzing;
    Prepend(scheduled, ChunkReceived(1, true), rest, last);
    Prepend(CAPTURING, TaskScheduled(1, End), [ChunkReceived(1, true)] + rest, last);
    assert Next(INITIAL, StartRequested(1, true)) == CAPTURING;
    Prepend(INITIAL, StartRequested(1, true), [TaskScheduled(1, End)] + ([ChunkReceived(1, true)] + rest), last);
  }

  lemma PendingTurnLosesUsage(analyzing: State, last: State)
    requires analyzing == CAPTURING.(tasks := map[0 := Task(1, End, false, false)], nextTask := 1,
                                     foreground := map[1 := Analyzing])
    requires last == INITIAL.(nextTask := 1, pending := {1}, phase := Switching)
    ensures Run(analyzing, [TaskStarted(0, true), TaskFinished(0, AwaitsApproval), ChunkAnalyzed(1, true),
                            SwitchRequested], last)
  {
    var responding := RESPONDING.(foreground := map[1 := Analyzing]);
    var waiting := CAPTURING.(foreground := map[1 := Analyzing], nextTask := 1, active := {}, pending := {1});
    var r1, r2 := [SwitchRequested], [ChunkAnalyzed(1, true), SwitchRequested];
    var r3 := [TaskFinished(0, AwaitsApproval)] + r2;
    Prepend(last.(phase := Open), SwitchRequested, [], last);
    hide Run;
    assert Next(waiting, ChunkAnalyzed(1, true)) == last.(phase := Open);
    Prepend(waiting, ChunkAnalyzed(1, true), r1, last);
    assert [ChunkAnalyzed(1, true)] + r1 == r2;
    assert Next(responding, TaskFinished(0, AwaitsApproval)) == waiting;
    Prepend(responding, TaskFinished(0, AwaitsApproval), r2, last);
    assert Next(analyzing, TaskStarted(0, true)) == responding;
    Prepend(analyzing, TaskStarted(0, true), r3, last);
    assert [TaskStarted(0, true)] + r3
        == [TaskStarted(0, true), TaskFinished(0, AwaitsApproval), ChunkAnalyzed(1, true), SwitchRequested];
  }
}
