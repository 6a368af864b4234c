/**
 * Which calls a switch makes and what it answers, in terms of the port alone: it plays a plan of calls until one is refused,
 * and if the large model could not be brought up it plays the plan of the small one.
 */
module ModelSwitchCalls {
  import opened ModelRuntimes
  import opened ModelSwitch

  datatype Wanted = Wanted(verb: Verb, model: Model)

  /** The calls of a plan, the first of them being the port's n-th, up to the first refusal. */
  function Played(port: Port, n: nat, plan: seq<Wanted>): seq<Action>
    decreases |plan|
  {
    if plan == [] then []
    else
      [Action(plan[0].verb, plan[0].model, port(n))] + if port(n).Done? then Played(port, n + 1, plan[1..]) else []
  }

  /** The port refuses none of them. */
  predicate Agreed(port: Port, n: nat, plan: seq<Wanted>)
    decreases |plan|
  {
    plan == [] || (port(n).Done? && Agreed(port, n + 1, plan[1..]))
  }

  /** Stop the ready runtime if there is one, stop the target if it is failed, start the target and check it. */
  function Ahead(r: Runtimes, target: Model): seq<Wanted> {
    (if Get(r, Other(target)).state.Ready? then [Wanted(Stop, Other(target))] else []) + Alone(r, target)
  }

  function Alone(r: Runtimes, target: Model): seq<Wanted> {
    (if Get(r, target).state.Failed? then [Wanted(Stop, target)] else []) + [Wanted(Start, target), Wanted(Health, target)]
  }

  /** Stop the large model and bring up the small one. */
  function Back(r: Runtimes): seq<Wanted> {
    [Wanted(Stop, Large)] + Alone(r, Small)
  }

  // -------------------------------------------------------------------------
  // Plays
  // -------------------------------------------------------------------------

  lemma {:induction false} PlayedParts(port: Port, n: nat, a: seq<Wanted>, b: seq<Wanted>)
    ensures Agreed(port, n, a + b) <==> Agreed(port, n, a) && Agreed(port, n + |a|, b)
    ensures Played(port, n, a + b)
            == Played(port, n, a) + (if Agreed(port, n, a) then Played(port, n + |a|, b) else [])
    decreases |a|
  {
    if a == [] {
      assert a + b == b;
    } else {
      assert (a + b)[1..] == a[1..] + b;
      PlayedParts(port, n + 1, a[1..], b);
    }
  }

  /** All calls are made if none is refused; otherwise the last one made is the refused one. */
  lemma {:induction false} PlayedEnds(port: Port, n: nat, plan: seq<Wanted>)
    ensures var calls := Played(port, n, plan);
            if Agreed(port, n, plan) then |calls| == |plan| && (calls != [] ==> calls[|calls| - 1].reply.Done?)
            else 0 < |calls| <= |plan| && calls[|calls| - 1].reply.Refused?
    decreases |plan|
  {
    if plan != [] {
      PlayedEnds(port, n + 1, plan[1..]);
    }
  }

  /** What a stretch of a switch has done: the calls of its plan, and how it ended. */
  ghost predicate Plays(st: State, next: State, flow: Flow, port: Port, plan: seq<Wanted>) {
    var calls := Played(port, |st.actions|, plan);
    && next.actions == st.actions + calls
    && (flow.Continue? <==> Agreed(port, |st.actions|, plan))
    && (flow.Refusal? ==> calls != [] && Refuses(calls[|calls| - 1], flow.model, flow.failure.code))
  }

  predicate Refuses(call: Action, m: Model, code: Text) {
    call.reply.Refused? && call.model == m && call.reply.failure.code == code
  }

  lemma PlaysThen(st: State, mid: State, next: State, flow: Flow, port: Port, a: seq<Wanted>, b: seq<Wanted>)
    requires Plays(st, mid, Continue, port, a) && Plays(mid, next, flow, port, b)
    ensures Plays(st, next, flow, port, a + b)
  {
    hide Played, Agreed, Refuses;
    PlayedParts(port, |st.actions|, a, b);
    PlayedEnds(port, |st.actions|, a);
    var first, second := Played(port, |st.actions|, a), Played(port, |mid.actions|, b);
    assert second != [] ==> (first + second)[|first + second| - 1] == second[|second| - 1];
  }

  lemma PlaysUntil(st: State, next: State, flow: Flow, port: Port, a: seq<Wanted>, b: seq<Wanted>)
    requires Plays(st, next, flow, port, a) && flow.Refusal?
    ensures Plays(st, next, flow, port, a + b)
  {
    hide Played, Agreed, Refuses;
    PlayedParts(port, |st.actions|, a, b);
  }

  lemma PlaysNothing(st: State, next: State, port: Port)
    requires next.actions == st.actions
    ensures Plays(st, next, Continue, port, [])
  {
  }

  lemma CallPlays(st: State, port: Port, verb: Verb, m: Model)
    ensures var (next, flow) := Invoke(st, port, verb, m);
            Plays(st, next, flow, port, [Wanted(verb, m)])
  {
    assert [Wanted(verb, m)][1..] == [];
  }

  lemma MovePlays(st: State, m: Model, to: Lifecycle, reason: string, failure: Option<Failure>, port: Port)
    ensures var (next, flow) := Move(st, m, to, reason, failure);
            next.actions == st.actions && !flow.Refusal? && (flow.Continue? ==> Plays(st, next, flow, port, []))
  {
  }

  /** The calls among some commands. */
  function CallsIn(commands: seq<Command>, m: Model): seq<Wanted> {
    if commands == [] then [] else CallOf(commands[0], m) + CallsIn(commands[1..], m)
  }

  function CallOf(c: Command, m: Model): seq<Wanted> {
    if c.Call? then [Wanted(c.verb, m)] else []
  }

  lemma {:induction false} DoPlays(st: State, port: Port, m: Model, commands: seq<Command>)
    ensures var (next, flow) := Do(st, port, m, commands);
            !flow.Broken? ==> Plays(st, next, flow, port, CallsIn(commands, m))
    decreases |commands|
  {
    hide Move, Invoke, Plays;
    if commands == [] {
      PlaysNothing(st, st, port);
    } else {
      var (mid, flow) := Perform(st, port, m, commands[0]);
      var rest := commands[1..];
      DoPlays(mid, port, m, rest);
      if commands[0].Record? {
        MovePlays(st, m, commands[0].to, commands[0].reason, None, port);
      } else {
        CallPlays(st, port, commands[0].verb, m);
      }
      var (next, ending) := Do(mid, port, m, rest);
      if flow.Continue? && !ending.Broken? {
        PlaysThen(st, mid, next, ending, port, CallOf(commands[0], m), CallsIn(rest, m));
      } else if flow.Refusal? {
        PlaysUntil(st, mid, flow, port, CallOf(commands[0], m), CallsIn(rest, m));
      }
    }
  }

  lemma CallsStep(c: Command, rest: seq<Command>, m: Model)
    ensures CallsIn([c] + rest, m) == CallOf(c, m) + CallsIn(rest, m)
  {
    assert ([c] + rest)[1..] == rest;
  }

  lemma NoCalls(m: Model)
    ensures CallsIn([], m) == []
  {
  }

  lemma UnloadCalls(m: Model)
    ensures CallsIn(UNLOAD, m) == [Wanted(Stop, m)]
  {
    NoCalls(m);
    hide CallsIn;
    var u1, u2, u3 := UNLOAD[1..], UNLOAD[2..], UNLOAD[3..];
    CallsStep(UNLOAD[3], [], m);
    CallsStep(UNLOAD[2], u3, m);
    CallsStep(UNLOAD[1], u2, m);
    CallsStep(UNLOAD[0], u1, m);
    assert [UNLOAD[3]] + [] == u3 && [UNLOAD[2]] + u3 == u2 && [UNLOAD[1]] + u2 == u1 && [UNLOAD[0]] + u1 == UNLOAD;
  }

  lemma LoadCalls(m: Model)
    ensures CallsIn(LOAD, m) == [Wanted(Start, m), Wanted(Health, m)]
  {
    NoCalls(m);
    hide CallsIn;
    var l1, l2, l3, l4 := LOAD[1..], LOAD[2..], LOAD[3..], LOAD[4..];
    CallsStep(LOAD[4], [], m);
    CallsStep(LOAD[3], l4, m);
    CallsStep(LOAD[2], l3, m);
    CallsStep(LOAD[1], l2, m);
    CallsStep(LOAD[0], l1, m);
    assert [LOAD[4]] + [] == l4 && [LOAD[3]] + l4 == l3 && [LOAD[2]] + l3 == l2 && [LOAD[1]] + l2 == l1 && [LOAD[0]] + l1 == LOAD;
  }

  lemma CleanupCalls(m: Model)
    ensures CallsIn(CLEANUP, m) == [Wanted(Stop, m)]
  {
    NoCalls(m);
    hide CallsIn;
    CallsStep(CLEANUP[1], [], m);
    CallsStep(CLEANUP[0], CLEANUP[1..], m);
    assert [CLEANUP[1]] + [] == CLEANUP[1..] && [CLEANUP[0]] + CLEANUP[1..] == CLEANUP;
  }

  // -------------------------------------------------------------------------
  // The parts of a switch
  // -------------------------------------------------------------------------

  /** Cleaning up is one stop; if it is refused, the failure left behind has the refusal's code. */
  lemma CleanupPlays(st: State, port: Port, m: Model)
    requires OtherOff(st, m) && Get(st.runtimes, m).state.Failed?
    ensures var (next, flow, cleaned) := CleanupFailed(st, port, m);
            !flow.Broken? ==>
              Plays(st, next, if cleaned then Continue else CleanupRefusal(next, m), port, [Wanted(Stop, m)])
  {
    hide AllExplained, Goes, Transition, Blank, Do, Move, Played, Agreed;
    CleanupGoes(st, port, m);
    CleanupPlan();
    DoGoes(st, port, m, CLEANUP, 1, Unloading);
    DoPlays(st, port, m, CLEANUP);
    CleanupCalls(m);
    var (stopped, flow) := Do(st, port, m, CLEANUP);
    GoesExplained(st, stopped, 1, Clear(flow));
    if flow.Continue? {
      MovePlays(stopped, m, Unloaded, "failed runtime cleanup complete", None, port);
    } else {
      MoveGoes(stopped, m, Failed, flow.failure.message, Some(flow.failure));
      MovePlays(stopped, m, Failed, flow.failure.message, Some(flow.failure), port);
    }
  }

  /** Bringing up a target whose rival is off. */
  lemma LoadPlays(st: State, port: Port, target: Model)
    requires OtherOff(st, target) && Off(Get(st.runtimes, target).state)
    ensures var (next, flow) := SwitchOnce(st, port, target, None);
            !flow.Broken? ==> Plays(st, next, flow, port, Alone(st.runtimes, target))
  {
    hide AllExplained, Goes, Transition, Blank, Do, Move, CleanupFailed, Plays, CleanupRefusal;
    LoadCalls(target);
    if Get(st.runtimes, target).state.Failed? {
      CleanupGoes(st, port, target);
      CleanupPlays(st, port, target);
      var (clean, cleaning, cleaned) := CleanupFailed(st, port, target);
      if cleaning.Continue? && cleaned {
        DoPlays(clean, port, target, LOAD);
        var (next, flow) := Do(clean, port, target, LOAD);
        if !flow.Broken? {
          PlaysThen(st, clean, next, flow, port, [Wanted(Stop, target)], CallsIn(LOAD, target));
        }
      } else if cleaning.Continue? {
        PlaysUntil(st, clean, CleanupRefusal(clean, target), port, [Wanted(Stop, target)], CallsIn(LOAD, target));
      }
    } else {
      DoPlays(st, port, target, LOAD);
      assert [] + CallsIn(LOAD, target) == CallsIn(LOAD, target);
    }
  }

  /** The part of a switch before any fallback. */
  lemma OncePlays(st: State, port: Port, target: Model, source: Option<Model>)
    requires Rest(st.runtimes) && ReadyModel(st.runtimes) == Ok(source) && source != Some(target)
    ensures var (next, flow) := SwitchOnce(st, port, target, source);
            !flow.Broken? ==> Plays(st, next, flow, port, Ahead(st.runtimes, target))
  {
    hide AllExplained, Goes, Transition, Blank, Do, Move, CleanupFailed, Plays, CleanupRefusal;
    var alone := Alone(st.runtimes, target);
    if source.None? {
      LoadPlays(st, port, target);
      assert [] + alone == alone;
    } else {
      UnloadPlan();
      DoGoes(st, port, source.value, UNLOAD, 1, Unloaded);
      DoPlays(st, port, source.value, UNLOAD);
      UnloadCalls(source.value);
      var (free, flow) := Do(st, port, source.value, UNLOAD);
      GoesExplained(st, free, 1, Clear(flow));
      if flow.Continue? {
        LoadPlays(free, port, target);
        var (next, ending) := SwitchOnce(free, port, target, None);
        assert SwitchOnce(st, port, target, source) == (next, ending);
        if !ending.Broken? {
          PlaysThen(st, free, next, ending, port, [Wanted(Stop, source.value)], alone);
        }
      } else {
        PlaysUntil(st, free, flow, port, [Wanted(Stop, source.value)], alone);
      }
    }
  }

  /** The code with which a fallback answers: the first failure's, unless the small model was tried and refused as well. */
  function Decisive(port: Port, n: nat, r: Runtimes, first: Text): Text {
    var second := Played(port, n, Back(r));
    if |second| <= 1 || second[|second| - 1].reply.Done? then first else second[|second| - 1].reply.failure.code
  }

  lemma RecordCallsNothing(st: State, m: Model, failure: Failure)
    ensures RecordFailure(st, m, failure).0.actions == st.actions
  {
    hide Transition;
  }

  lemma FallBackPlays(st: State, port: Port, code: Text)
    requires OtherOff(st, Large) && Get(st.runtimes, Large).state.Failed?
    ensures var (next, outcome) := FallBack(st, port, Large, code);
            outcome.Ok? ==>
              && next.actions == st.actions + Played(port, |st.actions|, Back(st.runtimes))
              && (next.runtimes.small.state.Ready? <==> Agreed(port, |st.actions|, Back(st.runtimes)))
              && outcome.value == Some(Decisive(port, |st.actions|, st.runtimes, code))
  {
    hide AllExplained, Goes, Transition, Blank, Do, Move, CleanupFailed, SwitchOnce, RecordFailure, CleanupRefusal;
    hide Played, Agreed;
    CleanupGoes(st, port, Large);
    CleanupPlays(st, port, Large);
    var (clean, cleaning, cleaned) := CleanupFailed(st, port, Large);
    var n := |st.actions|;
    var stop, alone := [Wanted(Stop, Large)], Alone(st.runtimes, Small);
    PlayedParts(port, n, stop, alone);
    PlayedEnds(port, n, stop);
    PlayedEnds(port, n + 1, alone);
    GoesExplained(st, clean, 1, !cleaning.Broken?);
    if cleaning.Continue? && cleaned {
      LoadGoes(clean, port, Small);
      LoadPlays(clean, port, Small);
      var (fallen, flow) := SwitchOnce(clean, port, Small, None);
      GoesExplained(clean, fallen, Calls(clean.runtimes, Small), !flow.Broken? && Clear(flow));
      if flow.Refusal? {
        RecordCallsNothing(fallen, flow.model, flow.failure);
        RecordGoes(fallen, Small, flow);
      }
    }
  }

  // -------------------------------------------------------------------------
  // The whole switch
  // -------------------------------------------------------------------------

  /** The calls a drained switch makes and what it answers. */
  function Story(r: Runtimes, port: Port, n: nat, target: Model): (seq<Action>, Answer) {
    var first := Played(port, n, Ahead(r, target));
    if Agreed(port, n, Ahead(r, target)) then (first, Answer(target, Some(target), true, false, None, false))
    else
      PlayedEnds(port, n, Ahead(r, target));
      var refused := first[|first| - 1];
      var code := refused.reply.failure.code;
      if target.Small? || refused.model != target then (first, Answer(target, None, true, true, Some(code), false))
      else
        var m := n + |first|;
        var ready := if Agreed(port, m, Back(r)) then Some(Small) else None;
        (first + Played(port, m, Back(r)), Answer(target, ready, true, true, Some(Decisive(port, m, r, code)), false))
  }

  lemma AttemptPlays(st: State, port: Port, target: Model, source: Option<Model>)
    requires Rest(st.runtimes) && ReadyModel(st.runtimes) == Ok(source) && source != Some(target)
    ensures var (next, outcome) := Attempt(st, port, target, source);
            var (calls, answer) := Story(st.runtimes, port, |st.actions|, target);
            outcome.Ok? ==>
              && next.actions == st.actions + calls
              && ReadyModel(next.runtimes) == Ok(answer.ready) && outcome.value == answer.failureCode
  {
    hide Goes, Explained, Transition, Blank, Do, Move, CleanupFailed, SwitchOnce, RecordFailure, CleanupRefusal, FallBack;
    hide Played, Agreed, Decisive;
    AttemptGoes(st, port, target, source);
    OncePlays(st, port, target, source);
    PlayedEnds(port, |st.actions|, Ahead(st.runtimes, target));
    if source.None? {
      LoadGoes(st, port, target);
    } else {
      UnloadGoes(st, port, target);
    }
    var n := Calls(st.runtimes, target) + if source.None? then 0 else 1;
    var (tried, flow) := SwitchOnce(st, port, target, source);
    GoesExplained(st, tried, n, !flow.Broken? && Clear(flow));
    if flow.Refusal? {
      RecordGoes(tried, target, flow);
      RecordCallsNothing(tried, flow.model, flow.failure);
      var (noted, noting) := RecordFailure(tried, flow.model, flow.failure);
      if Clear(flow) && target.Large? && flow.model == target {
        GoesExplained(tried, noted, 0, true);
        FallBackPlays(noted, port, flow.failure.code);
        FallBackGoes(noted, port, flow.failure.code);
        SameBack(st.runtimes, noted.runtimes, port, |noted.actions|, flow.failure.code);
      }
    }
  }

  lemma SameBack(r: Runtimes, q: Runtimes, port: Port, n: nat, code: Text)
    requires r.small.state.Failed? <==> q.small.state.Failed?
    ensures Back(r) == Back(q) && Decisive(port, n, r, code) == Decisive(port, n, q, code)
  {
  }

  /**
   * A switch from rest under a key that is not remembered, unless a refusal without a message makes it raise: a target that
   * is ready already, or a drain that times out, costs no call; otherwise the calls are those of the story and so is the
   * answer. In it the target is brought up after the ready runtime has been stopped, and a large model that could not be
   * brought up is stopped and the small one brought up in its place.
   */
  lemma SwitchTellsStory(c: Coordinator, port: Port, r: Request)
    requires Rest(c.state.runtimes)
    requires r.key.Some? ==> forall i :: 0 <= i < |c.results| ==> c.results[i].key != r.key.value
    ensures var (next, response) := Switch(c, port, r);
            var ready := Get(c.state.runtimes, r.target).state.Ready?;
            var other := Get(c.state.runtimes, Other(r.target)).state.Ready?;
            var (calls, answer) := Story(c.state.runtimes, port, |c.state.actions|, r.target);
            && (ready ==> next.state == c.state && response == Answered(Answer(r.target, Some(r.target), false, false, None, false)))
            && (!ready && !r.drains ==>
                  && next.state == c.state
                  && response == Answered(Answer(r.target, if other then Some(Other(r.target)) else None, false, false,
                                                 Some("MODEL_SWITCH_DRAIN_TIMEOUT"), false)))
            && (!ready && r.drains && !response.Raised? ==>
                  next.state.actions == c.state.actions + calls && response == Answered(answer))
  {
    hide Attempt, Find, Story, Explained;
    if r.key.Some? {
      FindNone(c.results, r.key.value);
    }
    var source := ReadyModel(c.state.runtimes).value;
    if source != Some(r.target) {
      AttemptPlays(c.state, port, r.target, source);
      StoryAnswers(c.state.runtimes, port, |c.state.actions|, r.target);
    }
  }

  lemma StoryAnswers(r: Runtimes, port: Port, n: nat, target: Model)
    ensures var answer := Story(r, port, n, target).1;
            answer == Answer(target, answer.ready, true, answer.failureCode.Some?, answer.failureCode, false)
  {
  }

  /**
   * The large model is refused its start or its health check: the next call stops it; if that succeeds the small one is
   * stopped if it is failed, started and checked, up to a refusal; the small one is ready exactly if all of these succeed; and
   * the code is that of a refusal among the small one's calls, or else that of the large one's.
   */
  lemma LargeRefused(c: Coordinator, port: Port, r: Request, i: nat)
    requires Rest(c.state.runtimes) && r.key.None? && r.target.Large? && r.drains && !c.state.runtimes.large.state.Ready?
    requires var (next, response) := Switch(c, port, r);
             && response.Answered? && |c.state.actions| <= i < |next.state.actions|
             && next.state.actions[i].model.Large? && !next.state.actions[i].verb.Stop?
             && next.state.actions[i].reply.Refused?
    ensures var (next, response) := Switch(c, port, r);
            var refused, calls := next.state.actions[i], next.state.actions[i + 1..];
            var small := if c.state.runtimes.small.state.Failed? then [Stop, Start, Health] else [Start, Health];
            && BringsUpSmall(calls, small)
            && response.answer.requested == Large && response.answer.degraded && response.answer.changed
            && response.answer.ready == (if AllDone(calls, 1 + |small|) then Some(Small) else None)
            && response.answer.failureCode == Some(
                 if |calls| == 1 || AllDone(calls, 1 + |small|) then refused.reply.failure.code
                 else calls[|calls| - 1].reply.failure.code)
  {
    hide Switch, Story, Agreed, Played, Ahead, Back, Decisive, BringsUpSmall;
    SwitchTellsStory(c, port, r);
    var n := |c.state.actions|;
    var calls := Switch(c, port, r).0.state.actions;
    RefusedInStory(c.state.runtimes, port, n, i - n);
    var second := Played(port, i + 1, Back(c.state.runtimes));
    StoryTail(c.state.actions, Story(c.state.runtimes, port, n, Large).0, i + 1);
    SmallBroughtUp(c.state.runtimes, port, i + 1);
    DecisiveIs(port, i + 1, c.state.runtimes, calls[i].reply.failure.code);
    assert calls[i + 1..] == second;
  }

  lemma StoryTail(before: seq<Action>, calls: seq<Action>, i: nat)
    requires |before| <= i <= |before + calls|
    ensures (before + calls)[i..] == calls[i - |before|..]
  {
  }

  /** Stop the large model, then the verbs of the small one, up to the first refusal. */
  predicate BringsUpSmall(calls: seq<Action>, small: seq<Verb>) {
    && 1 <= |calls| <= 1 + |small|
    && calls[0].verb == Stop && calls[0].model == Large
    && (forall k :: 1 <= k < |calls| ==> calls[k].model == Small && calls[k].verb == small[k - 1])
    && (forall k :: 0 <= k < |calls| - 1 ==> calls[k].reply.Done?)
    && (|calls| < 1 + |small| ==> calls[|calls| - 1].reply.Refused?)
  }

  predicate AllDone(calls: seq<Action>, n: nat) {
    |calls| == n && (n > 0 ==> calls[n - 1].reply.Done?)
  }

  lemma SmallBroughtUp(r: Runtimes, port: Port, m: nat)
    ensures var second := Played(port, m, Back(r));
            var small := if r.small.state.Failed? then [Stop, Start, Health] else [Start, Health];
            && BringsUpSmall(second, small) && second != []
            && (Agreed(port, m, Back(r)) <==> AllDone(second, 1 + |small|))
            && (Agreed(port, m, Back(r)) <==> second[|second| - 1].reply.Done?)
  {
    hide Agreed, Played, Back;
    PlayedAt(port, m, Back(r));
    PlayedEnds(port, m, Back(r));
    BackCalls(r, if r.small.state.Failed? then [Stop, Start, Health] else [Start, Health]);
  }

  lemma DecisiveIs(port: Port, m: nat, r: Runtimes, first: Text)
    ensures var second := Played(port, m, Back(r));
            Decisive(port, m, r, first) ==
            if |second| <= 1 || second[|second| - 1].reply.Done? then first else second[|second| - 1].reply.failure.code
  {
  }

  lemma BackCalls(r: Runtimes, small: seq<Verb>)
    requires small == if r.small.state.Failed? then [Stop, Start, Health] else [Start, Health]
    ensures |Back(r)| == 1 + |small| && Back(r)[0] == Wanted(Stop, Large)
    ensures forall k :: 1 <= k < |Back(r)| ==> Back(r)[k] == Wanted(small[k - 1], Small)
  {
  }

  lemma AheadCalls(r: Runtimes, target: Model)
    ensures forall k :: 0 <= k < |Ahead(r, target)| ==>
              Ahead(r, target)[k].model == target || Ahead(r, target)[k].verb == Stop
  {
  }

  /** A refused start or check of the large model is the last call before the fallback. */
  lemma RefusedInStory(r: Runtimes, port: Port, n: nat, i: nat)
    requires i < |Story(r, port, n, Large).0|
    requires var call := Story(r, port, n, Large).0[i]; call.model.Large? && !call.verb.Stop? && call.reply.Refused?
    ensures var (calls, answer) := Story(r, port, n, Large);
            var second := Played(port, n + i + 1, Back(r));
            && |calls| == i + 1 + |second| && calls[i + 1..] == second
            && answer == Answer(Large, if Agreed(port, n + i + 1, Back(r)) then Some(Small) else None, true, true,
                                Some(Decisive(port, n + i + 1, r, calls[i].reply.failure.code)), false)
  {
    hide Agreed, Played, Ahead, Back, Decisive;
    var first := Played(port, n, Ahead(r, Large));
    PlayedAt(port, n, Ahead(r, Large));
    PlayedEnds(port, n, Ahead(r, Large));
    AheadCalls(r, Large);
    SmallBroughtUp(r, port, n + |first|);
  }

  /** The calls follow the plan, and all but the last are answered with success. */
  lemma {:induction false} PlayedAt(port: Port, n: nat, plan: seq<Wanted>)
    ensures var calls := Played(port, n, plan);
            && |calls| <= |plan|
            && (forall k :: 0 <= k < |calls| ==> calls[k] == Action(plan[k].verb, plan[k].model, port(n + k)))
            && (forall k :: 0 <= k < |calls| - 1 ==> calls[k].reply.Done?)
    decreases |plan|
  {
    if plan != [] {
      PlayedAt(port, n + 1, plan[1..]);
    }
  }
}
