/**
 * The switch coordinator as the object it is. Each method changes the runtimes in place and is proved to do what the
 * function of ModelSwitch with the same name says; an exception is a returned flow. A whole switch keeps the object's
 * invariant unless it raises.
 */
module ModelSwitchCoordinators {
  import opened ModelRuntimes
  import opened ModelSwitch

  class ModelSwitchCoordinator {
    const port: Port
    var runtimes: Runtimes
    var results: seq<Entry>
    // What has happened at the process port and to the runtimes so far.
    var actions: seq<Action>
    var seen: seq<Runtimes>

    function Contents(): State
      reads this
    {
      State(runtimes, actions, seen)
    }

    /** The cache holds at most 256 answers under distinct keys. */
    predicate Cached()
      reads this
    {
      |results| <= MAX_RESULTS && DistinctKeys(results)
    }

    /**
     * Between two switches: no runtime in transit, at most one occupied, their histories explain their states, and those
     * are true of the processes.
     */
    ghost predicate Valid()
      reads this
    {
      Cached() && Rest(runtimes) && Evident(Contents())
    }

    constructor (port: Port)
      ensures this.port == port && Contents() == START.state && results == START.results
      ensures Valid()
    {
      StartEvident();
      FreshExplained();
      this.port := port;
      runtimes, results, actions, seen := Runtimes(FRESH, FRESH), [], [], [];
    }

    method Transition(m: Model, to: Lifecycle, reason: string, failure: Option<Failure>) returns (flow: Flow)
      modifies this`runtimes, this`seen
      ensures (Contents(), flow) == Move(old(Contents()), m, to, reason, failure)
      ensures !flow.Refusal?
    {
      var current := Get(runtimes, m);
      var moved := ModelRuntimes.Transition(current, to, current.version, reason, failure);
      if moved.Err? {
        return Broken(moved.error);
      }
      runtimes := Set(runtimes, m, moved.value);
      seen := seen + [runtimes];
      flow := Continue;
    }

    method Invoke(verb: Verb, m: Model) returns (flow: Flow)
      modifies this`actions
      ensures (Contents(), flow) == ModelSwitch.Invoke(old(Contents()), port, verb, m)
      ensures !flow.Broken?
    {
      var reply := port(|actions|);
      actions := actions + [Action(verb, m, reply)];
      flow := if reply.Done? then Continue else Refusal(m, reply.failure);
    }

    method Unload(source: Model) returns (flow: Flow)
      modifies this
      ensures results == old(results)
      ensures (Contents(), flow) == Do(old(Contents()), port, source, UNLOAD)
    {
      hide Move, ModelSwitch.Invoke;
      ghost var u1, u2, u3 := UNLOAD[1..], UNLOAD[2..], UNLOAD[3..];
      assert u1[1..] == u2 && u2[1..] == u3 && u3[1..] == [];
      flow := Transition(source, Draining, "switch to", None);
      if !flow.Continue? { return; }
      assert Do(old(Contents()), port, source, UNLOAD) == Do(Contents(), port, source, u1);
      flow := Transition(source, Unloading, "new requests drained", None);
      if !flow.Continue? { return; }
      assert Do(old(Contents()), port, source, UNLOAD) == Do(Contents(), port, source, u2);
      flow := Invoke(Stop, source);
      if !flow.Continue? { return; }
      assert Do(old(Contents()), port, source, UNLOAD) == Do(Contents(), port, source, u3);
      flow := Transition(source, Unloaded, "owned runtime stopped", None);
      assert Do(Contents(), port, source, []) == (Contents(), Continue);
    }

    method Load(target: Model) returns (flow: Flow)
      modifies this
      ensures results == old(results)
      ensures (Contents(), flow) == Do(old(Contents()), port, target, LOAD)
    {
      hide Move, ModelSwitch.Invoke;
      ghost var l1, l2, l3, l4 := LOAD[1..], LOAD[2..], LOAD[3..], LOAD[4..];
      assert l1[1..] == l2 && l2[1..] == l3 && l3[1..] == l4 && l4[1..] == [];
      flow := Transition(target, Loading, "registered runtime start requested", None);
      if !flow.Continue? { return; }
      assert Do(old(Contents()), port, target, LOAD) == Do(Contents(), port, target, l1);
      flow := Invoke(Start, target);
      if !flow.Continue? { return; }
      assert Do(old(Contents()), port, target, LOAD) == Do(Contents(), port, target, l2);
      flow := Transition(target, HealthChecking, "runtime process started", None);
      if !flow.Continue? { return; }
      assert Do(old(Contents()), port, target, LOAD) == Do(Contents(), port, target, l3);
      flow := Invoke(Health, target);
      if !flow.Continue? { return; }
      assert Do(old(Contents()), port, target, LOAD) == Do(Contents(), port, target, l4);
      flow := Transition(target, Ready, "runtime health check passed", None);
      assert Do(Contents(), port, target, []) == (Contents(), Continue);
    }

    method CleanupFailed(m: Model) returns (flow: Flow, cleaned: bool)
      modifies this
      ensures results == old(results)
      ensures (Contents(), flow, cleaned) == ModelSwitch.CleanupFailed(old(Contents()), port, m)
    {
      hide Move, ModelSwitch.Invoke;
      var state := Get(runtimes, m).state;
      if !state.Failed? {
        return Continue, state.Unloaded?;
      }
      ghost var c1 := CLEANUP[1..];
      assert c1[1..] == [];
      flow := Transition(m, Unloading, "cleanup failed owned runtime", None);
      cleaned := false;
      if !flow.Continue? {
        assert Do(old(Contents()), port, m, CLEANUP) == (Contents(), flow);
        return;
      }
      assert Do(old(Contents()), port, m, CLEANUP) == Do(Contents(), port, m, c1);
      flow := Invoke(Stop, m);
      assert Do(Contents(), port, m, []) == (Contents(), Continue);
      assert Do(old(Contents()), port, m, CLEANUP) == (Contents(), flow);
      ghost var stopped, ending := Contents(), flow;
      if flow.Refusal? {
        flow := Transition(m, Failed, flow.failure.message, Some(flow.failure));
        assert (Contents(), flow) == FailWith(stopped, m, ending.failure);
        return;
      }
      flow := Transition(m, Unloaded, "failed runtime cleanup complete", None);
      cleaned := true;
    }

    method SwitchOnce(target: Model, source: Option<Model>) returns (flow: Flow)
      modifies this
      ensures results == old(results)
      ensures (Contents(), flow) == ModelSwitch.SwitchOnce(old(Contents()), port, target, source)
    {
      hide Move, ModelSwitch.Invoke, ModelSwitch.CleanupFailed, Do;
      flow := Continue;
      if source.Some? && source.value != target {
        flow := Unload(source.value);
        if !flow.Continue? { return; }
      }
      if Get(runtimes, target).state.Failed? {
        var cleaned;
        flow, cleaned := CleanupFailed(target);
        if !flow.Continue? { return; }
        if !cleaned {
          return CleanupRefusal(Contents(), target);
        }
      }
      flow := Load(target);
    }

    method RecordFailure(m: Model, failure: Failure) returns (flow: Flow)
      modifies this
      ensures results == old(results)
      ensures (Contents(), flow) == ModelSwitch.RecordFailure(old(Contents()), m, failure)
    {
      var state := Get(runtimes, m).state;
      flow := Continue;
      if state.Loading? || state.HealthChecking? || state.Draining? || state.Unloading? || state.Ready? {
        flow := Transition(m, Failed, failure.message, Some(failure));
      }
    }

    /** The part of a switch during which the barrier is held. */
    method Attempt(target: Model, source: Option<Model>) returns (outcome: Result<Option<Text>, Error>)
      modifies this
      ensures results == old(results)
      ensures (Contents(), outcome) == ModelSwitch.Attempt(old(Contents()), port, target, source)
    {
      hide Move, ModelSwitch.CleanupFailed, ModelSwitch.SwitchOnce, ModelSwitch.RecordFailure;
      var flow := SwitchOnce(target, source);
      if flow.Continue? {
        return Ok(None);
      }
      if flow.Broken? {
        return Err(flow.error);
      }
      var failure := flow.failure;
      var noting := RecordFailure(flow.model, failure);
      if noting.Broken? {
        return Err(noting.error);
      }
      if !target.Large? || flow.model != target {
        return Ok(Some(failure.code));
      }
      var cleaning, cleaned := CleanupFailed(target);
      if cleaning.Broken? {
        return Err(cleaning.error);
      }
      if !cleaned {
        return Ok(Some(failure.code));
      }
      flow := SwitchOnce(Small, None);
      if flow.Broken? {
        return Err(flow.error);
      }
      if flow.Refusal? {
        noting := RecordFailure(flow.model, flow.failure);
        return if noting.Broken? then Err(noting.error) else Ok(Some(flow.failure.code));
      }
      outcome := Ok(Some(failure.code));
    }

    /** Append an answer and drop the oldest ones beyond the limit. */
    method CacheResult(key: Option<Key>, answer: Answer)
      requires |results| <= MAX_RESULTS
      modifies this`results
      ensures results == Newest(old(results) + Memo(key, answer))
    {
      results := results + Memo(key, answer);
      ghost var all := results;
      while |results| > MAX_RESULTS
        invariant |results| <= |all| && results == all[|all| - |results|..]
        invariant |all| > MAX_RESULTS ==> |results| >= MAX_RESULTS
        invariant |all| <= MAX_RESULTS ==> results == all
      {
        results := results[1..];
      }
    }

    /** What a switch keeps, for the object's fields. */
    lemma Kept(c: Coordinator, r: Request)
      requires |c.results| <= MAX_RESULTS && DistinctKeys(c.results)
      ensures var (next, response) := ModelSwitch.Switch(c, port, r);
              && |next.results| <= MAX_RESULTS && DistinctKeys(next.results)
              && (Rest(c.state.runtimes) && Evident(c.state) ==>
                    && Evident(next.state) && (Rest(next.state.runtimes) <==> !response.Raised?)
                    && Goes(c.state, next.state, 7, !response.Raised?)
                    && (response.Raised? ==> response.error.ReasonRequired? && next.results == c.results))
    {
      hide ModelSwitch.Switch, Rest, Evident, Goes;
      CacheStep(c, port, r, c.results);
      if Rest(c.state.runtimes) && Evident(c.state) {
        SwitchKeeps(c, port, r);
        SwitchEvident(c, port, r);
      }
    }

    /**
     * `drains` tells whether the barrier drained in time, had it been asked to. A switch keeps the invariant exactly if it
     * does not raise; one that raises still keeps the cache as it was, the histories and what they say of the processes.
     */
    method Switch(r: Request) returns (response: Response)
      requires Cached()
      modifies this
      ensures (Coordinator(Contents(), results), response) ==
              ModelSwitch.Switch(Coordinator(old(Contents()), old(results)), port, r)
      ensures Cached()
      ensures old(Valid()) ==> (Valid() <==> !response.Raised?)
      ensures old(Valid()) ==> Evident(Contents()) && Goes(old(Contents()), Contents(), 7, !response.Raised?)
      ensures old(Valid()) && response.Raised? ==> response.error.ReasonRequired? && results == old(results)
    {
      hide ModelSwitch.Attempt, Find, Evident, Goes, Rest, DistinctKeys;
      Kept(Coordinator(Contents(), results), r);
      if r.key.Some? {
        var prior := Find(results, r.key.value);
        if prior.Some? {
          if prior.value.requested != r.target {
            return Conflict;
          }
          return Answered(prior.value.(replayed := true));
        }
      }
      var ready := ReadyModel(runtimes);
      if ready.Err? {
        return Raised(ready.error);
      }
      var answer: Answer;
      if ready.value == Some(r.target) {
        answer := Answer(r.target, ready.value, false, false, None, false);
      } else if !r.drains {
        answer := Answer(r.target, ready.value, false, false, Some(DRAIN_TIMEOUT), false);
      } else {
        var outcome := Attempt(r.target, ready.value);
        if outcome.Err? {
          return Raised(outcome.error);
        }
        var now := ReadyModel(runtimes);
        if now.Err? {
          return Raised(now.error);
        }
        answer := Answer(r.target, now.value, true, outcome.value.Some?, outcome.value, false);
      }
      CacheResult(r.key, answer);
      response := Answered(answer);
    }
  }
}
