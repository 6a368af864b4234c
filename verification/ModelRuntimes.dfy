/**
 * One model runtime: a version, a lifecycle state and the history of its transitions.
 */
module ModelRuntimes {
  import opened WhiteSpace

  datatype Option<+T> = None | Some(value: T)

  datatype Result<+T, +E> = Ok(value: T) | Err(error: E)

  /** Error codes and evidence paths are never empty: the port's error type refuses to be built without them. */
  type Text = s: string | s != "" witness "x"

  datatype Lifecycle = Unloaded | Loading | HealthChecking | Ready | Draining | Unloading | Failed

  datatype Failure = Failure(message: string, code: Text, evidence: Text)

  datatype Event = Event(source: Lifecycle, target: Lifecycle, version: nat, reason: string, failure: Option<Failure>)

  datatype Runtime = Runtime(state: Lifecycle, version: nat, events: seq<Event>)

  datatype Error = OptimisticLock | InvalidTransition | ReasonRequired | EvidenceRequired | EvidenceUnexpected
                 | MultipleReady | NoFailureEvidence

  const FRESH := Runtime(Unloaded, 0, [])

  predicate Allowed(source: Lifecycle, target: Lifecycle) {
    match source
    case Unloaded => target.Loading?
    case Loading => target.HealthChecking? || target.Failed?
    case HealthChecking => target.Ready? || target.Failed?
    case Ready => target.Draining? || target.Failed?
    case Draining => target.Unloading? || target.Failed?
    case Unloading => target.Unloaded? || target.Failed?
    case Failed => target.Unloading?
  }

  /** A reason that is empty once stripped. */
  predicate Blank(reason: string) {
    forall c :: c in reason ==> IsSpace(c)
  }

  function Transition(
    r: Runtime, target: Lifecycle, expected: nat, reason: string, failure: Option<Failure>): Result<Runtime, Error>
  {
    if expected != r.version then Err(OptimisticLock)
    else if !Allowed(r.state, target) then Err(InvalidTransition)
    else if Blank(reason) then Err(ReasonRequired)
    else if target.Failed? && failure.None? then Err(EvidenceRequired)
    else if !target.Failed? && failure.Some? then Err(EvidenceUnexpected)
    else Ok(Runtime(target, r.version + 1, r.events + [Event(r.state, target, r.version + 1, reason, failure)]))
  }

  /** The state before the i-th transition. */
  function Before(events: seq<Event>, i: nat): Lifecycle
    requires i <= |events|
  {
    if i == 0 then Unloaded else events[i - 1].target
  }

  /** Transition i is allowed, starts where the one before it ended and carries version i + 1. */
  predicate ExplainedAt(events: seq<Event>, i: nat)
    requires i < |events|
  {
    && events[i].version == i + 1
    && events[i].source == Before(events, i)
    && Allowed(events[i].source, events[i].target)
    && (events[i].failure.Some? <==> events[i].target.Failed?)
    && !Blank(events[i].reason)
  }

  /** The history explains the version and the state: versions 1, 2, ... without a gap, each step allowed. */
  predicate Explained(r: Runtime) {
    && r.version == |r.events|
    && r.state == Before(r.events, |r.events|)
    && forall i :: 0 <= i < |r.events| ==> ExplainedAt(r.events, i)
  }

  /** A transition either changes nothing or adds exactly one explained step, and a stale version is always refused. */
  lemma TransitionExplained(r: Runtime, target: Lifecycle, expected: nat, reason: string, failure: Option<Failure>)
    requires Explained(r)
    ensures var result := Transition(r, target, expected, reason, failure);
            result.Ok? ==> Explained(result.value) && result.value.state == target
                           && |result.value.events| == |r.events| + 1 && r.events <= result.value.events
                           && result.value.events[|r.events|].reason == reason
                           && result.value.events[|r.events|].failure == failure
    ensures Transition(r, target, expected, reason, failure).Ok? <==>
              expected == |r.events| && Allowed(r.state, target) && !Blank(reason)
              && (target.Failed? <==> failure.Some?)
  {
    hide Blank, Allowed;
    var result := Transition(r, target, expected, reason, failure);
    if result.Ok? {
      var events := result.value.events;
      forall i | 0 <= i < |events| ensures ExplainedAt(events, i) {
        if i < |r.events| {
          assert ExplainedAt(r.events, i);
        }
      }
    }
  }

  /** Only a runtime that has passed a health check can serve: every arrival in Ready comes straight from one. */
  lemma ReadyWasChecked(r: Runtime, i: nat)
    requires Explained(r) && i < |r.events| && r.events[i].target.Ready?
    ensures 2 <= i
    ensures r.events[i - 1].target.HealthChecking? && r.events[i - 2].target.Loading?
  {
    assert ExplainedAt(r.events, i) && r.events[i].source.HealthChecking?;
    assert ExplainedAt(r.events, i - 1);
  }
}
