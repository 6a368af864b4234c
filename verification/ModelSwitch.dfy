/**
 * The exclusive-GPU model switch: drain, unload the ready runtime, load and check the requested one, fall back to the
 * small model when the large one cannot be loaded, and remember the answers of the last 256 keyed requests.
 */
module ModelSwitch {
  import opened ModelRuntimes
  import opened WhiteSpace

  type Key(==)

  datatype Model = Small | Large

  datatype Runtimes = Runtimes(small: Runtime, large: Runtime)

  datatype Verb = Start | Health | Stop

  datatype Reply = Done | Refused(failure: Failure)

  datatype Action = Action(verb: Verb, model: Model, reply: Reply)

  /** How the process port answers its n-th call. */
  type Port = nat -> Reply

  /** The runtimes, the calls made to the process port, and the pair of runtimes after every recorded transition. */
  datatype State = State(runtimes: Runtimes, actions: seq<Action>, seen: seq<Runtimes>)

  /** How a step ends: the next one follows, the port refused a call, or an exception the switch does not handle. */
  datatype Flow = Continue | Refusal(model: Model, failure: Failure) | Broken(error: Error)

  datatype Answer = Answer(
    requested: Model, ready: Option<Model>, changed: bool, degraded: bool, failureCode: Option<Text>, replayed: bool)

  datatype Response = Answered(answer: Answer) | Conflict | Raised(error: Error)

  function Get(r: Runtimes, m: Model): Runtime {
    if m.Small? then r.small else r.large
  }

  function Set(r: Runtimes, m: Model, value: Runtime): Runtimes {
    if m.Small? then r.(small := value) else r.(large := value)
  }

  // -------------------------------------------------------------------------
  // The pieces of a switch
  // -------------------------------------------------------------------------

  function Move(st: State, m: Model, to: Lifecycle, reason: string, failure: Option<Failure>): (State, Flow) {
    var current := Get(st.runtimes, m);
    match Transition(current, to, current.version, reason, failure)
    case Ok(next) =>
      var runtimes := Set(st.runtimes, m, next);
      (st.(runtimes := runtimes, seen := st.seen + [runtimes]), Continue)
    case Err(error) => (st, Broken(error))
  }

  function Invoke(st: State, port: Port, verb: Verb, m: Model): (State, Flow) {
    var reply := port(|st.actions|);
    (st.(actions := st.actions + [Action(verb, m, reply)]),
     if reply.Done? then Continue else Refusal(m, reply.failure))
  }

  datatype Command = Record(to: Lifecycle, reason: string) | Call(verb: Verb)

  function Perform(st: State, port: Port, m: Model, c: Command): (State, Flow) {
    match c
    case Record(to, reason) => Move(st, m, to, reason, None)
    case Call(verb) => Invoke(st, port, verb, m)
  }

  /** Carry out commands on one runtime until one of them does not simply continue. */
  function Do(st: State, port: Port, m: Model, commands: seq<Command>): (State, Flow)
    decreases |commands|
  {
    if commands == [] then (st, Continue)
    else
      var (next, flow) := Perform(st, port, m, commands[0]);
      if flow.Continue? then Do(next, port, m, commands[1..]) else (next, flow)
  }

  const UNLOAD := [
    Record(Draining, "switch to"), Record(Unloading, "new requests drained"), Call(Stop),
    Record(Unloaded, "owned runtime stopped")]

  const LOAD := [
    Record(Loading, "registered runtime start requested"), Call(Start),
    Record(HealthChecking, "runtime process started"), Call(Health), Record(Ready, "runtime health check passed")]

  const CLEANUP := [Record(Unloading, "cleanup failed owned runtime"), Call(Stop)]

  const NOT_CLEANED := "failed target runtime " + "cleanup did not complete"

  function FailWith(st: State, m: Model, failure: Failure): (State, Flow) {
    Move(st, m, Failed, failure.message, Some(failure))
  }

  /** Stop a failed runtime; the flag tells whether it is unloaded afterwards. */
  function CleanupFailed(st: State, port: Port, m: Model): (State, Flow, bool) {
    var state := Get(st.runtimes, m).state;
    if !state.Failed? then (st, Continue, state.Unloaded?)
    else
      var (stopped, flow) := Do(st, port, m, CLEANUP);
      match flow
      case Continue =>
        var (clean, last) := Move(stopped, m, Unloaded, "failed runtime cleanup complete", None);
        (clean, last, true)
      case Refusal(_, failure) =>
        var (failed, last) := FailWith(stopped, m, failure);
        (failed, last, false)
      case Broken(_) => (stopped, flow, false)
  }

  /** The failure with which a target that could not be cleaned up gives up. */
  function CleanupRefusal(st: State, m: Model): Flow {
    var events := Get(st.runtimes, m).events;
    if events != [] && events[|events| - 1].failure.Some? then
      Refusal(m, events[|events| - 1].failure.value.(message := NOT_CLEANED))
    else Broken(NoFailureEvidence)
  }

  function SwitchOnce(st: State, port: Port, target: Model, source: Option<Model>): (State, Flow) {
    var (free, flow) := if source.Some? && source.value != target then Do(st, port, source.value, UNLOAD) else (st, Continue);
    if !flow.Continue? then (free, flow)
    else
      var (clean, cleaning, cleaned) :=
        if Get(free.runtimes, target).state.Failed? then CleanupFailed(free, port, target) else (free, Continue, true);
      if !cleaning.Continue? then (clean, cleaning)
      else if !cleaned then (clean, CleanupRefusal(clean, target))
      else Do(clean, port, target, LOAD)
  }

  function RecordFailure(st: State, m: Model, failure: Failure): (State, Flow) {
    var state := Get(st.runtimes, m).state;
    if state.Unloaded? || state.Failed? then (st, Continue) else FailWith(st, m, failure)
  }

  /** The part of a switch between begin_switch and end_switch; its failure code, if it is not interrupted. */
  function Attempt(st: State, port: Port, target: Model, source: Option<Model>): (State, Result<Option<Text>, Error>) {
    var (tried, flow) := SwitchOnce(st, port, target, source);
    match flow
    case Continue => (tried, Ok(None))
    case Broken(error) => (tried, Err(error))
    case Refusal(m, failure) =>
      var (noted, noting) := RecordFailure(tried, m, failure);
      if noting.Broken? then (noted, Err(noting.error))
      else if !target.Large? || m != target then (noted, Ok(Some(failure.code)))
      else FallBack(noted, port, target, failure.code)
  }

  /** The large model could not be loaded: clean it up and load the small one. */
  function FallBack(st: State, port: Port, target: Model, code: Text): (State, Result<Option<Text>, Error>) {
    var (clean, cleaning, cleaned) := CleanupFailed(st, port, target);
    if cleaning.Broken? then (clean, Err(cleaning.error))
    else if !cleaned then (clean, Ok(Some(code)))
    else
      var (fallen, flow) := SwitchOnce(clean, port, Small, None);
      match flow
      case Continue => (fallen, Ok(Some(code)))
      case Broken(error) => (fallen, Err(error))
      case Refusal(m, failure) =>
        var (noted, noting) := RecordFailure(fallen, m, failure);
        (noted, if noting.Broken? then Err(noting.error) else Ok(Some(failure.code)))
  }

  // -------------------------------------------------------------------------
  // The whole switch
  // -------------------------------------------------------------------------

  datatype Entry = Entry(key: Key, answer: Answer)

  datatype Coordinator = Coordinator(state: State, results: seq<Entry>)

  datatype Request = Request(target: Model, key: Option<Key>, drains: bool)

  const MAX_RESULTS := 256

  const DRAIN_TIMEOUT: Text := "MODEL_SWITCH_DRAIN_TIMEOUT"

  function ReadyModel(r: Runtimes): Result<Option<Model>, Error> {
    if r.small.state.Ready? && r.large.state.Ready? then Err(MultipleReady)
    else Ok(if r.small.state.Ready? then Some(Small) else if r.large.state.Ready? then Some(Large) else None)
  }

  /** The remembered answer for a key. */
  function Find(results: seq<Entry>, key: Key): Option<Answer> {
    if results == [] then None
    else if results[0].key == key then Some(results[0].answer)
    else Find(results[1..], key)
  }

  /** The newest 256 entries. */
  function Newest(entries: seq<Entry>): seq<Entry> {
    if |entries| <= MAX_RESULTS then entries else entries[|entries| - MAX_RESULTS..]
  }

  /** The entry a fresh answer leaves behind. */
  function Memo(key: Option<Key>, answer: Answer): seq<Entry> {
    if key.None? then [] else [Entry(key.value, answer)]
  }

  /** The answer under a key that is not remembered, with the state it leaves. */
  function Decide(st: State, port: Port, r: Request): (State, Result<Answer, Error>) {
    match ReadyModel(st.runtimes)
    case Err(error) => (st, Err(error))
    case Ok(ready) =>
      if ready == Some(r.target) then (st, Ok(Answer(r.target, ready, false, false, None, false)))
      else if !r.drains then (st, Ok(Answer(r.target, ready, false, false, Some(DRAIN_TIMEOUT), false)))
      else
        var (next, outcome) := Attempt(st, port, r.target, ready);
        match outcome
        case Err(error) => (next, Err(error))
        case Ok(code) =>
          match ReadyModel(next.runtimes)
          case Err(error) => (next, Err(error))
          case Ok(now) => (next, Ok(Answer(r.target, now, true, code.Some?, code, false)))
  }

  function Switch(c: Coordinator, port: Port, r: Request): (Coordinator, Response) {
    var remembered := if r.key.None? then None else Find(c.results, r.key.value);
    if remembered.Some? then
      (c, if remembered.value.requested != r.target then Conflict
          else Answered(remembered.value.(replayed := true)))
    else
      var (next, decision) := Decide(c.state, port, r);
      match decision
      case Err(error) => (Coordinator(next, c.results), Raised(error))
      case Ok(answer) => (Coordinator(next, Newest(c.results + Memo(r.key, answer))), Answered(answer))
  }

  // -------------------------------------------------------------------------
  // What a switch keeps
  // -------------------------------------------------------------------------

  predicate AtRest(s: Lifecycle) {
    s.Unloaded? || s.Ready? || s.Failed?
  }

  predicate Off(s: Lifecycle) {
    s.Unloaded? || s.Failed?
  }

  /** At most one runtime is recorded as occupying the GPU. */
  predicate Exclusive(r: Runtimes) {
    Off(r.small.state) || Off(r.large.state)
  }

  ghost predicate AllExplained(r: Runtimes) {
    Explained(r.small) && Explained(r.large)
  }

  /** Between two switches. */
  ghost predicate Rest(r: Runtimes) {
    AllExplained(r) && Exclusive(r) && AtRest(r.small.state) && AtRest(r.large.state)
  }

  function Other(m: Model): Model {
    if m.Small? then Large else Small
  }

  /** Every refusal among the calls says why. */
  predicate Spoken(actions: seq<Action>) {
    forall i :: 0 <= i < |actions| && actions[i].reply.Refused? ==> !Blank(actions[i].reply.failure.message)
  }

  /**
   * `next` follows `st`: at most `calls` further port calls, every refusal among them spoken exactly when `spoken`, and
   * never two occupied runtimes on the way.
   */
  ghost predicate Goes(st: State, next: State, calls: nat, spoken: bool) {
    && AllExplained(next.runtimes)
    && |st.actions| <= |next.actions| <= |st.actions| + calls
    && next.actions[..|st.actions|] == st.actions
    && (Spoken(next.actions[|st.actions|..]) <==> spoken)
    && |st.seen| <= |next.seen|
    && next.seen[..|st.seen|] == st.seen
    && forall i :: |st.seen| <= i < |next.seen| ==> Exclusive(next.seen[i])
  }

  lemma Stays(st: State)
    requires AllExplained(st.runtimes)
    ensures Goes(st, st, 0, true)
  {
  }

  lemma Then(st: State, mid: State, next: State, n: nat, k: nat, p: bool, q: bool)
    requires Goes(st, mid, n, p) && Goes(mid, next, k, q)
    ensures Goes(st, next, n + k, p && q)
  {
    var a, b := mid.actions[|st.actions|..], next.actions[|mid.actions|..];
    assert next.actions[|st.actions|..] == a + b;
    assert Spoken(a + b) <==> Spoken(a) && Spoken(b) by {
      SpokenParts(a, b);
    }
    assert next.actions[..|st.actions|] == next.actions[..|mid.actions|][..|st.actions|];
    assert next.seen[..|st.seen|] == next.seen[..|mid.seen|][..|st.seen|];
    forall i | |st.seen| <= i < |next.seen| ensures Exclusive(next.seen[i]) {
      if i < |mid.seen| {
        assert next.seen[i] == next.seen[..|mid.seen|][i];
      }
    }
  }

  lemma SpokenParts(a: seq<Action>, b: seq<Action>)
    ensures Spoken(a + b) <==> Spoken(a) && Spoken(b)
  {
    if Spoken(a + b) {
      assert forall i :: 0 <= i < |a| ==> (a + b)[i] == a[i];
      assert forall i :: 0 <= i < |b| ==> (a + b)[|a| + i] == b[i];
    }
  }

  lemma MoveGoes(st: State, m: Model, to: Lifecycle, reason: string, failure: Option<Failure>)
    requires AllExplained(st.runtimes) && Allowed(Get(st.runtimes, m).state, to)
    requires Off(to) || Off(Get(st.runtimes, Other(m)).state)
    requires to.Failed? <==> failure.Some?
    ensures var (next, flow) := Move(st, m, to, reason, failure);
            if Blank(reason) then next == st && flow == Broken(ReasonRequired)
            else
              && flow.Continue? && Goes(st, next, 0, true)
              && Get(next.runtimes, m).state == to
              && Get(next.runtimes, m).events != []
              && Get(next.runtimes, m).events[|Get(next.runtimes, m).events| - 1].failure == failure
              && Get(next.runtimes, Other(m)) == Get(st.runtimes, Other(m))
              && next.actions == st.actions
  {
    hide Blank, Explained, Allowed;
    TransitionExplained(Get(st.runtimes, m), to, Get(st.runtimes, m).version, reason, failure);
  }

  lemma InvokeGoes(st: State, port: Port, verb: Verb, m: Model)
    requires AllExplained(st.runtimes)
    ensures var (next, flow) := Invoke(st, port, verb, m);
            && next.runtimes == st.runtimes && !flow.Broken?
            && (flow.Refusal? ==> flow.model == m)
            && Goes(st, next, 1, flow.Refusal? ==> !Blank(flow.failure.message))
            && (flow.Continue? <==> LastCallDone(next))
  {
    var (next, flow) := Invoke(st, port, verb, m);
    var added := next.actions[|st.actions|..];
    assert added == [Action(verb, m, port(|st.actions|))];
    assert Spoken(added) <==> (added[0].reply.Refused? ==> !Blank(added[0].reply.failure.message));
  }

  /** The message of a refusal decides whether recording it can fail. */
  predicate Clear(flow: Flow) {
    flow.Refusal? ==> !Blank(flow.failure.message)
  }

  /** A plan the lifecycle allows from a state, ending in `last`, whose `calls` calls are made while in transit. */
  predicate Plan(state: Lifecycle, commands: seq<Command>, calls: nat, last: Lifecycle)
    decreases |commands|
  {
    if commands == [] then state == last && calls == 0
    else match commands[0]
      case Record(to, reason) =>
        Allowed(state, to) && !to.Failed? && !Blank(reason) && Plan(to, commands[1..], calls, last)
      case Call(_) => !AtRest(state) && calls > 0 && Plan(state, commands[1..], calls - 1, last)
  }

  lemma LoadPlan()
    ensures Plan(Unloaded, LOAD, 2, Ready)
  {
    hide Blank;
    Worded(LOAD[0].reason, 'r');
    Worded(LOAD[2].reason, 'r');
    Worded(LOAD[4].reason, 'r');
    var l1, l2, l3, l4 := LOAD[1..], LOAD[2..], LOAD[3..], LOAD[4..];
    assert l4[1..] == [] && l3[1..] == l4 && l2[1..] == l3 && l1[1..] == l2;
    assert Plan(HealthChecking, l4, 0, Ready);
    assert Plan(HealthChecking, l3, 1, Ready);
    assert Plan(Loading, l1, 2, Ready);
  }

  lemma UnloadPlan()
    ensures Plan(Ready, UNLOAD, 1, Unloaded)
  {
    hide Blank;
    Worded(UNLOAD[0].reason, 's');
    Worded(UNLOAD[1].reason, 'n');
    Worded(UNLOAD[3].reason, 'o');
    var u1, u2, u3 := UNLOAD[1..], UNLOAD[2..], UNLOAD[3..];
    assert u3[1..] == [] && u2[1..] == u3 && u1[1..] == u2;
    assert Plan(Unloading, u3, 0, Unloaded);
    assert Plan(Unloading, u2, 1, Unloaded);
  }

  lemma CleanupPlan()
    ensures Plan(Failed, CLEANUP, 1, Unloading)
  {
    hide Blank;
    Worded(CLEANUP[0].reason, 'c');
    var c1 := CLEANUP[1..];
    assert c1[1..] == [];
    assert Plan(Unloading, c1, 1, Unloading);
  }

  lemma Worded(reason: string, first: char)
    requires reason != "" && reason[0] == first && !IsSpace(first)
    ensures !Blank(reason)
  {
    assert reason[0] in reason;
  }

  predicate LastCallDone(st: State) {
    st.actions != [] && st.actions[|st.actions| - 1].reply.Done?
  }

  /** What a plan does, whatever the port answers, while the other runtime is off. */
  lemma {:induction false} DoGoes(
    st: State, port: Port, m: Model, commands: seq<Command>, calls: nat, last: Lifecycle)
    requires AllExplained(st.runtimes) && Off(Get(st.runtimes, Other(m)).state)
    requires Plan(Get(st.runtimes, m).state, commands, calls, last)
    ensures var (next, flow) := Do(st, port, m, commands);
            && !flow.Broken? && Goes(st, next, calls, Clear(flow))
            && Get(next.runtimes, Other(m)) == Get(st.runtimes, Other(m))
            && (flow.Continue? ==> Get(next.runtimes, m).state == last)
            && (flow.Refusal? ==> flow.model == m && !AtRest(Get(next.runtimes, m).state) && !LastCallDone(next))
            && (flow.Continue? ==> if calls == 0 then next.actions == st.actions else LastCallDone(next))
    decreases |commands|
  {
    hide AllExplained, Goes, Transition, Blank;
    if commands == [] {
      Stays(st);
    } else {
      var (mid, flow) := Perform(st, port, m, commands[0]);
      match commands[0]
      case Record(to, reason) =>
        MoveGoes(st, m, to, reason, None);
        GoesExplained(st, mid, 0, true);
        DoGoes(mid, port, m, commands[1..], calls, last);
        var (next, ending) := Do(mid, port, m, commands[1..]);
        Then(st, mid, next, 0, calls, true, Clear(ending));
      case Call(verb) =>
        InvokeGoes(st, port, verb, m);
        if flow.Continue? {
          DoGoes(mid, port, m, commands[1..], calls - 1, last);
          var (next, ending) := Do(mid, port, m, commands[1..]);
          Then(st, mid, next, 1, calls - 1, true, Clear(ending));
        } else {
          AtMost(st, mid, 1, calls, Clear(flow));
        }
    }
  }

  lemma GoesExplained(st: State, next: State, n: nat, p: bool)
    requires Goes(st, next, n, p)
    ensures AllExplained(next.runtimes)
  {
  }

  lemma AtMost(st: State, next: State, n: nat, k: nat, p: bool)
    requires Goes(st, next, n, p) && n <= k
    ensures Goes(st, next, k, p)
  {
  }

  /** One runtime is off and the history explains both. */
  ghost predicate OtherOff(st: State, m: Model) {
    AllExplained(st.runtimes) && Off(Get(st.runtimes, Other(m)).state)
  }

  lemma CleanupGoes(st: State, port: Port, m: Model)
    requires OtherOff(st, m) && Get(st.runtimes, m).state.Failed?
    ensures var (next, flow, cleaned) := CleanupFailed(st, port, m);
            && Goes(st, next, 1, !flow.Broken?) && !flow.Refusal?
            && Get(next.runtimes, Other(m)) == Get(st.runtimes, Other(m))
            && (flow.Broken? ==> flow.error.ReasonRequired? && !AtRest(Get(next.runtimes, m).state))
            && (flow.Continue? ==> Get(next.runtimes, m).state == if cleaned then Unloaded else Failed)
            && (flow.Continue? && !cleaned ==> CleanupRefusal(next, m).Refusal?)
            && (flow.Continue? ==> (cleaned <==> LastCallDone(next)))
  {
    hide AllExplained, Goes, Transition, Blank, Do, Move;
    CleanupPlan();
    DoGoes(st, port, m, CLEANUP, 1, Unloading);
    var (stopped, flow) := Do(st, port, m, CLEANUP);
    GoesExplained(st, stopped, 1, Clear(flow));
    if flow.Continue? {
      Worded("failed runtime cleanup complete", 'f');
      MoveGoes(stopped, m, Unloaded, "failed runtime cleanup complete", None);
      var (next, _) := Move(stopped, m, Unloaded, "failed runtime cleanup complete", None);
      Then(st, stopped, next, 1, 0, true, true);
    } else {
      MoveGoes(stopped, m, Failed, flow.failure.message, Some(flow.failure));
      if !Blank(flow.failure.message) {
        var (next, _) := Move(stopped, m, Failed, flow.failure.message, Some(flow.failure));
        Then(st, stopped, next, 1, 0, true, true);
      }
    }
  }

  /** The calls a switch to `target` can need when no other runtime has to be unloaded first. */
  function Calls(r: Runtimes, target: Model): nat {
    if Get(r, target).state.Failed? then 3 else 2
  }

  /** Either the refused call left its runtime in transit, or the target is failed and the message is a fixed one. */
  predicate Recordable(st: State, target: Model, flow: Flow)
    requires flow.Refusal?
  {
    if AtRest(Get(st.runtimes, flow.model).state) then
      Get(st.runtimes, flow.model).state.Failed? && flow.model == target && Clear(flow)
    else Off(Get(st.runtimes, Other(flow.model)).state)
  }

  /** A switch with the target's rival off from the start. */
  lemma LoadGoes(st: State, port: Port, target: Model)
    requires OtherOff(st, target) && Off(Get(st.runtimes, target).state)
    ensures var (next, flow) := SwitchOnce(st, port, target, None);
            && Goes(st, next, Calls(st.runtimes, target), !flow.Broken? && Clear(flow))
            && Get(next.runtimes, Other(target)) == Get(st.runtimes, Other(target))
            && (flow.Continue? ==> Get(next.runtimes, target).state.Ready?)
            && (flow.Broken? ==> flow.error.ReasonRequired? && !AtRest(Get(next.runtimes, target).state))
            && (flow.Refusal? ==> flow.model == target && Recordable(next, target, flow) && !LastCallDone(next))
            && (flow.Continue? ==> LastCallDone(next))
  {
    hide AllExplained, Goes, Transition, Blank, Do, Move, CleanupFailed;
    LoadPlan();
    if Get(st.runtimes, target).state.Failed? {
      CleanupGoes(st, port, target);
      var (clean, cleaning, cleaned) := CleanupFailed(st, port, target);
      GoesExplained(st, clean, 1, !cleaning.Broken?);
      if cleaning.Continue? && cleaned {
        DoGoes(clean, port, target, LOAD, 2, Ready);
        var (next, flow) := Do(clean, port, target, LOAD);
        Then(st, clean, next, 1, 2, true, Clear(flow));
      } else {
        Worded(NOT_CLEANED, 'f');
        AtMost(st, clean, 1, 3, !cleaning.Broken?);
      }
    } else {
      DoGoes(st, port, target, LOAD, 2, Ready);
    }
  }

  /** A switch away from a ready runtime. */
  lemma UnloadGoes(st: State, port: Port, target: Model)
    requires AllExplained(st.runtimes) && Off(Get(st.runtimes, target).state)
    requires Get(st.runtimes, Other(target)).state.Ready?
    ensures var (next, flow) := SwitchOnce(st, port, target, Some(Other(target)));
            && Goes(st, next, 1 + Calls(st.runtimes, target), !flow.Broken? && Clear(flow))
            && (flow.Continue? ==> Get(next.runtimes, target).state.Ready?
                                   && Get(next.runtimes, Other(target)).state.Unloaded?)
            && (flow.Broken? ==> flow.error.ReasonRequired? && !AtRest(Get(next.runtimes, target).state))
            && (flow.Continue? ==> LastCallDone(next))
            && (flow.Refusal? ==> Recordable(next, target, flow) && !LastCallDone(next)
                                  && (flow.model == target ==> Get(next.runtimes, Other(target)).state.Unloaded?)
                                  && (flow.model != target ==> Off(Get(next.runtimes, target).state)
                                                               && !AtRest(Get(next.runtimes, flow.model).state)))
  {
    hide AllExplained, Goes, Transition, Blank, Do, Move, CleanupFailed;
    var source := Other(target);
    UnloadPlan();
    DoGoes(st, port, source, UNLOAD, 1, Unloaded);
    var (free, flow) := Do(st, port, source, UNLOAD);
    GoesExplained(st, free, 1, Clear(flow));
    if flow.Continue? {
      LoadGoes(free, port, target);
      var (next, ending) := SwitchOnce(free, port, target, None);
      Then(st, free, next, 1, Calls(free.runtimes, target), true, !ending.Broken? && Clear(ending));
    } else {
      AtMost(st, free, 1, 1 + Calls(st.runtimes, target), Clear(flow));
    }
  }

  lemma RecordGoes(st: State, target: Model, flow: Flow)
    requires AllExplained(st.runtimes) && flow.Refusal? && Recordable(st, target, flow)
    ensures var (next, noting) := RecordFailure(st, flow.model, flow.failure);
            if Clear(flow) then
              && noting.Continue? && Goes(st, next, 0, true) && next.actions == st.actions
              && Get(next.runtimes, flow.model).state.Failed?
              && Get(next.runtimes, Other(flow.model)) == Get(st.runtimes, Other(flow.model))
            else next == st && noting == Broken(ReasonRequired) && !AtRest(Get(st.runtimes, flow.model).state)
  {
    hide AllExplained, Goes, Transition, Blank, Move;
    if AtRest(Get(st.runtimes, flow.model).state) {
      Stays(st);
    } else {
      MoveGoes(st, flow.model, Failed, flow.failure.message, Some(flow.failure));
    }
  }

  lemma FallBackGoes(st: State, port: Port, code: Text)
    requires OtherOff(st, Large) && Get(st.runtimes, Large).state.Failed?
    ensures var (next, outcome) := FallBack(st, port, Large, code);
            && Goes(st, next, 1 + Calls(st.runtimes, Small), outcome.Ok?)
            && (outcome.Ok? <==> Rest(next.runtimes))
            && (outcome.Ok? ==> outcome.value.Some? && Off(next.runtimes.large.state))
            && (outcome.Ok? ==> (next.runtimes.small.state.Ready? <==> LastCallDone(next)))
            && (outcome.Err? ==> outcome.error.ReasonRequired?)
  {
    hide Goes, Explained, Transition, Blank, Do, Move, CleanupFailed, SwitchOnce, RecordFailure, CleanupRefusal;
    CleanupGoes(st, port, Large);
    var (clean, cleaning, cleaned) := CleanupFailed(st, port, Large);
    var n := Calls(st.runtimes, Small);
    GoesExplained(st, clean, 1, !cleaning.Broken?);
    AtMost(st, clean, 1, 1 + n, !cleaning.Broken?);
    if cleaning.Continue? && cleaned {
      LoadGoes(clean, port, Small);
      var (fallen, flow) := SwitchOnce(clean, port, Small, None);
      Then(st, clean, fallen, 1, n, true, !flow.Broken? && Clear(flow));
      GoesExplained(st, fallen, 1 + n, !flow.Broken? && Clear(flow));
      if flow.Refusal? {
        RecordGoes(fallen, Small, flow);
        var (next, noting) := RecordFailure(fallen, flow.model, flow.failure);
        if Clear(flow) {
          Then(st, fallen, next, 1 + n, 0, true, true);
          GoesExplained(st, next, 1 + n, true);
        }
      }
    }
  }

  /**
   * One attempt from rest, whatever the port answers: at most seven calls, never two occupied runtimes, no illegal or
   * stale transition, and back at rest exactly when every refusal came with a message.
   */
  lemma AttemptGoes(st: State, port: Port, target: Model, source: Option<Model>)
    requires Rest(st.runtimes) && ReadyModel(st.runtimes) == Ok(source) && source != Some(target)
    ensures var (next, outcome) := Attempt(st, port, target, source);
            && Goes(st, next, 7, outcome.Ok?)
            && (outcome.Ok? <==> Rest(next.runtimes))
            && (outcome.Ok? ==> (outcome.value.None? <==> Get(next.runtimes, target).state.Ready?))
            && (outcome.Ok? ==> (ReadyModel(next.runtimes) != Ok(None) <==> LastCallDone(next)))
            && (outcome.Err? ==> outcome.error.ReasonRequired?)
  {
    hide Goes, Explained, Transition, Blank, Do, Move, CleanupFailed, SwitchOnce, RecordFailure, CleanupRefusal, FallBack;
    if source.None? {
      LoadGoes(st, port, target);
    } else {
      UnloadGoes(st, port, target);
    }
    var n := Calls(st.runtimes, target) + if source.None? then 0 else 1;
    var (tried, flow) := SwitchOnce(st, port, target, source);
    var ok := !flow.Broken? && Clear(flow);
    GoesExplained(st, tried, n, ok);
    AtMost(st, tried, n, 7, ok);
    if flow.Refusal? {
      RecordGoes(tried, target, flow);
      var (noted, noting) := RecordFailure(tried, flow.model, flow.failure);
      if Clear(flow) {
        Then(st, tried, noted, n, 0, true, true);
        GoesExplained(st, noted, n, true);
        AtMost(st, noted, n, 7, true);
        if target.Large? && flow.model == target {
          FallBackGoes(noted, port, flow.failure.code);
          var (next, outcome) := FallBack(noted, port, target, flow.failure.code);
          var k := 1 + Calls(noted.runtimes, Small);
          Then(st, noted, next, n, k, true, outcome.Ok?);
          AtMost(st, next, n + k, 7, outcome.Ok?);
        }
      }
    }
  }

  /**
   * The result of a switch from rest. The code holds to "a switch ends at rest" exactly when every refusal of the port
   * carries a message: a blank one cannot be recorded as the reason of a transition, the switch raises instead and its
   * runtime is left in transit.
   */
  lemma SwitchKeeps(c: Coordinator, port: Port, r: Request)
    requires Rest(c.state.runtimes)
    ensures var (next, response) := Switch(c, port, r);
            && Goes(c.state, next.state, 7, !response.Raised?)
            && (Rest(next.state.runtimes) <==> !response.Raised?)
            && (response.Raised? ==> response.error.ReasonRequired? && next.results == c.results)
            && (response.Answered? && !response.answer.replayed ==>
                  && (response.answer.failureCode.None? <==> Get(next.state.runtimes, r.target).state.Ready?)
                  && ReadyModel(next.state.runtimes) == Ok(response.answer.ready)
                  && (!response.answer.changed || !r.drains ==> next.state == c.state)
                  && (response.answer.changed ==> (response.answer.ready.Some? <==> LastCallDone(next.state))))
  {
    hide Goes, Explained, Attempt, Find;
    Stays(c.state);
    var source := ReadyModel(c.state.runtimes).value;
    if source != Some(r.target) {
      AttemptGoes(c.state, port, r.target, source);
      var (tried, outcome) := Attempt(c.state, port, r.target, source);
      assert outcome.Ok? ==> ReadyModel(tried.runtimes).Ok?;
      assert outcome.Err? ==> outcome.error == ReasonRequired;
    }
    assert ReadyModel(c.state.runtimes).Ok?;
    AtMost(c.state, c.state, 0, 7, true);
  }

  // -------------------------------------------------------------------------
  // States and processes
  // -------------------------------------------------------------------------

  /** The calls made for one model, in order. */
  function CallsOf(actions: seq<Action>, m: Model): seq<Action> {
    if actions == [] then []
    else
      var last := actions[|actions| - 1];
      CallsOf(actions[..|actions| - 1], m) + if last.model == m then [last] else []
  }

  predicate LastDone(calls: seq<Action>, verb: Verb) {
    calls != [] && calls[|calls| - 1].verb == verb && calls[|calls| - 1].reply.Done?
  }

  /** What a recorded state says about the process: which calls came last. */
  predicate Evidence(state: Lifecycle, calls: seq<Action>) {
    match state
    case Unloaded => calls == [] || LastDone(calls, Stop)
    case HealthChecking =>
      LastDone(calls, Start)
      || (calls != [] && calls[|calls| - 1].verb.Health? && LastDone(calls[..|calls| - 1], Start))
    case Ready => LastDone(calls, Health) && LastDone(calls[..|calls| - 1], Start)
    case Draining => LastDone(calls, Health) && LastDone(calls[..|calls| - 1], Start)
    case _ => true
  }

  predicate Evident(st: State) {
    && Evidence(st.runtimes.small.state, CallsOf(st.actions, Small))
    && Evidence(st.runtimes.large.state, CallsOf(st.actions, Large))
  }

  /** A process may be running: it was started, successfully or not, and not successfully stopped since. */
  ghost predicate MayRun(calls: seq<Action>) {
    exists i :: 0 <= i < |calls| && calls[i].verb.Start?
                && forall j :: i < j < |calls| ==> !(calls[j].verb.Stop? && calls[j].reply.Done?)
  }

  /** No process behind a runtime recorded as unloaded. */
  lemma UnloadedIsStopped(st: State, m: Model)
    requires Evident(st) && Get(st.runtimes, m).state.Unloaded?
    ensures !MayRun(CallsOf(st.actions, m))
  {
    var calls := CallsOf(st.actions, m);
    forall i | 0 <= i < |calls| && calls[i].verb.Start?
      ensures exists j :: i < j < |calls| && calls[j].verb.Stop? && calls[j].reply.Done?
    {
      assert calls[|calls| - 1].verb.Stop? && calls[|calls| - 1].reply.Done?;
    }
  }

  lemma CallMore(actions: seq<Action>, a: Action, m: Model)
    ensures CallsOf(actions + [a], m) == CallsOf(actions, m) + if a.model == m then [a] else []
  {
    assert (actions + [a])[..|actions|] == actions;
  }

  lemma MoveEvident(st: State, m: Model, to: Lifecycle, reason: string, failure: Option<Failure>)
    requires Evident(st) && Evidence(to, CallsOf(st.actions, m))
    ensures Evident(Move(st, m, to, reason, failure).0)
  {
  }

  /** The call that fits a state in transit. */
  predicate Fitting(state: Lifecycle, verb: Verb) {
    match verb
    case Start => state.Loading?
    case Health => state.HealthChecking?
    case Stop => state.Unloading?
  }

  /** The last call of a model succeeded, and a health check came straight after a start. */
  predicate Called(calls: seq<Action>, verb: Option<Verb>) {
    verb.Some? ==> LastDone(calls, verb.value) && (verb.value.Health? ==> LastDone(calls[..|calls| - 1], Start))
  }

  lemma InvokeEvident(st: State, port: Port, verb: Verb, m: Model)
    requires Evident(st) && Fitting(Get(st.runtimes, m).state, verb)
    requires verb.Health? ==> Called(CallsOf(st.actions, m), Some(Start))
    ensures var (next, flow) := Invoke(st, port, verb, m);
            Evident(next) && (flow.Continue? ==> Called(CallsOf(next.actions, m), Some(verb)))
  {
    hide CallsOf, Evidence, Called;
    var a := Action(verb, m, port(|st.actions|));
    CallMore(st.actions, a, Small);
    CallMore(st.actions, a, Large);
    EvidenceMore(Get(st.runtimes, m).state, CallsOf(st.actions, m), a);
    assert CallsOf(st.actions, Other(m)) + [] == CallsOf(st.actions, Other(m));
  }

  lemma EvidenceMore(state: Lifecycle, calls: seq<Action>, a: Action)
    requires Fitting(state, a.verb) && (a.verb.Health? ==> Called(calls, Some(Start)))
    ensures Evidence(state, calls + [a]) && (a.reply.Done? ==> Called(calls + [a], Some(a.verb)))
  {
    assert (calls + [a])[..|calls|] == calls;
  }

  /** A plan that records a state only behind the calls that show it; `called` is the last successful call, if known. */
  predicate Shown(state: Lifecycle, called: Option<Verb>, commands: seq<Command>, last: Option<Verb>)
    decreases |commands|
  {
    if commands == [] then called == last
    else match commands[0]
      case Record(to, _) =>
        && (match to
            case Unloaded => called == Some(Stop)
            case HealthChecking => called == Some(Start)
            case Ready => called == Some(Health)
            case Draining => state.Ready?
            case _ => true)
        && Shown(to, called, commands[1..], last)
      case Call(verb) =>
        Fitting(state, verb) && (verb.Health? ==> called == Some(Start)) && Shown(state, Some(verb), commands[1..], last)
  }

  lemma {:induction false} DoEvident(
    st: State, port: Port, m: Model, commands: seq<Command>, called: Option<Verb>, last: Option<Verb>)
    requires Evident(st) && Called(CallsOf(st.actions, m), called)
    requires Shown(Get(st.runtimes, m).state, called, commands, last)
    ensures var (next, flow) := Do(st, port, m, commands);
            Evident(next) && (flow.Continue? ==> Called(CallsOf(next.actions, m), last))
    decreases |commands|
  {
    hide Evident, Transition, CallsOf;
    if commands != [] {
      var (mid, flow) := Perform(st, port, m, commands[0]);
      match commands[0]
      case Record(to, reason) =>
        EvidenceOf(st, m);
        assert Evidence(to, CallsOf(st.actions, m));
        MoveEvident(st, m, to, reason, None);
        MoveMoves(st, m, to, reason, None);
        if flow.Continue? {
          DoEvident(mid, port, m, commands[1..], called, last);
        }
      case Call(verb) =>
        InvokeEvident(st, port, verb, m);
        if flow.Continue? {
          DoEvident(mid, port, m, commands[1..], Some(verb), last);
        }
    }
  }

  lemma EvidenceOf(st: State, m: Model)
    requires Evident(st)
    ensures Evidence(Get(st.runtimes, m).state, CallsOf(st.actions, m))
  {
  }

  lemma MoveMoves(st: State, m: Model, to: Lifecycle, reason: string, failure: Option<Failure>)
    ensures var (next, flow) := Move(st, m, to, reason, failure);
            next.actions == st.actions && !flow.Refusal? && (flow.Continue? ==> Get(next.runtimes, m).state == to)
  {
  }

  lemma PlansShown()
    ensures Shown(Unloaded, None, LOAD, Some(Health))
    ensures Shown(Ready, None, UNLOAD, Some(Stop))
    ensures Shown(Failed, None, CLEANUP, Some(Stop))
  {
    var l1, l2, l3, l4 := LOAD[1..], LOAD[2..], LOAD[3..], LOAD[4..];
    assert l4[1..] == [] && l3[1..] == l4 && l2[1..] == l3 && l1[1..] == l2;
    assert Shown(HealthChecking, Some(Health), l4, Some(Health));
    assert Shown(HealthChecking, Some(Start), l3, Some(Health));
    assert Shown(Loading, Some(Start), l2, Some(Health));
    var u1, u2, u3 := UNLOAD[1..], UNLOAD[2..], UNLOAD[3..];
    assert u3[1..] == [] && u2[1..] == u3 && u1[1..] == u2;
    assert Shown(Unloading, Some(Stop), u3, Some(Stop));
    assert Shown(Unloading, None, u2, Some(Stop));
    var c1 := CLEANUP[1..];
    assert c1[1..] == [];
    assert Shown(Unloading, None, c1, Some(Stop));
  }

  lemma CleanupEvident(st: State, port: Port, m: Model)
    requires Evident(st)
    ensures Evident(CleanupFailed(st, port, m).0)
  {
    hide Evident, Transition, CallsOf, Do, Move, Shown;
    if Get(st.runtimes, m).state.Failed? {
      PlansShown();
      DoEvident(st, port, m, CLEANUP, None, Some(Stop));
      var (stopped, flow) := Do(st, port, m, CLEANUP);
      if flow.Continue? {
        MoveEvident(stopped, m, Unloaded, "failed runtime cleanup complete", None);
      } else if flow.Refusal? {
        MoveEvident(stopped, m, Failed, flow.failure.message, Some(flow.failure));
      }
    }
  }

  lemma OnceEvident(st: State, port: Port, target: Model, source: Option<Model>)
    requires Evident(st) && Rest(st.runtimes) && Off(Get(st.runtimes, target).state)
    requires source.Some? ==> Get(st.runtimes, source.value).state.Ready?
    requires source.None? ==> Off(Get(st.runtimes, Other(target)).state)
    ensures Evident(SwitchOnce(st, port, target, source).0)
  {
    hide Evident, Transition, CallsOf, Do, CleanupFailed, Shown, Goes, Explained;
    PlansShown();
    var free, flow := st, Continue;
    if source.Some? && source.value != target {
      UnloadPlan();
      DoGoes(st, port, source.value, UNLOAD, 1, Unloaded);
      DoEvident(st, port, source.value, UNLOAD, None, Some(Stop));
      free := Do(st, port, source.value, UNLOAD).0;
      flow := Do(st, port, source.value, UNLOAD).1;
      GoesExplained(st, free, 1, Clear(flow));
    }
    if flow.Continue? {
      if Get(free.runtimes, target).state.Failed? {
        CleanupGoes(free, port, target);
        CleanupEvident(free, port, target);
        var clean := CleanupFailed(free, port, target).0;
        if Get(clean.runtimes, target).state.Unloaded? {
          DoEvident(clean, port, target, LOAD, None, Some(Health));
        }
      } else {
        DoEvident(free, port, target, LOAD, None, Some(Health));
      }
    }
  }

  lemma RecordEvident(st: State, m: Model, failure: Failure)
    requires Evident(st)
    ensures Evident(RecordFailure(st, m, failure).0)
  {
    hide Evident, CallsOf, Transition;
    MoveEvident(st, m, Failed, failure.message, Some(failure));
  }

  /** A switch from rest keeps the recorded states true of the processes, even when it raises. */
  lemma SwitchEvident(c: Coordinator, port: Port, r: Request)
    requires Rest(c.state.runtimes) && Evident(c.state)
    ensures Evident(Switch(c, port, r).0.state)
  {
    hide Evident, CallsOf, Find, SwitchOnce, CleanupFailed, RecordFailure, Goes, Explained;
    var st, target := c.state, r.target;
    var source := ReadyModel(st.runtimes).value;
    if source != Some(target) {
      OnceEvident(st, port, target, source);
      if source.None? {
        LoadGoes(st, port, target);
      } else {
        UnloadGoes(st, port, target);
      }
      var n := Calls(st.runtimes, target) + if source.None? then 0 else 1;
      var (tried, flow) := SwitchOnce(st, port, target, source);
      GoesExplained(st, tried, n, !flow.Broken? && Clear(flow));
      if flow.Refusal? {
        RecordEvident(tried, flow.model, flow.failure);
        RecordGoes(tried, target, flow);
        var noted := RecordFailure(tried, flow.model, flow.failure).0;
        if Clear(flow) && target.Large? && flow.model == target {
          GoesExplained(tried, noted, 0, true);
          FallBackEvident(noted, port, flow.failure.code);
        }
      }
    }
  }

  lemma FallBackEvident(st: State, port: Port, code: Text)
    requires Evident(st) && OtherOff(st, Large) && Get(st.runtimes, Large).state.Failed?
    ensures Evident(FallBack(st, port, Large, code).0)
  {
    hide Evident, CallsOf, SwitchOnce, CleanupFailed, RecordFailure, Goes, Explained;
    CleanupGoes(st, port, Large);
    CleanupEvident(st, port, Large);
    var (clean, cleaning, cleaned) := CleanupFailed(st, port, Large);
    if cleaning.Continue? && cleaned {
      GoesExplained(st, clean, 1, true);
      OnceEvident(clean, port, Small, None);
      var (fallen, flow) := SwitchOnce(clean, port, Small, None);
      if flow.Refusal? {
        RecordEvident(fallen, flow.model, flow.failure);
      }
    }
  }

  // -------------------------------------------------------------------------
  // Runs
  // -------------------------------------------------------------------------

  /** The coordinator after a sequence of requests, and every entry it has ever remembered. */
  function Run(c: Coordinator, port: Port, requests: seq<Request>): (Coordinator, seq<Entry>)
    decreases |requests|
  {
    if requests == [] then (c, c.results)
    else
      var (before, entries) := Run(c, port, requests[..|requests| - 1]);
      var r := requests[|requests| - 1];
      var (next, response) := Switch(before, port, r);
      (next, entries + if response.Answered? && !response.answer.replayed then Memo(r.key, response.answer) else [])
  }

  predicate DistinctKeys(entries: seq<Entry>) {
    forall i, j :: 0 <= i < j < |entries| ==> entries[i].key != entries[j].key
  }

  const START := Coordinator(State(Runtimes(FRESH, FRESH), [], []), [])

  lemma {:induction false} FindNone(results: seq<Entry>, key: Key)
    ensures Find(results, key).None? <==> forall i :: 0 <= i < |results| ==> results[i].key != key
  {
    if results != [] {
      FindNone(results[1..], key);
      if Find(results, key).None? {
        forall i | 0 <= i < |results| ensures results[i].key != key {
          if i > 0 {
            assert results[i] == results[1..][i - 1];
          }
        }
      } else if results[0].key != key {
        var i :| 0 <= i < |results[1..]| && results[1..][i].key == key;
        assert results[i + 1].key == key;
      }
    }
  }

  lemma {:induction false} FindEntry(results: seq<Entry>, i: nat)
    requires DistinctKeys(results) && i < |results|
    ensures Find(results, results[i].key) == Some(results[i].answer)
  {
    if i > 0 {
      assert results[1..][i - 1] == results[i];
      FindEntry(results[1..], i - 1);
    }
  }

  lemma NewestOf(entries: seq<Entry>, more: seq<Entry>)
    requires |more| <= 1
    ensures Newest(Newest(entries) + more) == Newest(entries + more)
  {
  }

  /** Over every run the cache is exactly the newest 256 remembered answers, under distinct keys. */
  lemma {:induction false} CacheIsNewest(port: Port, requests: seq<Request>)
    ensures var (c, entries) := Run(START, port, requests);
            c.results == Newest(entries) && DistinctKeys(c.results)
    decreases |requests|
  {
    hide Switch, Decide, Find;
    if requests != [] {
      var before := requests[..|requests| - 1];
      CacheIsNewest(port, before);
      CacheStep(Run(START, port, before).0, port, requests[|requests| - 1], Run(START, port, before).1);
    }
  }

  lemma CacheStep(c: Coordinator, port: Port, r: Request, entries: seq<Entry>)
    requires c.results == Newest(entries) && DistinctKeys(c.results)
    ensures var (next, response) := Switch(c, port, r);
            var more := if response.Answered? && !response.answer.replayed then Memo(r.key, response.answer) else [];
            next.results == Newest(entries + more) && DistinctKeys(next.results)
  {
    hide Decide, Find, Newest, DistinctKeys;
    FreshDecision(c.state, port, r);
    var (next, response) := Switch(c, port, r);
    var more := if response.Answered? && !response.answer.replayed then Memo(r.key, response.answer) else [];
    assert entries + [] == entries;
    NewestOf(entries, more);
    if more != [] {
      FindNone(c.results, r.key.value);
      DistinctSnoc(c.results, more[0]);
    } else {
      assert c.results + [] == c.results;
      NewestOf(entries, []);
    }
  }

  lemma DistinctSnoc(results: seq<Entry>, e: Entry)
    requires DistinctKeys(results) && forall i :: 0 <= i < |results| ==> results[i].key != e.key
    ensures DistinctKeys(Newest(results + [e]))
  {
  }

  lemma FreshDecision(st: State, port: Port, r: Request)
    ensures var decision := Decide(st, port, r).1;
            decision.Ok? ==> !decision.value.replayed && decision.value.requested == r.target
  {
  }

  /**
   * A key among the newest 256 remembered ones replays its answer, or conflicts if the target differs; either way the
   * port is not called and nothing changes.
   */
  lemma {:induction false} RecentKeyReplays(port: Port, requests: seq<Request>, i: nat, target: Model, drains: bool)
    requires var (c, entries) := Run(START, port, requests);
             |entries| - MAX_RESULTS <= i < |entries|
    ensures var (c, entries) := Run(START, port, requests);
            Switch(c, port, Request(target, Some(entries[i].key), drains)) ==
            (c, if entries[i].answer.requested != target then Conflict
                else Answered(entries[i].answer.(replayed := true)))
  {
    hide Decide, Run, Find, DistinctKeys;
    CacheIsNewest(port, requests);
    var (c, entries) := Run(START, port, requests);
    var k := NewestAt(entries, i);
    FindEntry(c.results, k);
  }

  /** The next request under the key of a fresh answer gets that very answer, marked as a replay, or a conflict. */
  lemma AnswerIsRemembered(c: Coordinator, port: Port, r: Request, target: Model, drains: bool)
    requires |c.results| <= MAX_RESULTS && DistinctKeys(c.results)
    requires r.key.Some? && Switch(c, port, r).1.Answered? && !Switch(c, port, r).1.answer.replayed
    ensures var (next, response) := Switch(c, port, r);
            Switch(next, port, Request(target, r.key, drains)) ==
            (next, if target != r.target then Conflict else Answered(response.answer.(replayed := true)))
  {
    hide Decide, Find, DistinctKeys;
    CacheStep(c, port, r, c.results);
    FreshDecision(c.state, port, r);
    var results := Switch(c, port, r).0.results;
    assert results == Newest(c.results + Memo(r.key, Switch(c, port, r).1.answer));
    assert results[|results| - 1] == Entry(r.key.value, Switch(c, port, r).1.answer);
    FindEntry(results, |results| - 1);
  }

  lemma NewestAt(entries: seq<Entry>, i: nat) returns (k: nat)
    requires |entries| - MAX_RESULTS <= i < |entries|
    ensures k < |Newest(entries)| && Newest(entries)[k] == entries[i]
  {
    k := if |entries| <= MAX_RESULTS then i else i - (|entries| - MAX_RESULTS);
  }

  /** While the port explains every refusal, every run of switches ends at rest and never had two occupied runtimes. */
  lemma {:induction false} RunRests(port: Port, requests: seq<Request>)
    requires forall n :: port(n).Refused? ==> !Blank(port(n).failure.message)
    ensures var st := Run(START, port, requests).0.state;
            && Rest(st.runtimes)
            && |st.actions| <= 7 * |requests|
            && (forall i :: 0 <= i < |st.seen| ==> Exclusive(st.seen[i]))
            && AsPort(st.actions, port)
            && Evident(st)
    decreases |requests|
  {
    hide Switch, Explained, Spoken, Blank, Evident;
    StartEvident();
    if requests == [] {
      assert Explained(FRESH) by {
        FreshExplained();
      }
    } else {
      var before := requests[..|requests| - 1];
      RunRests(port, before);
      var c, r := Run(START, port, before).0, requests[|requests| - 1];
      SwitchKeeps(c, port, r);
      SwitchAsPort(c, port, r);
      SwitchEvident(c, port, r);
      AllSpoken(Switch(c, port, r).0.state.actions, |c.state.actions|, port);
    }
  }

  lemma StartEvident()
    ensures Evident(START.state)
  {
  }

  /**
   * Over the same runs the recorded states are true of the processes: behind an unloaded runtime no process can be
   * running, and a ready one was started and then passed its health check in its last two calls. So unless a runtime is
   * recorded as failed, at most one process can be running.
   */
  lemma {:induction false} StatesAreTrue(port: Port, requests: seq<Request>, m: Model)
    requires forall n :: port(n).Refused? ==> !Blank(port(n).failure.message)
    ensures var st := Run(START, port, requests).0.state;
            var calls := CallsOf(st.actions, m);
            && (Get(st.runtimes, m).state.Unloaded? ==> !MayRun(calls))
            && (Get(st.runtimes, m).state.Ready? ==> LastDone(calls, Health) && LastDone(calls[..|calls| - 1], Start))
            && (MayRun(calls) && MayRun(CallsOf(st.actions, Other(m))) ==>
                  Get(st.runtimes, m).state.Failed? || Get(st.runtimes, Other(m)).state.Failed?)
  {
    hide Run, MayRun, CallsOf, Explained;
    RunRests(port, requests);
    var st := Run(START, port, requests).0.state;
    EvidenceOf(st, m);
    if Get(st.runtimes, m).state.Unloaded? {
      UnloadedIsStopped(st, m);
    }
    if Get(st.runtimes, Other(m)).state.Unloaded? {
      UnloadedIsStopped(st, Other(m));
    }
  }

  lemma FreshExplained()
    ensures Explained(FRESH)
  {
  }

  /** The calls are answered by the port, in order. */
  ghost predicate AsPort(actions: seq<Action>, port: Port) {
    forall i :: 0 <= i < |actions| ==> actions[i].reply == port(i)
  }

  lemma AllSpoken(actions: seq<Action>, from: nat, port: Port)
    requires AsPort(actions, port) && from <= |actions|
    requires forall n :: port(n).Refused? ==> !Blank(port(n).failure.message)
    ensures Spoken(actions[from..])
  {
  }

  lemma {:induction false} DoAsPort(st: State, port: Port, m: Model, commands: seq<Command>)
    requires AsPort(st.actions, port)
    ensures AsPort(Do(st, port, m, commands).0.actions, port)
    decreases |commands|
  {
    if commands != [] {
      DoAsPort(Perform(st, port, m, commands[0]).0, port, m, commands[1..]);
    }
  }

  lemma CleanupAsPort(st: State, port: Port, m: Model)
    requires AsPort(st.actions, port)
    ensures AsPort(CleanupFailed(st, port, m).0.actions, port)
  {
    hide Do;
    DoAsPort(st, port, m, CLEANUP);
  }

  lemma OnceAsPort(st: State, port: Port, target: Model, source: Option<Model>)
    requires AsPort(st.actions, port)
    ensures AsPort(SwitchOnce(st, port, target, source).0.actions, port)
  {
    hide Do, CleanupFailed, AsPort;
    if source.Some? {
      DoAsPort(st, port, source.value, UNLOAD);
    }
    var free := if source.Some? && source.value != target then Do(st, port, source.value, UNLOAD).0 else st;
    CleanupAsPort(free, port, target);
    DoAsPort(free, port, target, LOAD);
    DoAsPort(CleanupFailed(free, port, target).0, port, target, LOAD);
  }

  lemma SwitchAsPort(c: Coordinator, port: Port, r: Request)
    requires AsPort(c.state.actions, port)
    ensures AsPort(Switch(c, port, r).0.state.actions, port)
  {
    hide Do, CleanupFailed, SwitchOnce, AsPort, Find;
    var ready := ReadyModel(c.state.runtimes);
    if ready.Ok? {
      OnceAsPort(c.state, port, r.target, ready.value);
      var (tried, flow) := SwitchOnce(c.state, port, r.target, ready.value);
      if flow.Refusal? {
        var noted := RecordFailure(tried, flow.model, flow.failure).0;
        CleanupAsPort(noted, port, r.target);
        OnceAsPort(CleanupFailed(noted, port, r.target).0, port, Small, None);
      }
    }
  }

  lemma SilentStart(st: State, port: Port, m: Model)
    requires Get(st.runtimes, m).state.Unloaded?
    requires port(|st.actions|).Refused? && port(|st.actions|).failure.message == ""
    ensures var (next, outcome) := Attempt(st, port, m, None);
            && outcome == Err(ReasonRequired)
            && Get(next.runtimes, m).state.Loading?
            && Get(next.runtimes, Other(m)) == Get(st.runtimes, Other(m))
            && |next.actions| == |st.actions| + 1
  {
    hide Blank;
    Worded(LOAD[0].reason, 'r');
    var (loading, _) := Perform(st, port, m, LOAD[0]);
    var rest := LOAD[1..];
    assert Do(st, port, m, LOAD) == Do(loading, port, m, rest);
    var (next, flow) := Perform(loading, port, m, rest[0]);
    assert Do(loading, port, m, rest) == (next, flow);
    assert Blank("") by {
      NothingIsBlank();
    }
  }

  lemma NothingIsBlank()
    ensures Blank("")
  {
  }

  /**
   * A port that refuses without a message: the switch to the large model raises and leaves that runtime loading, and
   * the next switch starts loading the small model beside it.
   */
  lemma SilentRefusal()
    ensures var port: Port := n => Refused(Failure("", "START", "evidence"));
            var (first, response) := Switch(START, port, Request(Large, None, true));
            var (second, _) := Switch(first, port, Request(Small, None, true));
            && response == Raised(ReasonRequired)
            && second.state.runtimes.small.state.Loading? && second.state.runtimes.large.state.Loading?
  {
    hide Attempt;
    var port: Port := n => Refused(Failure("", "START", "evidence"));
    SilentStart(START.state, port, Large);
    var (first, _) := Attempt(START.state, port, Large, None);
    SilentStart(first, port, Small);
  }
}
