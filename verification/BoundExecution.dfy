/**
 * The tool executor's idempotent execution service: one in-process cache per idempotency key, an append-only audit
 * log and one evidence file per execution id. Each call runs under one lock and is therefore one step.
 */
module BoundExecution {

  type Key = string

  type ExecutionId = string

  datatype Option<+T> = None | Some(value: T)

  datatype ErrorClass =
    | BindingError
    | Expired
    | IdempotencyConflict
    | EvidenceWriteError
    | InternalError
    | ToolError(code: string)

  /** Everything of a command that its fingerprint covers; the digest is injective, so this is the fingerprint. */
  datatype Fingerprint = Fingerprint(executionId: ExecutionId, content: string)

  datatype Command = Command(key: Key, binding: Fingerprint)

  /** What the wrapped executor does when it is called. */
  datatype ToolOutcome = Succeeds(result: string) | Fails(code: string) | Crashes

  /**
   * One request with what the surroundings contribute: the verdict of the checks before the cache, the verdict of
   * the time checks behind it, and the executor's outcome should it be called.
   */
  datatype Request = Request(
    command: Command, rejected: Option<ErrorClass>, untimely: Option<ErrorClass>, outcome: ToolOutcome)

  datatype Response = Success(result: string, duplicate: bool) | Failure(error: ErrorClass)

  datatype Cached = Answer(binding: Fingerprint, result: string) | Error(binding: Fingerprint, error: ErrorClass)

  datatype AuditEvent = Started(id: ExecutionId) | Succeeded(id: ExecutionId) | Failed(id: ExecutionId)

  datatype State = State(
    completed: map<Key, Cached>, evidence: set<ExecutionId>, log: seq<AuditEvent>, calls: seq<Key>)

  const INITIAL := State(map[], {}, [], [])

  function ErrorOf(outcome: ToolOutcome): ErrorClass
    requires !outcome.Succeeds?
  {
    match outcome
    case Fails(code) => ToolError(code)
    case Crashes => InternalError
  }

  /** The answer to a request whose key is in the cache. */
  function Replay(cached: Cached, binding: Fingerprint): Response {
    if cached.binding != binding then Failure(IdempotencyConflict)
    else match cached
      case Answer(_, result) => Success(result, true)
      case Error(_, error) => Failure(error)
  }

  /** The first execution under a key. If the evidence file already exists nothing is cached. */
  function ExecuteOnce(s: State, r: Request): (State, Response) {
    var c := r.command;
    var id := c.binding.executionId;
    var called := s.(log := s.log + [Started(id)], calls := s.calls + [c.key]);
    if id in s.evidence then (called, Failure(EvidenceWriteError))
    else
      var written := called.(evidence := s.evidence + {id});
      match r.outcome
      case Succeeds(result) =>
        (written.(log := called.log + [Succeeded(id)], completed := s.completed[c.key := Answer(c.binding, result)]),
         Success(result, false))
      case _ =>
        (written.(log := called.log + [Failed(id)],
                  completed := s.completed[c.key := Error(c.binding, ErrorOf(r.outcome))]),
         Failure(ErrorOf(r.outcome)))
  }

  function Step(s: State, r: Request): (State, Response) {
    if r.rejected.Some? then (s, Failure(r.rejected.value))
    else if r.command.key in s.completed then (s, Replay(s.completed[r.command.key], r.command.binding))
    else if r.untimely.Some? then (s, Failure(r.untimely.value))
    else ExecuteOnce(s, r)
  }

  /** What a new process finds: the audit log and the evidence files are on disk, the cache is not. */
  function Forget(s: State): State {
    s.(completed := map[])
  }

  // -------------------------------------------------------------------------
  // The service
  // -------------------------------------------------------------------------

  class BoundExecutionService {
    var completed: map<Key, Cached>
    var evidence: set<ExecutionId>
    var log: seq<AuditEvent>
    var calls: seq<Key>

    ghost function Contents(): State
      reads this
    {
      State(completed, evidence, log, calls)
    }

    constructor ()
      ensures Contents() == INITIAL
    {
      completed, evidence, log, calls := map[], {}, [], [];
    }

    /** A new service over the audit store of another one. */
    constructor Restarted(previous: BoundExecutionService)
      ensures Contents() == Forget(previous.Contents())
    {
      completed, evidence, log, calls := map[], previous.evidence, previous.log, previous.calls;
    }

    /** Write an evidence file; an existing one is never overwritten. */
    method WriteEvidence(id: ExecutionId) returns (written: bool)
      modifies this`evidence
      ensures written <==> id !in old(evidence)
      ensures evidence == old(evidence) + {id}
    {
      written := id !in evidence;
      evidence := evidence + {id};
    }

    method RecordFailure(id: ExecutionId) returns (written: bool)
      modifies this`evidence, this`log
      ensures written <==> id !in old(evidence)
      ensures evidence == old(evidence) + {id}
      ensures log == if written then old(log) + [Failed(id)] else old(log)
    {
      written := WriteEvidence(id);
      if written {
        log := log + [Failed(id)];
      }
    }

    method Execute(r: Request) returns (response: Response)
      modifies this
      ensures (Contents(), response) == Step(old(Contents()), r)
    {
      if r.rejected.Some? {
        return Failure(r.rejected.value);
      }
      var c := r.command;
      var id := c.binding.executionId;
      if c.key in completed {
        var cached := completed[c.key];
        if cached.binding != c.binding {
          return Failure(IdempotencyConflict);
        }
        if cached.Error? {
          return Failure(cached.error);
        }
        return Success(cached.result, true);
      }
      if r.untimely.Some? {
        return Failure(r.untimely.value);
      }
      log := log + [Started(id)];
      calls := calls + [c.key];
      if r.outcome.Succeeds? {
        var written := WriteEvidence(id);
        if written {
          log := log + [Succeeded(id)];
          completed := completed[c.key := Answer(c.binding, r.outcome.result)];
          return Success(r.outcome.result, false);
        }
        var again := RecordFailure(id);
        assert !again && evidence == old(evidence);
        return Failure(EvidenceWriteError);
      }
      var recorded := RecordFailure(id);
      if !recorded {
        assert evidence == old(evidence);
        return Failure(EvidenceWriteError);
      }
      completed := completed[c.key := Error(c.binding, ErrorOf(r.outcome))];
      return Failure(ErrorOf(r.outcome));
    }
  }

  // -------------------------------------------------------------------------
  // Runs
  // -------------------------------------------------------------------------

  function Run(requests: seq<Request>): State {
    if requests == [] then INITIAL
    else Step(Run(requests[..|requests| - 1]), requests[|requests| - 1]).0
  }

  function Calls(keys: seq<Key>, k: Key): nat {
    if keys == [] then 0 else Calls(keys[..|keys| - 1], k) + (if keys[|keys| - 1] == k then 1 else 0)
  }

  /** Every key has execution ids of its own: what the planner's fresh identifiers guarantee. */
  predicate OwnIds(requests: seq<Request>) {
    forall i, j :: 0 <= i < |requests| && 0 <= j < |requests|
                   && requests[i].command.binding.executionId == requests[j].command.binding.executionId
                   ==> requests[i].command.key == requests[j].command.key
  }

  /** A log of started events, each followed by exactly one outcome of the same execution. */
  predicate Paired(log: seq<AuditEvent>) {
    log == [] ||
    (&& |log| >= 2
     && Paired(log[..|log| - 2])
     && log[|log| - 2].Started? && !log[|log| - 1].Started?
     && log[|log| - 1].id == log[|log| - 2].id)
  }

  /** Every evidence file belongs to the completed execution of a key that was requested under that id. */
  ghost predicate EvidenceOwned(s: State, requests: seq<Request>) {
    && forall id :: id in s.evidence ==>
         exists i :: 0 <= i < |requests| && OwnedBy(s, requests[i], id)
  }

  ghost predicate OwnedBy(s: State, r: Request, id: ExecutionId) {
    r.command.binding.executionId == id && r.command.key in s.completed
  }

  ghost predicate HasOutcome(log: seq<AuditEvent>, id: ExecutionId) {
    exists j :: 0 <= j < |log| && !log[j].Started? && log[j].id == id
  }

  /** The evidence files are exactly those of the executions whose outcome is in the log. */
  ghost predicate Evidenced(s: State) {
    forall id :: id in s.evidence <==> HasOutcome(s.log, id)
  }

  lemma OutcomeAdded(log: seq<AuditEvent>, a: AuditEvent, b: AuditEvent, id: ExecutionId)
    requires a.Started? && !b.Started?
    ensures HasOutcome(log + [a] + [b], id) <==> HasOutcome(log, id) || b.id == id
  {
    var all := log + [a] + [b];
    assert all[|log| + 1] == b;
    if HasOutcome(log, id) {
      var j :| 0 <= j < |log| && !log[j].Started? && log[j].id == id;
      assert all[j] == log[j];
    }
  }

  lemma OneMoreCall(keys: seq<Key>, k: Key, other: Key)
    ensures Calls(keys + [k], other) == Calls(keys, other) + (if k == other then 1 else 0)
  {
    assert (keys + [k])[..|keys|] == keys;
  }

  lemma TwoMoreEvents(log: seq<AuditEvent>, a: AuditEvent, b: AuditEvent)
    requires Paired(log) && a.Started? && !b.Started? && a.id == b.id
    ensures Paired(log + [a] + [b])
  {
    assert (log + [a] + [b])[..|log|] == log;
  }

  /** What every run with ids of its own keeps. */
  ghost predicate Kept(s: State, requests: seq<Request>) {
    && EvidenceOwned(s, requests)
    && Paired(s.log)
    && Evidenced(s)
    && forall k :: Calls(s.calls, k) == if k in s.completed then 1 else 0
  }

  /** Under a key of its own, an execution id that has not been completed has no evidence. */
  lemma FreshId(s: State, before: seq<Request>, r: Request)
    requires EvidenceOwned(s, before) && OwnIds(before + [r]) && r.command.key !in s.completed
    ensures r.command.binding.executionId !in s.evidence
  {
    var all := before + [r];
    forall i | 0 <= i < |before| ensures !OwnedBy(s, before[i], r.command.binding.executionId) {
      assert all[i] == before[i] && all[|before|] == r;
    }
  }

  lemma StepOwned(s: State, before: seq<Request>, r: Request)
    requires EvidenceOwned(s, before)
    ensures EvidenceOwned(Step(s, r).0, before + [r])
  {
    var all := before + [r];
    var next := Step(s, r).0;
    forall e | e in next.evidence ensures exists i :: 0 <= i < |all| && OwnedBy(next, all[i], e) {
      if e in s.evidence {
        var i :| 0 <= i < |before| && OwnedBy(s, before[i], e);
        assert OwnedBy(next, all[i], e);
      } else {
        assert OwnedBy(next, all[|before|], e);
      }
    }
  }

  /** An execution under a fresh id adds a started event and its outcome, one evidence file and one call. */
  lemma ExecutedKeeps(s: State, r: Request)
    requires Paired(s.log) && Evidenced(s) && r.command.binding.executionId !in s.evidence
    requires r.command.key !in s.completed
    requires forall k :: Calls(s.calls, k) == if k in s.completed then 1 else 0
    ensures var next := ExecuteOnce(s, r).0;
            && Paired(next.log) && Evidenced(next)
            && forall k :: Calls(next.calls, k) == if k in next.completed then 1 else 0
  {
    hide HasOutcome, Paired, Calls;
    var next := ExecuteOnce(s, r).0;
    var id := r.command.binding.executionId;
    var outcome := next.log[|next.log| - 1];
    TwoMoreEvents(s.log, Started(id), outcome);
    forall e ensures e in next.evidence <==> HasOutcome(next.log, e) {
      OutcomeAdded(s.log, Started(id), outcome, e);
    }
    forall k ensures Calls(next.calls, k) == if k in next.completed then 1 else 0 {
      OneMoreCall(s.calls, r.command.key, k);
    }
  }

  lemma {:induction false} RunKeeps(requests: seq<Request>)
    requires OwnIds(requests)
    ensures Kept(Run(requests), requests)
    decreases |requests|
  {
    if requests != [] {
      hide HasOutcome, Paired, Calls, EvidenceOwned, ExecuteOnce, OwnIds;
      var before, r := requests[..|requests| - 1], requests[|requests| - 1];
      assert before + [r] == requests;
      OwnIdsBefore(requests);
      RunKeeps(before);
      var s := Run(before);
      StepOwned(s, before, r);
      if r.rejected.None? && r.command.key !in s.completed && r.untimely.None? {
        FreshId(s, before, r);
        ExecutedKeeps(s, r);
      }
    }
  }

  lemma OwnIdsBefore(requests: seq<Request>)
    requires requests != [] && OwnIds(requests)
    ensures OwnIds(requests[..|requests| - 1])
  {
  }

  lemma RunOne(before: seq<Request>, r: Request)
    ensures Run(before + [r]) == Step(Run(before), r).0
  {
    assert (before + [r])[..|before|] == before;
  }

  /**
   * No key ever causes a second executor call, the audit log pairs every start with one outcome, and the evidence files
   * are exactly those of the executions with an outcome.
   */
  lemma {:induction false} AtMostOneCallPerKey(requests: seq<Request>, k: Key)
    requires OwnIds(requests)
    ensures Calls(Run(requests).calls, k) <= 1
    ensures Paired(Run(requests).log) && Evidenced(Run(requests))
  {
    RunKeeps(requests);
  }

  lemma {:induction false} CompletedStays(before: seq<Request>, after: seq<Request>, k: Key)
    requires k in Run(before).completed
    ensures k in Run(before + after).completed && Run(before + after).completed[k] == Run(before).completed[k]
    decreases |after|
  {
    var all := before + after;
    if after == [] {
      assert all == before;
    } else {
      assert all[..|all| - 1] == before + after[..|after| - 1];
      CompletedStays(before, after[..|after| - 1], k);
    }
  }

  /**
   * Idempotence over runs: once a command has been executed under its key, every later request under that key that
   * passes validation gets the same result marked as a duplicate or the same error class if it is the same command,
   * and a conflict if it is not; and the executor is not called.
   */
  lemma {:induction false} LaterRequests(before: seq<Request>, first: Request, between: seq<Request>, later: Request)
    requires var s := Run(before);
             first.rejected.None? && first.untimely.None? && first.command.key !in s.completed
             && first.command.binding.executionId !in s.evidence
    requires later.rejected.None? && later.command.key == first.command.key
    ensures var original := Step(Run(before), first).1;
            var now := Run(before + [first] + between);
            && Step(now, later).0 == now
            && Step(now, later).1 ==
               if later.command.binding != first.command.binding then Failure(IdempotencyConflict)
               else match original
                 case Success(result, _) => Success(result, true)
                 case Failure(error) => Failure(error)
  {
    var start := before + [first];
    assert start[..|before|] == before;
    CompletedStays(start, between, first.command.key);
  }

  /** What an executed request is told: the tool's own answer, its error, or an internal error if it crashed. */
  function Told(outcome: ToolOutcome): Response {
    match outcome
    case Succeeds(x) => Success(x, false)
    case Fails(code) => Failure(ToolError(code))
    case Crashes => Failure(InternalError)
  }

  /**
   * A request that reaches the executor under an id without evidence gets the executor's answer; the log then ends with the
   * started event and an outcome event that says succeeded exactly if the executor did; nothing else is logged, and only this
   * key is answered from now on.
   */
  lemma ExecutedIsTold(s: State, r: Request)
    requires r.rejected.None? && r.command.key !in s.completed && r.untimely.None?
    requires r.command.binding.executionId !in s.evidence
    ensures var (next, response) := Step(s, r);
            var id := r.command.binding.executionId;
            && response == Told(r.outcome)
            && next.log == s.log + [Started(id)] + [if r.outcome.Succeeds? then Succeeded(id) else Failed(id)]
            && next.evidence == s.evidence + {id}
            && next.calls == s.calls + [r.command.key]
            && next.completed.Keys == s.completed.Keys + {r.command.key}
            && next.completed - {r.command.key} == s.completed
  {
  }

  /** A request that is refused before the executor is called: why, and that nothing happens. */
  lemma NotExecutedIsTold(s: State, r: Request)
    requires r.rejected.Some? || r.command.key in s.completed || r.untimely.Some?
    ensures var (next, response) := Step(s, r);
            && next == s
            && (r.rejected.Some? ==> response == Failure(r.rejected.value))
            && (r.rejected.None? && r.command.key in s.completed && s.completed[r.command.key].binding != r.command.binding ==>
                  response == Failure(IdempotencyConflict))
            && (r.rejected.None? && r.command.key !in s.completed ==> response == Failure(r.untimely.value))
  {
  }

  /** Over runs: whatever comes in between, a repeated command is told what the executor answered the first time. */
  lemma {:induction false} RepeatIsTold(before: seq<Request>, first: Request, between: seq<Request>, later: Request)
    requires var s := Run(before);
             first.rejected.None? && first.untimely.None? && first.command.key !in s.completed
             && first.command.binding.executionId !in s.evidence
    requires later.rejected.None? && later.command == first.command
    ensures Step(Run(before + [first] + between), later).1 ==
            match first.outcome
            case Succeeds(x) => Success(x, true)
            case Fails(code) => Failure(ToolError(code))
            case Crashes => Failure(InternalError)
  {
    hide Run, Step;
    ExecutedIsTold(Run(before), first);
    LaterRequests(before, first, between, later);
  }

  /**
   * Exactly when a retry is safe: of two identical timely requests under a new key the second one calls the
   * executor again if and only if the execution id already had an evidence file.
   */
  lemma {:induction false} RetrySafeIff(s: State, r: Request)
    requires r.rejected.None? && r.untimely.None? && r.command.key !in s.completed
    ensures var once := Step(s, r).0;
            var twice := Step(once, r).0;
            && Calls(once.calls, r.command.key) == Calls(s.calls, r.command.key) + 1
            && (twice.calls == once.calls <==> r.command.binding.executionId !in s.evidence)
            && (r.command.key in once.completed <==> r.command.binding.executionId !in s.evidence)
  {
    OneMoreCall(s.calls, r.command.key, r.command.key);
  }

  // -------------------------------------------------------------------------
  // Any run
  // -------------------------------------------------------------------------

  /** The request reaches the executor. */
  predicate Executes(s: State, r: Request) {
    r.rejected.None? && r.command.key !in s.completed && r.untimely.None?
  }

  /** The request is executed although its execution id has an evidence file already: its work is done and then refused. */
  predicate Wasted(s: State, r: Request) {
    Executes(s, r) && r.command.binding.executionId in s.evidence
  }

  /** How many requests under a key were wasted. */
  function WastedCalls(requests: seq<Request>, k: Key): nat
    decreases |requests|
  {
    if requests == [] then 0
    else
      var before, r := requests[..|requests| - 1], requests[|requests| - 1];
      WastedCalls(before, k) + if r.command.key == k && Wasted(Run(before), r) then 1 else 0
  }

  lemma PairedEnd(log: seq<AuditEvent>, a: AuditEvent)
    requires a.Started?
    ensures !Paired(log + [a])
  {
  }

  lemma StartAdded(log: seq<AuditEvent>, a: AuditEvent, id: ExecutionId)
    requires a.Started?
    ensures HasOutcome(log + [a], id) <==> HasOutcome(log, id)
  {
    if HasOutcome(log, id) {
      var j :| 0 <= j < |log| && !log[j].Started? && log[j].id == id;
      assert (log + [a])[j] == log[j];
    }
  }

  lemma PairedTwo(log: seq<AuditEvent>, a: AuditEvent, b: AuditEvent)
    requires a.Started? && !b.Started? && a.id == b.id
    ensures Paired(log + [a] + [b]) <==> Paired(log)
  {
    assert (log + [a] + [b])[..|log|] == log;
  }

  /** What one request adds to log and calls, whatever ids it uses. */
  lemma StepCounts(s: State, r: Request, k: Key)
    ensures var next := Step(s, r).0;
            && (Paired(next.log) <==> Paired(s.log) && !Wasted(s, r))
            && Calls(next.calls, k) == Calls(s.calls, k) + (if r.command.key == k && Executes(s, r) then 1 else 0)
  {
    hide Paired, Calls;
    if Executes(s, r) {
      var next := Step(s, r).0;
      OneMoreCall(s.calls, r.command.key, k);
      PairedEnd(s.log, Started(r.command.binding.executionId));
      if !Wasted(s, r) {
        PairedTwo(s.log, Started(r.command.binding.executionId), next.log[|next.log| - 1]);
      }
    }
  }

  lemma StepEvidenced(s: State, r: Request)
    requires Evidenced(s)
    ensures Evidenced(Step(s, r).0)
  {
    hide HasOutcome;
    if Executes(s, r) {
      var next := Step(s, r).0;
      var id := r.command.binding.executionId;
      forall e ensures e in next.evidence <==> HasOutcome(next.log, e) {
        StartAdded(s.log, Started(id), e);
        if !Wasted(s, r) {
          OutcomeAdded(s.log, Started(id), next.log[|next.log| - 1], e);
        }
      }
    }
  }

  lemma StepAccounts(s: State, r: Request, k: Key)
    ensures var next := Step(s, r).0;
            Calls(next.calls, k) - (if k in next.completed then 1 else 0)
            == Calls(s.calls, k) - (if k in s.completed then 1 else 0)
               + if r.command.key == k && Wasted(s, r) then 1 else 0
  {
    hide Paired, Calls;
    StepCounts(s, r, k);
  }

  lemma NothingEvidenced()
    ensures Evidenced(INITIAL)
  {
  }

  /**
   * Exact, for every run: a key causes one executor call if it has been answered, and one more for each wasted request
   * under it; and the evidence files are those of the executions with an outcome.
   */
  lemma {:induction false} CallsExactly(requests: seq<Request>, k: Key)
    ensures var s := Run(requests);
            && Calls(s.calls, k) == (if k in s.completed then 1 else 0) + WastedCalls(requests, k)
            && Evidenced(s)
    decreases |requests|
  {
    hide Step, Wasted, HasOutcome;
    NothingEvidenced();
    if requests != [] {
      CallsExactly(requests[..|requests| - 1], k);
      StepEvidenced(Run(requests[..|requests| - 1]), requests[|requests| - 1]);
      StepAccounts(Run(requests[..|requests| - 1]), requests[|requests| - 1], k);
    }
  }

  /** The audit log is starts each followed by one outcome if and only if no request was wasted. */
  lemma {:induction false} PairedIff(requests: seq<Request>)
    ensures Paired(Run(requests).log)
            <==> forall i :: 0 <= i < |requests| ==> !Wasted(Run(requests[..i]), requests[i])
    decreases |requests|
  {
    hide Step, Wasted, HasOutcome;
    if requests != [] {
      var before := requests[..|requests| - 1];
      PairedIff(before);
      StepCounts(Run(before), requests[|requests| - 1], "");
      forall i | 0 <= i < |before| ensures before[..i] == requests[..i] {
      }
      if forall i :: 0 <= i < |requests| ==> !Wasted(Run(requests[..i]), requests[i]) {
        forall i | 0 <= i < |before| ensures !Wasted(Run(before[..i]), before[i]) {
          assert !Wasted(Run(requests[..i]), requests[i]);
        }
        assert !Wasted(Run(requests[..|requests| - 1]), requests[|requests| - 1]);
      } else {
        var i :| 0 <= i < |requests| && Wasted(Run(requests[..i]), requests[i]);
        if i < |before| {
          assert Wasted(Run(before[..i]), before[i]);
        }
      }
    }
  }

  /** A run that breaks the rule: a second key under a used execution id is executed on every retry, unpaired. */
  lemma ReusedExecutionId()
    ensures var first := Request(Command("k1", Fingerprint("e", "a")), None, None, Succeeds("x"));
            var second := Request(Command("k2", Fingerprint("e", "a")), None, None, Succeeds("x"));
            var s := Run([first, second, second]);
            && Calls(s.calls, "k2") == 2
            && !Paired(s.log)
  {
    var first := Request(Command("k1", Fingerprint("e", "a")), None, None, Succeeds("x"));
    var second := Request(Command("k2", Fingerprint("e", "a")), None, None, Succeeds("x"));
    RunOne([], first);
    RunOne([first], second);
    RunOne([first, second], second);
    assert [] + [first] == [first];
    assert [first] + [second] == [first, second];
    assert [first, second] + [second] == [first, second, second];
    OneMoreCall([], "k1", "k2");
    OneMoreCall(["k1"], "k2", "k2");
    OneMoreCall(["k1", "k2"], "k2", "k2");
    assert [] + ["k1"] == ["k1"];
    assert ["k1"] + ["k2"] == ["k1", "k2"];
    assert Run([first, second, second]).log == [Started("e"), Succeeded("e"), Started("e"), Started("e")];
  }

  // -------------------------------------------------------------------------
  // Restarts
  // -------------------------------------------------------------------------

  /** How far an execution got before its process died: the started event, the executor's call, the evidence file. */
  datatype Stage = Logged | Called | Filed

  /** A request served, a restart between requests, or a process that dies in the middle of one and is restarted. */
  datatype Happening = Asked(r: Request) | Restarts | Died(r: Request, stage: Stage)

  /** What an execution leaves behind when its process dies in it. */
  function Interrupt(s: State, r: Request, stage: Stage): State {
    var id := r.command.binding.executionId;
    Forget(s).(log := s.log + [Started(id)],
               calls := if stage.Logged? then s.calls else s.calls + [r.command.key],
               evidence := if stage.Filed? then s.evidence + {id} else s.evidence)
  }

  function After(s: State, h: Happening): State {
    match h
    case Asked(r) => Step(s, r).0
    case Restarts => Forget(s)
    case Died(r, stage) => if Executes(s, r) then Interrupt(s, r, stage) else Forget(s)
  }

  function Life(happenings: seq<Happening>): State
    decreases |happenings|
  {
    if happenings == [] then INITIAL
    else After(Life(happenings[..|happenings| - 1]), happenings[|happenings| - 1])
  }

  function Served(requests: seq<Request>): seq<Happening>
    decreases |requests|
  {
    if requests == [] then [] else Served(requests[..|requests| - 1]) + [Asked(requests[|requests| - 1])]
  }

  /** A life without restarts is a run. */
  lemma {:induction false} ServedIsRun(requests: seq<Request>)
    ensures Life(Served(requests)) == Run(requests)
    decreases |requests|
  {
    hide Step;
    if requests != [] {
      var before := requests[..|requests| - 1];
      ServedIsRun(before);
      assert Served(requests)[..|Served(before)|] == Served(before);
    }
  }

  /** The executor is called under this key. */
  predicate CallsUnder(s: State, h: Happening, k: Key) {
    !h.Restarts? && h.r.command.key == k && Executes(s, h.r) && (h.Died? ==> !h.stage.Logged?)
  }

  /** The call is followed by an evidence file of its own. */
  predicate FilesUnder(s: State, h: Happening, k: Key) {
    CallsUnder(s, h, k) && (h.Died? ==> h.stage.Filed?) && h.r.command.binding.executionId !in s.evidence
  }

  /** The evidence files written by calls under a key. */
  function FilesOf(happenings: seq<Happening>, k: Key): set<ExecutionId>
    decreases |happenings|
  {
    if happenings == [] then {}
    else
      var before, h := happenings[..|happenings| - 1], happenings[|happenings| - 1];
      FilesOf(before, k) + if FilesUnder(Life(before), h, k) then {h.r.command.binding.executionId} else {}
  }

  /** How many calls under a key left no evidence file of their own. */
  function Unfiled(happenings: seq<Happening>, k: Key): nat
    decreases |happenings|
  {
    if happenings == [] then 0
    else
      var before, h := happenings[..|happenings| - 1], happenings[|happenings| - 1];
      Unfiled(before, k) + if CallsUnder(Life(before), h, k) && !FilesUnder(Life(before), h, k) then 1 else 0
  }

  lemma AfterCounts(s: State, h: Happening, k: Key)
    ensures var next := After(s, h);
            && Calls(next.calls, k) == Calls(s.calls, k) + (if CallsUnder(s, h, k) then 1 else 0)
            && s.evidence <= next.evidence
            && forall id :: id in next.evidence <==>
                 id in s.evidence
                 || (!h.Restarts? && FilesUnder(s, h, h.r.command.key) && id == h.r.command.binding.executionId)
  {
    hide Calls;
    if h.Asked? {
      StepCounts(s, h.r, k);
    } else if h.Died? {
      OneMoreCall(s.calls, h.r.command.key, k);
    }
  }

  /**
   * Exact, over every life with restarts and deaths at any stage: a key causes as many executor calls as it has evidence
   * files, plus one for each call that was interrupted before its file or was made under an id that had one already.
   */
  lemma {:induction false} CallsOverRestarts(happenings: seq<Happening>, k: Key)
    ensures var s := Life(happenings);
            && Calls(s.calls, k) == |FilesOf(happenings, k)| + Unfiled(happenings, k)
            && FilesOf(happenings, k) <= s.evidence
    decreases |happenings|
  {
    hide After, CallsUnder, FilesUnder, Calls;
    if happenings == [] {
      NoCalls(k);
    } else {
      var before, h := happenings[..|happenings| - 1], happenings[|happenings| - 1];
      CallsOverRestarts(before, k);
      AfterCounts(Life(before), h, k);
      FileIsFresh(Life(before), h, k);
    }
  }

  lemma NoCalls(k: Key)
    ensures Calls([], k) == 0
  {
  }

  lemma FileIsFresh(s: State, h: Happening, k: Key)
    ensures FilesUnder(s, h, k) ==>
              && CallsUnder(s, h, k) && !h.Restarts? && h.r.command.key == k
              && h.r.command.binding.executionId !in s.evidence
  {
  }

  /** Every evidence file was written by a call under some key. */
  lemma {:induction false} EvidenceIsFiled(happenings: seq<Happening>, id: ExecutionId) returns (k: Key)
    requires id in Life(happenings).evidence
    ensures id in FilesOf(happenings, k)
    decreases |happenings|
  {
    hide After, CallsUnder, FilesUnder, Calls;
    var before, h := happenings[..|happenings| - 1], happenings[|happenings| - 1];
    AfterCounts(Life(before), h, "");
    if id in Life(before).evidence {
      k := EvidenceIsFiled(before, id);
    } else {
      k := h.r.command.key;
    }
  }

  /** No two keys share one. */
  lemma {:induction false} FilesAreApart(happenings: seq<Happening>, j: Key, k: Key)
    requires j != k
    ensures FilesOf(happenings, j) !! FilesOf(happenings, k)
    decreases |happenings|
  {
    hide After, CallsUnder, FilesUnder, Calls, Life;
    if happenings != [] {
      var before, h := happenings[..|happenings| - 1], happenings[|happenings| - 1];
      FilesAreApart(before, j, k);
      CallsOverRestarts(before, j);
      CallsOverRestarts(before, k);
      FileIsFresh(Life(before), h, j);
      FileIsFresh(Life(before), h, k);
    }
  }

  /** What is in the cache has its evidence file. */
  lemma {:induction false} CompletedIsFiled(happenings: seq<Happening>, k: Key)
    ensures var s := Life(happenings);
            k in s.completed ==> s.completed[k].binding.executionId in s.evidence
    decreases |happenings|
  {
    if happenings != [] {
      CompletedIsFiled(happenings[..|happenings| - 1], k);
    }
  }

  /**
   * A key that has been answered, asked again: the same process does not call the executor, and after a restart the call is
   * repeated if and only if the request is still timely. If it is the same command it then fails, because its evidence file
   * is there, and is repeated on every further retry.
   */
  lemma RestartRepeatsIff(happenings: seq<Happening>, r: Request)
    requires r.rejected.None? && r.command.key in Life(happenings).completed
    ensures var s, restarted := Life(happenings), Life(happenings + [Restarts]);
            var (again, response) := Step(restarted, r);
            && Step(s, r).0 == s
            && restarted.calls == s.calls
            && Calls(again.calls, r.command.key) == Calls(s.calls, r.command.key) + (if r.untimely.None? then 1 else 0)
            && (r.untimely.None? && r.command.binding == s.completed[r.command.key].binding ==>
                  response == Failure(EvidenceWriteError) && Wasted(again, r))
  {
    hide Calls;
    assert (happenings + [Restarts])[..|happenings|] == happenings;
    CompletedIsFiled(happenings, r.command.key);
    StepCounts(Life(happenings + [Restarts]), r, r.command.key);
  }

  /** The happening leaves a started event that no outcome follows. */
  predicate LeavesOpen(s: State, h: Happening) {
    match h
    case Asked(r) => Wasted(s, r)
    case Restarts => false
    case Died(r, _) => Executes(s, r)
  }

  ghost predicate NoneOpen(happenings: seq<Happening>) {
    forall i :: 0 <= i < |happenings| ==> !LeavesOpen(Life(happenings[..i]), happenings[i])
  }

  lemma NoneOpenSnoc(before: seq<Happening>, h: Happening)
    ensures NoneOpen(before + [h]) <==> NoneOpen(before) && !LeavesOpen(Life(before), h)
  {
    hide Life, LeavesOpen;
    var all := before + [h];
    assert all[..|before|] == before;
    assert forall i :: 0 <= i < |before| ==> all[..i] == before[..i];
    if NoneOpen(all) {
      forall i | 0 <= i < |before| ensures !LeavesOpen(Life(before[..i]), before[i]) {
        assert !LeavesOpen(Life(all[..i]), all[i]);
      }
      assert !LeavesOpen(Life(all[..|before|]), all[|before|]);
    }
  }

  /** Over every life the log is starts each followed by one outcome exactly if no request was wasted and none interrupted. */
  lemma {:induction false} PairedOverRestarts(happenings: seq<Happening>)
    ensures Paired(Life(happenings).log) <==> NoneOpen(happenings)
    decreases |happenings|
  {
    if happenings == [] {
      NothingPaired();
    } else {
      hide After, LeavesOpen, Paired, NoneOpen;
      var before, h := happenings[..|happenings| - 1], happenings[|happenings| - 1];
      assert before + [h] == happenings;
      PairedOverRestarts(before);
      AfterPaired(Life(before), h);
      NoneOpenSnoc(before, h);
    }
  }

  lemma NothingPaired()
    ensures Paired([])
  {
  }

  lemma AfterPaired(s: State, h: Happening)
    ensures Paired(After(s, h).log) <==> Paired(s.log) && !LeavesOpen(s, h)
  {
    hide Paired, Calls;
    if h.Asked? {
      StepCounts(s, h.r, "");
    } else if h.Died? {
      PairedEnd(s.log, Started(h.r.command.binding.executionId));
    }
  }
}
