/**
 * Hash-guarded file mutation with a backup per execution id, and exact rollback. The digest is injective, so a content
 * stands for its own hash.
 */
module FileMutation {

  datatype Option<+T> = None | Some(value: T)

  type Bytes = seq<nat>

  type Path(==, !new)

  type Id(==, !new)

  datatype Operation = WriteFile | ApplyPatch | RollbackFileChange

  /** What a backup directory holds: the target, the content before, and the hash of the content after. */
  datatype Backup = Backup(path: Path, operation: Operation, before: Option<Bytes>, after: Option<Bytes>)

  datatype State = State(files: map<Path, Bytes>, backups: map<Id, Backup>)

  datatype Error = PreconditionFailed | PatchRejected | RollbackRejected

  datatype Outcome = Done(before: Option<Bytes>, after: Option<Bytes>) | Failed(error: Error)

  const MAX_MUTATION_BYTES := 1024 * 1024

  // -------------------------------------------------------------------------
  // UTF-8
  // -------------------------------------------------------------------------

  predicate Continuation(b: nat) {
    0x80 <= b <= 0xBF
  }

  /** The length of the well-formed character at the front, or 0 if there is none (RFC 3629, section 4). */
  function CharLength(s: Bytes): nat
    requires s != []
  {
    var b := s[0];
    if b <= 0x7F then 1
    else if |s| >= 2 && 0xC2 <= b <= 0xDF && Continuation(s[1]) then 2
    else if |s| >= 3 && 0xE0 <= b <= 0xEF && Continuation(s[1]) && Continuation(s[2])
            && (b == 0xE0 ==> s[1] >= 0xA0) && (b == 0xED ==> s[1] <= 0x9F) then 3
    else if |s| >= 4 && 0xF0 <= b <= 0xF4 && Continuation(s[1]) && Continuation(s[2]) && Continuation(s[3])
            && (b == 0xF0 ==> s[1] >= 0x90) && (b == 0xF4 ==> s[1] <= 0x8F) then 4
    else 0
  }

  predicate Utf8(s: Bytes) {
    s == [] || (var n := CharLength(s); 0 < n <= |s| && Utf8(s[n..]))
  }

  // -------------------------------------------------------------------------
  // The operations
  // -------------------------------------------------------------------------

  function Content(files: map<Path, Bytes>, path: Path): Option<Bytes> {
    if path in files then Some(files[path]) else None
  }

  predicate Readable(files: map<Path, Bytes>, path: Path) {
    path in files && |files[path]| <= MAX_MUTATION_BYTES
  }

  /** Replace or create a file under a hash precondition. The report is made after the file has been replaced. */
  function Replace(
    st: State, id: Id, path: Path, expected: Option<Bytes>, replacement: Bytes, operation: Operation): (State, Outcome)
  {
    var before := Content(st.files, path);
    if before.Some? && |before.value| > MAX_MUTATION_BYTES then (st, Failed(PreconditionFailed))
    else if expected != before then (st, Failed(PreconditionFailed))
    else if id in st.backups then (st, Failed(RollbackRejected))
    else
      var next := State(st.files[path := replacement],
                        st.backups[id := Backup(path, operation, before, Some(replacement))]);
      (next, if before.Some? && !Utf8(before.value) then Failed(PreconditionFailed) else Done(before, Some(replacement)))
  }

  function Write(st: State, id: Id, path: Path, expected: Option<Bytes>, content: Bytes): (State, Outcome) {
    if |content| > MAX_MUTATION_BYTES then (st, Failed(PreconditionFailed))
    else Replace(st, id, path, expected, content, WriteFile)
  }

  /** `patch` is what the unified diff makes of a text, if it applies. */
  function Patch(st: State, id: Id, path: Path, expected: Bytes, patch: Bytes -> Option<Bytes>): (State, Outcome) {
    if !Readable(st.files, path) || st.files[path] != expected then (st, Failed(PreconditionFailed))
    else if !Utf8(st.files[path]) then (st, Failed(PatchRejected))
    else
      var patched := patch(st.files[path]);
      if patched.None? || |patched.value| > MAX_MUTATION_BYTES then (st, Failed(PatchRejected))
      else Replace(st, id, path, Some(expected), patched.value, ApplyPatch)
  }

  /** Undo the change behind a backup if the file still is what that change made of it. */
  function Rollback(st: State, id: Id, path: Path, backup: Id, expected: Bytes): (State, Outcome) {
    if backup !in st.backups then (st, Failed(RollbackRejected))
    else
      var b := st.backups[backup];
      if b.before.Some? && |b.before.value| > MAX_MUTATION_BYTES then (st, Failed(RollbackRejected))
      else if b.path != path || b.after != Some(expected) then (st, Failed(RollbackRejected))
      else if !Readable(st.files, path) then (st, Failed(PreconditionFailed))
      else if st.files[path] != expected then (st, Failed(RollbackRejected))
      else if id in st.backups then (st, Failed(RollbackRejected))
      else
        (State(if b.before.Some? then st.files[path := b.before.value] else st.files - {path},
               st.backups[id := Backup(path, RollbackFileChange, Some(expected), b.before)]),
         Done(Some(expected), b.before))
  }

  datatype Request =
    | Writing(id: Id, path: Path, expected: Option<Bytes>, content: Bytes)
    | Patching(id: Id, path: Path, hash: Bytes, patch: Bytes -> Option<Bytes>)
    | RollingBack(id: Id, path: Path, backup: Id, hash: Bytes)

  function Step(st: State, r: Request): (State, Outcome) {
    match r
    case Writing(id, path, expected, content) => Write(st, id, path, expected, content)
    case Patching(id, path, hash, patch) => Patch(st, id, path, hash, patch)
    case RollingBack(id, path, backup, hash) => Rollback(st, id, path, backup, hash)
  }

  // -------------------------------------------------------------------------
  // One request
  // -------------------------------------------------------------------------

  /**
   * Either a request changes nothing and fails, or it leaves a backup under its fresh id that holds the exact content
   * before and after, and no other file and no other backup is touched.
   */
  lemma BackupIsPreImage(st: State, r: Request)
    ensures var (next, outcome) := Step(st, r);
            || (next == st && outcome.Failed?)
            || (&& r.id !in st.backups
                && r.id in next.backups
                && next.backups == st.backups[r.id := next.backups[r.id]]
                && next.backups[r.id].path == r.path
                && next.backups[r.id].before == Content(st.files, r.path)
                && next.backups[r.id].after == Content(next.files, r.path)
                && forall x :: x != r.path ==> Content(next.files, x) == Content(st.files, x))
  {
    hide Utf8;
  }

  /** An execution id that has been used changes nothing any more. */
  lemma UsedIdChangesNothing(st: State, r: Request)
    requires r.id in st.backups
    ensures Step(st, r).0 == st && Step(st, r).1.Failed?
  {
    hide Utf8;
  }

  /**
   * Exactly when a request fails and has nevertheless replaced the file: a write passed every guard over a content that
   * is not UTF-8. A patch or a rollback never does this.
   */
  lemma FailedButReplacedIff(st: State, r: Request)
    ensures var (next, outcome) := Step(st, r);
            (outcome.Failed? && next != st) <==>
            && r.Writing? && r.expected.Some?
            && |r.content| <= MAX_MUTATION_BYTES
            && Readable(st.files, r.path) && st.files[r.path] == r.expected.value
            && r.id !in st.backups
            && !Utf8(st.files[r.path])
  {
    hide Utf8;
    var (next, _) := Step(st, r);
    if next != st {
      BackupIsPreImage(st, r);
    }
    if r.id !in st.backups && r.id in next.backups {
      assert next.backups != st.backups;
    }
  }

  /** A write over a byte that no UTF-8 text contains is reported as failed, and done. */
  lemma FailedButReplaced(id: Id, path: Path)
    ensures var st := State(map[path := [0xFF]], map[]);
            Step(st, Writing(id, path, Some([0xFF]), [0x61])) ==
            (State(map[path := [0x61]], map[id := Backup(path, WriteFile, Some([0xFF]), Some([0x61]))]),
             Failed(PreconditionFailed))
  {
    var files := map[path := [0xFF]];
    assert files[path := [0x61]] == map[path := [0x61]];
    assert CharLength([0xFF]) == 0;
  }

  /**
   * Rolling back a rollback redoes the change exactly if that rollback restored a content; one that removed a created
   * file cannot be rolled back.
   */
  lemma RollbackOfRollback(st: State, first: Id, path: Path, backup: Id, expected: Bytes, second: Id, hash: Bytes)
    requires Rollback(st, first, path, backup, expected).1.Done?
    requires second != first && second !in st.backups
    ensures var (undone, outcome) := Rollback(st, first, path, backup, expected);
            var (redone, again) := Rollback(undone, second, path, first, hash);
            && (again.Done? <==> outcome.after == Some(hash))
            && (again.Done? ==> redone.files == st.files)
            && (again.Failed? ==> redone == undone)
  {
  }

  // -------------------------------------------------------------------------
  // Runs
  // -------------------------------------------------------------------------

  function Run(st: State, requests: seq<Request>): State
    decreases |requests|
  {
    if requests == [] then st else Run(Step(st, requests[0]).0, requests[1..])
  }

  /** How many of the requests of an id changed something. */
  function Changes(st: State, requests: seq<Request>, id: Id): nat
    decreases |requests|
  {
    if requests == [] then 0
    else
      var next := Step(st, requests[0]).0;
      (if requests[0].id == id && next != st then 1 else 0) + Changes(next, requests[1..], id)
  }

  /** In every run an execution id replaces or removes a file at most once, and not at all if it was used before. */
  lemma {:induction false} IdActsOnce(st: State, requests: seq<Request>, id: Id)
    ensures Changes(st, requests, id) <= if id in st.backups then 0 else 1
    decreases |requests|
  {
    hide Step;
    if requests != [] {
      var next := Step(st, requests[0]).0;
      BackupIsPreImage(st, requests[0]);
      IdActsOnce(next, requests[1..], id);
      if requests[0].id == id && id in st.backups {
        UsedIdChangesNothing(st, requests[0]);
      }
    }
  }

  /** Writes and patches of one file, all of them successful. */
  ghost predicate AllDone(st: State, requests: seq<Request>, path: Path)
    decreases |requests|
  {
    requests == [] ||
    (&& !requests[0].RollingBack? && requests[0].path == path
     && Step(st, requests[0]).1.Done?
     && AllDone(Step(st, requests[0]).0, requests[1..], path))
  }

  /** Roll the changes of the requests back in reverse order, each under its own id; the flag tells whether all worked. */
  function Undo(st: State, requests: seq<Request>, ids: seq<Id>, path: Path): (State, bool)
    requires |ids| == |requests|
    decreases |requests|
  {
    if requests == [] then (st, true)
    else
      var (rest, ok) := Undo(st, requests[1..], ids[1..], path);
      var backup := requests[0].id;
      if !ok || backup !in rest.backups || rest.backups[backup].after.None? then (rest, false)
      else
        var (next, outcome) := Rollback(rest, ids[0], path, backup, rest.backups[backup].after.value);
        (next, outcome.Done?)
  }

  predicate Distinct(ids: seq<Id>) {
    forall i, j :: 0 <= i < j < |ids| ==> ids[i] != ids[j]
  }

  predicate Unused(ids: seq<Id>, backups: map<Id, Backup>) {
    forall i :: 0 <= i < |ids| ==> ids[i] !in backups
  }

  /** Backups only accumulate. */
  predicate Extends(st: State, next: State) {
    forall id :: id in st.backups ==> id in next.backups && next.backups[id] == st.backups[id]
  }

  /** What a run leaves of the state it starts from. */
  lemma {:induction false} RunExtends(st: State, requests: seq<Request>)
    ensures Extends(st, Run(st, requests))
    decreases |requests|
  {
    hide Step;
    if requests != [] {
      BackupIsPreImage(st, requests[0]);
      RunExtends(Step(st, requests[0]).0, requests[1..]);
    }
  }

  /** A successful write or patch: what it leaves, and that its rollback is possible while the file stays as it is. */
  lemma DoneChange(st: State, r: Request)
    requires !r.RollingBack? && Step(st, r).1.Done?
    ensures var next := Step(st, r).0;
            && r.id in next.backups && next.backups[r.id].path == r.path
            && next.backups[r.id].before == Content(st.files, r.path)
            && next.backups[r.id].after == Content(next.files, r.path)
            && Readable(next.files, r.path)
            && (r.path in st.files ==> Readable(st.files, r.path))
            && next.files == st.files[r.path := next.files[r.path]]
  {
    hide Utf8;
  }

  lemma RollbackGoes(st: State, id: Id, path: Path, backup: Id)
    requires backup in st.backups && st.backups[backup].path == path && id !in st.backups
    requires Readable(st.files, path) && st.backups[backup].after == Some(st.files[path])
    requires st.backups[backup].before.Some? ==> |st.backups[backup].before.value| <= MAX_MUTATION_BYTES
    ensures var (next, outcome) := Rollback(st, id, path, backup, st.files[path]);
            var before := st.backups[backup].before;
            && outcome.Done?
            && next.files == (if before.Some? then st.files[path := before.value] else st.files - {path})
            && Extends(st, next)
            && forall x :: x in next.backups ==> x in st.backups || x == id
  {
  }

  lemma Restored(files: map<Path, Bytes>, path: Path, content: Bytes)
    ensures path in files ==> files[path := content][path := files[path]] == files
    ensures path !in files ==> files[path := content] - {path} == files
  {
  }

  /**
   * Any sequence of successful writes and patches of one file can be rolled back in reverse order under fresh ids: every
   * rollback succeeds, and the file system is exactly what it was, including the absence of the file.
   */
  lemma {:induction false} UndoRestores(st: State, requests: seq<Request>, ids: seq<Id>, path: Path)
    requires AllDone(st, requests, path) && |ids| == |requests|
    requires Distinct(ids) && Unused(ids, Run(st, requests).backups)
    ensures var changed := Run(st, requests);
            var (restored, ok) := Undo(changed, requests, ids, path);
            && ok && restored.files == st.files
            && Extends(changed, restored)
            && forall id :: id in restored.backups ==> id in changed.backups || id in ids
    decreases |requests|
  {
    hide Step, Rollback;
    if requests != [] {
      var r, rest := requests[0], requests[1..];
      var first := Step(st, r).0;
      var changed := Run(st, requests);
      UndoRestores(first, rest, ids[1..], path);
      var (mid, _) := Undo(changed, rest, ids[1..], path);
      DoneChange(st, r);
      RunExtends(first, rest);
      assert forall i :: 0 <= i < |ids[1..]| ==> ids[1..][i] == ids[i + 1];
      assert ids[0] !in ids[1..];
      RollbackGoes(mid, ids[0], path, r.id);
      Restored(st.files, path, first.files[path]);
    }
  }

  // -------------------------------------------------------------------------
  // Undoing one file among others
  // -------------------------------------------------------------------------

  /**
   * Requests on any files, among which those on `path` are changes and, from the last one not yet undone on, their
   * rollbacks: each under a fresh id and with the content the file has. `open` are the changes that are not undone yet. A
   * change that fails without touching the file may come in between.
   */
  ghost predicate Nested(st: State, requests: seq<Request>, path: Path, open: seq<Id>)
    decreases |requests|
  {
    if requests == [] then open == []
    else
      var r := requests[0];
      var (next, outcome) := Step(st, r);
      if r.path != path then Nested(next, requests[1..], path, open)
      else if r.RollingBack? then
        && open != [] && r.backup == open[|open| - 1]
        && r.id !in st.backups && Content(st.files, path) == Some(r.hash)
        && Nested(next, requests[1..], path, open[..|open| - 1])
      else if outcome.Done? then Nested(next, requests[1..], path, open + [r.id])
      else next == st && Nested(next, requests[1..], path, open)
  }

  /** The backups of the open changes lead from the content the file has now back to what it was. */
  predicate Traces(backups: map<Id, Backup>, open: seq<Id>, path: Path, was: Option<Bytes>, now: Option<Bytes>)
    decreases |open|
  {
    if open == [] then now == was
    else
      var id := open[|open| - 1];
      && id in backups && backups[id].path == path && backups[id].after == now
      && now.Some? && |now.value| <= MAX_MUTATION_BYTES
      && (backups[id].before.Some? ==> |backups[id].before.value| <= MAX_MUTATION_BYTES)
      && Traces(backups, open[..|open| - 1], path, was, backups[id].before)
  }

  lemma {:induction false} TracesExtend(
    st: State, next: State, open: seq<Id>, path: Path, was: Option<Bytes>, now: Option<Bytes>)
    requires Traces(st.backups, open, path, was, now) && Extends(st, next)
    ensures Traces(next.backups, open, path, was, now)
    decreases |open|
  {
    if open != [] {
      TracesExtend(st, next, open[..|open| - 1], path, was, st.backups[open[|open| - 1]].before);
    }
  }

  /** Every rollback of the file succeeds. */
  ghost predicate AllUndone(st: State, requests: seq<Request>, path: Path)
    decreases |requests|
  {
    requests == [] ||
    (&& (requests[0].path == path && requests[0].RollingBack? ==> Step(st, requests[0]).1.Done?)
     && AllUndone(Step(st, requests[0]).0, requests[1..], path))
  }

  /** One request of a nested run: what it makes of the open changes, and that a rollback succeeds. */
  lemma NestedStep(st: State, r: Request, path: Path, open: seq<Id>, was: Option<Bytes>)
    requires Traces(st.backups, open, path, was, Content(st.files, path))
    ensures var (next, outcome) := Step(st, r);
            && (r.path != path ==> Traces(next.backups, open, path, was, Content(next.files, path)))
            && (r.path == path && r.RollingBack? && open != [] && r.backup == open[|open| - 1]
                && r.id !in st.backups && Content(st.files, path) == Some(r.hash) ==>
                  && outcome.Done?
                  && Traces(next.backups, open[..|open| - 1], path, was, Content(next.files, path)))
            && (r.path == path && !r.RollingBack? && outcome.Done? ==>
                  Traces(next.backups, open + [r.id], path, was, Content(next.files, path)))
  {
    hide Traces, Step;
    var (next, outcome) := Step(st, r);
    BackupIsPreImage(st, r);
    TracesExtend(st, next, open, path, was, Content(st.files, path));
    if r.path == path && r.RollingBack? && open != [] && r.backup == open[|open| - 1] {
      Popped(st, r, path, open, was);
    } else if r.path == path && !r.RollingBack? && outcome.Done? {
      DoneChange(st, r);
      Pushed(next.backups, open, r.id, path, was, Content(st.files, path), Content(next.files, path));
    }
  }

  lemma Pushed(
    backups: map<Id, Backup>, open: seq<Id>, id: Id, path: Path, was: Option<Bytes>, before: Option<Bytes>,
    now: Option<Bytes>)
    requires Traces(backups, open, path, was, before) && id in backups && backups[id].path == path
    requires backups[id].before == before && backups[id].after == now
    requires now.Some? && |now.value| <= MAX_MUTATION_BYTES
    requires before.Some? ==> |before.value| <= MAX_MUTATION_BYTES
    ensures Traces(backups, open + [id], path, was, now)
  {
    assert (open + [id])[..|open|] == open;
  }

  lemma Popped(st: State, r: Request, path: Path, open: seq<Id>, was: Option<Bytes>)
    requires Traces(st.backups, open, path, was, Content(st.files, path)) && open != []
    requires r.RollingBack? && r.path == path && r.backup == open[|open| - 1]
    ensures var (next, outcome) := Step(st, r);
            r.id !in st.backups && Content(st.files, path) == Some(r.hash) ==>
              && outcome.Done?
              && Traces(next.backups, open[..|open| - 1], path, was, Content(next.files, path))
  {
    if r.id !in st.backups && Content(st.files, path) == Some(r.hash) {
      RollbackGoes(st, r.id, path, r.backup);
      TracesExtend(st, Step(st, r).0, open[..|open| - 1], path, was, st.backups[r.backup].before);
    }
  }

  lemma {:induction false} NestedRestores(
    st: State, requests: seq<Request>, path: Path, open: seq<Id>, was: Option<Bytes>)
    requires Nested(st, requests, path, open) && Traces(st.backups, open, path, was, Content(st.files, path))
    ensures AllUndone(st, requests, path)
    ensures Content(Run(st, requests).files, path) == was
    decreases |requests|
  {
    hide Step, Traces;
    if requests == [] {
      NothingOpen(st, path, was);
    } else {
      var r, rest := requests[0], requests[1..];
      var next := Step(st, r).0;
      NestedStep(st, r, path, open, was);
      if r.path != path {
        NestedRestores(next, rest, path, open, was);
      } else if r.RollingBack? {
        NestedRestores(next, rest, path, open[..|open| - 1], was);
      } else if Step(st, r).1.Done? {
        NestedRestores(next, rest, path, open + [r.id], was);
      } else {
        NestedRestores(next, rest, path, open, was);
      }
    }
  }

  lemma NothingOpen(st: State, path: Path, was: Option<Bytes>)
    ensures Traces(st.backups, [], path, was, Content(st.files, path)) <==> Content(st.files, path) == was
  {
  }

  /** The requests on other files. */
  function Others(requests: seq<Request>, path: Path): seq<Request> {
    if requests == [] then []
    else (if requests[0].path == path then [] else [requests[0]]) + Others(requests[1..], path)
  }

  /** The ids in `mine` are exactly those of the requests on `path`. */
  ghost predicate OwnIds(requests: seq<Request>, path: Path, mine: set<Id>) {
    forall i :: 0 <= i < |requests| ==> (requests[i].path == path <==> requests[i].id in mine)
  }

  /** `a` and `b` differ in nothing but `path` and the backups of changes of it. */
  ghost predicate Alike(a: State, b: State, path: Path, mine: set<Id>) {
    && (forall x :: x != path ==> Content(a.files, x) == Content(b.files, x))
    && Extends(b, a)
    && forall id :: id in a.backups && id !in b.backups ==> id in mine && a.backups[id].path == path
  }

  /** A request on another file does the same in both. */
  lemma OtherSame(a: State, b: State, r: Request, path: Path, mine: set<Id>)
    requires Alike(a, b, path, mine) && r.path != path && r.id !in mine
    ensures var (na, outcome) := Step(a, r);
            var nb := Step(b, r).0;
            && Step(b, r).1 == outcome
            && if r.id in b.backups || r.id !in nb.backups then na == a && nb == b
               else r.id !in a.backups && r.id in na.backups && na.backups[r.id] == nb.backups[r.id]
  {
    hide Utf8;
    assert Content(a.files, r.path) == Content(b.files, r.path);
    assert r.id in a.backups <==> r.id in b.backups;
  }

  lemma OtherAlike(a: State, b: State, r: Request, path: Path, mine: set<Id>)
    requires Alike(a, b, path, mine) && r.path != path && r.id !in mine
    ensures Step(a, r).1 == Step(b, r).1 && Alike(Step(a, r).0, Step(b, r).0, path, mine)
  {
    hide Step;
    OtherSame(a, b, r, path, mine);
    BackupIsPreImage(a, r);
    BackupIsPreImage(b, r);
  }

  /** A request on the file itself makes no other difference. */
  lemma OwnAlike(a: State, b: State, r: Request, path: Path, mine: set<Id>)
    requires Alike(a, b, path, mine) && r.path == path && r.id in mine
    ensures Alike(Step(a, r).0, b, path, mine)
  {
    hide Step;
    BackupIsPreImage(a, r);
  }

  lemma {:induction false} OthersUntouched(a: State, b: State, requests: seq<Request>, path: Path, mine: set<Id>)
    requires Alike(a, b, path, mine) && OwnIds(requests, path, mine)
    ensures Alike(Run(a, requests), Run(b, Others(requests, path)), path, mine)
    decreases |requests|
  {
    hide Step, Alike;
    if requests != [] {
      var r, rest := requests[0], requests[1..];
      assert OwnIds(rest, path, mine);
      if r.path == path {
        OwnAlike(a, b, r, path, mine);
        OthersUntouched(Step(a, r).0, b, rest, path, mine);
        assert Others(requests, path) == Others(rest, path);
      } else {
        OtherAlike(a, b, r, path, mine);
        OthersUntouched(Step(a, r).0, Step(b, r).0, rest, path, mine);
        assert Others(requests, path)[1..] == Others(rest, path);
      }
    }
  }

  /**
   * Changes of one file and their rollbacks, nested in each other and interleaved with any requests on other files, in any
   * order: every rollback succeeds, the file ends as it began, present or absent, and, if no two requests on different files
   * share an id, every other file is what the other requests alone would have made of it.
   */
  lemma InterleavedUndoRestores(st: State, requests: seq<Request>, path: Path, mine: set<Id>)
    requires Nested(st, requests, path, [])
    ensures AllUndone(st, requests, path)
    ensures Content(Run(st, requests).files, path) == Content(st.files, path)
    ensures OwnIds(requests, path, mine) ==>
              forall x :: x != path ==>
                Content(Run(st, requests).files, x) == Content(Run(st, Others(requests, path)).files, x)
  {
    hide Run, Step, Traces, Nested;
    NothingOpen(st, path, Content(st.files, path));
    NestedRestores(st, requests, path, [], Content(st.files, path));
    if OwnIds(requests, path, mine) {
      OthersUntouched(st, st, requests, path, mine);
    }
  }

  // -------------------------------------------------------------------------
  // The executor
  // -------------------------------------------------------------------------

  class FileMutationExecutor {
    var files: map<Path, Bytes>
    var backups: map<Id, Backup>

    ghost function Contents(): State
      reads this
    {
      State(files, backups)
    }

    constructor (files: map<Path, Bytes>)
      ensures Contents() == State(files, map[])
    {
      this.files, backups := files, map[];
    }

    /** Create the backup directory of an execution; an existing one is never reused. */
    method StoreBackup(id: Id, backup: Backup) returns (stored: bool)
      modifies this`backups
      ensures stored <==> id !in old(backups)
      ensures backups == if stored then old(backups)[id := backup] else old(backups)
    {
      stored := id !in backups;
      if stored {
        backups := backups[id := backup];
      }
    }

    method ReplaceFile(id: Id, path: Path, expected: Option<Bytes>, replacement: Bytes, operation: Operation)
      returns (outcome: Outcome)
      modifies this
      ensures (Contents(), outcome) == Replace(old(Contents()), id, path, expected, replacement, operation)
    {
      var before := None;
      if path in files {
        if |files[path]| > MAX_MUTATION_BYTES {
          return Failed(PreconditionFailed);
        }
        before := Some(files[path]);
      }
      if expected != before {
        return Failed(PreconditionFailed);
      }
      var stored := StoreBackup(id, Backup(path, operation, before, Some(replacement)));
      if !stored {
        return Failed(RollbackRejected);
      }
      files := files[path := replacement];
      if before.Some? && !Utf8(before.value) {
        return Failed(PreconditionFailed);
      }
      outcome := Done(before, Some(replacement));
    }

    method WriteContent(id: Id, path: Path, expected: Option<Bytes>, content: Bytes) returns (outcome: Outcome)
      modifies this
      ensures (Contents(), outcome) == Write(old(Contents()), id, path, expected, content)
    {
      if |content| > MAX_MUTATION_BYTES {
        return Failed(PreconditionFailed);
      }
      outcome := ReplaceFile(id, path, expected, content, WriteFile);
    }

    method PatchContent(id: Id, path: Path, expected: Bytes, patch: Bytes -> Option<Bytes>) returns (outcome: Outcome)
      modifies this
      ensures (Contents(), outcome) == Patch(old(Contents()), id, path, expected, patch)
    {
      if path !in files || |files[path]| > MAX_MUTATION_BYTES || files[path] != expected {
        return Failed(PreconditionFailed);
      }
      if !Utf8(files[path]) {
        return Failed(Error.PatchRejected);
      }
      var patched := patch(files[path]);
      if patched.None? || |patched.value| > MAX_MUTATION_BYTES {
        return Failed(Error.PatchRejected);
      }
      outcome := ReplaceFile(id, path, Some(expected), patched.value, ApplyPatch);
    }

    method RollbackChange(id: Id, path: Path, backup: Id, expected: Bytes) returns (outcome: Outcome)
      modifies this
      ensures (Contents(), outcome) == Rollback(old(Contents()), id, path, backup, expected)
    {
      if backup !in backups {
        return Failed(RollbackRejected);
      }
      var b := backups[backup];
      if b.before.Some? && |b.before.value| > MAX_MUTATION_BYTES {
        return Failed(RollbackRejected);
      }
      if b.path != path || b.after != Some(expected) {
        return Failed(RollbackRejected);
      }
      if path !in files || |files[path]| > MAX_MUTATION_BYTES {
        return Failed(PreconditionFailed);
      }
      if files[path] != expected {
        return Failed(RollbackRejected);
      }
      var stored := StoreBackup(id, Backup(path, RollbackFileChange, Some(files[path]), b.before));
      if !stored {
        return Failed(RollbackRejected);
      }
      if b.before.Some? {
        files := files[path := b.before.value];
      } else {
        files := files - {path};
      }
      outcome := Done(Some(expected), b.before);
    }
  }
}
