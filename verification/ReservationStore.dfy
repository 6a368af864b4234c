/**
 * The reservation file: every read and every change runs under an exclusive lock, a change is applied to the committed
 * document, the old document is backed up, and the new one is written to a temporary file that replaces the old one.
 * A process may die between any two of these steps.
 */
module ReservationStore {
  import opened SalonBooking

  datatype Document = Document(version: nat, items: seq<Reservation>)

  /** What a file holds: a document, or a write that has not been finished. */
  datatype Content = Whole(document: Document) | Torn

  datatype Operation =
    | Creating(r: Request, checkedAt: int, id: string, now: int)
    | Cancelling(code: string, phone: string, now: int)
    | Modifying(code: string, phone: string, starts: int, service: Option<string>, staff: Option<string>, now: int)
    | Listing

  type TempId = nat

  /** How far the process that holds the lock has come. */
  datatype Phase =
    | Entered
    | FirstTorn(temp: TempId)
    | FirstWritten(temp: TempId)
    | Opened
    | Mutated(next: Document)
    | BackingUp(next: Document)
    | BackedUp(next: Document)
    | NextTorn(next: Document, temp: TempId)
    | NextWritten(next: Document, temp: TempId)
    | Committed

  datatype Holder = Holder(op: Operation, phase: Phase)

  /** The files, the lock and the documents committed so far. */
  datatype System = System(
    data: Option<Content>, temps: map<TempId, Content>, nextTemp: TempId, backups: seq<Content>,
    lock: Option<Holder>, commits: seq<Document>)

  datatype Step =
    | Acquire(op: Operation)
    | Look
    | FinishFirst
    | ReplaceFirst
    | Mutate
    | StartBackup
    | FinishBackup
    | StartWrite
    | FinishWrite
    | Replace
    | Leave

  const FIRST := Document(0, [])

  const EMPTY := System(None, map[], 0, [], None, [])

  /** The list an operation makes of the current one, or nothing if it raises or only reads. */
  function Apply(p: Policy, items: seq<Reservation>, op: Operation): Option<seq<Reservation>>
    requires ValidPolicy(p)
  {
    var change := match op
      case Creating(r, checkedAt, id, now) => Create(p, items, r, checkedAt, id, now)
      case Cancelling(code, phone, now) => Cancel(items, code, phone, now)
      case Modifying(code, phone, starts, service, staff, now) =>
        Modify(p, items, code, phone, starts, service, staff, now)
      case Listing => Err(ReservationNotFound);
    if change.Err? || !UniqueIds(change.value.items) then None else Some(change.value.items)
  }

  function At(s: System, phase: Phase): System
    requires s.lock.Some?
  {
    s.(lock := Some(s.lock.value.(phase := phase)))
  }

  /** One step of the lock holder, or of nobody if it is not that step's turn. Leaving is also what a crash does. */
  function Next(p: Policy, backupRoot: bool, s: System, step: Step): System
    requires ValidPolicy(p)
  {
    if step.Acquire? then
      if s.lock.Some? then s else s.(lock := Some(Holder(step.op, Entered)))
    else if s.lock.None? then s
    else
      var phase := s.lock.value.phase;
      match step
      case Look =>
        if !phase.Entered? then s
        else if s.data.Some? then At(s, Opened)
        else At(s.(temps := s.temps[s.nextTemp := Torn], nextTemp := s.nextTemp + 1), FirstTorn(s.nextTemp))
      case FinishFirst =>
        if !phase.FirstTorn? then s
        else At(s.(temps := s.temps[phase.temp := Whole(FIRST)]), FirstWritten(phase.temp))
      case ReplaceFirst =>
        if !phase.FirstWritten? || phase.temp !in s.temps then s
        else At(s.(data := Some(s.temps[phase.temp]), temps := s.temps - {phase.temp}, commits := s.commits + [FIRST]),
                Opened)
      case Mutate =>
        if !phase.Opened? then s
        else if s.data.None? || s.data.value.Torn? then s.(lock := None)
        else
          var document := s.data.value.document;
          var changed := Apply(p, document.items, s.lock.value.op);
          if changed.None? then s.(lock := None)
          else At(s, Mutated(Document(document.version + 1, changed.value)))
      case StartBackup =>
        if !phase.Mutated? then s
        else if backupRoot then At(s.(backups := s.backups + [Torn]), BackingUp(phase.next))
        else At(s, BackedUp(phase.next))
      case FinishBackup =>
        if !phase.BackingUp? || s.backups == [] || s.data.None? then s
        else At(s.(backups := s.backups[|s.backups| - 1 := s.data.value]), BackedUp(phase.next))
      case StartWrite =>
        if !phase.BackedUp? then s
        else At(s.(temps := s.temps[s.nextTemp := Torn], nextTemp := s.nextTemp + 1), NextTorn(phase.next, s.nextTemp))
      case FinishWrite =>
        if !phase.NextTorn? then s
        else At(s.(temps := s.temps[phase.temp := Whole(phase.next)]), NextWritten(phase.next, phase.temp))
      case Replace =>
        if !phase.NextWritten? || phase.temp !in s.temps then s
        else At(s.(data := Some(s.temps[phase.temp]), temps := s.temps - {phase.temp}, commits := s.commits + [phase.next]),
                Committed)
      case Leave => s.(lock := None)
  }

  function Run(p: Policy, backupRoot: bool, steps: seq<Step>): System
    requires ValidPolicy(p)
    decreases |steps|
  {
    if steps == [] then EMPTY
    else Next(p, backupRoot, Run(p, backupRoot, steps[..|steps| - 1]), steps[|steps| - 1])
  }

  // -------------------------------------------------------------------------
  // What every step keeps
  // -------------------------------------------------------------------------

  ghost predicate Follows(p: Policy, before: Document, after: Document)
    requires ValidPolicy(p)
  {
    after.version == before.version + 1 && exists op :: Apply(p, before.items, op) == Some(after.items)
  }

  /** The commits are one history: the empty document, and then one operation after another. */
  ghost predicate Linear(p: Policy, commits: seq<Document>)
    requires ValidPolicy(p)
  {
    && (commits != [] ==> commits[0] == FIRST)
    && forall i :: 0 < i < |commits| ==> Follows(p, commits[i - 1], commits[i])
  }

  ghost predicate AllSafe(p: Policy, commits: seq<Document>)
    requires ValidPolicy(p)
  {
    forall i :: 0 <= i < |commits| ==> Safe(p, commits[i].items) && commits[i].version == i
  }

  predicate Backed(commits: seq<Document>, backups: seq<Content>, i: nat)
    requires i < |commits|
  {
    Whole(commits[i]) in backups
  }

  /** `next` is what the holder's operation makes of the last commit. */
  ghost predicate Current(p: Policy, s: System, next: Document)
    requires ValidPolicy(p)
  {
    s.commits != [] && s.lock.Some? && IsMade(p, s.commits[|s.commits| - 1], s.lock.value.op, next)
  }

  ghost predicate IsMade(p: Policy, before: Document, op: Operation, next: Document)
    requires ValidPolicy(p)
  {
    && next.version == before.version + 1 && Apply(p, before.items, op) == Some(next.items)
    && Safe(p, next.items)
  }

  ghost predicate PhaseOk(p: Policy, backupRoot: bool, s: System, phase: Phase)
    requires ValidPolicy(p)
  {
    match phase
    case Entered => true
    case FirstTorn(temp) => s.commits == [] && temp < s.nextTemp
    case FirstWritten(temp) => s.commits == [] && temp in s.temps && s.temps[temp] == Whole(FIRST)
    case Opened => s.commits != []
    case Mutated(next) => Current(p, s, next)
    case BackingUp(next) => Current(p, s, next) && backupRoot && s.backups != [] && s.backups[|s.backups| - 1] == Torn
    case BackedUp(next) => Current(p, s, next) && (backupRoot ==> Backed(s.commits, s.backups, |s.commits| - 1))
    case NextTorn(next, temp) =>
      Current(p, s, next) && (backupRoot ==> Backed(s.commits, s.backups, |s.commits| - 1)) && temp < s.nextTemp
    case NextWritten(next, temp) =>
      Current(p, s, next) && (backupRoot ==> Backed(s.commits, s.backups, |s.commits| - 1)) && temp in s.temps && s.temps[temp] == Whole(next)
    case Committed => s.commits != []
  }

  ghost predicate Inv(p: Policy, backupRoot: bool, s: System)
    requires ValidPolicy(p)
  {
    && s.data == (if s.commits == [] then None else Some(Whole(s.commits[|s.commits| - 1])))
    && Linear(p, s.commits)
    && AllSafe(p, s.commits)
    && (backupRoot ==> forall i :: 0 <= i < |s.commits| - 1 ==> Backed(s.commits, s.backups, i))
    && (s.lock.Some? ==> PhaseOk(p, backupRoot, s, s.lock.value.phase))
  }

  /** A mutation takes a safe list to a safe list. */
  lemma ApplyKeeps(p: Policy, items: seq<Reservation>, op: Operation)
    requires ValidPolicy(p) && Safe(p, items)
    ensures Apply(p, items, op).Some? ==> Safe(p, Apply(p, items, op).value)
  {
    hide Create, Cancel, Modify, Safe;
    match op
    case Creating(r, checkedAt, id, now) => CreateKeeps(p, items, r, checkedAt, id, now);
    case Cancelling(code, phone, now) => CancelKeeps(p, items, code, phone, now);
    case Modifying(code, phone, starts, service, staff, now) =>
      ModifyKeeps(p, items, code, phone, starts, service, staff, now);
    case Listing =>
  }

  ghost predicate Answers(p: Policy, items: seq<Reservation>, op: Operation, change: Change)
    requires ValidPolicy(p)
  {
    match op
    case Creating(r, checkedAt, id, now) => Create(p, items, r, checkedAt, id, now) == Ok(change)
    case Cancelling(code, phone, now) => Cancel(items, code, phone, now) == Ok(change)
    case Modifying(code, phone, starts, service, staff, now) =>
      Modify(p, items, code, phone, starts, service, staff, now) == Ok(change)
    case Listing => false
  }

  /** What an operation makes of the list is what booking, cancelling or changing answers, if the ids stay distinct. */
  lemma ApplyIs(p: Policy, items: seq<Reservation>, op: Operation, list: seq<Reservation>)
    requires ValidPolicy(p)
    ensures Apply(p, items, op) == Some(list) <==>
            UniqueIds(list) && exists result: Reservation :: Answers(p, items, op, Change(list, result))
  {
    hide Create, Cancel, Modify, UniqueIds, ValidPolicy;
    if Apply(p, items, op) == Some(list) {
      match op
      case Creating(r, checkedAt, id, now) =>
        assert Answers(p, items, op, Change(list, Create(p, items, r, checkedAt, id, now).value.result));
      case Cancelling(code, phone, now) =>
        assert Answers(p, items, op, Change(list, Cancel(items, code, phone, now).value.result));
      case Modifying(code, phone, starts, service, staff, now) =>
        assert Answers(p, items, op, Change(list, Modify(p, items, code, phone, starts, service, staff, now).value.result));
      case Listing =>
    }
  }

  lemma CommitNext(p: Policy, commits: seq<Document>, next: Document)
    requires ValidPolicy(p) && Linear(p, commits) && AllSafe(p, commits) && Safe(p, next.items)
    requires if commits == [] then next == FIRST else Follows(p, commits[|commits| - 1], next)
    ensures Linear(p, commits + [next]) && AllSafe(p, commits + [next])
  {
    hide Safe, Apply;
    var all := commits + [next];
    forall i | 0 < i < |all| ensures Follows(p, all[i - 1], all[i]) {
      if i < |commits| {
        assert Follows(p, commits[i - 1], commits[i]);
      }
    }
  }

  lemma LastSafe(p: Policy, commits: seq<Document>)
    requires ValidPolicy(p) && AllSafe(p, commits) && commits != []
    ensures Safe(p, commits[|commits| - 1].items)
  {
  }

  lemma FirstSafe(p: Policy)
    requires ValidPolicy(p)
    ensures Safe(p, FIRST.items)
  {
  }

  lemma Followed(p: Policy, before: Document, op: Operation, next: Document)
    requires ValidPolicy(p) && IsMade(p, before, op, next)
    ensures Follows(p, before, next) && Safe(p, next.items)
  {
  }

  lemma {:induction false} StepKeeps(p: Policy, backupRoot: bool, s: System, step: Step)
    requires ValidPolicy(p) && Inv(p, backupRoot, s)
    ensures Inv(p, backupRoot, Next(p, backupRoot, s, step))
  {
    hide Apply, Safe, Linear, AllSafe, Follows, ValidPolicy;
    if s.lock.Some? {
      var phase := s.lock.value.phase;
      match step
      case ReplaceFirst =>
        if phase.FirstWritten? {
          FirstSafe(p);
          CommitNext(p, s.commits, FIRST);
        }
      case Mutate =>
        if phase.Opened? {
          var document := s.commits[|s.commits| - 1];
          LastSafe(p, s.commits);
          ApplyKeeps(p, document.items, s.lock.value.op);
        }
      case StartBackup => BackupsKeep(p, backupRoot, s);
      case FinishBackup => BackupsKeep(p, backupRoot, s);
      case Replace =>
        if phase.NextWritten? {
          Followed(p, s.commits[|s.commits| - 1], s.lock.value.op, phase.next);
          CommitNext(p, s.commits, phase.next);
          if backupRoot {
            forall i | 0 <= i < |s.commits| ensures Backed(s.commits + [phase.next], s.backups, i) {
              assert Backed(s.commits, s.backups, i);
            }
          }
        }
      case _ =>
    }
  }

  /** A new backup never overwrites a finished one. */
  lemma BackupsKeep(p: Policy, backupRoot: bool, s: System)
    requires ValidPolicy(p) && Inv(p, backupRoot, s) && s.lock.Some?
    ensures Inv(p, backupRoot, Next(p, backupRoot, s, StartBackup))
    ensures Inv(p, backupRoot, Next(p, backupRoot, s, FinishBackup))
  {
    hide Apply, Safe, Linear, AllSafe, Follows, ValidPolicy;
    var started := Next(p, backupRoot, s, StartBackup);
    forall i | 0 <= i < |s.commits| && Backed(s.commits, s.backups, i) ensures Whole(s.commits[i]) in s.backups + [Torn] {
    }
    if s.lock.value.phase.BackingUp? {
      var n := |s.backups| - 1;
      var copied := s.backups[n := s.data.value];
      assert copied[n] == s.data.value;
      forall c: Content | c in s.backups && c.Whole? ensures c in copied {
        var j :| 0 <= j < |s.backups| && s.backups[j] == c;
        assert copied[j] == c;
      }
    }
  }

  lemma {:induction false} RunKeeps(p: Policy, backupRoot: bool, steps: seq<Step>)
    requires ValidPolicy(p)
    ensures Inv(p, backupRoot, Run(p, backupRoot, steps))
    decreases |steps|
  {
    hide Inv, Next, ValidPolicy;
    if steps == [] {
      StartInv(p, backupRoot);
    } else {
      RunKeeps(p, backupRoot, steps[..|steps| - 1]);
      StepKeeps(p, backupRoot, Run(p, backupRoot, steps[..|steps| - 1]), steps[|steps| - 1]);
    }
  }

  lemma StartInv(p: Policy, backupRoot: bool)
    requires ValidPolicy(p)
    ensures Inv(p, backupRoot, EMPTY)
  {
  }

  // -------------------------------------------------------------------------
  // Main results
  // -------------------------------------------------------------------------

  /**
   * Whatever the interleaving of operations and crashes, the data file never holds a torn write: it is absent before the
   * first commit and the last committed document afterwards. The commits form one history in which each document is an
   * operation applied to its predecessor, and with a backup root every superseded document exists in a backup.
   */
  lemma {:induction false} FileIsCommitted(p: Policy, backupRoot: bool, steps: seq<Step>)
    requires ValidPolicy(p)
    ensures var s := Run(p, backupRoot, steps);
            && s.data == (if s.commits == [] then None else Some(Whole(s.commits[|s.commits| - 1])))
            && Linear(p, s.commits)
            && (forall i :: 0 <= i < |s.commits| ==> s.commits[i].version == i)
            && (backupRoot ==> forall i :: 0 <= i < |s.commits| - 1 ==> Whole(s.commits[i]) in s.backups)
  {
    hide Linear, Safe, PhaseOk, Run;
    RunKeeps(p, backupRoot, steps);
    var s := Run(p, backupRoot, steps);
    if backupRoot {
      forall i | 0 <= i < |s.commits| - 1 ensures Whole(s.commits[i]) in s.backups {
        assert Backed(s.commits, s.backups, i);
      }
    }
  }

  /**
   * In every document ever committed no member of staff is booked twice at the same time, every confirmed reservation
   * lies inside the opening hours of its day, and nobody is booked for longer than the salon is open.
   */
  lemma {:induction false} NeverDoubleBooked(p: Policy, backupRoot: bool, steps: seq<Step>, k: nat, staff: string, day: int)
    requires ValidPolicy(p) && k < |Run(p, backupRoot, steps).commits|
    ensures var items := Run(p, backupRoot, steps).commits[k].items;
            var hours := HoursOn(p, day);
            && NoDoubleBooking(items)
            && (forall i :: 0 <= i < |items| ==> InsideHours(p, items[i]))
            && BookedMinutes(items, staff, day) <= if hours.None? then 0 else hours.value.closes - hours.value.opens
  {
    hide Linear, PhaseOk, Run, NoDoubleBooking, InsideHours, BookedMinutes;
    RunKeeps(p, backupRoot, steps);
    CapacityBound(p, Run(p, backupRoot, steps).commits[k].items, staff, day);
  }

  /**
   * Over every run a commit is the first document of an empty history, or exactly what the operation of the process that
   * holds the lock makes of the last one; and no other step changes the data file.
   */
  lemma CommitIsMade(p: Policy, backupRoot: bool, steps: seq<Step>, step: Step)
    requires ValidPolicy(p)
    ensures var s := Run(p, backupRoot, steps);
            var next := Run(p, backupRoot, steps + [step]);
            || (next.commits == s.commits && next.data == s.data)
            || (s.commits == [] && next.commits == [FIRST])
            || (&& s.commits != [] && s.lock.Some? && |next.commits| == |s.commits| + 1
                && next.commits[..|s.commits|] == s.commits
                && var before, made := s.commits[|s.commits| - 1], next.commits[|s.commits|];
                   && made.version == before.version + 1
                   && Apply(p, before.items, s.lock.value.op) == Some(made.items))
  {
    hide Apply, Safe, Linear, AllSafe, Run, ValidPolicy;
    RunKeeps(p, backupRoot, steps);
    RunSnoc(p, backupRoot, steps, step);
  }

  lemma RunSnoc(p: Policy, backupRoot: bool, steps: seq<Step>, step: Step)
    requires ValidPolicy(p)
    ensures Run(p, backupRoot, steps + [step]) == Next(p, backupRoot, Run(p, backupRoot, steps), step)
  {
    assert (steps + [step])[..|steps|] == steps;
  }

  /** One operation from the lock to its release, in which nobody dies. */
  function Turn(op: Operation): seq<Step> {
    [Acquire(op), Look, FinishFirst, ReplaceFirst, Mutate, StartBackup, FinishBackup, StartWrite, FinishWrite, Replace, Leave]
  }

  /** What the file then holds. */
  function Outcome(p: Policy, before: Document, op: Operation): Document
    requires ValidPolicy(p)
  {
    var changed := Apply(p, before.items, op);
    if changed.None? then before else Document(before.version + 1, changed.value)
  }

  /** Up to the mutation: a missing file is created first. */
  lemma FirstHalf(p: Policy, backupRoot: bool, steps: seq<Step>, op: Operation)
    requires ValidPolicy(p) && Run(p, backupRoot, steps).lock.None?
    ensures var s := Run(p, backupRoot, steps);
            var ready := Run(p, backupRoot, steps + Turn(op)[..4]);
            && ready.lock == Some(Holder(op, Opened)) && ready.backups == s.backups
            && ready.commits == (if s.commits == [] then [FIRST] else s.commits)
  {
    hide Apply, Safe, Linear, AllSafe, Run, ValidPolicy;
    RunKeeps(p, backupRoot, steps);
    var turn := Turn(op);
    Ahead(p, backupRoot, steps, turn, 0);
    Ahead(p, backupRoot, steps, turn, 1);
    Ahead(p, backupRoot, steps, turn, 2);
    Ahead(p, backupRoot, steps, turn, 3);
    assert steps + turn[..0] == steps;
  }

  lemma Ahead(p: Policy, backupRoot: bool, steps: seq<Step>, turn: seq<Step>, i: nat)
    requires ValidPolicy(p) && i < |turn|
    ensures Run(p, backupRoot, steps + turn[..i + 1]) == Next(p, backupRoot, Run(p, backupRoot, steps + turn[..i]), turn[i])
  {
    RunSnoc(p, backupRoot, steps + turn[..i], turn[i]);
    assert steps + turn[..i + 1] == (steps + turn[..i]) + [turn[i]];
  }

  /** Without a holder nothing happens until the next one comes. */
  lemma {:induction false} NobodyActs(p: Policy, backupRoot: bool, steps: seq<Step>, turn: seq<Step>)
    requires ValidPolicy(p) && Run(p, backupRoot, steps).lock.None?
    requires forall i :: 0 <= i < |turn| ==> !turn[i].Acquire?
    ensures Run(p, backupRoot, steps + turn) == Run(p, backupRoot, steps)
    decreases |turn|
  {
    hide Run, ValidPolicy, Apply;
    if turn == [] {
      assert steps + turn == steps;
    } else {
      var last := turn[|turn| - 1];
      NobodyActs(p, backupRoot, steps, turn[..|turn| - 1]);
      RunSnoc(p, backupRoot, steps + turn[..|turn| - 1], last);
      assert steps + turn == (steps + turn[..|turn| - 1]) + [last];
    }
  }

  /** The old document is backed up, if there is a place for it. */
  lemma BacksUp(p: Policy, backupRoot: bool, steps: seq<Step>, op: Operation, next: Document)
    requires ValidPolicy(p) && Run(p, backupRoot, steps).lock == Some(Holder(op, Mutated(next)))
    ensures var s := Run(p, backupRoot, steps);
            Run(p, backupRoot, steps + [StartBackup, FinishBackup]) ==
            if backupRoot && s.data.Some? then
              s.(lock := Some(Holder(op, BackedUp(next))), backups := s.backups + [s.data.value])
            else if backupRoot then s.(lock := Some(Holder(op, BackingUp(next))), backups := s.backups + [Torn])
            else s.(lock := Some(Holder(op, BackedUp(next))))
  {
    hide Run, ValidPolicy, Apply;
    var s, turn := Run(p, backupRoot, steps), [StartBackup, FinishBackup];
    Ahead(p, backupRoot, steps, turn, 0);
    Ahead(p, backupRoot, steps, turn, 1);
    assert steps + turn[..0] == steps && turn[..2] == turn;
    if s.data.Some? {
      assert (s.backups + [Torn])[|s.backups| := s.data.value] == s.backups + [s.data.value];
    }
  }

  /** The new document is written beside the old one and takes its place. */
  lemma TakesPlace(p: Policy, backupRoot: bool, steps: seq<Step>, op: Operation, next: Document)
    requires ValidPolicy(p) && Run(p, backupRoot, steps).lock == Some(Holder(op, BackedUp(next)))
    ensures var s := Run(p, backupRoot, steps);
            var after := Run(p, backupRoot, steps + [StartWrite, FinishWrite, Replace, Leave]);
            && after.lock.None? && after.data == Some(Whole(next))
            && after.commits == s.commits + [next] && after.backups == s.backups
  {
    hide Run, ValidPolicy, Apply;
    var turn := [StartWrite, FinishWrite, Replace, Leave];
    Ahead(p, backupRoot, steps, turn, 0);
    Ahead(p, backupRoot, steps, turn, 1);
    Ahead(p, backupRoot, steps, turn, 2);
    Ahead(p, backupRoot, steps, turn, 3);
    assert steps + turn[..0] == steps && turn[..4] == turn;
  }

  lemma Mutates(p: Policy, backupRoot: bool, steps: seq<Step>, op: Operation)
    requires ValidPolicy(p) && Run(p, backupRoot, steps).lock == Some(Holder(op, Opened))
    ensures var s := Run(p, backupRoot, steps);
            && s.commits != [] && s.data == Some(Whole(s.commits[|s.commits| - 1]))
            && var before := s.commits[|s.commits| - 1];
               var changed := Apply(p, before.items, op);
               Run(p, backupRoot, steps + [Mutate]) ==
               if changed.None? then s.(lock := None)
               else s.(lock := Some(Holder(op, Mutated(Document(before.version + 1, changed.value)))))
  {
    hide Run, ValidPolicy, Apply, Linear, AllSafe, Safe;
    RunKeeps(p, backupRoot, steps);
    RunSnoc(p, backupRoot, steps, Mutate);
  }

  /** From the mutation on. */
  lemma SecondHalf(p: Policy, backupRoot: bool, steps: seq<Step>, turn: seq<Step>, op: Operation)
    requires ValidPolicy(p) && turn == Turn(op)[4..]
    requires Run(p, backupRoot, steps).lock == Some(Holder(op, Opened))
    ensures Run(p, backupRoot, steps).commits != []
    ensures var s := Run(p, backupRoot, steps);
            var after := Run(p, backupRoot, steps + turn);
            var before := s.commits[|s.commits| - 1];
            && after.lock.None?
            && after.data == Some(Whole(Outcome(p, before, op)))
            && after.backups == if backupRoot && Apply(p, before.items, op).Some? then s.backups + [Whole(before)]
                                else s.backups
  {
    hide Run, ValidPolicy, Apply, Next;
    Mutates(p, backupRoot, steps, op);
    var s := Run(p, backupRoot, steps);
    var before := s.commits[|s.commits| - 1];
    assert turn == [Mutate, StartBackup, FinishBackup, StartWrite, FinishWrite, Replace, Leave];
    if Apply(p, before.items, op).None? {
      NobodyActs(p, backupRoot, steps + [Mutate], turn[1..]);
      assert steps + turn == (steps + [Mutate]) + turn[1..];
    } else {
      var next := Outcome(p, before, op);
      BacksUp(p, backupRoot, steps + [Mutate], op, next);
      TakesPlace(p, backupRoot, (steps + [Mutate]) + [StartBackup, FinishBackup], op, next);
      assert steps + turn
          == ((steps + [Mutate]) + [StartBackup, FinishBackup]) + [StartWrite, FinishWrite, Replace, Leave];
    }
  }

  /**
   * After any run, an operation that nobody interrupts leaves the file with what it makes of the list on file, one version
   * on, or unchanged if it raises or only reads; and the document it replaced in a new backup.
   */
  lemma TurnCompletes(p: Policy, backupRoot: bool, steps: seq<Step>, op: Operation)
    requires ValidPolicy(p) && Run(p, backupRoot, steps).lock.None?
    ensures var s := Run(p, backupRoot, steps);
            var after := Run(p, backupRoot, steps + Turn(op));
            var before := if s.commits == [] then FIRST else s.commits[|s.commits| - 1];
            && after.lock.None?
            && after.data == Some(Whole(Outcome(p, before, op)))
            && after.backups == if backupRoot && Apply(p, before.items, op).Some? then s.backups + [Whole(before)]
                                else s.backups
  {
    hide Apply, Run, ValidPolicy, Outcome;
    FirstHalf(p, backupRoot, steps, op);
    SecondHalf(p, backupRoot, steps + Turn(op)[..4], Turn(op)[4..], op);
    assert steps + Turn(op) == (steps + Turn(op)[..4]) + Turn(op)[4..];
  }
}
