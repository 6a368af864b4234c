/**
 * The replay states of all sessions, across reconnects, expiry and eviction. A dropped state takes its events with it: the
 * next one of the same session starts from nothing, and numbers its events from 0 again.
 */
module SessionRegistry {
  import opened ReplayWindow

  type SessionId(==, !new)

  const MAX_SESSIONS: nat := 1024

  /** A session's state: the events ever sent under it, and whether a client is connected. */
  datatype Live = Live(sent: seq<Event>, connected: bool)

  /** The states there are, and for each session the events sent under its dropped states, which nobody keeps. */
  datatype Registry = Registry(live: map<SessionId, Live>, lost: map<SessionId, seq<Event>>)

  datatype Step =
    /** `removable` is a state the server could evict, if there is one. */
    | Connecting(id: SessionId, after: Option<int>, removable: Option<SessionId>)
    | Sending(id: SessionId, replayable: bool, size: nat)
    | Disconnecting(id: SessionId)
    /** The end of the grace period. */
    | Expiring(id: SessionId)

  const EMPTY := Registry(map[], map[])

  function Lost(r: Registry, id: SessionId): seq<Event> {
    if id in r.lost then r.lost[id] else []
  }

  function Sent(r: Registry, id: SessionId): seq<Event> {
    if id in r.live then r.live[id].sent else []
  }

  /** Every event ever sent to a session. */
  function Ever(r: Registry, id: SessionId): seq<Event> {
    Lost(r, id) + Sent(r, id)
  }

  predicate Idle(r: Registry, id: SessionId) {
    id in r.live && !r.live[id].connected
  }

  predicate HasRoom(r: Registry, removable: Option<SessionId>) {
    |r.live| < MAX_SESSIONS || (removable.Some? && Idle(r, removable.value))
  }

  /** The answer to a connection attempt. */
  function Decide(r: Registry, id: SessionId, after: Option<int>, removable: Option<SessionId>): Decision {
    if id !in r.live then
      if after.Some? && after.value >= 0 then Rejected(4410, "replay window expired")
      else if !HasRoom(r, removable) then Rejected(1013, "session capacity reached")
      else Accepted([])
    else
      var all := Replayable(r.live[id].sent);
      if r.live[id].connected then Rejected(4409, "session already connected")
      else if after.None? then Rejected(4409, "resume sequence is required")
      else if after.value >= |r.live[id].sent| then Rejected(4400, "resume sequence is ahead")
      else if after.value < Floor(all) then Rejected(4410, "replay window expired")
      else Accepted(Above(Longest(all), after.value))
  }

  function Drop(r: Registry, id: SessionId): Registry
    requires id in r.live
  {
    Registry(r.live - {id}, r.lost[id := Lost(r, id) + r.live[id].sent])
  }

  function Open(r: Registry, id: SessionId, sent: seq<Event>): Registry {
    r.(live := r.live[id := Live(sent, true)])
  }

  function Next(r: Registry, step: Step): Registry {
    match step
    case Connecting(id, after, removable) =>
      if Decide(r, id, after, removable).Rejected? then r
      else if id in r.live then Open(r, id, r.live[id].sent)
      else Open(if |r.live| >= MAX_SESSIONS then Drop(r, removable.value) else r, id, [])
    case Sending(id, replayable, size) =>
      if id !in r.live then r
      else
        var state := r.live[id];
        r.(live := r.live[id := state.(sent := state.sent + [Event(|state.sent|, replayable, size)])])
    case Disconnecting(id) =>
      if id !in r.live then r else r.(live := r.live[id := r.live[id].(connected := false)])
    case Expiring(id) => if Idle(r, id) then Drop(r, id) else r
  }

  function Run(r: Registry, steps: seq<Step>): Registry
    decreases |steps|
  {
    if steps == [] then r else Next(Run(r, steps[..|steps| - 1]), steps[|steps| - 1])
  }

  // -------------------------------------------------------------------------
  // What every step keeps
  // -------------------------------------------------------------------------

  /** Each state numbers its events without a gap, and there are never more states than the limit. */
  ghost predicate Kept(r: Registry) {
    && |r.live| <= MAX_SESSIONS
    && forall id :: id in r.live ==> Numbered(r.live[id].sent)
  }

  lemma SizeAfterDrop<V>(live: map<SessionId, V>, id: SessionId)
    requires id in live
    ensures |live - {id}| == |live| - 1
  {
    assert (live - {id}).Keys == live.Keys - {id};
  }

  lemma SizeAfterOpen<V>(live: map<SessionId, V>, id: SessionId, state: V)
    ensures |live[id := state]| == if id in live then |live| else |live| + 1
  {
    assert live[id := state].Keys == live.Keys + {id};
  }

  lemma StepKeeps(r: Registry, step: Step)
    requires Kept(r)
    ensures Kept(Next(r, step))
  {
    hide Decide, Numbered;
    match step
    case Connecting(id, after, removable) =>
      if Decide(r, id, after, removable).Accepted? {
        RoomWhenAccepted(r, id, after, removable);
        assert Numbered([]) by {
          NothingNumbered();
        }
        if id !in r.live && |r.live| >= MAX_SESSIONS {
          SizeAfterDrop(r.live, removable.value);
          SizeAfterOpen(r.live - {removable.value}, id, Live([], true));
        } else {
          SizeAfterOpen(r.live, id, Live(Sent(r, id), true));
        }
      }
    case Sending(id, replayable, size) =>
      if id in r.live {
        var state := r.live[id];
        NumberedMore(state.sent, replayable, size);
        SizeAfterOpen(r.live, id, state.(sent := state.sent + [Event(|state.sent|, replayable, size)]));
      }
    case Disconnecting(id) =>
      if id in r.live {
        SizeAfterOpen(r.live, id, r.live[id].(connected := false));
      }
    case Expiring(id) =>
      if Idle(r, id) {
        SizeAfterDrop(r.live, id);
      }
  }

  lemma NothingNumbered()
    ensures Numbered([])
  {
  }

  lemma NumberedMore(sent: seq<Event>, replayable: bool, size: nat)
    requires Numbered(sent)
    ensures Numbered(sent + [Event(|sent|, replayable, size)])
  {
  }

  lemma RoomWhenAccepted(r: Registry, id: SessionId, after: Option<int>, removable: Option<SessionId>)
    requires Decide(r, id, after, removable).Accepted?
    ensures id !in r.live ==> HasRoom(r, removable)
  {
  }

  /** Over every run there are at most 1024 states, and each has numbered its events without a gap. */
  lemma {:induction false} RunKeeps(r: Registry, steps: seq<Step>)
    requires Kept(r)
    ensures Kept(Run(r, steps))
    decreases |steps|
  {
    hide Kept, Next;
    if steps != [] {
      RunKeeps(r, steps[..|steps| - 1]);
      StepKeeps(Run(r, steps[..|steps| - 1]), steps[|steps| - 1]);
    }
  }

  // -------------------------------------------------------------------------
  // What a resume replays
  // -------------------------------------------------------------------------

  lemma {:induction false} ReplayableParts(a: seq<Event>, b: seq<Event>)
    ensures Replayable(a + b) == Replayable(a) + Replayable(b)
    decreases |b|
  {
    if b == [] {
      assert a + b == a;
    } else {
      assert (a + b)[..|a + b| - 1] == a + b[..|b| - 1];
      ReplayableParts(a, b[..|b| - 1]);
    }
  }

  lemma {:induction false} AboveParts(a: seq<Event>, b: seq<Event>, after: int)
    ensures Above(a + b, after) == Above(a, after) + Above(b, after)
    decreases |a|
  {
    if a == [] {
      assert a + b == b;
    } else {
      assert (a + b)[1..] == a[1..] + b;
      AboveParts(a[1..], b, after);
    }
  }

  /**
   * The exact condition, over every run with any number of drops: an accepted resume replays all replayable events ever sent
   * to the session above the resume point, in order, if and only if none of those sent under its dropped states is above it.
   */
  lemma ReplaysAllIff(steps: seq<Step>, id: SessionId, after: int, removable: Option<SessionId>)
    requires after >= -1
    ensures var r := Run(EMPTY, steps);
            var decision := Decide(r, id, Some(after), removable);
            decision.Accepted? ==>
              (decision.replay == Above(Replayable(Ever(r, id)), after) <==> Above(Replayable(Lost(r, id)), after) == [])
  {
    hide Run, Above, Replayable, Longest, Floor, Numbered;
    RunKeeps(EMPTY, steps);
    var r := Run(EMPTY, steps);
    var lost, sent := Lost(r, id), Sent(r, id);
    ReplayableParts(lost, sent);
    AboveParts(Replayable(lost), Replayable(sent), after);
    NoneReplayed(after);
    if id in r.live {
      FloorTest(sent, after);
    }
  }

  lemma NoneReplayed(after: int)
    ensures Above(Replayable([]), after) == []
  {
  }

  /** The step drops the state of this session. */
  predicate Drops(r: Registry, step: Step, id: SessionId) {
    id in r.live && id !in Next(r, step).live
  }

  ghost predicate NeverDrops(r: Registry, steps: seq<Step>, id: SessionId) {
    forall i :: 0 <= i < |steps| ==> !Drops(Run(r, steps[..i]), steps[i], id)
  }

  /** A state that is not dropped only grows. */
  lemma StepExtends(r: Registry, step: Step, id: SessionId)
    requires !Drops(r, step, id)
    ensures Lost(Next(r, step), id) == Lost(r, id)
    ensures Sent(r, id) <= Sent(Next(r, step), id)
    ensures id in r.live ==> id in Next(r, step).live
  {
    hide Decide;
    if step.Connecting? && Decide(r, step.id, step.after, step.removable).Accepted? {
      RoomWhenAccepted(r, step.id, step.after, step.removable);
    }
  }

  lemma {:induction false} RunExtends(r: Registry, steps: seq<Step>, id: SessionId)
    requires NeverDrops(r, steps, id)
    ensures var next := Run(r, steps);
            && Lost(next, id) == Lost(r, id) && Sent(r, id) <= Sent(next, id)
            && (id in r.live ==> id in next.live)
    decreases |steps|
  {
    hide Next, Drops;
    if steps != [] {
      var before := steps[..|steps| - 1];
      forall i | 0 <= i < |before| ensures !Drops(Run(r, before[..i]), before[i], id) {
        assert before[..i] == steps[..i];
      }
      RunExtends(r, before, id);
      assert !Drops(Run(r, steps[..|steps| - 1]), steps[|steps| - 1], id);
      StepExtends(Run(r, before), steps[|steps| - 1], id);
    }
  }

  /** Over a run that never drops the session's state every accepted resume replays everything it should. */
  lemma NoDropNoLoss(steps: seq<Step>, id: SessionId, after: int, removable: Option<SessionId>)
    requires NeverDrops(EMPTY, steps, id) && after >= -1
    ensures var r := Run(EMPTY, steps);
            var decision := Decide(r, id, Some(after), removable);
            && Lost(r, id) == []
            && (decision.Accepted? ==> decision.replay == Above(Replayable(Ever(r, id)), after))
  {
    hide Run, NeverDrops, Decide, Above, Replayable;
    RunExtends(EMPTY, steps, id);
    ReplaysAllIff(steps, id, after, removable);
    NoneReplayed(after);
  }

  lemma {:induction false} MissedAbove(sent: seq<Event>, n: nat)
    requires Numbered(sent) && n <= |sent|
    ensures Above(Replayable(sent), n - 1) == Replayable(sent[n..])
  {
    hide Above, Replayable;
    var seen, missed := sent[..n], sent[n..];
    assert sent == seen + missed;
    ReplayableParts(seen, missed);
    AboveParts(Replayable(seen), Replayable(missed), n - 1);
    ReplayableAmong(seen);
    ReplayableAmong(missed);
    NoneAbove(Replayable(seen), n - 1);
    forall i | 0 <= i < |Replayable(missed)| ensures Replayable(missed)[i].sequence > n - 1 {
      assert Replayable(missed)[i] in missed;
    }
    AllAbove(Replayable(missed), n - 1);
  }

  lemma {:induction false} ReplayableAmong(sent: seq<Event>)
    ensures forall i :: 0 <= i < |Replayable(sent)| ==> Replayable(sent)[i] in sent
    decreases |sent|
  {
    if sent != [] {
      ReplayableAmong(sent[..|sent| - 1]);
    }
  }

  /**
   * A client that had received everything and then missed what followed, whose state is not dropped: whatever all other
   * sessions do, it is refused only if it is still connected or if a replayable event it missed has left the window, and
   * otherwise it is sent exactly the replayable events it missed, in order.
   */
  lemma ResumeIsSeamless(before: seq<Step>, since: seq<Step>, id: SessionId, removable: Option<SessionId>)
    requires var r := Run(EMPTY, before);
             id in r.live && NeverDrops(r, since, id)
    ensures var seen := Run(EMPTY, before).live[id].sent;
            var r := Run(Run(EMPTY, before), since);
            && id in r.live && seen <= r.live[id].sent
            && var missed := Replayable(r.live[id].sent[|seen|..]);
               Decide(r, id, Some(|seen| - 1), removable) ==
               if r.live[id].connected then Rejected(4409, "session already connected")
               else if forall e :: e in missed ==> e in Longest(Replayable(r.live[id].sent)) then Accepted(missed)
               else Rejected(4410, "replay window expired")
  {
    hide Run, NeverDrops, Above, Replayable, Longest, Floor, Numbered;
    RunKeeps(EMPTY, before);
    var start := Run(EMPTY, before);
    RunKeeps(start, since);
    RunExtends(start, since, id);
    var sent := Run(start, since).live[id].sent;
    FloorTest(sent, |start.live[id].sent| - 1);
    MissedAbove(sent, |start.live[id].sent|);
  }

  // -------------------------------------------------------------------------
  // Who is refused as expired
  // -------------------------------------------------------------------------

  /** An event above the resume point has left the window. */
  ghost predicate LeftWindow(sent: seq<Event>, after: int) {
    exists e :: e in Above(Replayable(sent), after) && e !in Longest(Replayable(sent))
  }

  /**
   * The exact condition over every run: a client that resumes behind some event is refused as expired if its state is not on
   * file, whatever it has seen; and with its state on file if and only if it is not connected, not ahead, and a replayable
   * event above its resume point has left the window.
   */
  lemma ExpiredIff(steps: seq<Step>, id: SessionId, after: int, removable: Option<SessionId>)
    requires after >= -1
    ensures var r := Run(EMPTY, steps);
            Decide(r, id, Some(after), removable) == Rejected(4410, "replay window expired") <==>
              if id !in r.live then after >= 0
              else !r.live[id].connected && after < |r.live[id].sent| && LeftWindow(r.live[id].sent, after)
  {
    hide Run, Above, Replayable, Longest, Floor, Numbered;
    RunKeeps(EMPTY, steps);
    var r := Run(EMPTY, steps);
    if id in r.live {
      FloorTest(r.live[id].sent, after);
    }
  }

  /**
   * A client that has seen every replayable event ever sent to its session is refused as expired if and only if it names an
   * event and its state is no longer on file; with its state on file and its last number as the resume point it is accepted.
   */
  lemma UpToDateExpiresIff(steps: seq<Step>, id: SessionId, after: int, removable: Option<SessionId>)
    requires after >= -1
    requires Above(Replayable(Ever(Run(EMPTY, steps), id)), after) == []
    ensures var r := Run(EMPTY, steps);
            var decision := Decide(r, id, Some(after), removable);
            && (decision == Rejected(4410, "replay window expired") <==> id !in r.live && after >= 0)
            && (Idle(r, id) && after == |r.live[id].sent| - 1 ==> decision == Accepted([]))
  {
    hide Run, Above, Replayable, Longest, Floor, Numbered;
    RunKeeps(EMPTY, steps);
    ExpiredIff(steps, id, after, removable);
    var r := Run(EMPTY, steps);
    ReplayableParts(Lost(r, id), Sent(r, id));
    AboveParts(Replayable(Lost(r, id)), Replayable(Sent(r, id)), after);
    if id in r.live {
      FloorTest(r.live[id].sent, after);
    }
  }

  /** A session with one event whose client has left and whose grace period is over. */
  function Expired(id: SessionId): seq<Step> {
    [Connecting(id, None, None), Sending(id, true, 1), Disconnecting(id), Expiring(id)]
  }

  lemma ExpiredRun(id: SessionId)
    ensures var r := Run(EMPTY, Expired(id));
            r.live == map[] && Ever(r, id) == [Event(0, true, 1)]
  {
    hide Run, Decide;
    var e := Event(0, true, 1);
    var start := [Connecting(id, None, None)];
    FreshIsAccepted(EMPTY, id, None);
    RunSnoc(EMPTY, [], start[0]);
    assert [] + start == start && Run(EMPTY, []) == EMPTY by {
      NoSteps(EMPTY);
    }
    RunSnoc(EMPTY, start, Sending(id, true, 1));
    assert [] + [e] == [e];
    RunSnoc(EMPTY, start + [Sending(id, true, 1)], Disconnecting(id));
    RunSnoc(EMPTY, start + [Sending(id, true, 1)] + [Disconnecting(id)], Expiring(id));
    assert Expired(id) == start + [Sending(id, true, 1)] + [Disconnecting(id)] + [Expiring(id)];
    assert Lost(Run(EMPTY, Expired(id)), id) == [e];
  }

  /** Its client has missed the event, asks to be sent everything from the start, and is accepted with nothing. */
  lemma ExpiryLosesEvents(id: SessionId)
    ensures var r := Run(EMPTY, Expired(id));
            && Decide(r, id, Some(-1), None) == Accepted([])
            && Above(Replayable(Ever(r, id)), -1) == [Event(0, true, 1)]
  {
    hide Run, Decide, Replayable, Above;
    ExpiredRun(id);
    FreshIsAccepted(Run(EMPTY, Expired(id)), id, Some(-1));
    OneEvent(Event(0, true, 1));
  }

  /** Its client has received the event, so there is nothing to send it, and is refused as expired. */
  lemma ExpiryRefusesUpToDate(id: SessionId)
    ensures var r := Run(EMPTY, Expired(id));
            && Above(Replayable(Ever(r, id)), 0) == []
            && Decide(r, id, Some(0), None) == Rejected(4410, "replay window expired")
  {
    hide Run;
    ExpiredRun(id);
    assert Replayable([Event(0, true, 1)]) == [Event(0, true, 1)] by {
      assert [Event(0, true, 1)][..0] == [];
    }
  }

  lemma NoSteps(r: Registry)
    ensures Run(r, []) == r
  {
  }

  lemma RunSnoc(r: Registry, steps: seq<Step>, step: Step)
    ensures Run(r, steps + [step]) == Next(Run(r, steps), step)
  {
    assert (steps + [step])[..|steps|] == steps;
  }

  lemma DecideUnknown(r: Registry, id: SessionId, after: Option<int>, removable: Option<SessionId>)
    requires id !in r.live && (after.Some? ==> after.value >= -1)
    ensures Decide(r, id, after, removable) ==
            if after.Some? && after.value >= 0 then Rejected(4410, "replay window expired")
            else if !HasRoom(r, removable) then Rejected(1013, "session capacity reached")
            else Accepted([])
  {
  }

  lemma FreshIsAccepted(r: Registry, id: SessionId, after: Option<int>)
    requires r.live == map[] && (after.None? || after.value == -1)
    ensures Decide(r, id, after, None) == Accepted([])
  {
  }

  lemma OneEvent(e: Event)
    requires e.replayable && e.sequence > -1
    ensures Above(Replayable([e]), -1) == [e]
  {
    assert [e][..0] == [] && [e][1..] == [];
  }

  // -------------------------------------------------------------------------
  // The registry as an object
  // -------------------------------------------------------------------------

  class SessionStates {
    var states: map<SessionId, SessionReplayState>
    ghost var lost: map<SessionId, seq<Event>>

    ghost predicate Valid()
      reads this, states.Values
    {
      && |states| <= MAX_SESSIONS
      && (forall id :: id in states ==> states[id] in states.Values && states[id].Valid())
      && (forall i, j :: i in states && j in states && states[i] == states[j] ==> i == j)
    }

    ghost function Contents(): Registry
      reads this, states.Values
    {
      Registry(map id | id in states :: Live(states[id].sent, states[id].connected), lost)
    }

    constructor ()
      ensures Valid() && Contents() == EMPTY
    {
      states, lost := map[], map[];
    }

    lemma SameSize()
      ensures |Contents().live| == |states|
    {
      assert Contents().live.Keys == states.Keys;
    }

    /** The decision about a state on file, in terms of the events it needs and those it has. */
    lemma DecideKnown(id: SessionId, after: Option<int>, removable: Option<SessionId>)
      requires Valid() && id in states && (after.Some? ==> after.value >= -1)
      ensures var known := states[id];
              Decide(Contents(), id, after, removable) ==
              if known.connected then Rejected(4409, "session already connected")
              else if after.None? then Rejected(4409, "resume sequence is required")
              else if after.value >= |known.sent| then Rejected(4400, "resume sequence is ahead")
              else
                var needed := Above(Replayable(known.sent), after.value);
                if forall e :: e in needed ==> e in known.events then Accepted(needed)
                else Rejected(4410, "replay window expired")
    {
      hide Above, Replayable, Longest, Floor;
      if after.Some? {
        FloorTest(states[id].sent, after.value);
      }
    }

    /** Forget an idle state. */
    method Remove(id: SessionId)
      requires Valid() && Idle(Contents(), id)
      modifies this
      ensures Valid() && states == old(states) - {id} && |states| == |old(states)| - 1
      ensures Contents() == Drop(old(Contents()), id)
    {
      hide SessionReplayState.Valid;
      SizeAfterDrop(states, id);
      lost := lost[id := Lost(Contents(), id) + states[id].sent];
      states := states - {id};
    }

    /** Keep a fresh state. */
    method Add(id: SessionId, state: SessionReplayState)
      requires Valid() && id !in states && |states| < MAX_SESSIONS && state !in states.Values
      requires state.Valid() && state.sent == [] && state.connected
      modifies this
      ensures Valid() && states == old(states)[id := state]
      ensures Contents() == Open(old(Contents()), id, [])
    {
      hide SessionReplayState.Valid, Decide;
      SizeAfterOpen(states, id, state);
      states := states[id := state];
    }

    /** Keep a fresh state, in the place of an idle one if the limit is reached. */
    method Enter(id: SessionId, state: SessionReplayState, removable: Option<SessionId>)
      requires Valid() && id !in states && state !in states.Values
      requires state.Valid() && state.sent == [] && state.connected
      requires |states| >= MAX_SESSIONS ==> removable.Some? && Idle(Contents(), removable.value)
      modifies this
      ensures Valid() && states.Values <= old(states.Values) + {state}
      ensures Contents() == Open(if |old(states)| >= MAX_SESSIONS then Drop(old(Contents()), removable.value)
                                 else old(Contents()), id, [])
    {
      hide SessionReplayState.Valid, Contents, Drop, Open;
      if |states| >= MAX_SESSIONS {
        Remove(removable.value);
      }
      Add(id, state);
    }

    /** A session with a state: refused, or connected again. */
    method Resume(id: SessionId, after: Option<int>, ghost removable: Option<SessionId>) returns (decision: Decision)
      requires Valid() && id in states && (after.Some? ==> after.value >= -1)
      modifies states[id]
      ensures Valid() && decision == Decide(old(Contents()), id, after, removable)
      ensures Contents() == Next(old(Contents()), Connecting(id, after, removable))
    {
      hide Above, Replayable, Longest, Floor, Numbered, Bytes, SessionReplayState.Valid, Decide;
      DecideKnown(id, after, removable);
      var state;
      decision, state := ReplayWindow.Connect(states[id], after, false);
    }

    /** A session without a state: refused, or started afresh, perhaps in the place of an idle one. */
    method Begin(id: SessionId, after: Option<int>, removable: Option<SessionId>) returns (decision: Decision)
      requires Valid() && id !in states && (after.Some? ==> after.value >= -1)
      requires removable.Some? ==> Idle(Contents(), removable.value)
      modifies this
      ensures Valid() && fresh(states.Values - old(states.Values))
      ensures decision == Decide(old(Contents()), id, after, removable)
      ensures Contents() == Next(old(Contents()), Connecting(id, after, removable))
    {
      hide Above, Replayable, Longest, Floor, Numbered, Bytes, SessionReplayState.Valid, Decide, Drop, Open, Idle;
      SameSize();
      DecideUnknown(Contents(), id, after, removable);
      var state;
      decision, state := ReplayWindow.Connect(null, after, |states| >= MAX_SESSIONS && removable.None?);
      if decision.Accepted? {
        Enter(id, state, removable);
      }
    }

    /** `removable` is an idle state without a running grace period, if there is one. */
    method Connect(id: SessionId, after: Option<int>, removable: Option<SessionId>) returns (decision: Decision)
      requires Valid() && (after.Some? ==> after.value >= -1)
      requires removable.Some? ==> Idle(Contents(), removable.value)
      modifies this, states.Values
      ensures Valid() && fresh(states.Values - old(states.Values))
      ensures decision == Decide(old(Contents()), id, after, removable)
      ensures Contents() == Next(old(Contents()), Connecting(id, after, removable))
    {
      hide Decide, Next, SessionReplayState.Valid;
      if id in states {
        decision := Resume(id, after, removable);
      } else {
        decision := Begin(id, after, removable);
      }
    }

    method SendEvent(id: SessionId, replayable: bool, size: nat) returns (event: Event)
      requires Valid() && id in states
      modifies states[id]
      ensures Valid() && event == Event(|Sent(old(Contents()), id)|, replayable, size)
      ensures Contents() == Next(old(Contents()), Sending(id, replayable, size))
    {
      hide Decide, SessionReplayState.Valid;
      event := states[id].SendEvent(replayable, size);
    }

    method Disconnect(id: SessionId)
      requires Valid() && id in states
      modifies states[id]
      ensures Valid() && Contents() == Next(old(Contents()), Disconnecting(id))
    {
      hide Decide, SessionReplayState.Valid;
      states[id].Disconnect();
    }

    /** The end of a grace period: the state goes unless its client is back. */
    method Expire(id: SessionId)
      requires Valid()
      modifies this
      ensures Valid() && states.Values <= old(states.Values)
      ensures Contents() == Next(old(Contents()), Expiring(id))
    {
      hide Decide, SessionReplayState.Valid;
      if id in states && !states[id].connected {
        Remove(id);
      }
    }
  }
}
