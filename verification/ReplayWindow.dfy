/** The bounded window of events a reconnecting client may be sent again. */
module ReplayWindow {

  const MAX_EVENTS: nat := 256
  const MAX_BYTES: nat := 4 * 1024 * 1024

  datatype Option<+T> = None | Some(value: T)

  /** An outbound event: its number, whether its type is replayable, and its encoded size. */
  datatype Event = Event(sequence: int, replayable: bool, size: nat)

  function Bytes(events: seq<Event>): nat {
    if events == [] then 0 else events[0].size + Bytes(events[1..])
  }

  /** The replayable events among those sent. */
  function Replayable(sent: seq<Event>): seq<Event> {
    if sent == [] then [] else
      Replayable(sent[..|sent| - 1]) + (if sent[|sent| - 1].replayable then [sent[|sent| - 1]] else [])
  }

  /** The events numbered above `after`. */
  function Above(events: seq<Event>, after: int): seq<Event> {
    if events == [] then [] else
      (if events[0].sequence > after then [events[0]] else []) + Above(events[1..], after)
  }

  predicate Numbered(sent: seq<Event>) { forall i :: 0 <= i < |sent| ==> sent[i].sequence == i }

  predicate Increasing(events: seq<Event>) {
    forall i, j :: 0 <= i < j < |events| ==> events[i].sequence < events[j].sequence
  }

  // -------------------------------------------------------------------------
  // Specification of the window: the longest run of the latest replayable events that fits
  // -------------------------------------------------------------------------

  predicate Fits(events: seq<Event>) { |events| <= MAX_EVENTS && Bytes(events) <= MAX_BYTES }

  function Longest(events: seq<Event>): (w: seq<Event>)
    ensures |w| <= |events|
  {
    if Fits(events) then events else Longest(events[1..])
  }

  lemma {:induction false} LongestFits(events: seq<Event>)
    ensures var w := Longest(events); w == events[|events| - |w|..] && Fits(w)
  {
    if !Fits(events) {
      LongestFits(events[1..]);
      var w := Longest(events);
      assert events[1..][|events| - 1 - |w|..] == events[|events| - |w|..];
    }
  }

  /** The number of the last replayable event that is no longer in the window, or -1. */
  function Floor(events: seq<Event>): int {
    var dropped := |events| - |Longest(events)|;
    if dropped == 0 then -1 else events[dropped - 1].sequence
  }

  lemma {:induction false} LongestIsLongest(events: seq<Event>, k: nat)
    requires k <= |events| && Fits(events[|events| - k..])
    ensures k <= |Longest(events)|
    decreases |events|
  {
    if Fits(events) {
    } else {
      assert k != |events| by { assert events[0..] == events; }
      assert events[1..][|events| - 1 - k..] == events[|events| - k..];
      LongestIsLongest(events[1..], k);
    }
  }

  lemma {:induction false} BytesOfSuffix(events: seq<Event>, k: nat)
    requires k <= |events|
    ensures Bytes(events[k..]) <= Bytes(events)
    decreases k
  {
    if k > 0 {
      BytesOfSuffix(events[1..], k - 1);
      assert events[1..][k - 1..] == events[k..];
    } else {
      assert events[0..] == events;
    }
  }

  lemma {:induction false} BytesMore(events: seq<Event>, e: Event)
    ensures Bytes(events + [e]) == Bytes(events) + e.size
  {
    if events == [] {
      assert events + [e] == [e] && [e][1..] == [];
    } else {
      assert (events + [e])[1..] == events[1..] + [e];
      BytesMore(events[1..], e);
    }
  }

  /** Dropping from the front until a longer list fits may start from the window it had before. */
  lemma {:induction false} LongestMore(events: seq<Event>, e: Event)
    ensures Longest(events + [e]) == Longest(Longest(events) + [e])
    decreases |events|
  {
    if Fits(events) {
    } else {
      assert !Fits(events + [e]) by { BytesMore(events, e); }
      assert (events + [e])[1..] == events[1..] + [e];
      LongestMore(events[1..], e);
    }
  }

  lemma {:induction false} OversizeClears(events: seq<Event>, e: Event)
    requires e.size > MAX_BYTES
    ensures Longest(events + [e]) == []
    decreases |events|
  {
    BytesMore(events, e);
    if events == [] {
      assert (events + [e])[1..] == [];
    } else {
      assert (events + [e])[1..] == events[1..] + [e];
      OversizeClears(events[1..], e);
    }
  }

  /** The floor is the number of the last event dropped so far, also when counting from the earlier window. */
  lemma FloorMore(events: seq<Event>, e: Event)
    ensures var kept := Longest(events) + [e];
            var dropped := |kept| - |Longest(kept)|;
            Floor(events + [e]) == if dropped == 0 then Floor(events) else kept[dropped - 1].sequence
  {
    hide Longest;
    hide Fits;
    LongestMore(events, e);
    LongestFits(events);
    var window := Longest(events);
    var kept := window + [e];
    var before := |events| - |window|;
    var dropped := |kept| - |Longest(kept)|;
    assert kept == (events + [e])[before..];
    if dropped > 0 {
      assert kept[dropped - 1] == (events + [e])[before + dropped - 1];
    } else if before > 0 {
      assert (events + [e])[before - 1] == events[before - 1];
    }
  }

  // -------------------------------------------------------------------------
  // Which events a resume point still needs
  // -------------------------------------------------------------------------

  lemma {:induction false} ReplayableIncreasing(sent: seq<Event>)
    requires Numbered(sent)
    ensures Increasing(Replayable(sent))
    ensures forall e :: e in Replayable(sent) ==> e in sent && 0 <= e.sequence < |sent|
    decreases |sent|
  {
    if sent != [] {
      ReplayableIncreasing(sent[..|sent| - 1]);
    }
  }

  lemma {:induction false} AllAbove(events: seq<Event>, after: int)
    requires forall i :: 0 <= i < |events| ==> events[i].sequence > after
    ensures Above(events, after) == events
    decreases |events|
  {
    if events != [] {
      AllAbove(events[1..], after);
    }
  }

  lemma {:induction false} AboveSuffix(events: seq<Event>, after: int) returns (k: nat)
    requires Increasing(events)
    ensures k <= |events| && Above(events, after) == events[k..]
    ensures forall i :: 0 <= i < k ==> events[i].sequence <= after
    ensures forall i :: k <= i < |events| ==> events[i].sequence > after
    decreases |events|
  {
    if events == [] || events[0].sequence > after {
      k := 0;
      AllAbove(events, after);
    } else {
      var rest := events[1..];
      var n := AboveSuffix(rest, after);
      k := n + 1;
      assert events[k..] == rest[n..];
      forall i | 0 <= i < |events| ensures i < k ==> events[i].sequence <= after
                                   ensures i >= k ==> events[i].sequence > after
      {
        if i > 0 {
          assert events[i] == rest[i - 1];
        }
      }
    }
  }

  /**
   * The refusal test is exact: a resume point is at or above the floor exactly when every replayable event above it
   * is still in the window, and then those are precisely the window's events above it.
   */
  lemma {:induction false} FloorTest(sent: seq<Event>, after: int)
    requires Numbered(sent) && after >= -1
    ensures var all := Replayable(sent);
            && (Floor(all) <= after <==> forall e :: e in Above(all, after) ==> e in Longest(all))
            && (Floor(all) <= after ==> Above(Longest(all), after) == Above(all, after))
            && Floor(all) < |sent|
  {
    hide Longest;
    hide Above;
    hide Replayable;
    var all := Replayable(sent);
    ReplayableIncreasing(sent);
    LongestFits(all);
    var window := Longest(all);
    var dropped := |all| - |window|;
    assert window == all[dropped..];
    var k := AboveSuffix(all, after);
    if Floor(all) <= after {
      AboveShift(all, dropped, after);
      assert Above(all, after) == all[k..] && k >= dropped;
      assert forall i :: k <= i < |all| ==> all[i] == window[i - dropped];
    } else {
      var last := all[dropped - 1];
      assert last in all;
      NotInSuffix(all, dropped);
      assert last == all[k..][dropped - 1 - k];
    }
    if dropped > 0 {
      assert all[dropped - 1] in all;
    }
  }

  lemma NotInSuffix(events: seq<Event>, n: nat)
    requires Increasing(events) && 0 < n <= |events|
    ensures events[n - 1] !in events[n..]
  {
    assert forall i :: 0 <= i < |events[n..]| ==> events[n..][i].sequence > events[n - 1].sequence;
  }

  lemma {:induction false} AboveShift(events: seq<Event>, n: nat, after: int)
    requires n <= |events| && Increasing(events) && (n > 0 ==> events[n - 1].sequence <= after)
    ensures Above(events[n..], after) == Above(events, after)
    decreases n
  {
    if n == 0 {
      assert events[0..] == events;
    } else {
      assert events[0].sequence <= after;
      assert events[1..][n - 1..] == events[n..];
      AboveShift(events[1..], n - 1, after);
    }
  }

  // -------------------------------------------------------------------------
  // The state of one session
  // -------------------------------------------------------------------------

  class SessionReplayState {
    var lastServerSequence: int
    var connected: bool
    var events: seq<Event>
    var eventBytes: int
    var replayFloorSequence: int
    ghost var sent: seq<Event>  // every event ever sent under this state

    ghost predicate Valid()
      reads this
    {
      && Numbered(sent)
      && lastServerSequence == |sent| - 1
      && Windowed(sent)
    }

    /** The fields hold the window of these events. */
    ghost predicate Windowed(all: seq<Event>)
      reads this
    {
      && events == Longest(Replayable(all))
      && replayFloorSequence == Floor(Replayable(all))
      && eventBytes == Bytes(events)
    }

    constructor ()
      ensures Valid() && sent == [] && !connected
    {
      hide Longest;
      hide Floor;
      NothingSent();
      lastServerSequence, connected, events, eventBytes, replayFloorSequence := -1, false, [], 0, -1;
      sent := [];
    }

    /** Keep one more replayable event, dropping the oldest ones that no longer fit. */
    method Append(event: Event, ghost before: seq<Event>)
      requires Windowed(before) && event.replayable
      modifies this`events, this`eventBytes, this`replayFloorSequence
      ensures Windowed(before + [event])
    {
      hide Longest;
      hide Floor;
      hide Bytes;
      hide Replayable;
      ghost var old' := Replayable(before);
      ReplayableMore(before, event);
      LongestMore(old', event);
      FloorMore(old', event);
      if event.size > MAX_BYTES {
        OversizeClears(old', event);
        OversizeFloor(old', event);
        events, eventBytes, replayFloorSequence := [], 0, event.sequence;
        NoBytes();
        return;
      }
      BytesMore(events, event);
      events := events + [event];
      eventBytes := eventBytes + event.size;
      ghost var kept := events;
      while |events| > MAX_EVENTS || eventBytes > MAX_BYTES
        invariant |events| <= |kept|
        invariant events == kept[|kept| - |events|..]
        invariant Longest(events) == Longest(kept)
        invariant eventBytes == Bytes(events)
        invariant replayFloorSequence ==
                  if |events| == |kept| then Floor(old') else kept[|kept| - |events| - 1].sequence
        decreases |events|
      {
        DropOldest(kept, events);
        var removed := events[0];
        events := events[1..];
        eventBytes := eventBytes - removed.size;
        replayFloorSequence := removed.sequence;
      }
      WindowFits(events);
    }

    /** Number and record an event; a replayable one enters the window. */
    method SendEvent(replayable: bool, size: nat) returns (event: Event)
      requires Valid()
      modifies this
      ensures Valid() && connected == old(connected)
      ensures event == Event(|old(sent)|, replayable, size)
      ensures sent == old(sent) + [event]
    {
      hide Longest;
      hide Floor;
      hide Bytes;
      hide Replayable;
      lastServerSequence := lastServerSequence + 1;
      event := Event(lastServerSequence, replayable, size);
      if replayable {
        Append(event, sent);
      } else {
        ReplayableMore(sent, event);
      }
      sent := sent + [event];
    }

    method Disconnect()
      requires Valid()
      modifies this`connected
      ensures Valid() && !connected
    {
      hide Longest;
      hide Floor;
      hide Bytes;
      hide Replayable;
      connected := false;
    }
  }

  lemma NothingSent()
    ensures Replayable([]) == [] && Longest([]) == [] && Floor([]) == -1 && Bytes([]) == 0
  {}

  lemma ReplayableMore(sent: seq<Event>, e: Event)
    ensures Replayable(sent + [e]) == if e.replayable then Replayable(sent) + [e] else Replayable(sent)
  {
    assert (sent + [e])[..|sent|] == sent;
  }

  lemma NoBytes()
    ensures Bytes([]) == 0
  {}

  lemma OversizeFloor(events: seq<Event>, e: Event)
    requires Longest(events + [e]) == []
    ensures Floor(events + [e]) == e.sequence
  {}

  lemma DropOldest(kept: seq<Event>, events: seq<Event>)
    requires !Fits(events) && |events| <= |kept| && events == kept[|kept| - |events|..]
    ensures events != [] && Longest(events) == Longest(events[1..])
    ensures Bytes(events) == events[0].size + Bytes(events[1..])
    ensures events[1..] == kept[|kept| - |events[1..]|..]
    ensures kept[|kept| - |events[1..]| - 1] == events[0]
  {}

  lemma WindowFits(events: seq<Event>)
    requires Fits(events)
    ensures Longest(events) == events
  {}

  // -------------------------------------------------------------------------
  // Connecting
  // -------------------------------------------------------------------------

  datatype Decision =
    | Accepted(replay: seq<Event>)
    | Rejected(code: nat, reason: string)

  /**
   * The decision for a connection attempt. `full` says that no new session fits; an absent state starts afresh, and
   * only for a client that asks for everything from the start or for nothing.
   *
   * For a known, unconnected session and a resume point not ahead of what was sent: the attempt is refused exactly
   * when a replayable event above the resume point has left the window, and otherwise the replay is exactly the
   * replayable events sent under this state above it, in order. What was sent under a state that has been dropped since
   * is the subject of SessionRegistry.
   */
  method Connect(known: SessionReplayState?, after: Option<int>, full: bool)
    returns (decision: Decision, state: SessionReplayState?)
    requires known != null ==> known.Valid()
    requires after.Some? ==> after.value >= -1
    modifies if known == null then {} else {known}
    ensures state != null ==> state.Valid() && (decision.Accepted? ==> state.connected)
    ensures decision.Accepted? ==> state != null
    ensures decision.Rejected? ==> state == known && (known != null ==> known.connected == old(known.connected))
    ensures known == null ==>
              && (decision.Accepted? <==> (after.None? || after.value == -1) && !full)
              && (decision.Accepted? ==> fresh(state) && state.sent == [] && decision.replay == [])
              && (after.Some? && after.value >= 0 ==> decision == Rejected(4410, "replay window expired"))
              && (full && (after.None? || after.value == -1) ==> decision == Rejected(1013, "session capacity reached"))
    ensures known != null ==>
              && state == known && known.sent == old(known.sent) && known.events == old(known.events)
              && (old(known.connected) ==> decision == Rejected(4409, "session already connected"))
              && (!old(known.connected) && after.None? ==> decision == Rejected(4409, "resume sequence is required"))
              && (!old(known.connected) && after.Some? ==>
                    var needed := Above(Replayable(known.sent), after.value);
                    if after.value >= |known.sent| then decision == Rejected(4400, "resume sequence is ahead")
                    else if forall e :: e in needed ==> e in known.events then decision == Accepted(needed)
                    else decision == Rejected(4410, "replay window expired"))
  {
    hide Longest;
    hide Above;
    hide Floor;
    hide Replayable;
    state := known;
    if known == null {
      if after.Some? && after.value >= 0 {
        return Rejected(4410, "replay window expired"), known;
      }
      if full {
        return Rejected(1013, "session capacity reached"), known;
      }
      state := new SessionReplayState();
      state.connected := true;
      return Accepted([]), state;
    }
    if known.connected {
      return Rejected(4409, "session already connected"), known;
    }
    if after.None? {
      return Rejected(4409, "resume sequence is required"), known;
    }
    if after.value > known.lastServerSequence {
      return Rejected(4400, "resume sequence is ahead"), known;
    }
    FloorTest(known.sent, after.value);
    if after.value < known.replayFloorSequence {
      return Rejected(4410, "replay window expired"), known;
    }
    known.connected := true;
    return Accepted(Above(known.events, after.value)), known;
  }

  /** While its state is on file, a client that has seen everything is not refused as expired. */
  lemma {:induction false} UpToDateIsAccepted(sent: seq<Event>)
    requires Numbered(sent)
    ensures Floor(Replayable(sent)) <= |sent| - 1
    ensures Above(Replayable(sent), |sent| - 1) == []
  {
    hide Longest;
    hide Above;
    hide Replayable;
    hide Floor;
    var all := Replayable(sent);
    FloorTest(sent, |sent| - 1);
    ReplayableIncreasing(sent);
    assert forall i :: 0 <= i < |all| ==> all[i] in all && all[i].sequence < |sent|;
    NoneAbove(all, |sent| - 1);
  }

  lemma {:induction false} NoneAbove(events: seq<Event>, after: int)
    requires forall i :: 0 <= i < |events| ==> events[i].sequence <= after
    ensures Above(events, after) == []
  {
    if events != [] {
      NoneAbove(events[1..], after);
    }
  }
}
