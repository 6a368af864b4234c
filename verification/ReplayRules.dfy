/** Which events a resuming client is sent, who is admitted, and what every step does to every session. */
module ReplayRules {
  import opened ReplayWindow
  import opened SessionRegistry

  // -------------------------------------------------------------------------
  // Events
  // -------------------------------------------------------------------------

  /** These are the replayable events sent after that number, in the order they were sent. */
  ghost predicate AreMissed(events: seq<Event>, sent: seq<Event>, after: int) {
    && Increasing(events)
    && forall e :: e in events <==> e in sent && e.replayable && e.sequence > after
  }

  lemma {:induction false} ReplayableMembers(sent: seq<Event>, e: Event)
    ensures e in Replayable(sent) <==> e in sent && e.replayable
    decreases |sent|
  {
    if sent != [] {
      var before, last := sent[..|sent| - 1], sent[|sent| - 1];
      ReplayableMembers(before, e);
      assert sent == before + [last];
    }
  }

  lemma {:induction false} AboveMembers(events: seq<Event>, after: int, e: Event)
    ensures e in Above(events, after) <==> e in events && e.sequence > after
    decreases |events|
  {
    if events != [] {
      AboveMembers(events[1..], after, e);
      assert events == [events[0]] + events[1..];
    }
  }

  lemma MissedAre(sent: seq<Event>, after: int)
    requires Numbered(sent)
    ensures AreMissed(Above(Replayable(sent), after), sent, after)
  {
    hide Above, Replayable;
    var all := Replayable(sent);
    ReplayableIncreasing(sent);
    var k := AboveSuffix(all, after);
    forall e ensures e in Above(all, after) <==> e in sent && e.replayable && e.sequence > after {
      ReplayableMembers(sent, e);
      AboveMembers(all, after, e);
    }
  }

  /** There is only one such list. */
  lemma {:induction false} MissedAreUnique(a: seq<Event>, b: seq<Event>)
    requires Increasing(a) && Increasing(b) && forall e :: e in a <==> e in b
    ensures a == b
    decreases |a|
  {
    HasMember(a);
    HasMember(b);
    if a != [] && b != [] {
      assert a[0] in b && b[0] in a;
      assert a[0] == b[0];
      forall e ensures e in a[1..] <==> e in b[1..] {
        OnlyOnce(a, e);
        OnlyOnce(b, e);
      }
      assert Increasing(a[1..]) && Increasing(b[1..]);
      MissedAreUnique(a[1..], b[1..]);
      assert a == [a[0]] + a[1..] && b == [b[0]] + b[1..];
    }
  }

  lemma HasMember(events: seq<Event>)
    ensures events != [] <==> exists e :: e in events
  {
    if events != [] {
      assert events[0] in events;
    }
  }

  lemma OnlyOnce(a: seq<Event>, e: Event)
    requires a != [] && Increasing(a)
    ensures e in a[1..] <==> e in a && e != a[0]
  {
    assert a == [a[0]] + a[1..];
    assert forall i :: 0 <= i < |a[1..]| ==> a[1..][i].sequence > a[0].sequence;
  }

  /** The window is the longest run of the latest events of at most 256 events and 4 MiB. */
  lemma WindowIs(events: seq<Event>, k: nat)
    requires k <= |events|
    ensures var latest := events[|events| - k..];
            && (k == |Longest(events)| ==> Longest(events) == latest)
            && (k <= |Longest(events)| <==> |latest| <= 256 && Bytes(latest) <= 4194304)
  {
    hide Longest;
    LongestFits(events);
    var latest, w := events[|events| - k..], Longest(events);
    if k <= |w| {
      assert latest == w[|w| - k..];
      BytesOfSuffix(w, |w| - k);
    } else if Fits(latest) {
      LongestIsLongest(events, k);
    }
  }

  // -------------------------------------------------------------------------
  // Connecting
  // -------------------------------------------------------------------------

  /** Every replayable event sent after that number is still in the window. */
  ghost predicate AllKept(sent: seq<Event>, after: int) {
    forall e :: e in sent && e.replayable && e.sequence > after ==> e in Longest(Replayable(sent))
  }

  /** An unknown session is admitted afresh while there is room, a known one only behind what it was sent and kept. */
  ghost predicate Admitted(r: Registry, id: SessionId, after: Option<int>, removable: Option<SessionId>) {
    if id in r.live then
      && !r.live[id].connected
      && after.Some? && after.value < |r.live[id].sent| && AllKept(r.live[id].sent, after.value)
    else
      && after in {None, Some(-1)}
      && (|r.live| < 1024 || (removable.Some? && removable.value in r.live && !r.live[removable.value].connected))
  }

  lemma AllKeptIff(sent: seq<Event>, after: int)
    requires Numbered(sent) && after >= -1
    ensures AllKept(sent, after) <==> Floor(Replayable(sent)) <= after
    ensures AllKept(sent, after) ==> Above(Longest(Replayable(sent)), after) == Above(Replayable(sent), after)
  {
    hide Above, Replayable, Longest, Floor;
    FloorTest(sent, after);
    MissedAre(sent, after);
  }

  /** Who is admitted, and with what. */
  lemma AdmittedIff(r: Registry, id: SessionId, after: Option<int>, removable: Option<SessionId>)
    requires Kept(r) && (after.Some? ==> after.value >= -1)
    ensures var decision := Decide(r, id, after, removable);
            && (decision.Accepted? <==> Admitted(r, id, after, removable))
            && (decision.Accepted? && id !in r.live ==> decision.replay == [])
            && (decision.Accepted? && id in r.live ==> AreMissed(decision.replay, r.live[id].sent, after.value))
  {
    hide Above, Replayable, Longest, Floor, Numbered, AllKept, AreMissed;
    if id in r.live && after.Some? {
      AllKeptIff(r.live[id].sent, after.value);
      MissedAre(r.live[id].sent, after.value);
    }
  }

  /** How the others are refused. */
  lemma RefusedWith(r: Registry, id: SessionId, after: Option<int>, removable: Option<SessionId>)
    requires Kept(r) && (after.Some? ==> after.value >= -1) && !Admitted(r, id, after, removable)
    ensures Decide(r, id, after, removable) == (
              if id !in r.live && after in {None, Some(-1)} then Rejected(1013, "session capacity reached")
              else if id !in r.live then Rejected(4410, "replay window expired")
              else if r.live[id].connected then Rejected(4409, "session already connected")
              else if after.None? then Rejected(4409, "resume sequence is required")
              else if after.value >= |r.live[id].sent| then Rejected(4400, "resume sequence is ahead")
              else Rejected(4410, "replay window expired"))
  {
    hide Above, Replayable, Longest, Floor, Numbered, AllKept;
    if id in r.live && after.Some? {
      AllKeptIff(r.live[id].sent, after.value);
    }
  }

  // -------------------------------------------------------------------------
  // Steps
  // -------------------------------------------------------------------------

  /** This session's client gets in. */
  ghost predicate Enters(r: Registry, step: Step, x: SessionId) {
    step.Connecting? && step.id == x && Admitted(r, x, step.after, step.removable)
  }

  /** This session's state goes: its grace period ends without a client, or it makes room for another session. */
  ghost predicate Leaves(r: Registry, step: Step, x: SessionId) {
    && x in r.live
    && (|| (step == Expiring(x) && !r.live[x].connected)
        || (step.Connecting? && step.id !in r.live && Enters(r, step, step.id)
            && |r.live| >= 1024 && step.removable == Some(x)))
  }

  ghost predicate WellFormed(step: Step) {
    step.Connecting? && step.after.Some? ==> step.after.value >= -1
  }

  /** After every step, for every session: whether it has a state, whether a client is connected, and what it was sent. */
  lemma RegistryStep(r: Registry, step: Step, x: SessionId)
    requires Kept(r) && WellFormed(step)
    ensures var next := Next(r, step);
            && (x in next.live <==> Enters(r, step, x) || (x in r.live && !Leaves(r, step, x)))
            && (x in next.live ==>
                  && (next.live[x].connected <==>
                        Enters(r, step, x) || (x in r.live && r.live[x].connected && step != Disconnecting(x)))
                  && next.live[x].sent ==
                     if step.Sending? && step.id == x then
                       Sent(r, x) + [Event(|Sent(r, x)|, step.replayable, step.size)]
                     else Sent(r, x))
            && Lost(next, x) == if Leaves(r, step, x) then Lost(r, x) + Sent(r, x) else Lost(r, x)
  {
    hide Admitted, Decide, Kept;
    if step.Connecting? {
      AdmittedIff(r, step.id, step.after, step.removable);
      if Decide(r, step.id, step.after, step.removable).Accepted? {
        RoomWhenAccepted(r, step.id, step.after, step.removable);
      }
    }
  }
}
