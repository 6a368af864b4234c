/**
 * The search for the next free appointments of a salon call, against one reservation list and one reading of the clock.
 */
module AvailabilitySearch {
  import opened SalonBooking

  /** A start time and the members of staff who could take it. */
  datatype Slot = Slot(starts: int, members: seq<Staff>)

  /** What is searched for: a service, perhaps with one member of staff and at one time of the day. */
  datatype Query = Query(service: string, staff: Option<string>, time: Option<nat>)

  // -------------------------------------------------------------------------
  // The slots there are
  // -------------------------------------------------------------------------

  /** The grid of a day from one start on. */
  function GridFrom(slot: nat, duration: nat, start: int, closes: int): seq<int>
    requires slot > 0
    decreases closes - start
  {
    if start + duration > closes then [] else [start] + GridFrom(slot, duration, start + slot, closes)
  }

  function Grid(p: Policy, duration: nat, day: int): seq<int>
    requires ValidPolicy(p)
  {
    var hours := HoursOn(p, day);
    if hours.None? then []
    else GridFrom(p.slot, duration, day * DAY + hours.value.opens, day * DAY + hours.value.closes)
  }

  /** The starts looked at on a day: its whole grid, or one requested time if the service fits behind it. */
  function Candidates(p: Policy, duration: nat, day: int, time: Option<nat>): seq<int>
    requires ValidPolicy(p)
  {
    var hours := HoursOn(p, day);
    if time.None? then Grid(p, duration, day)
    else if hours.None? || time.value < hours.value.opens || time.value + duration > hours.value.closes then []
    else [day * DAY + time.value]
  }

  /** The starts of `days` days, in chronological order. */
  function AllCandidates(p: Policy, duration: nat, first: int, days: nat, time: Option<nat>): seq<int>
    requires ValidPolicy(p)
    decreases days
  {
    if days == 0 then []
    else AllCandidates(p, duration, first, days - 1, time) + Candidates(p, duration, first + days - 1, time)
  }

  function Wanted(members: seq<Staff>, staff: Option<string>): seq<Staff> {
    if members == [] then []
    else (if staff.None? || members[0].id == staff.value then [members[0]] else []) + Wanted(members[1..], staff)
  }

  /** The slot at a start, if the service and the requested member are free there. */
  function Offer(p: Policy, items: seq<Reservation>, service: string, staff: Option<string>, t: int, now: int): seq<Slot>
    requires ValidPolicy(p)
  {
    var available := AvailableStaff(p, items, service, t, now, None);
    if available.Err? || Wanted(available.value, staff) == [] then []
    else [Slot(t, Wanted(available.value, staff))]
  }

  function Offers(
    p: Policy, items: seq<Reservation>, service: string, staff: Option<string>, candidates: seq<int>, now: int): seq<Slot>
    requires ValidPolicy(p)
  {
    if candidates == [] then []
    else
      var n := |candidates| - 1;
      Offers(p, items, service, staff, candidates[..n], now) + Offer(p, items, service, staff, candidates[n], now)
  }

  function FirstThree(slots: seq<Slot>): seq<Slot> {
    if |slots| <= 3 then slots else slots[..3]
  }

  function Starts(slots: seq<Slot>): seq<int> {
    if slots == [] then []
    else Starts(slots[..|slots| - 1]) + [slots[|slots| - 1].starts]
  }

  /** Opening times and the requested time lie on the slot grid. */
  predicate Aligned(p: Policy, q: Query)
    requires ValidPolicy(p)
  {
    && (forall i :: 0 <= i < 7 && p.hours[i].Some? ==> p.hours[i].value.opens % p.slot == 0)
    && (q.time.Some? ==> q.time.value % p.slot == 0)
  }

  /** A start inside the booking window but off the slot grid of the clock: asking for its staff raises. */
  predicate OffGrid(p: Policy, t: int, now: int)
    requires ValidPolicy(p)
  {
    now <= t && DayOf(t) <= DayOf(now) + p.horizon && (t % 60) % p.slot != 0
  }

  predicate AnyOffGrid(p: Policy, candidates: seq<int>, now: int)
    requires ValidPolicy(p)
  {
    exists i :: 0 <= i < |candidates| && OffGrid(p, candidates[i], now)
  }

  // -------------------------------------------------------------------------
  // Facts about them
  // -------------------------------------------------------------------------

  /** The grid is complete: exactly the starts at a whole number of slots behind the opening that end before closing. */
  lemma {:induction false} GridComplete(slot: nat, duration: nat, start: int, closes: int, t: int)
    requires slot > 0
    ensures t in GridFrom(slot, duration, start, closes)
            <==> start <= t && t + duration <= closes && (t - start) % slot == 0
    decreases closes - start
  {
    if start + duration <= closes {
      GridComplete(slot, duration, start + slot, closes, t);
      if t >= start + slot {
        assert (t - start - slot) % slot == (t - start) % slot by {
          ModShift(t - start, slot);
        }
      } else if start < t {
        ModSmall(t - start, slot);
      }
    }
  }

  lemma ModShift(a: int, slot: nat)
    requires slot > 0
    ensures (a - slot) % slot == a % slot
  {
    var q := a / slot;
    assert a == q * slot + a % slot;
    assert a - slot == (q - 1) * slot + a % slot;
    ModUnique(a - slot, slot, q - 1, a % slot);
  }

  lemma ModUnique(a: int, slot: nat, q: int, r: int)
    requires slot > 0 && a == q * slot + r && 0 <= r < slot
    ensures a % slot == r
  {
    var k := a / slot;
    assert (q - k) * slot == a % slot - r;
    MultipleGrows(q - k, slot);
  }

  lemma MultipleGrows(x: int, slot: nat)
    ensures x >= 1 ==> x * slot >= slot
    ensures x <= -1 ==> x * slot <= -(slot as int)
  {
    if x >= 1 {
      assert x * slot == (x - 1) * slot + slot;
    } else if x <= -1 {
      assert x * slot == (x + 1) * slot - slot;
    }
  }

  lemma ModSmall(a: int, slot: nat)
    requires 0 < a < slot
    ensures a % slot != 0
  {
    ModUnique(a, slot, 0, a);
  }

  /** Every grid of a day is increasing. */
  lemma {:induction false} GridIncreasing(slot: nat, duration: nat, start: int, closes: int)
    requires slot > 0
    ensures var g := GridFrom(slot, duration, start, closes);
            Increasing(g) && forall i :: 0 <= i < |g| ==> start <= g[i] && g[i] + duration <= closes
    decreases closes - start
  {
    if start + duration <= closes {
      GridIncreasing(slot, duration, start + slot, closes);
    }
  }

  predicate Increasing(s: seq<int>) {
    forall i, j :: 0 <= i < j < |s| ==> s[i] < s[j]
  }

  /** A day's candidates are increasing, lie in its opening hours and on that day. */
  lemma CandidatesOfDay(p: Policy, duration: nat, day: int, time: Option<nat>)
    requires ValidPolicy(p) && duration > 0
    ensures var c := Candidates(p, duration, day, time);
            && Increasing(c)
            && forall i :: 0 <= i < |c| ==> InDay(p, duration, day, c[i])
  {
    var hours := HoursOn(p, day);
    if hours.Some? {
      var opens, closes := day * DAY + hours.value.opens, day * DAY + hours.value.closes;
      GridIncreasing(p.slot, duration, opens, closes);
    }
  }

  predicate InDay(p: Policy, duration: nat, day: int, t: int)
    requires ValidPolicy(p)
  {
    var hours := HoursOn(p, day);
    && hours.Some?
    && day * DAY + hours.value.opens <= t
    && t + duration <= day * DAY + hours.value.closes
    && DayOf(t) == day
  }

  /** A candidate is refused because of the clock or because it is off the grid, and for no other reason. */
  lemma CandidateWindow(p: Policy, duration: nat, day: int, t: int, now: int)
    requires ValidPolicy(p) && InDay(p, duration, day, t)
    ensures var w := Window(p, duration, t, now);
            && (w.Err? ==> w.code.ReservationInPast? || w.code.BookingHorizonExceeded? || w.code.SlotAlignmentInvalid?)
            && (w == Err(SlotAlignmentInvalid) <==> OffGrid(p, t, now))
  {
  }

  /** The minute within the hour is aligned exactly if the time is: slots divide the hour. */
  lemma MinuteAligned(t: int, slot: nat)
    requires slot in {10, 15, 20, 30, 60}
    ensures (t % 60) % slot == t % slot
  {
    var k := 60 / slot;
    var r := (t % 60) % slot;
    assert k * slot == 60;
    assert t % 60 == (t % 60 / slot) * slot + r;
    assert t == (t / 60 * k + t % 60 / slot) * slot + r;
    ModUnique(t, slot, t / 60 * k + t % 60 / slot, r);
  }

  lemma AlignedCandidates(p: Policy, q: Query, duration: nat, day: int, t: int)
    requires ValidPolicy(p) && Aligned(p, q) && t in Candidates(p, duration, day, q.time)
    ensures t % p.slot == 0
  {
    hide GridFrom;
    var hours := HoursOn(p, day).value;
    if q.time.None? {
      GridComplete(p.slot, duration, day * DAY + hours.opens, day * DAY + hours.closes, t);
      BehindOpening(day, hours.opens, t - (day * DAY + hours.opens), p.slot);
    } else {
      BehindOpening(day, q.time.value, 0, p.slot);
    }
  }

  /** With opening and requested times on the slot grid every candidate is on it. */
  lemma AlignedIsOnGrid(p: Policy, q: Query, duration: nat, day: int, now: int)
    requires ValidPolicy(p) && Aligned(p, q)
    ensures !AnyOffGrid(p, Candidates(p, duration, day, q.time), now)
  {
    hide Candidates, Aligned;
    var c := Candidates(p, duration, day, q.time);
    forall i | 0 <= i < |c| ensures !OffGrid(p, c[i], now) {
      AlignedCandidates(p, q, duration, day, c[i]);
      MinuteAligned(c[i], p.slot);
    }
  }

  lemma BehindOpening(day: int, opens: nat, later: int, slot: nat)
    requires slot in {10, 15, 20, 30, 60} && opens % slot == 0 && later % slot == 0
    ensures (day * DAY + opens + later) % slot == 0
  {
    DayAligned(day, slot);
    ModSum(day * DAY, opens, slot);
    ModSum(day * DAY + opens, later, slot);
  }

  lemma DayAligned(day: int, slot: nat)
    requires slot in {10, 15, 20, 30, 60}
    ensures (day * DAY) % slot == 0
  {
    var k := DAY / slot;
    assert k * slot == DAY;
    assert day * DAY == (day * k) * slot;
    ModUnique(day * DAY, slot, day * k, 0);
  }

  lemma ModSum(a: int, b: int, slot: nat)
    requires slot > 0 && a % slot == 0 && b % slot == 0
    ensures (a + b) % slot == 0
  {
    assert a + b == (a / slot + b / slot) * slot;
    ModUnique(a + b, slot, a / slot + b / slot, 0);
  }

  // -------------------------------------------------------------------------
  // The searches
  // -------------------------------------------------------------------------

  lemma {:induction false} OffersSplit(
    p: Policy, items: seq<Reservation>, service: string, staff: Option<string>, a: seq<int>, b: seq<int>, now: int)
    requires ValidPolicy(p)
    ensures Offers(p, items, service, staff, a + b, now)
            == Offers(p, items, service, staff, a, now) + Offers(p, items, service, staff, b, now)
    decreases |b|
  {
    hide Offer, ValidPolicy;
    if b == [] {
      assert a + b == a;
    } else {
      assert (a + b)[..|a + b| - 1] == a + b[..|b| - 1];
      OffersSplit(p, items, service, staff, a, b[..|b| - 1], now);
    }
  }

  lemma OffersSnoc(
    p: Policy, items: seq<Reservation>, service: string, staff: Option<string>, candidates: seq<int>, i: nat, now: int)
    requires ValidPolicy(p) && i < |candidates|
    ensures Offers(p, items, service, staff, candidates[..i + 1], now)
            == Offers(p, items, service, staff, candidates[..i], now) + Offer(p, items, service, staff, candidates[i], now)
  {
    assert candidates[..i + 1][..i] == candidates[..i];
  }

  lemma GridStep(slot: nat, duration: nat, candidate: int, closes: int, g: seq<int>, i: nat)
    requires slot > 0 && i <= |g| && GridFrom(slot, duration, candidate, closes) == g[i..]
    ensures candidate + duration <= closes <==> i < |g|
    ensures i < |g| ==> g[i] == candidate && GridFrom(slot, duration, candidate + slot, closes) == g[i + 1..]
  {
    if i < |g| {
      assert g[i..][1..] == g[i + 1..];
    }
  }

  lemma {:induction false} AllWanted(members: seq<Staff>)
    ensures Wanted(members, None) == members
  {
    if members != [] {
      AllWanted(members[1..]);
    }
  }

  /**
   * The free starts of one day. A start in the past or beyond the horizon is passed over; the answer is broken off exactly
   * by a start of the day inside the booking window and off the slot grid.
   */
  method DailyAvailability(p: Policy, items: seq<Reservation>, service: string, day: int, now: int)
    returns (daily: Result<seq<Slot>>)
    requires ValidPolicy(p)
    ensures FindService(p.services, service).Err? ==> daily == Err(FindService(p.services, service).code)
    ensures FindService(p.services, service).Ok? ==>
              var duration := FindService(p.services, service).value.duration;
              && (HoursOn(p, day).None? ==> daily == Err(SalonClosed))
              && (HoursOn(p, day).Some? ==>
                    daily == if AnyOffGrid(p, Grid(p, duration, day), now) then Err(SlotAlignmentInvalid)
                             else Ok(Offers(p, items, service, None, Grid(p, duration, day), now)))
  {
    hide GridFrom, Offers, AllFree, FindService, OffGrid;
    var found := FindService(p.services, service);
    if found.Err? {
      return Err(found.code);
    }
    var duration := found.value.duration;
    var hours := HoursOn(p, day);
    if hours.None? {
      return Err(SalonClosed);
    }
    DurationPositive(p, service);
    var candidate, closes := day * DAY + hours.value.opens, day * DAY + hours.value.closes;
    ghost var g := Grid(p, duration, day);
    ghost var i := 0;
    var slots: seq<Slot> := [];
    NoOffers(p, items, service, None, g, now);
    while candidate + duration <= closes
      invariant i <= |g| && GridFrom(p.slot, duration, candidate, closes) == g[i..]
      invariant slots == Offers(p, items, service, None, g[..i], now)
      invariant forall k :: 0 <= k < i ==> !OffGrid(p, g[k], now)
      decreases closes - candidate
    {
      GridStep(p.slot, duration, candidate, closes, g, i);
      OffersSnoc(p, items, service, None, g, i, now);
      CandidateError(p, items, Query(service, None, None), duration, day, i, now);
      var available := AvailableStaff(p, items, service, candidate, now, None);
      if available.Err? {
        if !available.code.ReservationInPast? && !available.code.BookingHorizonExceeded? {
          return Err(available.code);
        }
      } else {
        AllWanted(available.value);
        if available.value != [] {
          slots := slots + [Slot(candidate, available.value)];
        }
      }
      candidate := candidate + p.slot;
      i := i + 1;
    }
    GridStep(p.slot, duration, candidate, closes, g, i);
    assert g[..i] == g;
    daily := Ok(slots);
  }

  lemma NoOffers(
    p: Policy, items: seq<Reservation>, service: string, staff: Option<string>, candidates: seq<int>, now: int)
    requires ValidPolicy(p)
    ensures Offers(p, items, service, staff, candidates[..0], now) == [] && candidates[0..] == candidates
  {
  }

  lemma DurationPositive(p: Policy, service: string)
    requires ValidPolicy(p) && FindService(p.services, service).Ok?
    ensures FindService(p.services, service).value.duration > 0
  {
    ServiceDuration(p.services, service);
  }

  /** What can go wrong at a candidate. */
  lemma CandidateError(p: Policy, items: seq<Reservation>, q: Query, duration: nat, day: int, i: nat, now: int)
    requires ValidPolicy(p) && FindService(p.services, q.service).Ok?
             && duration == FindService(p.services, q.service).value.duration > 0
    requires i < |Candidates(p, duration, day, q.time)|
    ensures var t := Candidates(p, duration, day, q.time)[i];
            var available := AvailableStaff(p, items, q.service, t, now, None);
            && (available.Err? && !OffGrid(p, t, now) ==>
                  available.code.ReservationInPast? || available.code.BookingHorizonExceeded?)
            && (available == Err(SlotAlignmentInvalid) <==> OffGrid(p, t, now))
  {
    hide Window, Candidates, InDay, FindService, AllFree, ValidPolicy, OffGrid;
    CandidatesOfDay(p, duration, day, q.time);
    CandidateWindow(p, duration, day, Candidates(p, duration, day, q.time)[i], now);
  }

  lemma {:induction false} WantedParts(members: seq<Staff>, staff: Option<string>)
    ensures forall m :: m in Wanted(members, staff) <==> m in members && (staff.None? || m.id == staff.value)
  {
    if members != [] {
      WantedParts(members[1..], staff);
    }
  }

  /** Looking again at the starts that somebody is free for loses no start of the one who is asked for. */
  lemma {:induction false} Rescan(
    p: Policy, items: seq<Reservation>, service: string, staff: Option<string>, candidates: seq<int>, now: int)
    requires ValidPolicy(p)
    ensures Offers(p, items, service, staff, Starts(Offers(p, items, service, None, candidates, now)), now)
            == Offers(p, items, service, staff, candidates, now)
    decreases |candidates|
  {
    hide ValidPolicy, Offer, Starts;
    NoStarts();
    if candidates != [] {
      var n := |candidates| - 1;
      var t := candidates[n];
      var before := Offers(p, items, service, None, candidates[..n], now);
      var offer := Offer(p, items, service, None, t, now);
      Rescan(p, items, service, staff, candidates[..n], now);
      OfferNarrows(p, items, service, staff, t, now);
      if offer == [] {
        assert before + offer == before;
      } else {
        StartsSnoc(before, offer[0]);
        assert before + offer == before + [offer[0]];
        OffersSplit(p, items, service, staff, Starts(before), [t], now);
        OneOffer(p, items, service, staff, t, now);
      }
    }
  }

  lemma NoStarts()
    ensures Starts([]) == []
  {
  }

  lemma StartsSnoc(slots: seq<Slot>, slot: Slot)
    ensures Starts(slots + [slot]) == Starts(slots) + [slot.starts]
  {
    assert (slots + [slot])[..|slots|] == slots;
  }

  /** Where nobody is free, the one who is asked for is not free either. */
  lemma OfferNarrows(p: Policy, items: seq<Reservation>, service: string, staff: Option<string>, t: int, now: int)
    requires ValidPolicy(p)
    ensures var all := Offer(p, items, service, None, t, now);
            && (all == [] ==> Offer(p, items, service, staff, t, now) == [])
            && (all == [] || (|all| == 1 && all[0].starts == t))
  {
    hide ValidPolicy;
    var available := AvailableStaff(p, items, service, t, now, None);
    if available.Ok? {
      AllWanted(available.value);
    }
  }

  lemma OneOffer(p: Policy, items: seq<Reservation>, service: string, staff: Option<string>, t: int, now: int)
    requires ValidPolicy(p)
    ensures Offers(p, items, service, staff, [t], now) == Offer(p, items, service, staff, t, now)
  {
    assert [t][..0] == [];
    assert Offers(p, items, service, staff, [], now) == [];
  }

  lemma FirstThreeEnough(a: seq<Slot>, b: seq<Slot>)
    ensures |FirstThree(a)| == 3 ==> FirstThree(a + b) == FirstThree(a)
    ensures |FirstThree(a)| < 3 ==> FirstThree(a) == a
  {
  }

  /** The starts that the search looks at on one day. */
  method DayCandidates(p: Policy, items: seq<Reservation>, q: Query, day: int, now: int)
    returns (candidates: Result<seq<int>>)
    requires ValidPolicy(p) && FindService(p.services, q.service).Ok?
    ensures var today := Candidates(p, FindService(p.services, q.service).value.duration, day, q.time);
            if q.time.Some? then candidates == Ok(today)
            else if AnyOffGrid(p, today, now) then candidates == Err(SlotAlignmentInvalid)
            else
              && candidates.Ok? && (forall t :: t in candidates.value ==> t in today)
              && Offers(p, items, q.service, q.staff, candidates.value, now)
                 == Offers(p, items, q.service, q.staff, today, now)
  {
    hide Offers, FindService, GridFrom, Starts, OffGrid, ValidPolicy;
    var duration := FindService(p.services, q.service).value.duration;
    var hours := HoursOn(p, day);
    if hours.None? {
      return Ok([]);
    }
    if q.time.Some? {
      if q.time.value < hours.value.opens || day * DAY + q.time.value + duration > day * DAY + hours.value.closes {
        return Ok([]);
      }
      return Ok([day * DAY + q.time.value]);
    }
    var daily := DailyAvailability(p, items, q.service, day, now);
    if daily.Err? {
      return Err(daily.code);
    }
    var grid := Grid(p, duration, day);
    Rescan(p, items, q.service, q.staff, grid, now);
    OfferedStarts(p, items, q.service, None, grid, now);
    candidates := Ok(Starts(daily.value));
  }

  lemma {:induction false} OfferedStarts(
    p: Policy, items: seq<Reservation>, service: string, staff: Option<string>, candidates: seq<int>, now: int)
    requires ValidPolicy(p)
    ensures forall t :: t in Starts(Offers(p, items, service, staff, candidates, now)) ==> t in candidates
    decreases |candidates|
  {
    hide ValidPolicy, AvailableStaff;
    if candidates != [] {
      var n := |candidates| - 1;
      OfferedStarts(p, items, service, staff, candidates[..n], now);
      var before := Offers(p, items, service, staff, candidates[..n], now);
      var offer := Offer(p, items, service, staff, candidates[n], now);
      if offer == [] {
        assert before + offer == before;
      } else {
        assert (before + offer)[..|before + offer| - 1] == before;
      }
    }
  }

  /** The scan comes to this candidate with fewer than three slots, and it is off the grid. */
  predicate Stumbles(p: Policy, items: seq<Reservation>, q: Query, found: nat, candidates: seq<int>, now: int, i: nat)
    requires ValidPolicy(p) && i < |candidates|
  {
    OffGrid(p, candidates[i], now) && found + |Offers(p, items, q.service, q.staff, candidates[..i], now)| < 3
  }

  lemma {:induction false} OffersGrow(
    p: Policy, items: seq<Reservation>, q: Query, candidates: seq<int>, now: int, i: nat, j: nat)
    requires ValidPolicy(p) && i <= j <= |candidates|
    ensures |Offers(p, items, q.service, q.staff, candidates[..i], now)|
            <= |Offers(p, items, q.service, q.staff, candidates[..j], now)|
  {
    hide Offers, ValidPolicy;
    assert candidates[..j] == candidates[..i] + candidates[i..j];
    OffersSplit(p, items, q.service, q.staff, candidates[..i], candidates[i..j], now);
  }

  lemma NoLaterStumble(
    p: Policy, items: seq<Reservation>, q: Query, found: nat, candidates: seq<int>, now: int, done: nat)
    requires ValidPolicy(p) && done <= |candidates|
    requires found + |Offers(p, items, q.service, q.staff, candidates[..done], now)| >= 3
    ensures forall i :: done <= i < |candidates| ==> !Stumbles(p, items, q, found, candidates, now, i)
  {
    hide Offers, ValidPolicy, OffGrid;
    forall i | done <= i < |candidates| ensures !Stumbles(p, items, q, found, candidates, now, i) {
      OffersGrow(p, items, q, candidates, now, done, i);
    }
  }

  /** On the starts of one day the scan stumbles exactly if one of the day's candidates is off the grid. */
  lemma StumblesOnDay(
    p: Policy, items: seq<Reservation>, q: Query, duration: nat, day: int, found: nat, candidates: seq<int>, now: int)
    requires ValidPolicy(p) && found < 3
    requires var today := Candidates(p, duration, day, q.time);
             if q.time.Some? then candidates == today
             else !AnyOffGrid(p, today, now) && forall t :: t in candidates ==> t in today
    ensures (exists i :: 0 <= i < |candidates| && Stumbles(p, items, q, found, candidates, now, i))
            <==> AnyOffGrid(p, Candidates(p, duration, day, q.time), now)
  {
    hide Offers, ValidPolicy, OffGrid, Grid;
    var today := Candidates(p, duration, day, q.time);
    if q.time.Some? {
      NoOffers(p, items, q.service, q.staff, candidates, now);
      assert today != [] ==> (Stumbles(p, items, q, found, candidates, now, 0) <==> OffGrid(p, today[0], now));
    } else {
      forall i | 0 <= i < |candidates| ensures !Stumbles(p, items, q, found, candidates, now, i) {
        assert candidates[i] in candidates;
      }
    }
  }

  /** With the third slot the scan is over. */
  lemma ThirdFound(
    p: Policy, items: seq<Reservation>, q: Query, found: seq<Slot>, candidates: seq<int>, now: int, done: nat,
    all: seq<Slot>)
    requires ValidPolicy(p) && done <= |candidates| && |all| == 3
    requires all == found + Offers(p, items, q.service, q.staff, candidates[..done], now)
    requires forall k :: 0 <= k < done ==> !Stumbles(p, items, q, |found|, candidates, now, k)
    ensures forall k :: 0 <= k < |candidates| ==> !Stumbles(p, items, q, |found|, candidates, now, k)
    ensures FirstThree(found + Offers(p, items, q.service, q.staff, candidates, now)) == all
  {
    hide Offers, ValidPolicy, Stumbles;
    NoLaterStumble(p, items, q, |found|, candidates, now, done);
    OffersSplit(p, items, q.service, q.staff, candidates[..done], candidates[done..], now);
    assert candidates[..done] + candidates[done..] == candidates;
    var rest := Offers(p, items, q.service, q.staff, candidates[done..], now);
    assert found + (Offers(p, items, q.service, q.staff, candidates[..done], now) + rest) == all + rest;
    FirstThreeEnough(all, rest);
  }

  /**
   * Add the offers of some candidates to the slots found so far, and stop at the third. The scan is broken off exactly by a
   * candidate off the grid that it comes to before that.
   */
  method Scan(
    p: Policy, items: seq<Reservation>, q: Query, day: int, candidates: seq<int>, found: seq<Slot>, now: int)
    returns (slots: Result<seq<Slot>>)
    requires ValidPolicy(p) && FindService(p.services, q.service).Ok? && |found| < 3
    requires forall t :: t in candidates ==> t in Candidates(p, FindService(p.services, q.service).value.duration, day, q.time)
    ensures slots == if exists i :: 0 <= i < |candidates| && Stumbles(p, items, q, |found|, candidates, now, i)
                     then Err(SlotAlignmentInvalid)
                     else Ok(FirstThree(found + Offers(p, items, q.service, q.staff, candidates, now)))
  {
    hide Offers, FindService, Candidates, AllFree, OffGrid, ValidPolicy, Window;
    DurationPositive(p, q.service);
    var all := found;
    NoOffers(p, items, q.service, q.staff, candidates, now);
    for i := 0 to |candidates|
      invariant all == found + Offers(p, items, q.service, q.staff, candidates[..i], now)
      invariant |all| < 3
      invariant forall k :: 0 <= k < i ==> !Stumbles(p, items, q, |found|, candidates, now, k)
    {
      OffersSnoc(p, items, q.service, q.staff, candidates, i, now);
      assert candidates[i] in candidates;
      ghost var today := Candidates(p, FindService(p.services, q.service).value.duration, day, q.time);
      ghost var k :| 0 <= k < |today| && today[k] == candidates[i];
      CandidateError(p, items, q, FindService(p.services, q.service).value.duration, day, k, now);
      var available := AvailableStaff(p, items, q.service, candidates[i], now, None);
      if available.Err? {
        if !available.code.ReservationInPast? && !available.code.BookingHorizonExceeded? {
          assert Stumbles(p, items, q, |found|, candidates, now, i);
          return Err(available.code);
        }
      } else {
        var members := Wanted(available.value, q.staff);
        if members != [] {
          all := all + [Slot(candidates[i], members)];
        }
        if |all| >= 3 {
          ThirdFound(p, items, q, found, candidates, now, i + 1, all);
          return Ok(all);
        }
      }
    }
    assert candidates[..|candidates|] == candidates;
    slots := Ok(all);
  }

  /** The search comes to this day with fewer than three slots, and one of the day's candidates is off the grid. */
  predicate Breaks(p: Policy, items: seq<Reservation>, q: Query, first: int, k: nat, now: int)
    requires ValidPolicy(p) && FindService(p.services, q.service).Ok?
  {
    var duration := FindService(p.services, q.service).value.duration;
    && AnyOffGrid(p, Candidates(p, duration, first + k, q.time), now)
    && |Offers(p, items, q.service, q.staff, AllCandidates(p, duration, first, k, q.time), now)| < 3
  }

  lemma NoLaterBreak(p: Policy, items: seq<Reservation>, q: Query, first: int, some: nat, now: int)
    requires ValidPolicy(p) && FindService(p.services, q.service).Ok?
    requires var all := AllCandidates(p, FindService(p.services, q.service).value.duration, first, some, q.time);
             |Offers(p, items, q.service, q.staff, all, now)| >= 3
    ensures forall k :: k >= some ==> !Breaks(p, items, q, first, k, now)
  {
    hide Offers, FindService, ValidPolicy, AnyOffGrid, Candidates, AllCandidates;
    forall k | k >= some ensures !Breaks(p, items, q, first, k, now) {
      MoreDays(p, items, q, FindService(p.services, q.service).value.duration, first, some, k, now);
    }
  }

  /**
   * The search: day by day from today, or from the day after an excluded one, up to the horizon, stopping at the third
   * slot. It finds the first three of all the slots there are. It is broken off exactly by a day it comes to with fewer
   * than three slots and on which a candidate inside the booking window is off the grid; with opening times and a requested
   * time on the slot grid there is none.
   */
  method Search(p: Policy, items: seq<Reservation>, q: Query, excluded: Option<int>, now: int)
    returns (slots: Result<seq<Slot>>)
    requires ValidPolicy(p)
    ensures FindService(p.services, q.service).Err? ==> slots == Err(FindService(p.services, q.service).code)
    ensures FindService(p.services, q.service).Ok? && q.staff.Some? && FindStaff(p.staff, q.staff.value).Err? ==>
              slots == Err(FindStaff(p.staff, q.staff.value).code)
    ensures FindService(p.services, q.service).Ok? && (q.staff.None? || FindStaff(p.staff, q.staff.value).Ok?) ==>
              var all := AllCandidates(
                p, FindService(p.services, q.service).value.duration, FirstDay(excluded, now), p.horizon + 1, q.time);
              && slots == (if exists k :: 0 <= k <= p.horizon && Breaks(p, items, q, FirstDay(excluded, now), k, now)
                           then Err(SlotAlignmentInvalid)
                           else Ok(FirstThree(Offers(p, items, q.service, q.staff, all, now))))
              && (Aligned(p, q) ==> slots.Ok?)
  {
    hide Offers, FindService, FindStaff, Candidates, Aligned, ValidPolicy, AnyOffGrid, Stumbles;
    var service := FindService(p.services, q.service);
    if service.Err? {
      return Err(service.code);
    }
    if q.staff.Some? {
      var member := FindStaff(p.staff, q.staff.value);
      if member.Err? {
        return Err(member.code);
      }
    }
    ghost var duration := service.value.duration;
    var first := FirstDay(excluded, now);
    var found: seq<Slot> := [];
    NoOffers(p, items, q.service, q.staff, [], now);
    for offset := 0 to p.horizon + 1
      invariant found == Offers(p, items, q.service, q.staff, AllCandidates(p, duration, first, offset, q.time), now)
      invariant |found| < 3
      invariant forall k :: 0 <= k < offset ==> !Breaks(p, items, q, first, k, now)
    {
      ghost var before := AllCandidates(p, duration, first, offset, q.time);
      ghost var today := Candidates(p, duration, first + offset, q.time);
      OffersSplit(p, items, q.service, q.staff, before, today, now);
      if Aligned(p, q) {
        AlignedIsOnGrid(p, q, duration, first + offset, now);
      }
      var candidates := DayCandidates(p, items, q, first + offset, now);
      if candidates.Err? {
        assert Breaks(p, items, q, first, offset, now);
        return Err(candidates.code);
      }
      StumblesOnDay(p, items, q, duration, first + offset, |found|, candidates.value, now);
      var scanned := Scan(p, items, q, first + offset, candidates.value, found, now);
      if scanned.Err? {
        assert Breaks(p, items, q, first, offset, now);
        return Err(scanned.code);
      }
      ghost var sofar := found + Offers(p, items, q.service, q.staff, today, now);
      FirstThreeEnough(sofar, []);
      found := scanned.value;
      if |found| >= 3 {
        MoreDays(p, items, q, duration, first, offset + 1, p.horizon + 1, now);
        NoLaterBreak(p, items, q, first, offset + 1, now);
        return Ok(found);
      }
    }
    FirstThreeEnough(found, []);
    slots := Ok(found);
  }

  function FirstDay(excluded: Option<int>, now: int): int {
    if excluded.Some? && excluded.value >= DayOf(now) then excluded.value + 1 else DayOf(now)
  }

  /** Further days do not change three slots already found. */
  lemma {:induction false} MoreDays(
    p: Policy, items: seq<Reservation>, q: Query, duration: nat, first: int, some: nat, days: nat, now: int)
    requires ValidPolicy(p) && some <= days
    requires |Offers(p, items, q.service, q.staff, AllCandidates(p, duration, first, some, q.time), now)| >= 3
    ensures FirstThree(Offers(p, items, q.service, q.staff, AllCandidates(p, duration, first, days, q.time), now))
            == FirstThree(Offers(p, items, q.service, q.staff, AllCandidates(p, duration, first, some, q.time), now))
    decreases days
  {
    hide Offers, Candidates, ValidPolicy;
    if some < days {
      MoreDays(p, items, q, duration, first, some, days - 1, now);
      var before := AllCandidates(p, duration, first, days - 1, q.time);
      var today := Candidates(p, duration, first + days - 1, q.time);
      OffersSplit(p, items, q.service, q.staff, before, today, now);
      FirstThreeEnough(Offers(p, items, q.service, q.staff, before, now), Offers(p, items, q.service, q.staff, today, now));
    }
  }

  // -------------------------------------------------------------------------
  // What the answer means
  // -------------------------------------------------------------------------

  /** The starts looked at come in chronological order, day after day. */
  lemma {:induction false} Chronological(p: Policy, duration: nat, first: int, days: nat, time: Option<nat>)
    requires ValidPolicy(p) && duration > 0
    ensures var all := AllCandidates(p, duration, first, days, time);
            Increasing(all) && forall i :: 0 <= i < |all| ==> first <= DayOf(all[i]) < first + days
    decreases days
  {
    hide Candidates, ValidPolicy;
    if days > 0 {
      Chronological(p, duration, first, days - 1, time);
      CandidatesOfDay(p, duration, first + days - 1, time);
      var before := AllCandidates(p, duration, first, days - 1, time);
      var today := Candidates(p, duration, first + days - 1, time);
      forall i | 0 <= i < |today| ensures DayOf(today[i]) == first + days - 1 {
        assert InDay(p, duration, first + days - 1, today[i]);
      }
    }
  }

  /** A start at which the query can be met. */
  predicate Available(p: Policy, items: seq<Reservation>, q: Query, t: int, now: int)
    requires ValidPolicy(p)
  {
    Offer(p, items, q.service, q.staff, t, now) != []
  }

  lemma OfferIs(p: Policy, items: seq<Reservation>, service: string, staff: Option<string>, t: int, now: int)
    requires ValidPolicy(p)
    ensures var offer := Offer(p, items, service, staff, t, now);
            offer == [] || (|offer| == 1 && offer[0].starts == t)
  {
  }

  predicate InOrder(slots: seq<Slot>) {
    forall i, j :: 0 <= i < j < |slots| ==> slots[i].starts < slots[j].starts
  }

  predicate UpTo(slots: seq<Slot>, last: int) {
    forall i :: 0 <= i < |slots| ==> slots[i].starts <= last
  }

  lemma OrderSnoc(slots: seq<Slot>, last: int, slot: Slot)
    requires InOrder(slots) && UpTo(slots, last) && last < slot.starts
    ensures InOrder(slots + [slot]) && UpTo(slots + [slot], slot.starts)
    ensures UpTo(slots, slot.starts)
  {
  }

  /** The slots come in the order of their candidates. */
  lemma {:induction false} OffersInOrder(
    p: Policy, items: seq<Reservation>, service: string, staff: Option<string>, candidates: seq<int>, now: int)
    requires ValidPolicy(p) && Increasing(candidates)
    ensures InOrder(Offers(p, items, service, staff, candidates, now))
    ensures candidates != [] ==> UpTo(Offers(p, items, service, staff, candidates, now), candidates[|candidates| - 1])
    decreases |candidates|
  {
    hide ValidPolicy, Offer;
    if candidates != [] {
      var n := |candidates| - 1;
      OffersInOrder(p, items, service, staff, candidates[..n], now);
      OfferIs(p, items, service, staff, candidates[n], now);
      var before := Offers(p, items, service, staff, candidates[..n], now);
      var offer := Offer(p, items, service, staff, candidates[n], now);
      assert offer == [] ==> before + offer == before;
      assert offer != [] ==> offer == [offer[0]];
      var last := if n == 0 then candidates[n] - 1 else candidates[n - 1];
      assert UpTo(before, last);
      OrderSnoc(before, last, Slot(candidates[n], if offer == [] then [] else offer[0].members));
    }
  }

  /** Each slot is the offer at one of the candidates. */
  lemma {:induction false} OffersAreOffered(
    p: Policy, items: seq<Reservation>, service: string, staff: Option<string>, candidates: seq<int>, now: int, i: nat)
    requires ValidPolicy(p) && i < |Offers(p, items, service, staff, candidates, now)|
    ensures var slot := Offers(p, items, service, staff, candidates, now)[i];
            slot.starts in candidates && Offer(p, items, service, staff, slot.starts, now) == [slot]
    decreases |candidates|
  {
    hide ValidPolicy, Offer;
    var n := |candidates| - 1;
    var before := Offers(p, items, service, staff, candidates[..n], now);
    if i < |before| {
      OffersAreOffered(p, items, service, staff, candidates[..n], now, i);
    } else {
      OfferIs(p, items, service, staff, candidates[n], now);
    }
  }

  /** No available candidate is missing from the slots. */
  lemma {:induction false} AvailableIsOffered(
    p: Policy, items: seq<Reservation>, q: Query, candidates: seq<int>, now: int, t: int) returns (i: nat)
    requires ValidPolicy(p) && t in candidates && Available(p, items, q, t, now)
    ensures i < |Offers(p, items, q.service, q.staff, candidates, now)|
    ensures Offers(p, items, q.service, q.staff, candidates, now)[i].starts == t
    decreases |candidates|
  {
    hide ValidPolicy, Offer;
    var n := |candidates| - 1;
    var before := Offers(p, items, q.service, q.staff, candidates[..n], now);
    if t in candidates[..n] {
      i := AvailableIsOffered(p, items, q, candidates[..n], now, t);
    } else {
      assert t == candidates[n];
      OfferIs(p, items, q.service, q.staff, t, now);
      i := |before|;
    }
  }

  /**
   * The answer is optimal: its slots are available starts in chronological order, and an available start of the searched
   * days that is missing from it comes after three that are not.
   */
  lemma {:induction false} SearchIsEarliest(
    p: Policy, items: seq<Reservation>, q: Query, duration: nat, first: int, days: nat, now: int, t: int)
    requires ValidPolicy(p) && duration > 0
    requires t in AllCandidates(p, duration, first, days, q.time) && Available(p, items, q, t, now)
    ensures var slots := FirstThree(Offers(p, items, q.service, q.staff, AllCandidates(p, duration, first, days, q.time), now));
            || (exists i :: 0 <= i < |slots| && slots[i].starts == t)
            || (|slots| == 3 && slots[0].starts < slots[1].starts < slots[2].starts < t)
  {
    hide ValidPolicy, Offers, AllCandidates, Available;
    var candidates := AllCandidates(p, duration, first, days, q.time);
    Chronological(p, duration, first, days, q.time);
    OffersInOrder(p, items, q.service, q.staff, candidates, now);
    var all := Offers(p, items, q.service, q.staff, candidates, now);
    var k := AvailableIsOffered(p, items, q, candidates, now, t);
    assert forall i, j :: 0 <= i < j < |all| ==> all[i].starts < all[j].starts;
    if k < 3 {
      assert FirstThree(all)[k].starts == t;
    }
  }

  /**
   * Each slot of the answer is accepted by create on the same list and clock, for a customer who has no reservation at
   * that time yet, and goes to the member of staff who was asked for or to the first one named in the slot.
   */
  lemma SlotIsAccepted(
    p: Policy, items: seq<Reservation>, q: Query, candidates: seq<int>, k: nat, now: int, r: Request, id: string, later: int)
    requires ValidPolicy(p) && k < |Offers(p, items, q.service, q.staff, candidates, now)|
    requires var slot := Offers(p, items, q.service, q.staff, candidates, now)[k];
             r.service == q.service && r.staff == q.staff && r.starts == slot.starts
    requires NormalizePhone(r.phone).Ok? && 1 <= |r.name| <= 64
             && !Duplicate(items, NormalizePhone(r.phone).value, r.starts)
    ensures var slot := Offers(p, items, q.service, q.staff, candidates, now)[k];
            var change := Create(p, items, r, now, id, later);
            slot.members != [] && change.Ok? && change.value.result.staff == slot.members[0].id
            && change.value.result.starts == slot.starts
  {
    hide ValidPolicy, Offers, NormalizePhone, Duplicate, ChooseStaff, CheckRequest, AvailableStaff;
    OffersAreOffered(p, items, q.service, q.staff, candidates, now, k);
    CreateMatchesAvailability(p, items, r, now, id, later);
    var available := AvailableStaff(p, items, q.service, r.starts, now, None).value;
    AllWanted(available);
    WantedParts(available, q.staff);
    assert Wanted(available, q.staff)[0] in Wanted(available, q.staff);
  }
}
