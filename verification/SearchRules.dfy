/**
 * What the search for free appointments answers, without its days and grids: which starts suit the caller, and that the
 * answer is the three earliest of them.
 */
module SearchRules {
  import opened SalonBooking
  import opened SalonRules
  import opened AvailabilitySearch

  /** A member of staff the caller would go to and who can take the service then. */
  ghost predicate Serves(p: Policy, items: seq<Reservation>, q: Query, s: Service, m: Staff, t: int) {
    m in p.staff && (q.staff.Some? ==> m.id == q.staff.value) && CanTake(items, m, q.service, t, t + s.duration, None)
  }

  /**
   * A start the caller can be offered: not in the past, not beyond the horizon, not on the excluded day or before it unless
   * that day is over, inside the opening hours, on a slot, at the requested time of the day or a whole number of slots after
   * the opening, and with somebody to serve.
   */
  ghost predicate Suits(p: Policy, items: seq<Reservation>, q: Query, s: Service, excluded: Option<int>, now: int, t: int)
    requires ValidPolicy(p)
  {
    var today, day := now / 1440, t / 1440;
    && Bookable(p, s.duration, t, now)
    && (excluded.Some? && excluded.value >= today ==> day > excluded.value)
    && (q.time.Some? ==> t == day * 1440 + q.time.value)
    && (q.time.None? ==> (t - day * 1440 - p.hours[day % 7].value.opens) % p.slot == 0)
    && exists m :: Serves(p, items, q, s, m, t)
  }

  /** The answer of the search when nothing breaks it off. */
  function Answer(p: Policy, items: seq<Reservation>, q: Query, s: Service, excluded: Option<int>, now: int): seq<Slot>
    requires ValidPolicy(p)
  {
    FirstThree(Offers(p, items, q.service, q.staff,
                      AllCandidates(p, s.duration, FirstDay(excluded, now), p.horizon + 1, q.time), now))
  }

  // -------------------------------------------------------------------------
  // Candidates
  // -------------------------------------------------------------------------

  lemma {:induction false} AmongAll(p: Policy, duration: nat, first: int, days: nat, time: Option<nat>, day: int, t: int)
    requires ValidPolicy(p) && first <= day < first + days && t in Candidates(p, duration, day, time)
    ensures t in AllCandidates(p, duration, first, days, time)
    decreases days
  {
    hide Candidates, ValidPolicy;
    if day < first + days - 1 {
      AmongAll(p, duration, first, days - 1, time, day, t);
    }
  }

  lemma {:induction false} OfSomeDay(p: Policy, duration: nat, first: int, days: nat, time: Option<nat>, t: int)
    returns (day: int)
    requires ValidPolicy(p) && t in AllCandidates(p, duration, first, days, time)
    ensures first <= day < first + days && t in Candidates(p, duration, day, time)
    decreases days
  {
    hide Candidates, ValidPolicy;
    if t in Candidates(p, duration, first + days - 1, time) {
      day := first + days - 1;
    } else {
      day := OfSomeDay(p, duration, first, days - 1, time, t);
    }
  }

  /** The candidates of a day: inside its opening hours, and at the requested time or on the grid. */
  lemma CandidateIff(p: Policy, duration: nat, day: int, time: Option<nat>, t: int)
    requires ValidPolicy(p) && duration > 0
    ensures t in Candidates(p, duration, day, time) <==>
              var hours := p.hours[day % 7];
              && hours.Some? && t / 1440 == day
              && day * 1440 + hours.value.opens <= t && t + duration <= day * 1440 + hours.value.closes
              && (if time.Some? then t == day * 1440 + time.value
                  else (t - day * 1440 - hours.value.opens) % p.slot == 0)
  {
    hide GridFrom;
    var hours := HoursOn(p, day);
    if hours.Some? {
      GridComplete(p.slot, duration, day * DAY + hours.value.opens, day * DAY + hours.value.closes, t);
    }
  }

  /** Who is offered at a start the salon can take. */
  lemma OfferIff(p: Policy, items: seq<Reservation>, q: Query, s: Service, t: int, now: int)
    requires ValidPolicy(p) && s in p.services && s.id == q.service
    ensures var offer := Offer(p, items, q.service, q.staff, t, now);
            && (offer != [] <==> Bookable(p, s.duration, t, now) && exists m :: Serves(p, items, q, s, m, t))
            && (offer != [] ==>
                  offer[0].starts == t && forall m :: m in offer[0].members <==> Serves(p, items, q, s, m, t))
  {
    hide AllFree, Bookable, Window, FindService, Free, CanTake, Wanted, AvailableStaff;
    AvailableIff(p, items, q.service, t, now, s);
    var available := AllFree(p.staff, items, q.service, t, t + s.duration, None);
    AllFreeAreFree(p.staff, items, q.service, t, t + s.duration, None);
    WantedParts(available, q.staff);
    var wanted := Wanted(available, q.staff);
    forall m ensures m in wanted <==> Serves(p, items, q, s, m, t) {
      FreeIsCanTake(items, m, q.service, t, t + s.duration, None);
    }
    if wanted != [] {
      assert Serves(p, items, q, s, wanted[0], t);
    }
  }

  lemma FirstDayIs(excluded: Option<int>, now: int, day: int)
    ensures FirstDay(excluded, now) <= day <==>
              day >= now / 1440 && (excluded.Some? && excluded.value >= now / 1440 ==> day > excluded.value)
    ensures FirstDay(excluded, now) >= now / 1440
  {
  }

  /** What suits is a candidate of the searched days with an offer, and the other way round. */
  lemma SuitsIff(p: Policy, items: seq<Reservation>, q: Query, s: Service, excluded: Option<int>, now: int, t: int)
    requires ValidPolicy(p) && s in p.services && s.id == q.service
    ensures Suits(p, items, q, s, excluded, now, t) <==>
              && t in AllCandidates(p, s.duration, FirstDay(excluded, now), p.horizon + 1, q.time)
              && Offer(p, items, q.service, q.staff, t, now) != []
  {
    hide AllCandidates, Candidates, Offer, Serves, FirstDay;
    var first, day := FirstDay(excluded, now), t / 1440;
    OfferIff(p, items, q, s, t, now);
    CandidateIff(p, s.duration, day, q.time, t);
    FirstDayIs(excluded, now, day);
    if t in Candidates(p, s.duration, day, q.time) && first <= day < first + p.horizon + 1 {
      AmongAll(p, s.duration, first, p.horizon + 1, q.time, day, t);
    }
    if t in AllCandidates(p, s.duration, first, p.horizon + 1, q.time) {
      var d := OfSomeDay(p, s.duration, first, p.horizon + 1, q.time, t);
      CandidateIff(p, s.duration, d, q.time, t);
    }
  }

  // -------------------------------------------------------------------------
  // The answer
  // -------------------------------------------------------------------------

  /** Each slot of the answer suits, names exactly those who serve, and comes after the one before it. */
  lemma SlotsSuit(p: Policy, items: seq<Reservation>, q: Query, s: Service, excluded: Option<int>, now: int, k: nat)
    requires ValidPolicy(p) && s in p.services && s.id == q.service && k < |Answer(p, items, q, s, excluded, now)|
    ensures var slots := Answer(p, items, q, s, excluded, now);
            && |slots| <= 3
            && Suits(p, items, q, s, excluded, now, slots[k].starts)
            && (forall m :: m in slots[k].members <==> Serves(p, items, q, s, m, slots[k].starts))
            && (k > 0 ==> slots[k - 1].starts < slots[k].starts)
  {
    hide Offers, AllCandidates, Offer, Suits, Serves;
    var candidates := AllCandidates(p, s.duration, FirstDay(excluded, now), p.horizon + 1, q.time);
    var all := Offers(p, items, q.service, q.staff, candidates, now);
    assert Answer(p, items, q, s, excluded, now)[k] == all[k];
    OffersAreOffered(p, items, q.service, q.staff, candidates, now, k);
    SuitsIff(p, items, q, s, excluded, now, all[k].starts);
    OfferIff(p, items, q, s, all[k].starts, now);
    Chronological(p, s.duration, FirstDay(excluded, now), p.horizon + 1, q.time);
    OffersInOrder(p, items, q.service, q.staff, candidates, now);
  }

  /** What suits is in the answer or comes after three starts that are. */
  lemma EarliestSuit(p: Policy, items: seq<Reservation>, q: Query, s: Service, excluded: Option<int>, now: int, t: int)
    requires ValidPolicy(p) && s in p.services && s.id == q.service && Suits(p, items, q, s, excluded, now, t)
    ensures var slots := Answer(p, items, q, s, excluded, now);
            || (exists k :: 0 <= k < |slots| && slots[k].starts == t)
            || (|slots| == 3 && slots[2].starts < t)
  {
    hide Offers, AllCandidates, Offer, Suits, FirstThree;
    SuitsIff(p, items, q, s, excluded, now, t);
    SearchIsEarliest(p, items, q, s.duration, FirstDay(excluded, now), p.horizon + 1, now, t);
  }
}
