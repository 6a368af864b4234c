/**
 * What the booking operations do, without their parts: exactly when a reservation is made, cancelled or changed, for which
 * reason it is refused otherwise, and what is then on the list.
 */
module SalonRules {
  import opened SalonBooking

  // -------------------------------------------------------------------------
  // Lookups
  // -------------------------------------------------------------------------

  /** The digits of a text: those of its parts, in order. */
  lemma DigitsAre(a: string, c: char, b: string)
    ensures Digits(a + [c] + b) == Digits(a) + (if '0' <= c <= '9' then [c] else []) + Digits(b)
    ensures Digits("") == ""
  {
    DigitsParts(a + [c], b);
    DigitsParts(a, [c]);
    assert [c][1..] == "";
  }

  /** A phone number is the digits of a text if they are 01 and eight or nine more. */
  lemma PhoneIs(value: string)
    ensures var digits := Digits(value);
            NormalizePhone(value) ==
            if 10 <= |digits| <= 11 && digits[0] == '0' && digits[1] == '1' then Ok(digits) else Err(PhoneInvalid)
  {
    hide Digits;
  }

  lemma {:induction false} DigitsParts(a: string, b: string)
    ensures Digits(a + b) == Digits(a) + Digits(b)
    decreases |a|
  {
    if a == "" {
      assert a + b == b;
    } else {
      hide Digits;
      var rest := a[1..];
      DigitsParts(rest, b);
      DigitsStep(a[0], rest + b);
      DigitsStep(a[0], rest);
      assert a == [a[0]] + rest && a + b == [a[0]] + (rest + b);
    }
  }

  lemma DigitsStep(c: char, rest: string)
    ensures Digits([c] + rest) == (if Digit(c) then [c] else []) + Digits(rest)
  {
    assert ([c] + rest)[1..] == rest;
  }

  // -------------------------------------------------------------------------
  // When and with whom
  // -------------------------------------------------------------------------

  /** The salon can take a service of this length at this time. */
  predicate Bookable(p: Policy, duration: nat, starts: int, now: int)
    requires ValidPolicy(p)
  {
    var day := starts / 1440;
    var hours := p.hours[day % 7];
    && now <= starts
    && day <= now / 1440 + p.horizon
    && hours.Some?
    && (starts % 60) % p.slot == 0
    && day * 1440 + hours.value.opens <= starts
    && starts + duration <= day * 1440 + hours.value.closes
  }

  /** The first of the salon's reasons against a time. */
  lemma WindowIff(p: Policy, duration: nat, starts: int, now: int)
    requires ValidPolicy(p)
    ensures var window := Window(p, duration, starts, now);
            var past, far := starts < now, starts / 1440 > now / 1440 + p.horizon;
            var closed := p.hours[(starts / 1440) % 7].None?;
            var off := (starts % 60) % p.slot != 0;
            && (window.Ok? <==> Bookable(p, duration, starts, now))
            && (window.Ok? ==> window.value == starts + duration)
            && (window == Err(ReservationInPast) <==> past)
            && (window == Err(BookingHorizonExceeded) <==> !past && far)
            && (window == Err(SalonClosed) <==> !past && !far && closed)
            && (window == Err(SlotAlignmentInvalid) <==> !past && !far && !closed && off)
            && (window == Err(OutsideBusinessHours) <==>
                  !past && !far && !closed && !off && !Bookable(p, duration, starts, now))
  {
  }

  /** A member of staff who does the service and has no confirmed reservation at any of the time, one aside. */
  ghost predicate CanTake(
    items: seq<Reservation>, m: Staff, service: string, starts: int, ends: int, aside: Option<string>)
  {
    && service in m.services
    && forall i :: 0 <= i < |items| && items[i].confirmed && items[i].staff == m.id && aside != Some(items[i].id) ==>
         items[i].ends <= starts || ends <= items[i].starts
  }

  lemma FreeIsCanTake(
    items: seq<Reservation>, m: Staff, service: string, starts: int, ends: int, aside: Option<string>)
    ensures Free(items, m, service, starts, ends, aside) <==> CanTake(items, m, service, starts, ends, aside)
  {
    if CanTake(items, m, service, starts, ends, aside) {
      forall i | 0 <= i < |items| ensures !Overlaps(items[i], m.id, starts, ends, aside) {
      }
    }
    if Free(items, m, service, starts, ends, aside) {
      forall i | 0 <= i < |items| ensures !Overlaps(items[i], m.id, starts, ends, aside) {
      }
    }
  }

  /** The first member in the policy's order who can take it, and is the one asked for if one is. */
  ghost predicate Takes(
    p: Policy, items: seq<Reservation>, j: nat, service: string, wish: Option<string>, starts: int, ends: int,
    aside: Option<string>)
  {
    && j < |p.staff|
    && (wish.Some? ==> p.staff[j].id == wish.value)
    && CanTake(items, p.staff[j], service, starts, ends, aside)
    && (wish.None? ==> forall i :: 0 <= i < j ==> !CanTake(items, p.staff[i], service, starts, ends, aside))
  }

  ghost predicate SomebodyTakes(
    p: Policy, items: seq<Reservation>, service: string, wish: Option<string>, starts: int, ends: int, aside: Option<string>)
  {
    exists j :: 0 <= j < |p.staff| && Takes(p, items, j, service, wish, starts, ends, aside)
  }

  lemma {:induction false} FirstFreeIs(
    staff: seq<Staff>, items: seq<Reservation>, service: string, starts: int, ends: int, aside: Option<string>)
    returns (j: nat)
    ensures var found := FirstFree(staff, items, service, starts, ends, aside);
            if found.Err? then
              found.code == SlotUnavailable
              && forall i :: 0 <= i < |staff| ==> !CanTake(items, staff[i], service, starts, ends, aside)
            else
              && j < |staff| && found.value == staff[j] && CanTake(items, staff[j], service, starts, ends, aside)
              && forall i :: 0 <= i < j ==> !CanTake(items, staff[i], service, starts, ends, aside)
  {
    hide Free, CanTake;
    j := 0;
    if staff != [] {
      FreeIsCanTake(items, staff[0], service, starts, ends, aside);
      if !Free(items, staff[0], service, starts, ends, aside) {
        var k := FirstFreeIs(staff[1..], items, service, starts, ends, aside);
        assert forall i :: 1 <= i < |staff| ==> staff[i] == staff[1..][i - 1];
        j := k + 1;
      }
    }
  }

  /** Exactly who is chosen, and why nobody is. */
  lemma ChoiceIff(
    p: Policy, items: seq<Reservation>, service: string, wish: Option<string>, starts: int, ends: int,
    aside: Option<string>) returns (j: nat)
    requires ValidPolicy(p)
    ensures var choice := ChooseStaff(p, items, service, wish, starts, ends, aside);
            && (choice.Ok? ==>
                  Takes(p, items, j, service, wish, starts, ends, aside) && choice.value == p.staff[j])
            && (choice.Err? ==>
                  forall i :: 0 <= i < |p.staff| ==> !Takes(p, items, i, service, wish, starts, ends, aside))
            && (choice == Err(StaffUnknown) <==> wish.Some? && forall m :: m in p.staff ==> m.id != wish.value)
            && (choice.Err? && choice != Err(StaffUnknown) ==> choice == Err(SlotUnavailable))
  {
    hide CanTake, Free, FirstFree, FindStaff;
    if wish.None? {
      j := FirstFreeIs(p.staff, items, service, starts, ends, aside);
    } else {
      FindsStaff(p.staff, wish.value);
      FoundIn(p.staff, wish.value);
      var found := FindStaff(p.staff, wish.value);
      j := 0;
      if found.Ok? {
        j :| 0 <= j < |p.staff| && p.staff[j] == found.value;
        var k := FirstFreeIs([found.value], items, service, starts, ends, aside);
        assert [found.value][0] == found.value;
        assert forall i :: 0 <= i < |p.staff| && p.staff[i].id == wish.value ==> p.staff[i] == found.value;
      }
    }
  }

  // -------------------------------------------------------------------------
  // Create
  // -------------------------------------------------------------------------

  /** The customer has a confirmed reservation at that time already. */
  ghost predicate Taken(items: seq<Reservation>, phone: string, starts: int) {
    exists i :: 0 <= i < |items| && items[i].confirmed && items[i].phone == phone && items[i].starts == starts
  }

  /** Everything a new reservation needs before a member of staff is looked for. */
  ghost predicate Acceptable(p: Policy, items: seq<Reservation>, r: Request, s: Service, at: int)
    requires ValidPolicy(p)
  {
    && s in p.services && s.id == r.service
    && Bookable(p, s.duration, r.starts, at)
    && NormalizePhone(r.phone).Ok?
    && 1 <= |r.name| <= 64
    && !Taken(items, NormalizePhone(r.phone).value, r.starts)
  }

  /** A reservation is made exactly if the request is acceptable and somebody can take it, and it is this one. */
  lemma CreateMakes(
    p: Policy, items: seq<Reservation>, r: Request, at: int, id: string, now: int, s: Service) returns (j: nat)
    requires ValidPolicy(p) && s in p.services && s.id == r.service
    ensures var change := Create(p, items, r, at, id, now);
            var ends := r.starts + s.duration;
            && (change.Ok? <==>
                  && Acceptable(p, items, r, s, at)
                  && SomebodyTakes(p, items, r.service, r.staff, r.starts, ends, None))
            && (change.Ok? ==>
                  && Takes(p, items, j, r.service, r.staff, r.starts, ends, None)
                  && change.value.items == items + [change.value.result]
                  && change.value.result == Reservation(
                       id, r.name, NormalizePhone(r.phone).value, r.service, p.staff[j].id, r.starts, ends, true, 1, now, now))
  {
    hide Bookable, CanTake, ChooseStaff, NormalizePhone, Window, FindService;
    FindsService(p.services, r.service);
    WindowIff(p, s.duration, r.starts, at);
    j := ChoiceIff(p, items, r.service, r.staff, r.starts, r.starts + s.duration, None);
    DuplicateIsTaken(items, r);
  }

  lemma DuplicateIsTaken(items: seq<Reservation>, r: Request)
    ensures NormalizePhone(r.phone).Ok? ==>
              (Duplicate(items, NormalizePhone(r.phone).value, r.starts) <==> Taken(items, NormalizePhone(r.phone).value, r.starts))
  {
    hide NormalizePhone;
  }

  /** Why a reservation is refused: the first of these reasons. */
  lemma CreateRefuses(p: Policy, items: seq<Reservation>, r: Request, at: int, id: string, now: int)
    requires ValidPolicy(p)
    ensures var change := Create(p, items, r, at, id, now);
            if forall s :: s in p.services ==> s.id != r.service then change == Err(ServiceUnknown)
            else
              forall s :: s in p.services && s.id == r.service ==>
                var window, phone := Window(p, s.duration, r.starts, at), NormalizePhone(r.phone);
                if !Bookable(p, s.duration, r.starts, at) then window.Err? && change == Err(window.code)
                else if phone.Err? then change == Err(PhoneInvalid)
                else if !(1 <= |r.name| <= 64) then change == Err(CustomerNameInvalid)
                else if Taken(items, phone.value, r.starts) then change == Err(DuplicateReservation)
                else if r.staff.Some? && forall m :: m in p.staff ==> m.id != r.staff.value then change == Err(StaffUnknown)
                else change.Err? ==> change == Err(SlotUnavailable)
  {
    hide Bookable, Takes, ChooseStaff, Window, FindService, Digits;
    FindsService(p.services, r.service);
    DuplicateIsTaken(items, r);
    forall s | s in p.services && s.id == r.service
      ensures Window(p, s.duration, r.starts, at).Ok? <==> Bookable(p, s.duration, r.starts, at)
      ensures Bookable(p, s.duration, r.starts, at) ==>
                var choice := ChooseStaff(p, items, r.service, r.staff, r.starts, r.starts + s.duration, None);
                && (choice == Err(StaffUnknown) <==> r.staff.Some? && forall m :: m in p.staff ==> m.id != r.staff.value)
                && (choice.Err? && choice != Err(StaffUnknown) ==> choice == Err(SlotUnavailable))
                && Window(p, s.duration, r.starts, at).value == r.starts + s.duration
    {
      WindowIff(p, s.duration, r.starts, at);
      var _ := ChoiceIff(p, items, r.service, r.staff, r.starts, r.starts + s.duration, None);
    }
  }

  /** Everyone who is available: those who can take it, in the policy's order. */
  lemma {:induction false} AvailableAre(
    a: seq<Staff>, m: Staff, b: seq<Staff>, items: seq<Reservation>, service: string, starts: int, ends: int,
    aside: Option<string>)
    ensures AllFree(a + [m] + b, items, service, starts, ends, aside)
            == AllFree(a, items, service, starts, ends, aside)
               + (if CanTake(items, m, service, starts, ends, aside) then [m] else [])
               + AllFree(b, items, service, starts, ends, aside)
    ensures AllFree([], items, service, starts, ends, aside) == []
  {
    hide Free, CanTake;
    FreeIsCanTake(items, m, service, starts, ends, aside);
    AvailableParts(a + [m], b, items, service, starts, ends, aside);
    AvailableParts(a, [m], items, service, starts, ends, aside);
    assert [m][1..] == [];
  }

  lemma {:induction false} AvailableParts(
    a: seq<Staff>, b: seq<Staff>, items: seq<Reservation>, service: string, starts: int, ends: int, aside: Option<string>)
    ensures AllFree(a + b, items, service, starts, ends, aside)
            == AllFree(a, items, service, starts, ends, aside) + AllFree(b, items, service, starts, ends, aside)
    decreases |a|
  {
    hide Free;
    if a == [] {
      assert a + b == b;
    } else {
      hide AllFree;
      var rest := a[1..];
      AvailableParts(rest, b, items, service, starts, ends, aside);
      AvailableStep(a[0], rest + b, items, service, starts, ends, aside);
      AvailableStep(a[0], rest, items, service, starts, ends, aside);
      assert a == [a[0]] + rest && a + b == [a[0]] + (rest + b);
    }
  }

  lemma AvailableStep(
    m: Staff, rest: seq<Staff>, items: seq<Reservation>, service: string, starts: int, ends: int, aside: Option<string>)
    ensures AllFree([m] + rest, items, service, starts, ends, aside)
            == (if Free(items, m, service, starts, ends, aside) then [m] else [])
               + AllFree(rest, items, service, starts, ends, aside)
  {
    hide Free;
    assert ([m] + rest)[1..] == rest;
  }

  /** Whether there is an answer at all: the service is known and the salon can take it then. */
  lemma AvailableIff(p: Policy, items: seq<Reservation>, service: string, starts: int, now: int, s: Service)
    requires ValidPolicy(p) && s in p.services && s.id == service
    ensures var available := AvailableStaff(p, items, service, starts, now, None);
            && (available.Ok? <==> Bookable(p, s.duration, starts, now))
            && (available.Ok? ==> available.value == AllFree(p.staff, items, service, starts, starts + s.duration, None))
            && (available.Err? ==> Window(p, s.duration, starts, now) == Err(available.code))
  {
    hide Bookable, Window, FindService, AllFree;
    FindsService(p.services, service);
    WindowIff(p, s.duration, starts, now);
  }

  // -------------------------------------------------------------------------
  // Cancel and modify
  // -------------------------------------------------------------------------

  /** The code names this reservation: it has eight characters and no other id starts with it. */
  predicate Names(items: seq<Reservation>, code: string, k: nat)
    requires k < |items|
  {
    |code| >= 8 && code <= items[k].id && forall i :: 0 <= i < |items| && i != k ==> !(code <= items[i].id)
  }

  lemma LocateIff(items: seq<Reservation>, code: string, phone: string, k: nat)
    requires k < |items| && Names(items, code, k)
    ensures Locate(items, code, phone) ==
            if NormalizePhone(phone).Err? then Err(PhoneInvalid)
            else if items[k].phone != NormalizePhone(phone).value then Err(CustomerMismatch)
            else Ok(k)
  {
    hide FindReservation, Digits;
    FindsTheOnlyOne(items, code, k);
  }

  lemma LocateNone(items: seq<Reservation>, code: string, phone: string)
    requires forall k :: 0 <= k < |items| ==> !Names(items, code, k)
    ensures Locate(items, code, phone) == if NormalizePhone(phone).Err? then Err(PhoneInvalid) else Err(ReservationNotFound)
  {
    hide Digits, Matches;
    forall k | 0 <= k < |items| ensures FindReservation(items, code) != Ok(k) {
      assert !Names(items, code, k);
      FindsTheOnlyOne(items, code, k);
    }
  }

  /**
   * A reservation is cancelled exactly for the customer it belongs to, if it is confirmed; everything else on the list stays
   * as it is. Any other call is refused for the first of these reasons.
   */
  lemma CancelIff(items: seq<Reservation>, code: string, phone: string, now: int, k: nat)
    requires k < |items| && Names(items, code, k)
    ensures var change := Cancel(items, code, phone, now);
            if NormalizePhone(phone).Err? then change == Err(PhoneInvalid)
            else if items[k].phone != NormalizePhone(phone).value then change == Err(CustomerMismatch)
            else if !items[k].confirmed then change == Err(AlreadyCancelled)
            else
              && change.Ok? && change.value.items == items[k := change.value.result]
              && change.value.result == items[k].(confirmed := false, version := items[k].version + 1, updatedAt := now)
  {
    hide Locate, NormalizePhone;
    LocateIff(items, code, phone, k);
  }

  lemma NothingNamed(items: seq<Reservation>, code: string, phone: string, now: int)
    requires forall k :: 0 <= k < |items| ==> !Names(items, code, k)
    ensures Cancel(items, code, phone, now)
            == if NormalizePhone(phone).Err? then Err(PhoneInvalid) else Err(ReservationNotFound)
  {
    hide Locate, NormalizePhone, Names;
    LocateNone(items, code, phone);
  }

  /**
   * A reservation is changed exactly for the customer it belongs to, if it is confirmed and somebody can take the new time,
   * its own old one aside; it keeps its id, customer and creation, and everything else on the list stays as it is.
   */
  lemma ModifyMakes(
    p: Policy, items: seq<Reservation>, code: string, phone: string, starts: int, service: Option<string>,
    wish: Option<string>, now: int, k: nat, s: Service) returns (j: nat)
    requires ValidPolicy(p) && k < |items| && Names(items, code, k)
    requires s in p.services
    requires s.id == if service.Some? && service.value != "" then service.value else items[k].service
    ensures var change := Modify(p, items, code, phone, starts, service, wish, now);
            var was, ends := items[k], starts + s.duration;
            if NormalizePhone(phone).Err? then change == Err(PhoneInvalid)
            else if was.phone != NormalizePhone(phone).value then change == Err(CustomerMismatch)
            else if !was.confirmed then change == Err(ReservationNotActive)
            else if !Bookable(p, s.duration, starts, now) then
              Window(p, s.duration, starts, now).Err? && change == Err(Window(p, s.duration, starts, now).code)
            else if wish.Some? && forall m :: m in p.staff ==> m.id != wish.value then change == Err(StaffUnknown)
            else if !SomebodyTakes(p, items, s.id, wish, starts, ends, Some(was.id)) then change == Err(SlotUnavailable)
            else
              && change.Ok? && Takes(p, items, j, s.id, wish, starts, ends, Some(was.id))
              && change.value.items == items[k := change.value.result]
              && change.value.result == Reservation(
                   was.id, was.name, was.phone, s.id, p.staff[j].id, starts, ends, true, was.version + 1, was.createdAt, now)
  {
    hide Bookable, CanTake, ChooseStaff, NormalizePhone, Window, FindService, Locate;
    LocateIff(items, code, phone, k);
    FindsService(p.services, s.id);
    WindowIff(p, s.duration, starts, now);
    j := ChoiceIff(p, items, s.id, wish, starts, starts + s.duration, Some(items[k].id));
  }

  lemma ModifyRefuses(
    p: Policy, items: seq<Reservation>, code: string, phone: string, starts: int, service: Option<string>,
    wish: Option<string>, now: int)
    requires ValidPolicy(p)
    ensures var change := Modify(p, items, code, phone, starts, service, wish, now);
            && ((forall k :: 0 <= k < |items| ==> !Names(items, code, k)) ==>
                  change == if NormalizePhone(phone).Err? then Err(PhoneInvalid) else Err(ReservationNotFound))
            && forall k :: 0 <= k < |items| && Names(items, code, k)
                           && NormalizePhone(phone) == Ok(items[k].phone) && items[k].confirmed
                           && (forall s :: s in p.services ==>
                                 s.id != if service.Some? && service.value != "" then service.value else items[k].service) ==>
                 change == Err(ServiceUnknown)
  {
    hide NormalizePhone, Window, FindService, Locate, Names, ChooseStaff;
    if forall k :: 0 <= k < |items| ==> !Names(items, code, k) {
      LocateNone(items, code, phone);
    }
    forall k | 0 <= k < |items| && Names(items, code, k)
      ensures Locate(items, code, phone) ==
              if NormalizePhone(phone).Err? then Err(PhoneInvalid)
              else if items[k].phone != NormalizePhone(phone).value then Err(CustomerMismatch)
              else Ok(k)
      ensures var selected := if service.Some? && service.value != "" then service.value else items[k].service;
              (forall s :: s in p.services ==> s.id != selected) ==> FindService(p.services, selected) == Err(ServiceUnknown)
    {
      LocateIff(items, code, phone, k);
      FindsService(p.services, if service.Some? && service.value != "" then service.value else items[k].service);
    }
  }
}
