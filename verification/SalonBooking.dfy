/**
 * The salon's booking rules. Times are local minutes since a Monday midnight, so a day is 1440 of them.
 */
module SalonBooking {

  datatype Option<+T> = None | Some(value: T)

  datatype Result<+T> = Ok(value: T) | Err(code: Code)

  datatype Code =
    | ServiceUnknown | StaffUnknown | ReservationInPast | BookingHorizonExceeded | SalonClosed | SlotAlignmentInvalid
    | OutsideBusinessHours | PhoneInvalid | CustomerNameInvalid | DuplicateReservation | SlotUnavailable
    | ReservationNotFound | CustomerMismatch | AlreadyCancelled | ReservationNotActive

  datatype Service = Service(id: string, duration: nat)

  datatype Staff = Staff(id: string, services: set<string>)

  /** Opening hours in minutes of the day; the closing time is on the same day. */
  datatype Hours = Hours(opens: nat, closes: nat)

  datatype Policy = Policy(
    horizon: nat, slot: nat, hours: seq<Option<Hours>>, services: seq<Service>, staff: seq<Staff>)

  datatype Reservation = Reservation(
    id: string, name: string, phone: string, service: string, staff: string, starts: int, ends: int,
    confirmed: bool, version: nat, createdAt: int, updatedAt: int)

  datatype Request = Request(name: string, phone: string, service: string, starts: int, staff: Option<string>)

  /** A confirmed or changed reservation and the list that holds it. */
  datatype Change = Change(items: seq<Reservation>, result: Reservation)

  const DAY := 1440

  function DayOf(t: int): int {
    t / DAY
  }

  /** Day 0 is a Monday. */
  function Weekday(day: int): nat {
    day % 7
  }

  predicate ValidPolicy(p: Policy) {
    && |p.hours| == 7
    && (forall i :: 0 <= i < 7 && p.hours[i].Some? ==> p.hours[i].value.opens < p.hours[i].value.closes < DAY)
    && 1 <= p.horizon <= 365
    && p.slot in {10, 15, 20, 30, 60}
    && (forall i :: 0 <= i < |p.services| ==> 10 <= p.services[i].duration <= 480)
    && (forall i, j :: 0 <= i < j < |p.services| ==> p.services[i].id != p.services[j].id)
    && (forall i, j :: 0 <= i < j < |p.staff| ==> p.staff[i].id != p.staff[j].id)
  }

  function HoursOn(p: Policy, day: int): Option<Hours>
    requires ValidPolicy(p)
  {
    p.hours[Weekday(day)]
  }

  // -------------------------------------------------------------------------
  // Lookups
  // -------------------------------------------------------------------------

  function FindService(services: seq<Service>, id: string): Result<Service> {
    if services == [] then Err(ServiceUnknown)
    else if services[0].id == id then Ok(services[0])
    else FindService(services[1..], id)
  }

  function FindStaff(staff: seq<Staff>, id: string): Result<Staff> {
    if staff == [] then Err(StaffUnknown)
    else if staff[0].id == id then Ok(staff[0])
    else FindStaff(staff[1..], id)
  }

  predicate Digit(c: char) {
    '0' <= c <= '9'
  }

  function Digits(value: string): string {
    if value == "" then ""
    else (if Digit(value[0]) then [value[0]] else []) + Digits(value[1..])
  }

  function NormalizePhone(value: string): Result<string> {
    var digits := Digits(value);
    if "01" <= digits && 10 <= |digits| <= 11 then Ok(digits) else Err(PhoneInvalid)
  }

  predicate Overlaps(r: Reservation, staff: string, starts: int, ends: int, excluding: Option<string>) {
    r.confirmed && r.staff == staff && Some(r.id) != excluding && starts < r.ends && ends > r.starts
  }

  predicate HasOverlap(items: seq<Reservation>, staff: string, starts: int, ends: int, excluding: Option<string>) {
    exists i :: 0 <= i < |items| && Overlaps(items[i], staff, starts, ends, excluding)
  }

  /** The positions whose id starts with a code. */
  function Matches(items: seq<Reservation>, code: string): (m: seq<nat>)
    ensures forall i :: 0 <= i < |m| ==> m[i] < |items|
  {
    if items == [] then []
    else
      var n := |items| - 1;
      Matches(items[..n], code) + if code <= items[n].id then [n] else []
  }

  function FindReservation(items: seq<Reservation>, code: string): (index: Result<nat>)
    ensures index.Ok? ==> index.value < |items|
  {
    var matches := Matches(items, code);
    if |code| < 8 || |matches| != 1 then Err(ReservationNotFound) else Ok(matches[0])
  }

  // -------------------------------------------------------------------------
  // Rules
  // -------------------------------------------------------------------------

  /** The end of a service started at a time, if the salon can take it then. The checks come in this order. */
  function Window(p: Policy, duration: nat, starts: int, now: int): Result<int>
    requires ValidPolicy(p)
  {
    var day := DayOf(starts);
    var hours := HoursOn(p, day);
    if starts < now then Err(ReservationInPast)
    else if day > DayOf(now) + p.horizon then Err(BookingHorizonExceeded)
    else if hours.None? then Err(SalonClosed)
    else if (starts % 60) % p.slot != 0 then Err(SlotAlignmentInvalid)
    else if starts < day * DAY + hours.value.opens || starts + duration > day * DAY + hours.value.closes then
      Err(OutsideBusinessHours)
    else Ok(starts + duration)
  }

  predicate Free(
    items: seq<Reservation>, m: Staff, service: string, starts: int, ends: int, excluding: Option<string>)
  {
    service in m.services && !HasOverlap(items, m.id, starts, ends, excluding)
  }

  /** The first free one of a list of candidates. */
  function FirstFree(
    staff: seq<Staff>, items: seq<Reservation>, service: string, starts: int, ends: int, excluding: Option<string>)
    : Result<Staff>
  {
    if staff == [] then Err(SlotUnavailable)
    else if Free(items, staff[0], service, starts, ends, excluding) then Ok(staff[0])
    else FirstFree(staff[1..], items, service, starts, ends, excluding)
  }

  function ChooseStaff(
    p: Policy, items: seq<Reservation>, service: string, requested: Option<string>, starts: int, ends: int,
    excluding: Option<string>): Result<Staff>
  {
    if requested.None? then FirstFree(p.staff, items, service, starts, ends, excluding)
    else
      var member := FindStaff(p.staff, requested.value);
      if member.Err? then member else FirstFree([member.value], items, service, starts, ends, excluding)
  }

  /** Everyone who is free. */
  function AllFree(
    staff: seq<Staff>, items: seq<Reservation>, service: string, starts: int, ends: int, excluding: Option<string>)
    : seq<Staff>
  {
    if staff == [] then []
    else
      (if Free(items, staff[0], service, starts, ends, excluding) then [staff[0]] else [])
      + AllFree(staff[1..], items, service, starts, ends, excluding)
  }

  function AvailableStaff(
    p: Policy, items: seq<Reservation>, service: string, starts: int, now: int, excluding: Option<string>)
    : Result<seq<Staff>>
    requires ValidPolicy(p)
  {
    var found := FindService(p.services, service);
    if found.Err? then Err(found.code)
    else
      var ends := Window(p, found.value.duration, starts, now);
      if ends.Err? then Err(ends.code) else Ok(AllFree(p.staff, items, service, starts, ends.value, excluding))
  }

  // -------------------------------------------------------------------------
  // The three mutations
  // -------------------------------------------------------------------------

  predicate Duplicate(items: seq<Reservation>, phone: string, starts: int) {
    exists i :: 0 <= i < |items| && items[i].confirmed && items[i].phone == phone && items[i].starts == starts
  }

  /** What create checks before it takes the lock. */
  function CheckRequest(p: Policy, r: Request, now: int): Result<(int, string)>
    requires ValidPolicy(p)
  {
    var service := FindService(p.services, r.service);
    if service.Err? then Err(service.code)
    else
      var ends := Window(p, service.value.duration, r.starts, now);
      if ends.Err? then Err(ends.code)
      else
        var phone := NormalizePhone(r.phone);
        if phone.Err? then Err(phone.code)
        else if !(1 <= |r.name| <= 64) then Err(CustomerNameInvalid)
        else Ok((ends.value, phone.value))
  }

  /** A new reservation; `id` is drawn fresh and the clock is read again when the reservation is made. */
  function Create(p: Policy, items: seq<Reservation>, r: Request, checkedAt: int, id: string, now: int): Result<Change>
    requires ValidPolicy(p)
  {
    var checked := CheckRequest(p, r, checkedAt);
    if checked.Err? then Err(checked.code)
    else
      var (ends, phone) := checked.value;
      if Duplicate(items, phone, r.starts) then Err(DuplicateReservation)
      else
        var member := ChooseStaff(p, items, r.service, r.staff, r.starts, ends, None);
        if member.Err? then Err(member.code)
        else
          var made := Reservation(id, r.name, phone, r.service, member.value.id, r.starts, ends, true, 1, now, now);
          Ok(Change(items + [made], made))
  }

  /** The reservation a code and a phone number stand for. */
  function Locate(items: seq<Reservation>, code: string, phone: string): (index: Result<nat>)
    ensures index.Ok? ==> index.value < |items|
  {
    var normalized := NormalizePhone(phone);
    if normalized.Err? then Err(normalized.code)
    else
      var index := FindReservation(items, code);
      if index.Err? then index
      else if items[index.value].phone != normalized.value then Err(CustomerMismatch)
      else index
  }

  function Cancelled(r: Reservation, now: int): Reservation {
    r.(confirmed := false, version := r.version + 1, updatedAt := now)
  }

  function Cancel(items: seq<Reservation>, code: string, phone: string, now: int): Result<Change> {
    var index := Locate(items, code, phone);
    if index.Err? then Err(index.code)
    else if !items[index.value].confirmed then Err(AlreadyCancelled)
    else
      var updated := Cancelled(items[index.value], now);
      Ok(Change(items[index.value := updated], updated))
  }

  function Modify(
    p: Policy, items: seq<Reservation>, code: string, phone: string, starts: int, service: Option<string>,
    staff: Option<string>, now: int): Result<Change>
    requires ValidPolicy(p)
  {
    var index := Locate(items, code, phone);
    if index.Err? then Err(index.code)
    else if !items[index.value].confirmed then Err(ReservationNotActive)
    else
      var existing := items[index.value];
      var selected := if service.None? || service.value == "" then existing.service else service.value;
      var found := FindService(p.services, selected);
      if found.Err? then Err(found.code)
      else
        var ends := Window(p, found.value.duration, starts, now);
        if ends.Err? then Err(ends.code)
        else
          var member := ChooseStaff(p, items, selected, staff, starts, ends.value, Some(existing.id));
          if member.Err? then Err(member.code)
          else
            var updated := existing.(service := selected, staff := member.value.id, starts := starts, ends := ends.value,
                                     version := existing.version + 1, updatedAt := now);
            Ok(Change(items[index.value := updated], updated))
  }

  // -------------------------------------------------------------------------
  // Safety of one mutation
  // -------------------------------------------------------------------------

  predicate Apart(a: Reservation, b: Reservation) {
    a.confirmed && b.confirmed && a.staff == b.staff ==> a.ends <= b.starts || b.ends <= a.starts
  }

  /** No staff member is booked twice at the same time. */
  predicate NoDoubleBooking(items: seq<Reservation>) {
    forall i, j :: 0 <= i < j < |items| ==> Apart(items[i], items[j])
  }

  /** A confirmed reservation lies inside the opening hours of its day. */
  predicate InsideHours(p: Policy, r: Reservation)
    requires ValidPolicy(p)
  {
    r.confirmed ==>
      var day := DayOf(r.starts);
      var hours := HoursOn(p, day);
      && hours.Some?
      && day * DAY + hours.value.opens <= r.starts < r.ends <= day * DAY + hours.value.closes
  }

  predicate UniqueIds(items: seq<Reservation>) {
    forall i, j :: 0 <= i < j < |items| ==> items[i].id != items[j].id
  }

  ghost predicate Safe(p: Policy, items: seq<Reservation>)
    requires ValidPolicy(p)
  {
    && NoDoubleBooking(items)
    && (forall i :: 0 <= i < |items| ==> InsideHours(p, items[i]))
    && UniqueIds(items)
    && (forall i :: 0 <= i < |items| ==> Contactable(items[i]))
  }

  /** Name and phone are stored as create checked and normalized them. */
  predicate Contactable(r: Reservation) {
    1 <= |r.name| <= 64 && NormalizePhone(r.phone) == Ok(r.phone)
  }

  lemma {:induction false} ServiceDuration(services: seq<Service>, id: string)
    requires forall i :: 0 <= i < |services| ==> 10 <= services[i].duration <= 480
    ensures FindService(services, id).Ok? ==> FindService(services, id).value.duration >= 10
  {
    if services != [] {
      ServiceDuration(services[1..], id);
    }
  }

  /** A service is found exactly if the policy has it, and it is the one with that id. */
  lemma {:induction false} FindsService(services: seq<Service>, id: string)
    requires forall i, j :: 0 <= i < j < |services| ==> services[i].id != services[j].id
    ensures var found := FindService(services, id);
            && (found.Ok? ==> found.value in services && found.value.id == id)
            && (found.Err? ==> found.code == ServiceUnknown && forall s :: s in services ==> s.id != id)
            && forall s :: s in services && s.id == id ==> found == Ok(s)
  {
    if services != [] {
      FindsService(services[1..], id);
      ServiceFoundIn(services, id);
    }
  }

  lemma {:induction false} ServiceFoundIn(services: seq<Service>, id: string)
    ensures FindService(services, id).Ok? ==> FindService(services, id).value in services
  {
    if services != [] {
      ServiceFoundIn(services[1..], id);
    }
  }

  lemma {:induction false} FirstFreeIsFree(
    staff: seq<Staff>, items: seq<Reservation>, service: string, starts: int, ends: int, excluding: Option<string>)
    ensures var m := FirstFree(staff, items, service, starts, ends, excluding);
            && (m.Ok? ==> m.value in staff && Free(items, m.value, service, starts, ends, excluding))
            && (m.Err? ==> m.code == SlotUnavailable
                           && forall i :: 0 <= i < |staff| ==> !Free(items, staff[i], service, starts, ends, excluding))
  {
    hide Free;
    if staff != [] {
      FirstFreeIsFree(staff[1..], items, service, starts, ends, excluding);
    }
  }

  lemma ChosenIsFree(
    p: Policy, items: seq<Reservation>, service: string, requested: Option<string>, starts: int, ends: int,
    excluding: Option<string>)
    ensures var m := ChooseStaff(p, items, service, requested, starts, ends, excluding);
            m.Ok? ==> !HasOverlap(items, m.value.id, starts, ends, excluding)
  {
    hide HasOverlap;
    if requested.None? {
      FirstFreeIsFree(p.staff, items, service, starts, ends, excluding);
    } else if FindStaff(p.staff, requested.value).Ok? {
      FirstFreeIsFree([FindStaff(p.staff, requested.value).value], items, service, starts, ends, excluding);
    }
  }

  /** Storing a reservation that overlaps nobody else's keeps the list safe, at the end or in place of its own old version. */
  lemma AddKeeps(p: Policy, items: seq<Reservation>, r: Reservation)
    requires ValidPolicy(p) && Safe(p, items) && r.confirmed && InsideHours(p, r) && Contactable(r)
    requires !HasOverlap(items, r.staff, r.starts, r.ends, None)
    requires forall i :: 0 <= i < |items| ==> items[i].id != r.id
    ensures Safe(p, items + [r])
  {
    forall i, j | 0 <= i < j < |items + [r]| ensures Apart((items + [r])[i], (items + [r])[j]) {
      if j == |items| {
        assert !Overlaps(items[i], r.staff, r.starts, r.ends, None);
      }
    }
  }

  lemma ReplaceKeeps(p: Policy, items: seq<Reservation>, k: nat, r: Reservation)
    requires ValidPolicy(p) && Safe(p, items) && k < |items| && r.id == items[k].id && InsideHours(p, r) && Contactable(r)
    requires r.confirmed ==> !HasOverlap(items, r.staff, r.starts, r.ends, Some(r.id))
    ensures Safe(p, items[k := r])
  {
    var changed := items[k := r];
    forall i, j | 0 <= i < j < |changed| ensures Apart(changed[i], changed[j]) {
      if i == k {
        assert !r.confirmed || !Overlaps(items[j], r.staff, r.starts, r.ends, Some(r.id));
      } else if j == k {
        assert !r.confirmed || !Overlaps(items[i], r.staff, r.starts, r.ends, Some(r.id));
      } else {
        assert Apart(items[i], items[j]);
      }
    }
  }

  lemma {:induction false} DigitsTwice(value: string)
    ensures Digits(Digits(value)) == Digits(value)
  {
    if value != "" {
      DigitsTwice(value[1..]);
      if Digit(value[0]) {
        var kept := [value[0]] + Digits(value[1..]);
        assert Digits(value) == kept && kept[0] == value[0] && kept[1..] == Digits(value[1..]);
      } else {
        assert Digits(value) == Digits(value[1..]);
      }
    }
  }

  lemma WindowInside(p: Policy, duration: nat, starts: int, now: int, r: Reservation)
    requires ValidPolicy(p) && duration > 0 && Window(p, duration, starts, now).Ok?
    requires r.starts == starts && r.ends == Window(p, duration, starts, now).value
    ensures InsideHours(p, r) && r.ends == starts + duration
  {
  }

  /**
   * A reservation is only ever created where its member of staff is free, inside the opening hours, and it is the one that
   * was asked for: from its start for as long as the policy's service of that name takes, under the normalized phone number.
   */
  lemma CreateKeeps(p: Policy, items: seq<Reservation>, r: Request, checkedAt: int, id: string, now: int)
    requires ValidPolicy(p) && Safe(p, items)
    ensures var change := Create(p, items, r, checkedAt, id, now);
            change.Ok? ==>
              && change.value.items == items + [change.value.result]
              && change.value.result.confirmed && change.value.result.id == id && change.value.result.version == 1
              && change.value.result.starts == r.starts
              && (exists s :: s in p.services && s.id == r.service && change.value.result.ends == r.starts + s.duration)
              && change.value.result.service == r.service && change.value.result.name == r.name
              && NormalizePhone(r.phone) == Ok(change.value.result.phone)
              && !HasOverlap(items, change.value.result.staff, r.starts, change.value.result.ends, None)
              && (UniqueIds(change.value.items) ==> Safe(p, change.value.items))
  {
    hide Window, HasOverlap, ChooseStaff, Duplicate, Safe;
    var change := Create(p, items, r, checkedAt, id, now);
    if change.Ok? {
      var (ends, _) := CheckRequest(p, r, checkedAt).value;
      var duration := FindService(p.services, r.service).value.duration;
      ServiceDuration(p.services, r.service);
      FindsService(p.services, r.service);
      WindowInside(p, duration, r.starts, checkedAt, change.value.result);
      ChosenIsFree(p, items, r.service, r.staff, r.starts, ends, None);
      DigitsTwice(r.phone);
      if UniqueIds(change.value.items) {
        forall i | 0 <= i < |items| ensures items[i].id != change.value.result.id {
          assert change.value.items[i] == items[i] && change.value.items[|items|] == change.value.result;
        }
        AddKeeps(p, items, change.value.result);
      }
    }
  }

  lemma Stored(p: Policy, items: seq<Reservation>, k: nat)
    requires ValidPolicy(p) && Safe(p, items) && k < |items|
    ensures InsideHours(p, items[k]) && Contactable(items[k]) && UniqueIds(items)
  {
  }

  lemma CancelKeeps(p: Policy, items: seq<Reservation>, code: string, phone: string, now: int)
    requires ValidPolicy(p) && Safe(p, items)
    ensures var change := Cancel(items, code, phone, now);
            change.Ok? ==> Safe(p, change.value.items)
  {
    hide Safe, Locate;
    var change := Cancel(items, code, phone, now);
    if change.Ok? {
      Stored(p, items, Locate(items, code, phone).value);
      ReplaceKeeps(p, items, Locate(items, code, phone).value, change.value.result);
    }
  }

  /** The positions found for a code are exactly those whose id starts with it. */
  lemma {:induction false} MatchesAre(items: seq<Reservation>, code: string, k: nat)
    requires k < |items|
    ensures k in Matches(items, code) <==> code <= items[k].id
    decreases |items|
  {
    var n := |items| - 1;
    if k < n {
      MatchesAre(items[..n], code, k);
    } else {
      assert forall i :: 0 <= i < |Matches(items[..n], code)| ==> Matches(items[..n], code)[i] != n;
    }
  }

  lemma {:induction false} NoMatches(items: seq<Reservation>, code: string)
    requires forall i :: 0 <= i < |items| ==> !(code <= items[i].id)
    ensures Matches(items, code) == []
    decreases |items|
  {
    if items != [] {
      NoMatches(items[..|items| - 1], code);
    }
  }

  lemma {:induction false} OneMatch(items: seq<Reservation>, code: string, k: nat)
    requires k < |items| && code <= items[k].id
    requires forall i :: 0 <= i < |items| && i != k ==> !(code <= items[i].id)
    ensures Matches(items, code) == [k]
    decreases |items|
  {
    var n := |items| - 1;
    if k < n {
      OneMatch(items[..n], code, k);
    } else {
      NoMatches(items[..n], code);
    }
  }

  /** A code finds a reservation exactly if it has eight characters and one reservation's id alone starts with it. */
  lemma FindsTheOnlyOne(items: seq<Reservation>, code: string, k: nat)
    requires k < |items|
    ensures FindReservation(items, code) == Ok(k) <==>
              |code| >= 8 && code <= items[k].id
              && forall i :: 0 <= i < |items| && i != k ==> !(code <= items[i].id)
  {
    hide Matches;
    forall i | 0 <= i < |items| ensures i in Matches(items, code) <==> code <= items[i].id {
      MatchesAre(items, code, i);
    }
    if code <= items[k].id && forall i :: 0 <= i < |items| && i != k ==> !(code <= items[i].id) {
      OneMatch(items, code, k);
    }
  }

  lemma {:induction false} SameMatches(items: seq<Reservation>, k: nat, r: Reservation, code: string)
    requires k < |items| && r.id == items[k].id
    ensures Matches(items[k := r], code) == Matches(items, code)
    decreases |items|
  {
    var n := |items| - 1;
    if k < n {
      assert items[k := r][..n] == items[..n][k := r];
      SameMatches(items[..n], k, r, code);
    } else {
      assert items[k := r][..n] == items[..n];
    }
  }

  /**
   * The reservation that is cancelled is the one whose id alone starts with the code, and it is the caller's. Cancelling again
   * fails, and it no longer stands in anybody's way.
   */
  lemma CancelOnce(items: seq<Reservation>, code: string, phone: string, now: int, later: int)
    requires Cancel(items, code, phone, now).Ok?
    ensures var change := Cancel(items, code, phone, now).value;
            && Cancel(change.items, code, phone, later) == Err(AlreadyCancelled)
            && (exists k :: 0 <= k < |items| && items[k].confirmed && code <= items[k].id
                            && (forall i :: 0 <= i < |items| && i != k ==> !(code <= items[i].id))
                            && NormalizePhone(phone) == Ok(items[k].phone)
                            && change.items == items[k := items[k].(
                                 confirmed := false, version := items[k].version + 1, updatedAt := now)])
            && forall staff, starts, ends ::
                 HasOverlap(change.items, staff, starts, ends, None) ==> HasOverlap(items, staff, starts, ends, None)
  {
    var k := Locate(items, code, phone).value;
    var r := Cancelled(items[k], now);
    FindsTheOnlyOne(items, code, k);
    SameMatches(items, k, r, code);
    var after := items[k := r];
    forall staff, starts, ends | HasOverlap(after, staff, starts, ends, None)
      ensures HasOverlap(items, staff, starts, ends, None)
    {
      var i :| 0 <= i < |after| && Overlaps(after[i], staff, starts, ends, None);
      assert Overlaps(items[i], staff, starts, ends, None);
    }
  }

  lemma ModifyKeeps(
    p: Policy, items: seq<Reservation>, code: string, phone: string, starts: int, service: Option<string>,
    staff: Option<string>, now: int)
    requires ValidPolicy(p) && Safe(p, items)
    ensures var change := Modify(p, items, code, phone, starts, service, staff, now);
            change.Ok? ==> Safe(p, change.value.items)
  {
    hide Safe, Locate, Window, HasOverlap, ChooseStaff;
    var change := Modify(p, items, code, phone, starts, service, staff, now);
    if change.Ok? {
      var k := Locate(items, code, phone).value;
      var r := change.value.result;
      ServiceDuration(p.services, r.service);
      WindowInside(p, FindService(p.services, r.service).value.duration, starts, now, r);
      ChosenIsFree(p, items, r.service, staff, starts, r.ends, Some(r.id));
      Stored(p, items, k);
      ReplaceKeeps(p, items, k, r);
    }
  }

  // -------------------------------------------------------------------------
  // Choosing a member of staff
  // -------------------------------------------------------------------------

  /** Without a wish, the first available member of staff is taken. */
  lemma {:induction false} ChoiceIsHead(
    staff: seq<Staff>, items: seq<Reservation>, service: string, starts: int, ends: int, excluding: Option<string>)
    ensures var all := AllFree(staff, items, service, starts, ends, excluding);
            FirstFree(staff, items, service, starts, ends, excluding)
            == if all == [] then Err(SlotUnavailable) else Ok(all[0])
  {
    hide Free;
    if staff != [] {
      ChoiceIsHead(staff[1..], items, service, starts, ends, excluding);
    }
  }

  /** The available members are exactly the free ones, in the policy's order. */
  lemma {:induction false} AllFreeAreFree(
    staff: seq<Staff>, items: seq<Reservation>, service: string, starts: int, ends: int, excluding: Option<string>)
    ensures forall m :: m in AllFree(staff, items, service, starts, ends, excluding)
                        <==> m in staff && Free(items, m, service, starts, ends, excluding)
  {
    hide Free;
    if staff != [] {
      AllFreeAreFree(staff[1..], items, service, starts, ends, excluding);
    }
  }

  lemma {:induction false} FindsStaff(staff: seq<Staff>, id: string)
    requires forall i, j :: 0 <= i < j < |staff| ==> staff[i].id != staff[j].id
    ensures FindStaff(staff, id).Ok? ==> FindStaff(staff, id).value.id == id
    ensures FindStaff(staff, id).Err? ==> FindStaff(staff, id).code == StaffUnknown
    ensures forall m :: m in staff && m.id == id ==> FindStaff(staff, id) == Ok(m)
  {
    if staff != [] {
      FindsStaff(staff[1..], id);
      FoundIn(staff, id);
    }
  }

  lemma {:induction false} FoundIn(staff: seq<Staff>, id: string)
    ensures FindStaff(staff, id).Ok? ==> FindStaff(staff, id).value in staff
  {
    if staff != [] {
      FoundIn(staff[1..], id);
    }
  }

  /** With a wish, the choice succeeds exactly if that member is among the available ones. */
  lemma ChoiceIsMember(
    p: Policy, items: seq<Reservation>, service: string, id: string, starts: int, ends: int, excluding: Option<string>)
    requires ValidPolicy(p)
    ensures var choice := ChooseStaff(p, items, service, Some(id), starts, ends, excluding);
            var all := AllFree(p.staff, items, service, starts, ends, excluding);
            && (choice.Ok? ==> choice.value in all && choice.value.id == id)
            && (choice.Err? ==> (choice.code == StaffUnknown || choice.code == SlotUnavailable)
                                && forall m :: m in all ==> m.id != id)
  {
    hide Free, FirstFree, AllFree, FindStaff;
    AllFreeAreFree(p.staff, items, service, starts, ends, excluding);
    FindsStaff(p.staff, id);
    FoundIn(p.staff, id);
    var found := FindStaff(p.staff, id);
    if found.Ok? {
      FirstFreeIsFree([found.value], items, service, starts, ends, excluding);
      assert [found.value][0] == found.value;
    }
  }

  /**
   * Create agrees with the availability answer for the same list and clock: apart from the phone, name and duplicate
   * checks it succeeds without a wish exactly if somebody is available, and takes the first of them; and with a wish
   * exactly if that member is available, and takes that one.
   */
  lemma CreateMatchesAvailability(p: Policy, items: seq<Reservation>, r: Request, at: int, id: string, now: int)
    requires ValidPolicy(p) && NormalizePhone(r.phone).Ok? && 1 <= |r.name| <= 64
    requires !Duplicate(items, NormalizePhone(r.phone).value, r.starts)
    ensures var change := Create(p, items, r, at, id, now);
            var available := AvailableStaff(p, items, r.service, r.starts, at, None);
            && (available.Err? ==> change == Err(available.code))
            && (available.Ok? && r.staff.None? ==>
                  if available.value == [] then change == Err(SlotUnavailable)
                  else change.Ok? && change.value.result.staff == available.value[0].id)
            && (available.Ok? && r.staff.Some? ==>
                  && (change.Ok? <==> exists m :: m in available.value && m.id == r.staff.value)
                  && (change.Ok? ==> change.value.result.staff == r.staff.value))
  {
    hide Window, Duplicate, FirstFree, AllFree, FindStaff, NormalizePhone;
    var checked := CheckRequest(p, r, at);
    if checked.Ok? {
      var ends := checked.value.0;
      if r.staff.None? {
        ChoiceIsHead(p.staff, items, r.service, r.starts, ends, None);
      } else {
        ChoiceIsMember(p, items, r.service, r.staff.value, r.starts, ends, None);
      }
    }
  }

  // -------------------------------------------------------------------------
  // Modify as cancel and create
  // -------------------------------------------------------------------------

  /** Leaving a reservation out of the overlap check is the same as checking after it has been cancelled. */
  lemma ExcludingIsCancelling(items: seq<Reservation>, k: nat, now: int, staff: string, starts: int, ends: int)
    requires k < |items| && UniqueIds(items)
    ensures HasOverlap(items, staff, starts, ends, Some(items[k].id))
            == HasOverlap(items[k := Cancelled(items[k], now)], staff, starts, ends, None)
  {
    var after := items[k := Cancelled(items[k], now)];
    forall i | 0 <= i < |items|
      ensures Overlaps(items[i], staff, starts, ends, Some(items[k].id)) == Overlaps(after[i], staff, starts, ends, None)
    {
      assert i != k ==> items[i].id != items[k].id;
    }
  }

  lemma {:induction false} SameFirstFree(
    team: seq<Staff>, items: seq<Reservation>, k: nat, now: int, service: string, starts: int, ends: int)
    requires k < |items| && UniqueIds(items)
    ensures FirstFree(team, items, service, starts, ends, Some(items[k].id))
            == FirstFree(team, items[k := Cancelled(items[k], now)], service, starts, ends, None)
  {
    hide HasOverlap;
    if team != [] {
      ExcludingIsCancelling(items, k, now, team[0].id, starts, ends);
      SameFirstFree(team[1..], items, k, now, service, starts, ends);
    }
  }

  /**
   * Modify does to a reservation what cancelling it and booking again would: it fails exactly when that booking fails
   * and for the same reason, or it picks the same service, staff and window; everything else in the list stays where it
   * is. Only the duplicate check of create has no counterpart in modify.
   */
  lemma ModifyIsRebooking(
    p: Policy, items: seq<Reservation>, code: string, phone: string, starts: int, service: Option<string>,
    staff: Option<string>, now: int, id: string)
    requires ValidPolicy(p) && Safe(p, items)
    requires Locate(items, code, phone).Ok? && items[Locate(items, code, phone).value].confirmed
    ensures var k := Locate(items, code, phone).value;
            var existing := items[k];
            var modified := Modify(p, items, code, phone, starts, service, staff, now);
            var cancelled := Cancel(items, code, phone, now);
            && cancelled.Ok? && cancelled.value.items == items[k := Cancelled(existing, now)]
            && (!Duplicate(cancelled.value.items, existing.phone, starts) ==>
                  var selected := if service.None? || service.value == "" then existing.service else service.value;
                  var again := Create(
                    p, cancelled.value.items, Request(existing.name, existing.phone, selected, starts, staff), now, id, now);
                  && (modified.Err? <==> again.Err?)
                  && (modified.Err? ==> modified.code == again.code)
                  && (modified.Ok? ==>
                        var was, booked := modified.value.result, again.value.result;
                        && was.(id := id, version := 1, createdAt := now) == booked
                        && was.id == existing.id && was.createdAt == existing.createdAt
                        && was.version == existing.version + 1
                        && modified.value.items == items[k := was]))
  {
    hide Locate, Window, Duplicate, FirstFree, FindStaff, FindService;
    var k := Locate(items, code, phone).value;
    Stored(p, items, k);
    var selected := if service.None? || service.value == "" then items[k].service else service.value;
    var found := FindService(p.services, selected);
    if found.Ok? && Window(p, found.value.duration, starts, now).Ok? {
      var ends := Window(p, found.value.duration, starts, now).value;
      if staff.None? {
        SameFirstFree(p.staff, items, k, now, selected, starts, ends);
      } else if FindStaff(p.staff, staff.value).Ok? {
        SameFirstFree([FindStaff(p.staff, staff.value).value], items, k, now, selected, starts, ends);
      }
    }
  }

  // -------------------------------------------------------------------------
  // Capacity
  // -------------------------------------------------------------------------

  predicate Books(r: Reservation, staff: string, day: int) {
    r.confirmed && r.staff == staff && DayOf(r.starts) == day
  }

  /** The minutes a member of staff is booked for on a day. */
  function BookedMinutes(items: seq<Reservation>, staff: string, day: int): int {
    if items == [] then 0
    else
      var r := items[|items| - 1];
      BookedMinutes(items[..|items| - 1], staff, day) + if Books(r, staff, day) then r.ends - r.starts else 0
  }

  function Span(first: int, past: int): (span: set<int>)
    ensures forall t :: t in span <==> first <= t < past
    decreases past - first
  {
    if first >= past then {} else Span(first, past - 1) + {past - 1}
  }

  ghost function Covered(items: seq<Reservation>, staff: string, day: int): set<int> {
    if items == [] then {}
    else
      var r := items[|items| - 1];
      Covered(items[..|items| - 1], staff, day) + if Books(r, staff, day) then Span(r.starts, r.ends) else {}
  }

  lemma {:induction false} SpanSize(first: int, past: int)
    requires first <= past
    ensures |Span(first, past)| == past - first
    decreases past - first
  {
    if first < past {
      SpanSize(first, past - 1);
    }
  }

  lemma {:induction false} CoveredBy(items: seq<Reservation>, staff: string, day: int, t: int)
    ensures t in Covered(items, staff, day) <==>
            exists i :: 0 <= i < |items| && Books(items[i], staff, day) && items[i].starts <= t < items[i].ends
    decreases |items|
  {
    hide Books;
    if items != [] {
      var n := |items| - 1;
      CoveredBy(items[..n], staff, day, t);
      if t in Covered(items, staff, day) {
        if t in Covered(items[..n], staff, day) {
          var i :| 0 <= i < n && Books(items[..n][i], staff, day) && items[..n][i].starts <= t < items[..n][i].ends;
          assert Books(items[i], staff, day) && items[i].starts <= t < items[i].ends;
        } else {
          assert Books(items[n], staff, day) && items[n].starts <= t < items[n].ends;
        }
      } else {
        forall i | 0 <= i < |items| ensures !(Books(items[i], staff, day) && items[i].starts <= t < items[i].ends) {
          if i < n {
            assert items[..n][i] == items[i];
          }
        }
      }
    }
  }

  /** A minute of one reservation is not covered by others of the same member of staff. */
  lemma NotCoveredTwice(items: seq<Reservation>, r: Reservation, staff: string, day: int, t: int)
    requires forall i :: 0 <= i < |items| ==> Apart(items[i], r)
    requires Books(r, staff, day) && r.starts <= t < r.ends
    ensures t !in Covered(items, staff, day)
  {
    hide Covered;
    CoveredBy(items, staff, day, t);
    forall i | 0 <= i < |items| && Books(items[i], staff, day) ensures !(items[i].starts <= t < items[i].ends) {
      assert Apart(items[i], r);
    }
  }

  lemma DisjointSize(a: set<int>, b: set<int>)
    requires a !! b
    ensures |a + b| == |a| + |b|
  {
  }

  lemma SafePrefix(items: seq<Reservation>)
    requires NoDoubleBooking(items) && items != []
    ensures var before := items[..|items| - 1];
            NoDoubleBooking(before) && forall i :: 0 <= i < |before| ==> Apart(before[i], items[|before|])
  {
  }

  /** Without double bookings the booked minutes are different minutes. */
  lemma {:induction false} MinutesAreDistinct(items: seq<Reservation>, staff: string, day: int)
    requires NoDoubleBooking(items)
    requires forall i :: 0 <= i < |items| && items[i].confirmed ==> items[i].starts <= items[i].ends
    ensures |Covered(items, staff, day)| == BookedMinutes(items, staff, day)
    decreases |items|
  {
    hide NoDoubleBooking, Apart, Span;
    if items != [] {
      var before, r := items[..|items| - 1], items[|items| - 1];
      SafePrefix(items);
      MinutesAreDistinct(before, staff, day);
      if Books(r, staff, day) {
        SpanSize(r.starts, r.ends);
        forall t | t in Span(r.starts, r.ends) ensures t !in Covered(before, staff, day) {
          NotCoveredTwice(before, r, staff, day, t);
        }
        DisjointSize(Covered(before, staff, day), Span(r.starts, r.ends));
      }
    }
  }

  lemma SubsetSize(a: set<int>, b: set<int>)
    requires a <= b
    ensures |a| <= |b|
  {
    assert b == a + (b - a);
  }

  /** Every covered minute lies in the opening hours of the day. */
  lemma CoveredInside(p: Policy, items: seq<Reservation>, staff: string, day: int, t: int)
    requires ValidPolicy(p) && Safe(p, items) && t in Covered(items, staff, day)
    ensures HoursOn(p, day).Some?
    ensures day * DAY + HoursOn(p, day).value.opens <= t < day * DAY + HoursOn(p, day).value.closes
  {
    hide Covered, NoDoubleBooking, UniqueIds, Contactable;
    CoveredBy(items, staff, day, t);
    var i :| 0 <= i < |items| && Books(items[i], staff, day) && items[i].starts <= t < items[i].ends;
    assert InsideHours(p, items[i]);
  }

  lemma Ordered(p: Policy, items: seq<Reservation>)
    requires ValidPolicy(p) && Safe(p, items)
    ensures NoDoubleBooking(items)
    ensures forall i :: 0 <= i < |items| && items[i].confirmed ==> items[i].starts <= items[i].ends
  {
    forall i | 0 <= i < |items| && items[i].confirmed ensures items[i].starts <= items[i].ends {
      assert InsideHours(p, items[i]);
    }
  }

  /** A member of staff is never booked for more minutes than the salon is open that day. */
  lemma CapacityBound(p: Policy, items: seq<Reservation>, staff: string, day: int)
    requires ValidPolicy(p) && Safe(p, items)
    ensures var hours := HoursOn(p, day);
            BookedMinutes(items, staff, day) <= if hours.None? then 0 else hours.value.closes - hours.value.opens
  {
    hide Safe, Covered, BookedMinutes, Span, NoDoubleBooking;
    Ordered(p, items);
    MinutesAreDistinct(items, staff, day);
    var hours := HoursOn(p, day);
    var covered := Covered(items, staff, day);
    if hours.None? {
      forall t ensures t !in covered {
        if t in covered {
          CoveredInside(p, items, staff, day, t);
        }
      }
      assert covered == {};
    } else {
      var open := Span(day * DAY + hours.value.opens, day * DAY + hours.value.closes);
      SpanSize(day * DAY + hours.value.opens, day * DAY + hours.value.closes);
      forall t | t in covered ensures t in open {
        CoveredInside(p, items, staff, day, t);
      }
      SubsetSize(covered, open);
    }
  }
}
