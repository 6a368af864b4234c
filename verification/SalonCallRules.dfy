/**
 * What a turn of a salon call does, seen from outside: when it changes a reservation and how that follows from what was said,
 * when it asks for a confirmation or gives one up, and which details it remembers.
 */
module SalonCallRules {
  import opened SalonBooking
  import opened SalonRules
  import opened SalonCall
  import AvailabilitySearch
  import SearchRules

  // -------------------------------------------------------------------------
  // Details
  // -------------------------------------------------------------------------

  /** A detail that is told replaces the one remembered, and the others stay. */
  predicate Remembers<T(==)>(kept: Option<T>, told: Option<T>, now: Option<T>) {
    if told.Some? then now == told else now == kept
  }

  /**
   * Both paths remember what is told. The model-led one also remembers the date, takes it from the time, and forgets the time
   * behind a date that is told alone.
   */
  lemma DetailsAreRemembered(call: Call, t: Turn)
    ensures var kept, now := call.slots, Told(call, t).slots;
            var told := match t case RuleTurn(_, _, _, captured, _) => captured case RefusedTurn(partial) => partial
                                case ModelTurn(_, _, _, _, _, _, taken) => taken;
            && Remembers(kept.service, told.service, now.service) && Remembers(kept.staff, told.staff, now.staff)
            && Remembers(kept.name, told.name, now.name) && Remembers(kept.phone, told.phone, now.phone)
            && Remembers(kept.code, told.code, now.code)
            && (t.RuleTurn? ==> Remembers(kept.starts, told.starts, now.starts) && now.date == kept.date)
            && (!t.RuleTurn? && told.starts.Some? ==>
                  now.starts == told.starts && now.date == Some(told.starts.value / 1440))
            && (!t.RuleTurn? && told.starts.None? ==>
                  Remembers(kept.date, told.date, now.date) && now.starts == if told.date.Some? then None else kept.starts)
  {
  }

  /** The details an action needs before it can be carried out. */
  predicate Ready(s: Slots, action: Action) {
    match action
    case Booking => s.service.Some? && s.starts.Some? && s.name.Some? && s.phone.Some?
    case Cancelling => s.code.Some? && s.phone.Some?
    case Modifying => s.code.Some? && s.phone.Some? && s.starts.Some?
    case Availability => false
  }

  // -------------------------------------------------------------------------
  // The rule-led path
  // -------------------------------------------------------------------------

  /** The action the call is about after the text: the one it names, or else the one it was about. */
  function Topic(call: Call, t: Turn): Option<Action>
    requires t.RuleTurn?
  {
    if t.detected.Some? then t.detected else call.action
  }

  /** A confirmation that was asked for and is still the one in question. */
  predicate StillAsked(call: Call, t: Turn)
    requires t.RuleTurn?
  {
    call.awaiting && !t.negative && Topic(call, t) == call.action
  }

  /** A text with nothing to act on: an answer to a question while nothing is awaited. */
  predicate Aside(call: Call, t: Turn)
    requires t.RuleTurn?
  {
    t.informational && !call.awaiting
  }

  /**
   * A reservation changes exactly if the confirmation in question is answered positively, the details are there and the
   * service accepts the change; the call then starts over, as it does after a negative answer.
   */
  lemma RuleCommitsIff(p: Policy, call: Call, items: seq<Reservation>, t: Turn, at: Context)
    requires ValidPolicy(p) && t.RuleTurn?
    ensures var r, topic := Step(p, call, items, t, at), Topic(call, t);
            && (r.committed <==>
                  && StillAsked(call, t) && t.positive && topic.Some? && Ready(Told(call, t).slots, topic.value)
                  && Perform(p, Told(call, t), topic.value, items, at).Committed?)
            && (r.committed ==> r.items == Perform(p, Told(call, t), topic.value, items, at).items)
            && (!r.committed ==> r.items == items)
            && (r.committed || (call.awaiting && t.negative) ==> r.call == CLEARED)
  {
    hide ValidPolicy, AvailableStaff, Create, Cancel, Modify;
  }

  /** Somebody is free for the service at the time, or there is no telling. */
  function Free(p: Policy, items: seq<Reservation>, s: Slots, now: int): SalonBooking.Result<bool>
    requires ValidPolicy(p) && s.service.Some? && s.starts.Some?
  {
    var available := AvailableStaff(p, items, s.service.value, s.starts.value, now, None);
    if available.Err? then Err(available.code) else Ok(available.value != [])
  }

  /**
   * What else a text does. An aside does nothing. Otherwise its details are remembered, and the call is about its topic, or
   * about a booking once a question for a free time is answered with yes. A confirmation is awaited afterwards if the topic
   * is a change with all its details, unless the service has just refused that change; or if one was asked for already and
   * details are missing.
   */
  lemma RuleGoesOn(p: Policy, call: Call, items: seq<Reservation>, t: Turn, at: Context)
    requires ValidPolicy(p) && t.RuleTurn?
    requires !(call.awaiting && t.negative) && !Step(p, call, items, t, at).committed
    ensures var after, topic, s := Step(p, call, items, t, at).call, Topic(call, t), Told(call, t).slots;
            var asks := topic == Some(Availability) && s.service.Some? && s.starts.Some?;
            if Aside(call, t) then after == call
            else
              && after.slots == s
              && after.action == (if asks && Free(p, items, s, at.now) == Ok(true) then Some(Booking) else topic)
              && after.awaiting ==
                   if topic.Some? && Ready(s, topic.value) then
                     !(StillAsked(call, t) && t.positive && Perform(p, Told(call, t), topic.value, items, at).Rejected?)
                   else StillAsked(call, t) && !(asks && Free(p, items, s, at.now).Err?)
  {
    hide ValidPolicy, AvailableStaff, Create, Cancel, Modify;
  }

  // -------------------------------------------------------------------------
  // The model-led path
  // -------------------------------------------------------------------------

  /** The decision is about a change and has what the path wants before it looks at the confirmation. */
  predicate About(call: Call, t: Turn)
    requires t.ModelTurn?
  {
    var s := Told(call, t).slots;
    && t.inScope && !(t.searching && s.service.Some?) && t.proposed.Some? && !t.proposed.value.Availability?
    && if t.proposed.value.Booking? then s.service.Some? && s.starts.Some? else Ready(s, t.proposed.value)
  }

  /** A reservation changes exactly if a raised flag meets a confirmed decision and a positive text about a change. */
  lemma ModelCommitsIff(p: Policy, call: Call, items: seq<Reservation>, t: Turn, at: Context)
    requires ValidPolicy(p) && t.ModelTurn?
    ensures var r := Step(p, call, items, t, at);
            && (r.committed <==>
                  && call.awaiting && About(call, t) && t.confirmed && t.positive
                  && Perform(p, Told(call, t), t.proposed.value, items, at).Committed?)
            && (r.committed ==> r.items == Perform(p, Told(call, t), t.proposed.value, items, at).items)
            && (!r.committed ==> r.items == items)
            && (r.committed || !t.inScope || (call.awaiting && About(call, t) && !(t.confirmed && t.positive) && t.negative)
                ==> r.call == CLEARED)
  {
    hide ValidPolicy, AvailableStaff, Create, Cancel, Modify, AvailabilityRaises, Promise;
  }

  /**
   * What else a decision does: its details and its action are remembered, a search forgets the time, and the flag goes up for
   * a change with all its details, a booking only if the schedule promises it; it goes down when the service refuses a change
   * or an availability question cannot be answered.
   */
  lemma ModelGoesOn(p: Policy, call: Call, items: seq<Reservation>, t: Turn, at: Context)
    requires ValidPolicy(p) && t.ModelTurn? && t.inScope
    requires !(call.awaiting && About(call, t) && !(t.confirmed && t.positive) && t.negative)
    requires !Step(p, call, items, t, at).committed
    ensures var after, s := Step(p, call, items, t, at).call, Told(call, t).slots;
            var searches := t.searching && s.service.Some?;
            && after.slots == (if searches then s.(starts := None) else s)
            && after.action == (if searches then Some(Availability) else if t.proposed.Some? then t.proposed else call.action)
            && after.awaiting ==
                 if !About(call, t) then
                   call.awaiting && !(!searches && t.proposed == Some(Availability) && AvailabilityRaises(p, s, items, at.now))
                 else if !call.awaiting then
                   if t.proposed.value.Booking? then Ready(s, Booking) && Promise(p, s, items, at.now) == Ok(true) else true
                 else !(t.confirmed && t.positive && Perform(p, Told(call, t), t.proposed.value, items, at).Rejected?)
  {
    hide ValidPolicy, AvailableStaff, Create, Cancel, Modify, AvailabilityRaises;
  }

  /** A decision that was refused leaves nothing but its details. */
  lemma RefusedOnlyTells(p: Policy, call: Call, items: seq<Reservation>, t: Turn, at: Context)
    requires ValidPolicy(p) && t.RefusedTurn?
    ensures Step(p, call, items, t, at) == Result(Told(call, t), items, false)
  {
  }

  /** The schedule promises a booking exactly if the wanted member, or anybody, can serve then. */
  lemma PromiseIff(p: Policy, s: Slots, items: seq<Reservation>, now: int, service: Service)
    requires ValidPolicy(p) && s.service.Some? && s.starts.Some? && service in p.services && service.id == s.service.value
    ensures var q := AvailabilitySearch.Query(s.service.value, s.staff, None);
            && (Promise(p, s, items, now) == Ok(true) <==>
                  && Bookable(p, service.duration, s.starts.value, now)
                  && exists m :: SearchRules.Serves(p, items, q, service, m, s.starts.value))
            && (Promise(p, s, items, now).Err? <==>
                  || !Bookable(p, service.duration, s.starts.value, now)
                  || (s.staff.Some? && forall m :: m in p.staff ==> m.id != s.staff.value))
  {
    hide Bookable, Window, AllFree, CanTake, FindService, FindStaff, SalonBooking.Free;
    var t := s.starts.value;
    AvailableIff(p, items, s.service.value, t, now, service);
    var all := AllFree(p.staff, items, s.service.value, t, t + service.duration, None);
    AllFreeAreFree(p.staff, items, s.service.value, t, t + service.duration, None);
    AvailabilitySearch.WantedParts(all, s.staff);
    if s.staff.Some? {
      FindsStaff(p.staff, s.staff.value);
      FoundIn(p.staff, s.staff.value);
    }
    var q := AvailabilitySearch.Query(s.service.value, s.staff, None);
    var wanted := AvailabilitySearch.Wanted(all, s.staff);
    forall m ensures m in wanted <==> SearchRules.Serves(p, items, q, service, m, t) {
      FreeIsCanTake(items, m, s.service.value, t, t + service.duration, None);
    }
    if wanted != [] {
      assert SearchRules.Serves(p, items, q, service, wanted[0], t);
      assert wanted[0] in wanted;
    }
  }

  /**
   * A question about a whole day is broken off exactly by a start of that day inside the booking window and off the slot
   * grid, as the daily answer itself is.
   */
  lemma DailyRaisesIff(p: Policy, s: Slots, items: seq<Reservation>, now: int, service: Service)
    requires ValidPolicy(p) && s.service.Some? && s.date.Some? && service in p.services && service.id == s.service.value
    ensures var grid := AvailabilitySearch.Grid(p, service.duration, s.date.value);
            DailyRaises(p, s, items, now) <==> AvailabilitySearch.AnyOffGrid(p, grid, now)
  {
    hide AvailableStaff, AvailabilitySearch.OffGrid, AvailabilitySearch.Grid, FindService;
    FindsService(p.services, s.service.value);
    var grid := AvailabilitySearch.Grid(p, service.duration, s.date.value);
    forall i | 0 <= i < |grid|
      ensures AvailableStaff(p, items, s.service.value, grid[i], now, None) == Err(SlotAlignmentInvalid)
              <==> AvailabilitySearch.OffGrid(p, grid[i], now)
    {
      AvailabilitySearch.CandidateError(
        p, items, AvailabilitySearch.Query(s.service.value, None, None), service.duration, s.date.value, i, now);
    }
  }

  // -------------------------------------------------------------------------
  // What was said is what is done
  // -------------------------------------------------------------------------

  /** The reservation made is the one that was told: name, phone, service, time, and the member of staff if one was. */
  lemma BookingIsTold(p: Policy, call: Call, items: seq<Reservation>, at: Context)
    requires ValidPolicy(p) && Perform(p, call, Booking, items, at).Committed?
    ensures var s, changed := call.slots, Perform(p, call, Booking, items, at).items;
            && Ready(s, Booking)
            && |changed| == |items| + 1 && changed[..|items|] == items
            && var made := changed[|items|];
               && made.confirmed && made.id == at.id && made.createdAt == at.now
               && made.name == s.name.value && NormalizePhone(s.phone.value) == Ok(made.phone)
               && made.service == s.service.value && made.starts == s.starts.value
               && (s.staff.Some? ==> made.staff == s.staff.value)
               && (exists service :: service in p.services && service.id == made.service
                                     && made.ends == made.starts + service.duration)
  {
    hide Bookable, CanTake, ChooseStaff, NormalizePhone, Window, FindService, Digits;
    var s := call.slots;
    var r := Request(s.name.value, s.phone.value, s.service.value, s.starts.value, s.staff);
    FindsService(p.services, r.service);
    var service := FindService(p.services, r.service).value;
    var j := CreateMakes(p, items, r, at.now, at.id, at.now, service);
  }

  /** The reservation cancelled is the one of the code that was told, and belongs to the phone that was told. */
  lemma CancellationIsTold(p: Policy, call: Call, items: seq<Reservation>, at: Context) returns (k: nat)
    requires ValidPolicy(p) && Perform(p, call, Cancelling, items, at).Committed?
    ensures var s := call.slots;
            && Ready(s, Cancelling) && k < |items|
            && Names(items, s.code.value, k) && NormalizePhone(s.phone.value) == Ok(items[k].phone) && items[k].confirmed
            && Perform(p, call, Cancelling, items, at).items
               == items[k := items[k].(confirmed := false, version := items[k].version + 1, updatedAt := at.now)]
  {
    hide NormalizePhone, FindReservation;
    var s := call.slots;
    k := Locate(items, s.code.value, s.phone.value).value;
    FindsTheOnlyOne(items, s.code.value, k);
    CancelIff(items, s.code.value, s.phone.value, at.now, k);
  }

  /**
   * The reservation changed is the one of the code and the phone that were told, and moves to the told time, with the told
   * service and member of staff if there are any.
   */
  lemma ModificationIsTold(p: Policy, call: Call, items: seq<Reservation>, at: Context) returns (k: nat)
    requires ValidPolicy(p) && Perform(p, call, Modifying, items, at).Committed?
    ensures var s, changed := call.slots, Perform(p, call, Modifying, items, at).items;
            && Ready(s, Modifying) && k < |items| && |changed| == |items|
            && Names(items, s.code.value, k) && NormalizePhone(s.phone.value) == Ok(items[k].phone) && items[k].confirmed
            && changed == items[k := changed[k]]
            && changed[k].confirmed && changed[k].id == items[k].id && changed[k].name == items[k].name
            && changed[k].phone == items[k].phone && changed[k].starts == s.starts.value
            && changed[k].service == (if s.service.Some? && s.service.value != "" then s.service.value else items[k].service)
            && (s.staff.Some? ==> changed[k].staff == s.staff.value)
            && (exists service :: service in p.services && service.id == changed[k].service
                                  && changed[k].ends == changed[k].starts + service.duration)
  {
    hide NormalizePhone, FindReservation, Bookable, CanTake, ChooseStaff, Window, FindService;
    var s := call.slots;
    k := Locate(items, s.code.value, s.phone.value).value;
    FindsTheOnlyOne(items, s.code.value, k);
    var selected := if s.service.Some? && s.service.value != "" then s.service.value else items[k].service;
    FindsService(p.services, selected);
    var service := FindService(p.services, selected).value;
    var j := ModifyMakes(p, items, s.code.value, s.phone.value, s.starts.value, s.service, s.staff, at.now, k, service);
  }

  predicate IdIsNew(items: seq<Reservation>, id: string) {
    forall i :: 0 <= i < |items| ==> items[i].id != id
  }

  lemma StillUnique(items: seq<Reservation>, r: Reservation, k: nat)
    requires UniqueIds(items)
    ensures IdIsNew(items, r.id) ==> UniqueIds(items + [r])
    ensures k < |items| && r.id == items[k].id ==> UniqueIds(items[k := r])
  {
  }

  /**
   * On a list with distinct ids a booking is made exactly if its details are there, the service is one of the policy's, the
   * request is acceptable and somebody can take it; with the details there anything else is a refusal.
   */
  lemma BookingIff(p: Policy, call: Call, items: seq<Reservation>, at: Context)
    requires ValidPolicy(p) && UniqueIds(items) && IdIsNew(items, at.id)
    ensures var s, commit := call.slots, Perform(p, call, Booking, items, at);
            if !Ready(s, Booking) then commit.Raised?
            else
              var r := Request(s.name.value, s.phone.value, s.service.value, s.starts.value, s.staff);
              && !commit.Raised?
              && (commit.Committed? <==> exists service :: Bookings(p, items, r, service, at.now))
  {
    var s := call.slots;
    if Ready(s, Booking) {
      hide Acceptable, SomebodyTakes, FindService, UniqueIds, Create;
      var r := Request(s.name.value, s.phone.value, s.service.value, s.starts.value, s.staff);
      var change := Create(p, items, r, at.now, at.id, at.now);
      FindsService(p.services, r.service);
      forall service | service in p.services && service.id == r.service
        ensures change.Ok? <==> Bookings(p, items, r, service, at.now)
        ensures change.Ok? ==> change.value.items == items + [change.value.result] && change.value.result.id == at.id
      {
        var j := CreateMakes(p, items, r, at.now, at.id, at.now, service);
      }
      if change.Ok? {
        StillUnique(items, change.value.result, 0);
      }
      CreateRefuses(p, items, r, at.now, at.id, at.now);
    }
  }

  /** The service is the one asked for, the request is acceptable, and somebody can take it. */
  ghost predicate Bookings(p: Policy, items: seq<Reservation>, r: Request, service: Service, now: int)
    requires ValidPolicy(p)
  {
    && service in p.services && service.id == r.service
    && Acceptable(p, items, r, service, now)
    && SomebodyTakes(p, items, r.service, r.staff, r.starts, r.starts + service.duration, None)
  }

  /** The reservation that a code and a phone stand for, if it is confirmed. */
  predicate Yours(items: seq<Reservation>, code: string, phone: string, k: nat)
    requires k < |items|
  {
    Names(items, code, k) && NormalizePhone(phone) == Ok(items[k].phone) && items[k].confirmed
  }

  lemma CancellationIff(p: Policy, call: Call, items: seq<Reservation>, at: Context)
    requires ValidPolicy(p) && UniqueIds(items)
    ensures var s, commit := call.slots, Perform(p, call, Cancelling, items, at);
            if !Ready(s, Cancelling) then commit.Raised?
            else
              && !commit.Raised?
              && (commit.Committed? <==>
                    exists k :: 0 <= k < |items| && Yours(items, s.code.value, s.phone.value, k))
  {
    var s := call.slots;
    if Ready(s, Cancelling) {
      hide NormalizePhone, Names, UniqueIds, Cancel;
      var change := Cancel(items, s.code.value, s.phone.value, at.now);
      forall k | 0 <= k < |items| && Names(items, s.code.value, k)
        ensures change.Ok? <==> Yours(items, s.code.value, s.phone.value, k)
        ensures change.Ok? ==> UniqueIds(change.value.items)
      {
        CancelIff(items, s.code.value, s.phone.value, at.now, k);
        if change.Ok? {
          StillUnique(items, change.value.result, k);
        }
      }
      if forall k :: 0 <= k < |items| ==> !Names(items, s.code.value, k) {
        NothingNamed(items, s.code.value, s.phone.value, at.now);
      }
    }
  }

  lemma ModificationIff(p: Policy, call: Call, items: seq<Reservation>, at: Context, k: nat, service: Service)
    requires ValidPolicy(p) && UniqueIds(items) && Ready(call.slots, Modifying)
    requires k < |items| && Names(items, call.slots.code.value, k) && service in p.services
    requires var s := call.slots;
             service.id == if s.service.Some? && s.service.value != "" then s.service.value else items[k].service
    ensures var s, commit := call.slots, Perform(p, call, Modifying, items, at);
            && !commit.Raised?
            && (commit.Committed? <==>
                  && Yours(items, s.code.value, s.phone.value, k)
                  && Bookable(p, service.duration, s.starts.value, at.now)
                  && SomebodyTakes(p, items, service.id, s.staff, s.starts.value, s.starts.value + service.duration,
                                   Some(items[k].id)))
  {
    hide NormalizePhone, Names, UniqueIds, Modify, Bookable, CanTake;
    var s := call.slots;
    var j := ModifyMakes(p, items, s.code.value, s.phone.value, s.starts.value, s.service, s.staff, at.now, k, service);
    var change := Modify(p, items, s.code.value, s.phone.value, s.starts.value, s.service, s.staff, at.now);
    if change.Ok? {
      StillUnique(items, change.value.result, k);
    }
  }
}
