/**
 * One salon call, turn by turn: the slots gathered so far, the flag that a confirmation is awaited, and the reservation
 * list that a confirmed turn changes. What a text says (positive, negative, details, an action) and what the language
 * model proposes are inputs of the turn.
 */
module SalonCall {
  import opened SalonBooking
  import AvailabilitySearch

  datatype Action = Availability | Booking | Cancelling | Modifying

  datatype Slots = Slots(
    service: Option<string>, staff: Option<string>, starts: Option<int>, date: Option<int>, name: Option<string>,
    phone: Option<string>, code: Option<string>)

  datatype Call = Call(action: Option<Action>, slots: Slots, awaiting: bool)

  const NOTHING := Slots(None, None, None, None, None, None, None)

  const CLEARED := Call(None, NOTHING, false)

  /** The clock and the fresh id a turn works with. */
  datatype Context = Context(now: int, id: string)

  datatype Turn =
    /** The rule-led path: everything is read off the text. */
    | RuleTurn(positive: bool, negative: bool, informational: bool, captured: Slots, detected: Option<Action>)
    /** The model-led path: a decision that was refused, perhaps after some of its slots had been taken over. */
    | RefusedTurn(partial: Slots)
    /** The model-led path: a decision; no action means that it only responds. */
    | ModelTurn(positive: bool, negative: bool, inScope: bool, searching: bool, proposed: Option<Action>,
                confirmed: bool, taken: Slots)

  /** A call and the reservations after a turn, and whether the turn has changed a reservation. */
  datatype Result = Result(call: Call, items: seq<Reservation>, committed: bool)

  function Or<T>(told: Option<T>, kept: Option<T>): Option<T> {
    if told.Some? then told else kept
  }

  /** The rule-led path takes over every detail it finds. */
  function Capture(slots: Slots, more: Slots): Slots {
    Slots(Or(more.service, slots.service), Or(more.staff, slots.staff), Or(more.starts, slots.starts), slots.date,
          Or(more.name, slots.name), Or(more.phone, slots.phone), Or(more.code, slots.code))
  }

  /** The model-led path also keeps the requested date, and a date alone drops the time. */
  function TakeOver(slots: Slots, more: Slots): Slots {
    Capture(slots, more).(
      starts := if more.starts.Some? then more.starts else if more.date.Some? then None else slots.starts,
      date := if more.starts.Some? then Some(DayOf(more.starts.value)) else Or(more.date, slots.date))
  }

  /** What the reservation service makes of a change: its list, unless it raises or the ids would not be unique. */
  datatype Commit = Committed(items: seq<Reservation>) | Rejected | Raised

  function Store(change: SalonBooking.Result<Change>): Commit {
    if change.Err? then Rejected
    else if UniqueIds(change.value.items) then Committed(change.value.items)
    else Raised
  }

  /** Carry out the confirmed action with the slots of the call. */
  function Perform(p: Policy, call: Call, action: Action, items: seq<Reservation>, at: Context): Commit
    requires ValidPolicy(p)
  {
    var s := call.slots;
    match action
    case Booking =>
      if s.service.None? || s.starts.None? || s.name.None? || s.phone.None? then Raised
      else Store(Create(p, items, Request(s.name.value, s.phone.value, s.service.value, s.starts.value, s.staff),
                        at.now, at.id, at.now))
    case Cancelling =>
      if s.code.None? || s.phone.None? then Raised else Store(Cancel(items, s.code.value, s.phone.value, at.now))
    case Modifying =>
      if s.code.None? || s.phone.None? || s.starts.None? then Raised
      else Store(Modify(p, items, s.code.value, s.phone.value, s.starts.value, s.service, s.staff, at.now))
    case Availability => Raised
  }

  /** After the attempt: a change clears the transaction, a booking error lowers the flag, other errors leave it. */
  function Conclude(call: Call, items: seq<Reservation>, commit: Commit): Result {
    match commit
    case Committed(changed) => Result(CLEARED, changed, true)
    case Rejected => Result(call.(awaiting := false), items, false)
    case Raised => Result(call, items, false)
  }

  /** The details without which an action does not even ask for a confirmation. */
  predicate Incomplete(s: Slots, action: Action) {
    match action
    case Booking => s.service.None? || s.starts.None? || s.name.None? || s.phone.None?
    case Cancelling => s.code.None? || s.phone.None?
    case Modifying => s.code.None? || s.phone.None? || s.starts.None?
    case Availability => s.service.None? || s.starts.None?
  }

  function RuleStep(p: Policy, call: Call, items: seq<Reservation>, t: Turn, at: Context): Result
    requires ValidPolicy(p) && t.RuleTurn?
  {
    if t.negative && call.awaiting then Result(CLEARED, items, false)
    else if t.informational && !call.awaiting then Result(call, items, false)
    else
      var told := call.(slots := Capture(call.slots, t.captured));
      var c := if t.detected.None? then told
               else told.(action := t.detected, awaiting := told.awaiting && told.action == t.detected);
      if c.action.None? || Incomplete(c.slots, c.action.value) then Result(c, items, false)
      else if c.action.value.Availability? then
        var available := AvailableStaff(p, items, c.slots.service.value, c.slots.starts.value, at.now, None);
        if available.Err? then Result(c.(awaiting := false), items, false)
        else Result(if available.value == [] then c else c.(action := Some(Booking)), items, false)
      else if !c.awaiting then Result(c.(awaiting := true), items, false)
      else if !t.positive then Result(c, items, false)
      else Conclude(c, items, Perform(p, c, c.action.value, items, at))
  }

  /** The answer of the schedule before a booking asks for its confirmation. */
  function Promise(p: Policy, s: Slots, items: seq<Reservation>, now: int): SalonBooking.Result<bool>
    requires ValidPolicy(p) && s.service.Some? && s.starts.Some?
  {
    var available := AvailableStaff(p, items, s.service.value, s.starts.value, now, None);
    if available.Err? then Err(available.code)
    else if s.staff.Some? && FindStaff(p.staff, s.staff.value).Err? then Err(StaffUnknown)
    else Ok(available.value != [] && AvailabilitySearch.Wanted(available.value, s.staff) != [])
  }

  /** The answer about a whole day is broken off by an opening time off the slot grid. */
  predicate DailyRaises(p: Policy, s: Slots, items: seq<Reservation>, now: int)
    requires ValidPolicy(p) && s.service.Some? && s.date.Some?
  {
    var found := FindService(p.services, s.service.value);
    || found.Err?
    || exists i :: 0 <= i < |AvailabilitySearch.Grid(p, found.value.duration, s.date.value)|
                   && AvailableStaff(p, items, s.service.value,
                                     AvailabilitySearch.Grid(p, found.value.duration, s.date.value)[i], now, None)
                      == Err(SlotAlignmentInvalid)
  }

  /** Whether the availability tool of the model-led path raises. */
  predicate AvailabilityRaises(p: Policy, s: Slots, items: seq<Reservation>, now: int)
    requires ValidPolicy(p)
  {
    s.service.Some?
    && if s.starts.Some? then Promise(p, s, items, now).Err? else s.date.Some? && DailyRaises(p, s, items, now)
  }

  function ModelStep(p: Policy, call: Call, items: seq<Reservation>, t: Turn, at: Context): Result
    requires ValidPolicy(p) && t.ModelTurn?
  {
    var told := call.(slots := TakeOver(call.slots, t.taken));
    if !t.inScope then Result(CLEARED, items, false)
    else if t.searching && told.slots.service.Some? then
      Result(told.(action := Some(Availability), slots := told.slots.(starts := None)), items, false)
    else if t.proposed.None? then Result(told, items, false)
    else
      var action := t.proposed.value;
      var c := told.(action := Some(action));
      var s := c.slots;
      if action.Availability? then
        Result(if AvailabilityRaises(p, s, items, at.now) then c.(awaiting := false) else c, items, false)
      else if action.Booking? && (s.service.None? || s.starts.None?) then Result(c, items, false)
      else if !action.Booking? && Incomplete(s, action) then Result(c, items, false)
      else if !c.awaiting then
        if !action.Booking? then Result(c.(awaiting := true), items, false)
        else
          var promise := Promise(p, s, items, at.now);
          if promise.Err? then Result(c, items, false)
          else Result(c.(awaiting := promise.value && !Incomplete(s, Booking)), items, false)
      else if !t.confirmed || !t.positive then Result(if t.negative then CLEARED else c, items, false)
      else Conclude(c, items, Perform(p, c, action, items, at))
  }

  function Step(p: Policy, call: Call, items: seq<Reservation>, t: Turn, at: Context): Result
    requires ValidPolicy(p)
  {
    match t
    case RuleTurn(_, _, _, _, _) => RuleStep(p, call, items, t, at)
    case RefusedTurn(partial) => Result(call.(slots := TakeOver(call.slots, partial)), items, false)
    case ModelTurn(_, _, _, _, _, _, _) => ModelStep(p, call, items, t, at)
  }

  predicate Positive(t: Turn) {
    match t
    case RuleTurn(positive, _, _, _, _) => positive
    case RefusedTurn(_) => false
    case ModelTurn(positive, _, _, _, _, _, _) => positive
  }

  // -------------------------------------------------------------------------
  // One turn
  // -------------------------------------------------------------------------

  /**
   * A reservation changes only on a positive text in a turn that found the flag raised, and that turn lowers it; every
   * other turn leaves the list alone.
   */
  lemma CommitNeedsConfirmation(p: Policy, call: Call, items: seq<Reservation>, t: Turn, at: Context)
    requires ValidPolicy(p)
    ensures var r := Step(p, call, items, t, at);
            && (r.committed ==> Positive(t) && call.awaiting && !r.call.awaiting && r.call == CLEARED)
            && (!r.committed ==> r.items == items)
  {
    hide ValidPolicy, Perform, AvailableStaff;
  }

  /** The slots with which a turn that confirms carries out its action. */
  function Told(call: Call, t: Turn): Call {
    match t
    case RuleTurn(_, _, _, captured, _) => call.(slots := Capture(call.slots, captured))
    case RefusedTurn(partial) => call.(slots := TakeOver(call.slots, partial))
    case ModelTurn(_, _, _, _, _, _, taken) => call.(slots := TakeOver(call.slots, taken))
  }

  /** The action a turn that confirms carries out: the call's own, or the one the model proposes now. */
  function Chosen(call: Call, t: Turn): Option<Action> {
    match t
    case RuleTurn(_, _, _, _, _) => call.action
    case RefusedTurn(_) => None
    case ModelTurn(_, _, _, _, proposed, _, _) => proposed
  }

  /**
   * What a turn commits is its chosen action. In the rule-led path that is the action the call already had, and the text
   * must not have named another one.
   */
  lemma CommitsTheChosen(p: Policy, call: Call, items: seq<Reservation>, t: Turn, at: Context)
    requires ValidPolicy(p)
    ensures var r := Step(p, call, items, t, at);
            r.committed ==>
              && Chosen(call, t).Some?
              && Perform(p, Told(call, t), Chosen(call, t).value, items, at) == Committed(r.items)
              && (t.RuleTurn? && t.detected.Some? ==> t.detected == call.action)
  {
    hide ValidPolicy, AvailableStaff, Create, Cancel, Modify;
  }

  /** A reservation has been cancelled. */
  predicate Drops(items: seq<Reservation>, changed: seq<Reservation>) {
    exists k :: 0 <= k < |items| && k < |changed| && items[k].confirmed && !changed[k].confirmed
  }

  /** What tells the actions apart: only a booking makes the list longer and only a cancellation takes a reservation away. */
  lemma ActionShows(p: Policy, call: Call, action: Action, items: seq<Reservation>, at: Context)
    requires ValidPolicy(p)
    ensures var commit := Perform(p, call, action, items, at);
            commit.Committed? ==>
              && !action.Availability?
              && (action.Booking? <==> |commit.items| > |items|)
              && (action.Cancelling? <==> Drops(items, commit.items))
  {
    hide ValidPolicy, CheckRequest, Duplicate, ChooseStaff, Window, FindService, UniqueIds, NormalizePhone, FindReservation;
    var commit := Perform(p, call, action, items, at);
    if commit.Committed? && action.Cancelling? {
      var k := Locate(items, call.slots.code.value, call.slots.phone.value).value;
      assert items[k].confirmed && !commit.items[k].confirmed;
    }
  }

  /** With the same slots different actions never come to the same list. */
  lemma ActionsDiffer(p: Policy, call: Call, a: Action, b: Action, items: seq<Reservation>, at: Context)
    requires ValidPolicy(p)
    requires Perform(p, call, a, items, at).Committed?
    requires Perform(p, call, a, items, at) == Perform(p, call, b, items, at)
    ensures a == b
  {
    hide ValidPolicy, Perform, Drops;
    ActionShows(p, call, a, items, at);
    ActionShows(p, call, b, items, at);
  }

  /**
   * In the model-led path that need not be the action the flag was raised for: a flag raised for a change of time is taken
   * as the confirmation of a cancellation that the model proposes next.
   */
  lemma ModelFlagIsNotBound(
    p: Policy, call: Call, items: seq<Reservation>, first: Turn, second: Turn, at: Context, code: string, phone: string)
    requires ValidPolicy(p) && !call.awaiting
    requires first == ModelTurn(false, false, true, false, Some(Modifying), false,
                                NOTHING.(code := Some(code), phone := Some(phone), starts := Some(at.now)))
    requires second == ModelTurn(true, false, true, false, Some(Cancelling), true, NOTHING)
    requires Cancel(items, code, phone, at.now).Ok? && UniqueIds(Cancel(items, code, phone, at.now).value.items)
    ensures var asked := Step(p, call, items, first, at);
            var done := Step(p, asked.call, asked.items, second, at);
            && asked.call.awaiting && asked.call.action == Some(Modifying)
            && done.committed && done.items == Cancel(items, code, phone, at.now).value.items
  {
    hide ValidPolicy, Cancel, AvailableStaff;
  }

  /** Whatever a turn commits keeps the reservations safe. */
  lemma TurnKeepsSafe(p: Policy, call: Call, items: seq<Reservation>, t: Turn, at: Context)
    requires ValidPolicy(p) && Safe(p, items)
    ensures Safe(p, Step(p, call, items, t, at).items)
  {
    hide ValidPolicy, Safe, Create, Cancel, Modify, AvailableStaff;
    var r := Step(p, call, items, t, at);
    CommitNeedsConfirmation(p, call, items, t, at);
    if r.committed {
      var s := if t.RuleTurn? then Capture(call.slots, t.captured) else TakeOver(call.slots, t.taken);
      if s.service.Some? && s.starts.Some? && s.name.Some? && s.phone.Some? {
        CreateKeeps(p, items, Request(s.name.value, s.phone.value, s.service.value, s.starts.value, s.staff), at.now, at.id,
                    at.now);
      }
      if s.code.Some? && s.phone.Some? {
        CancelKeeps(p, items, s.code.value, s.phone.value, at.now);
        if s.starts.Some? {
          ModifyKeeps(p, items, s.code.value, s.phone.value, s.starts.value, s.service, s.staff, at.now);
        }
      }
    }
  }

  // -------------------------------------------------------------------------
  // Whole calls
  // -------------------------------------------------------------------------

  /** A turn of the call, or the list as other sessions have left it since. */
  datatype Happening = Said(turn: Turn, at: Context) | Elsewhere(items: seq<Reservation>)

  /**
   * The state of a call with its list, the number of changes it made, the number of turns that raised the flag, and the
   * action the flag that is up was last raised for.
   */
  datatype History = History(call: Call, items: seq<Reservation>, commits: nat, raises: nat, raisedFor: Option<Action>)

  /** The turn asks for a confirmation: it raises the flag, or raises it again because the text names another action. */
  predicate Asks(before: Call, t: Turn, after: Call) {
    after.awaiting && (!before.awaiting || (t.RuleTurn? && t.detected.Some? && t.detected != before.action))
  }

  function Advance(p: Policy, h: History, event: Happening): History
    requires ValidPolicy(p)
  {
    match event
    case Elsewhere(items) => h.(items := items)
    case Said(t, at) =>
      var r := Step(p, h.call, h.items, t, at);
      History(r.call, r.items, h.commits + (if r.committed then 1 else 0),
              h.raises + (if !h.call.awaiting && r.call.awaiting then 1 else 0),
              if !r.call.awaiting then None else if Asks(h.call, t, r.call) then r.call.action else h.raisedFor)
  }

  function Run(p: Policy, items: seq<Reservation>, events: seq<Happening>): History
    requires ValidPolicy(p)
    decreases |events|
  {
    if events == [] then History(CLEARED, items, 0, 0, None)
    else Advance(p, Run(p, items, events[..|events| - 1]), events[|events| - 1])
  }

  /** Other sessions keep the list safe; that they do is ReservationStore.NeverDoubleBooked. */
  ghost predicate SafeElsewhere(p: Policy, events: seq<Happening>)
    requires ValidPolicy(p)
  {
    forall i :: 0 <= i < |events| && events[i].Elsewhere? ==> Safe(p, events[i].items)
  }

  predicate Undisturbed(events: seq<Happening>) {
    forall i :: 0 <= i < |events| ==> events[i].Said?
  }

  /**
   * In every call, rule-led, model-led or mixed, whatever other sessions do between its turns: committed changes never
   * outnumber the turns that asked for a confirmation, not even counting the confirmation that is still awaited, and the
   * reservations stay safe.
   */
  lemma {:induction false} CommitsWithinRaises(p: Policy, items: seq<Reservation>, events: seq<Happening>)
    requires ValidPolicy(p) && Safe(p, items) && SafeElsewhere(p, events)
    ensures var h := Run(p, items, events);
            && h.commits + (if h.call.awaiting then 1 else 0) <= h.raises
            && Safe(p, h.items)
            && (h.commits == 0 && Undisturbed(events) ==> h.items == items)
    decreases |events|
  {
    hide ValidPolicy, Safe, Step;
    if events != [] {
      var before := events[..|events| - 1];
      CommitsWithinRaises(p, items, before);
      var h := Run(p, items, before);
      if events[|events| - 1].Said? {
        CommitNeedsConfirmation(p, h.call, h.items, events[|events| - 1].turn, events[|events| - 1].at);
        TurnKeepsSafe(p, h.call, h.items, events[|events| - 1].turn, events[|events| - 1].at);
      }
    }
  }

  predicate RuleLed(events: seq<Happening>) {
    forall i :: 0 <= i < |events| && events[i].Said? ==> events[i].turn.RuleTurn?
  }

  /** A flag that is up was raised for an action that changes something. */
  predicate FlagAsked(h: History) {
    && (h.call.awaiting <==> h.raisedFor.Some?)
    && h.raisedFor != Some(Availability)
  }

  lemma AdvanceAsked(p: Policy, h: History, event: Happening)
    requires ValidPolicy(p) && FlagAsked(h)
    ensures FlagAsked(Advance(p, h, event))
  {
    hide ValidPolicy, Perform, AvailableStaff, Promise, AvailabilityRaises, TakeOver, Capture;
  }

  lemma AdvanceBound(p: Policy, h: History, event: Happening)
    requires ValidPolicy(p) && FlagAsked(h) && (h.call.awaiting ==> h.raisedFor == h.call.action)
    requires event.Said? ==> event.turn.RuleTurn?
    ensures var next := Advance(p, h, event);
            next.call.awaiting ==> next.raisedFor == next.call.action
  {
    hide ValidPolicy, Perform, AvailableStaff, TakeOver, Capture;
  }

  /** Over every call a raised flag belongs to one action, and in a rule-led call that is the call's own. */
  lemma {:induction false} FlagHasAnAction(p: Policy, items: seq<Reservation>, events: seq<Happening>)
    requires ValidPolicy(p)
    ensures var h := Run(p, items, events);
            && (h.call.awaiting <==> h.raisedFor.Some?) && h.raisedFor != Some(Availability)
            && (RuleLed(events) && h.call.awaiting ==> h.raisedFor == h.call.action)
    decreases |events|
  {
    hide ValidPolicy, Advance;
    if events != [] {
      var before := events[..|events| - 1];
      FlagHasAnAction(p, items, before);
      AdvanceAsked(p, Run(p, items, before), events[|events| - 1]);
      if RuleLed(events) {
        AdvanceBound(p, Run(p, items, before), events[|events| - 1]);
      }
    }
  }

  /** In a rule-led call every change carries out the action whose confirmation was last asked for. */
  lemma RuleCommitsItsAction(p: Policy, items: seq<Reservation>, events: seq<Happening>, t: Turn, at: Context)
    requires ValidPolicy(p) && RuleLed(events) && t.RuleTurn?
    ensures var h := Run(p, items, events);
            var r := Step(p, h.call, h.items, t, at);
            r.committed ==>
              && h.raisedFor.Some? && (t.detected.None? || t.detected == h.raisedFor)
              && Perform(p, Told(h.call, t), h.raisedFor.value, h.items, at) == Committed(r.items)
  {
    hide ValidPolicy, Run, Step, Perform, Told;
    FlagHasAnAction(p, items, events);
    var h := Run(p, items, events);
    CommitNeedsConfirmation(p, h.call, h.items, t, at);
    CommitsTheChosen(p, h.call, h.items, t, at);
  }

  /**
   * The exact condition for any call: a change is what the action whose confirmation was last asked for would have done
   * if and only if the turn's chosen action is that one; in the model-led path, if the model proposes it again.
   */
  lemma CommitsTheAskedIff(p: Policy, items: seq<Reservation>, events: seq<Happening>, t: Turn, at: Context)
    requires ValidPolicy(p)
    ensures var h := Run(p, items, events);
            var r := Step(p, h.call, h.items, t, at);
            r.committed ==>
              && h.raisedFor.Some?
              && (Perform(p, Told(h.call, t), h.raisedFor.value, h.items, at) == Committed(r.items)
                  <==> Chosen(h.call, t) == h.raisedFor)
  {
    hide ValidPolicy, Run, Step, Perform, Told, Chosen;
    FlagHasAnAction(p, items, events);
    var h := Run(p, items, events);
    var r := Step(p, h.call, h.items, t, at);
    CommitNeedsConfirmation(p, h.call, h.items, t, at);
    CommitsTheChosen(p, h.call, h.items, t, at);
    if r.committed && Perform(p, Told(h.call, t), h.raisedFor.value, h.items, at) == Committed(r.items) {
      ActionsDiffer(p, Told(h.call, t), Chosen(h.call, t).value, h.raisedFor.value, h.items, at);
    }
  }

  // -------------------------------------------------------------------------
  // The call as an object
  // -------------------------------------------------------------------------

  class SalonCallState {
    const policy: Policy
    var action: Option<Action>
    var slots: Slots
    var awaiting: bool
    /** The reservations on file. */
    var items: seq<Reservation>

    function Contents(): Call
      reads this
    {
      Call(action, slots, awaiting)
    }

    constructor (policy: Policy, items: seq<Reservation>)
      requires ValidPolicy(policy)
      ensures this.policy == policy && this.items == items && Contents() == CLEARED
    {
      this.policy, this.items := policy, items;
      action, slots, awaiting := None, NOTHING, false;
    }

    method ClearTransaction()
      modifies this`action, this`slots, this`awaiting
      ensures Contents() == CLEARED
    {
      action, slots, awaiting := None, NOTHING, false;
    }

    /** Try the confirmed action and settle the transaction. */
    method Execute(confirmed: Action, at: Context) returns (committed: bool)
      requires ValidPolicy(policy)
      modifies this
      ensures Result(Contents(), items, committed)
           == Conclude(old(Contents()), old(items), Perform(policy, old(Contents()), confirmed, old(items), at))
    {
      var commit := Perform(policy, Contents(), confirmed, items, at);
      committed := commit.Committed?;
      if commit.Committed? {
        items := commit.items;
        ClearTransaction();
      } else if commit.Rejected? {
        awaiting := false;
      }
    }

    method RuleMessage(t: Turn, at: Context) returns (committed: bool)
      requires ValidPolicy(policy) && t.RuleTurn?
      modifies this
      ensures Result(Contents(), items, committed) == Step(policy, old(Contents()), old(items), t, at)
    {
      hide Perform, AvailableStaff, ValidPolicy;
      committed := false;
      if t.negative && awaiting {
        ClearTransaction();
        return;
      }
      if t.informational && !awaiting {
        return;
      }
      slots := Capture(slots, t.captured);
      if t.detected.Some? {
        if action != t.detected {
          awaiting := false;
        }
        action := t.detected;
      }
      if action.None? || Incomplete(slots, action.value) {
        return;
      }
      if action.value.Availability? {
        var available := AvailableStaff(policy, items, slots.service.value, slots.starts.value, at.now, None);
        if available.Err? {
          awaiting := false;
        } else if available.value != [] {
          action := Some(Booking);
        }
        return;
      }
      if !awaiting {
        awaiting := true;
        return;
      }
      if t.positive {
        committed := Execute(action.value, at);
      }
    }

    method ModelMessage(t: Turn, at: Context) returns (committed: bool)
      requires ValidPolicy(policy) && !t.RuleTurn?
      modifies this
      ensures Result(Contents(), items, committed) == Step(policy, old(Contents()), old(items), t, at)
    {
      hide Perform, AvailableStaff, ValidPolicy, AvailabilityRaises, Promise;
      committed := false;
      if t.RefusedTurn? {
        slots := TakeOver(slots, t.partial);
        return;
      }
      slots := TakeOver(slots, t.taken);
      if !t.inScope {
        ClearTransaction();
        return;
      }
      if t.searching && slots.service.Some? {
        action := Some(Availability);
        slots := slots.(starts := None);
        return;
      }
      if t.proposed.None? {
        return;
      }
      action := t.proposed;
      match action.value
      case Availability =>
        if AvailabilityRaises(policy, slots, items, at.now) {
          awaiting := false;
        }
      case Booking =>
        if slots.service.Some? && slots.starts.Some? {
          if awaiting {
            committed := Confirm(t, at);
          } else {
            var promise := Promise(policy, slots, items, at.now);
            if promise.Ok? && promise.value && slots.name.Some? && slots.phone.Some? {
              awaiting := true;
            }
          }
        }
      case _ =>
        if !Incomplete(slots, action.value) {
          if awaiting {
            committed := Confirm(t, at);
          } else {
            awaiting := true;
          }
        }
    }

    /** A turn that finds the flag raised. */
    method Confirm(t: Turn, at: Context) returns (committed: bool)
      requires ValidPolicy(policy) && t.ModelTurn? && action.Some?
      modifies this
      ensures Result(Contents(), items, committed) ==
              (if !t.confirmed || !t.positive then Result(if t.negative then CLEARED else old(Contents()), old(items), false)
               else Conclude(old(Contents()), old(items), Perform(policy, old(Contents()), old(action).value, old(items), at)))
    {
      committed := false;
      if !t.confirmed || !t.positive {
        if t.negative {
          ClearTransaction();
        }
        return;
      }
      committed := Execute(action.value, at);
    }
  }
}
