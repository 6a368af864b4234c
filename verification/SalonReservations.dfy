/**
 * The reservation service and its file store as the objects they are: each operation is a closure over the current list
 * that the store runs between reading and replacing its document.
 */
module SalonReservations {
  import opened SalonBooking
  import opened ReservationStore

  class FileReservationStore {
    const backupRoot: bool
    var document: Option<Document>
    var backups: seq<Document>

    constructor (backupRoot: bool)
      ensures this.backupRoot == backupRoot && document == None && backups == []
    {
      this.backupRoot := backupRoot;
      document, backups := None, [];
    }

    /** The reservations on file; a missing file counts as the empty first document. */
    function Items(): seq<Reservation>
      reads this
    {
      if document.None? then [] else document.value.items
    }

    method Initialize()
      modifies this`document
      ensures document == if old(document).None? then Some(FIRST) else old(document)
      ensures Items() == old(Items())
    {
      if document.None? {
        document := Some(FIRST);
      }
    }

    method List() returns (items: seq<Reservation>)
      modifies this`document
      ensures items == Items() == old(Items())
      ensures document == if old(document).None? then Some(FIRST) else old(document)
    {
      Initialize();
      items := document.value.items;
    }

    /** Run a mutation on the current list; on an error nothing but the missing first document is written. */
    method Mutate(mutation: seq<Reservation> -> Result<Change>) returns (result: Result<Reservation>, unique: bool)
      modifies this
      ensures var change := mutation(old(Items()));
              && (change.Err? ==> result == Err(change.code) && unique)
              && (change.Ok? ==> result == Ok(change.value.result) && unique == UniqueIds(change.value.items))
              && (var before := if old(document).None? then FIRST else old(document).value;
                  if change.Ok? && unique then
                    && document == Some(Document(before.version + 1, change.value.items))
                    && backups == old(backups) + (if backupRoot then [before] else [])
                  else document == Some(before) && backups == old(backups))
    {
      Initialize();
      var current := document.value;
      var change := mutation(current.items);
      if change.Err? {
        return Err(change.code), true;
      }
      result, unique := Ok(change.value.result), UniqueIds(change.value.items);
      if !unique {
        return;
      }
      if backupRoot {
        backups := backups + [current];
      }
      document := Some(Document(current.version + 1, change.value.items));
    }
  }

  class SalonReservationService {
    const policy: Policy
    const store: FileReservationStore

    ghost predicate Valid()
      reads this, store
    {
      ValidPolicy(policy) && Safe(policy, store.Items())
    }

    constructor (policy: Policy, store: FileReservationStore)
      requires ValidPolicy(policy) && store.document == None
      ensures Valid() && this.policy == policy && this.store == store
    {
      this.policy, this.store := policy, store;
    }

    /** Everyone who could take a service at a time, in the policy's order. */
    method AvailableStaffAt(service: string, starts: int, now: int, excluding: Option<string>)
      returns (available: Result<seq<Staff>>)
      requires Valid()
      modifies store`document
      ensures Valid() && store.Items() == old(store.Items())
      ensures available == AvailableStaff(policy, store.Items(), service, starts, now, excluding)
    {
      hide Safe, Window, FindService, AllFree;
      var found := FindService(policy.services, service);
      if found.Err? {
        return Err(found.code);
      }
      var ends := Window(policy, found.value.duration, starts, now);
      if ends.Err? {
        return Err(ends.code);
      }
      var items := store.List();
      var members := FreeMembers(items, service, starts, ends.value, excluding);
      available := Ok(members);
    }

    method FreeMembers(items: seq<Reservation>, service: string, starts: int, ends: int, excluding: Option<string>)
      returns (members: seq<Staff>)
      ensures members == AllFree(policy.staff, items, service, starts, ends, excluding)
    {
      hide HasOverlap, AllFree;
      members := [];
      var team := policy.staff;
      NoMembers(items, service, starts, ends, excluding);
      assert team[..0] == [];
      for i := 0 to |team|
        invariant members == AllFree(team[..i], items, service, starts, ends, excluding)
      {
        MemberMore(team, i, items, service, starts, ends, excluding);
        if service in team[i].services {
          var busy := StaffHasOverlap(items, team[i].id, starts, ends, excluding);
          if !busy {
            members := members + [team[i]];
          }
        }
      }
      assert team[..|team|] == team;
    }

    method StaffHasOverlap(items: seq<Reservation>, staff: string, starts: int, ends: int, excluding: Option<string>)
      returns (busy: bool)
      ensures busy == HasOverlap(items, staff, starts, ends, excluding)
    {
      busy := false;
      for i := 0 to |items|
        invariant busy == HasOverlap(items[..i], staff, starts, ends, excluding)
      {
        assert items[..i + 1] == items[..i] + [items[i]];
        if Overlaps(items[i], staff, starts, ends, excluding) {
          assert items[..i + 1][i] == items[i];
          busy := true;
        }
        OneMore(items, i, staff, starts, ends, excluding);
      }
      assert items[..|items|] == items;
    }

    /** Book: exactly what create makes of the list on file, or its error and no change. */
    method Book(r: Request, checkedAt: int, id: string, now: int) returns (result: Result<Reservation>)
      requires Valid() && forall i :: 0 <= i < |store.Items()| ==> store.Items()[i].id != id
      modifies store
      ensures Valid()
      ensures var change := Create(policy, old(store.Items()), r, checkedAt, id, now);
              && result == (if change.Ok? then Ok(change.value.result) else Err(change.code))
              && store.Items() == (if change.Ok? then change.value.items else old(store.Items()))
    {
      var checked := CheckRequest(policy, r, checkedAt);
      if checked.Err? {
        return Err(checked.code);
      }
      CreateKeeps(policy, store.Items(), r, checkedAt, id, now);
      var unique;
      var rules := policy;
      result, unique := store.Mutate(items requires ValidPolicy(rules) => Create(rules, items, r, checkedAt, id, now));
    }

    method Annul(code: string, phone: string, now: int) returns (result: Result<Reservation>)
      requires Valid()
      modifies store
      ensures Valid()
      ensures var change := Cancel(old(store.Items()), code, phone, now);
              && result == (if change.Ok? then Ok(change.value.result) else Err(change.code))
              && store.Items() == (if change.Ok? then change.value.items else old(store.Items()))
    {
      CancelKeeps(policy, store.Items(), code, phone, now);
      var unique;
      result, unique := store.Mutate(items => Cancel(items, code, phone, now));
    }

    method Change(
      code: string, phone: string, starts: int, service: Option<string>, staff: Option<string>, now: int)
      returns (result: Result<Reservation>)
      requires Valid()
      modifies store
      ensures Valid()
      ensures var change := Modify(policy, old(store.Items()), code, phone, starts, service, staff, now);
              && result == (if change.Ok? then Ok(change.value.result) else Err(change.code))
              && store.Items() == (if change.Ok? then change.value.items else old(store.Items()))
    {
      ModifyKeeps(policy, store.Items(), code, phone, starts, service, staff, now);
      var unique;
      var rules := policy;
      result, unique := store.Mutate(
        items requires ValidPolicy(rules) => Modify(rules, items, code, phone, starts, service, staff, now));
    }
  }

  lemma NoMembers(items: seq<Reservation>, service: string, starts: int, ends: int, excluding: Option<string>)
    ensures AllFree([], items, service, starts, ends, excluding) == []
  {
  }

  lemma {:induction false} AllFreeSnoc(
    team: seq<Staff>, m: Staff, items: seq<Reservation>, service: string, starts: int, ends: int, excluding: Option<string>)
    ensures AllFree(team + [m], items, service, starts, ends, excluding)
            == AllFree(team, items, service, starts, ends, excluding)
               + if Free(items, m, service, starts, ends, excluding) then [m] else []
  {
    hide Free;
    if team == [] {
      assert team + [m] == [m] && [m][1..] == [];
    } else {
      assert (team + [m])[1..] == team[1..] + [m];
      AllFreeSnoc(team[1..], m, items, service, starts, ends, excluding);
    }
  }

  lemma MemberMore(
    team: seq<Staff>, i: nat, items: seq<Reservation>, service: string, starts: int, ends: int, excluding: Option<string>)
    requires i < |team|
    ensures AllFree(team[..i + 1], items, service, starts, ends, excluding)
            == AllFree(team[..i], items, service, starts, ends, excluding)
               + if Free(items, team[i], service, starts, ends, excluding) then [team[i]] else []
  {
    assert team[..i + 1] == team[..i] + [team[i]];
    AllFreeSnoc(team[..i], team[i], items, service, starts, ends, excluding);
  }

  lemma OneMore(items: seq<Reservation>, i: nat, staff: string, starts: int, ends: int, excluding: Option<string>)
    requires i < |items|
    ensures HasOverlap(items[..i + 1], staff, starts, ends, excluding)
         == (HasOverlap(items[..i], staff, starts, ends, excluding) || Overlaps(items[i], staff, starts, ends, excluding))
  {
    var before, after := items[..i], items[..i + 1];
    assert forall k :: 0 <= k < i ==> before[k] == after[k];
    assert after[i] == items[i];
  }
}
