/** The portal's slot allocator: transactions over the slots and assignments tables. */
module Slots {
  import opened Store

  datatype SlotStatus = Free | Assigned | Disabled

  /** The columns a registry reload may rewrite. */
  datatype Settings = Settings(
    osUser: string, dockerHost: string, network: string, baseUrl: string, internalAddr: string,
    cpuLimit: string, memLimit: string, maxRunners: int, adminToken: string)

  datatype Slot = Slot(settings: Settings, status: SlotStatus)

  datatype GharpState = Stopped | Starting | Running | Error

  datatype Assignment = Assignment(slot: string, state: GharpState)

  /** user_id is UNIQUE, so the assignments table is a map from user to row. */
  datatype Portal = Portal(users: set<int>, slots: map<string, Slot>, rows: map<int, Assignment>)

  /** Which statement of a transaction fails for reasons of its own. */
  datatype Faults = Faults(begin: bool, find: bool, lookup: bool, delete: bool, release: bool,
                           insert: bool, mark: bool, commit: bool)

  // ---------------- ORDER BY id ----------------

  ghost predicate IsLeast(x: string, s: set<string>) {
    x in s && forall y :: y in s && y != x ==> Less(x, y)
  }

  lemma {:induction false} LeastUnique(x: string, y: string, s: set<string>)
    requires IsLeast(x, s) && IsLeast(y, s)
    ensures x == y
  {
    LessTotal(x, y);
  }

  ghost function Least(s: set<string>): (x: string)
    requires s != {}
    ensures IsLeast(x, s)
  {
    assert exists y :: IsLeast(y, s) by {
      LessTotalOn(s);
      var y := FirstExists(s, Less);
      assert IsLeast(y, s);
    }
    var x :| IsLeast(x, s);
    x
  }

  // ---------------- what each operation means ----------------

  function FreeIds(p: Portal): set<string> {
    set s | s in p.slots && p.slots[s].status.Free?
  }

  predicate Holds(p: Portal, user: int, slot: string) {
    user in p.rows && p.rows[user].slot == slot
  }

  predicate Taken(p: Portal, slot: string) {
    exists u :: u in p.rows && p.rows[u].slot == slot
  }

  /** Foreign keys and uniqueness of the assignments table. */
  predicate Insertable(p: Portal, user: int, slot: string) {
    user in p.users && slot in p.slots && user !in p.rows && !Taken(p, slot)
  }

  function Mark(p: Portal, slot: string, status: SlotStatus): Portal {
    if slot in p.slots then p.(slots := p.slots[slot := p.slots[slot].(status := status)]) else p
  }

  function Bound(p: Portal, user: int, slot: string): Portal {
    Mark(p.(rows := p.rows[user := Assignment(slot, Stopped)]), slot, Assigned)
  }

  function Unbound(p: Portal, user: int): Portal {
    if user in p.rows then Mark(p.(rows := p.rows - {user}), p.rows[user].slot, Free) else p
  }

  /** AssignSlot: release whatever the user holds, then bind, or neither. */
  function AssignTo(p: Portal, user: int, slot: string): Portal {
    if Insertable(Unbound(p, user), user, slot) then Bound(Unbound(p, user), user, slot) else p
  }

  /** A reassignment moves the binding: the new slot is assigned, the old one free, no setting
      and no other slot's status changes, and the user's gharp starts out stopped. */
  lemma {:induction false} Reassigned(p: Portal, user: int, slot: string)
    requires Insertable(Unbound(p, user), user, slot)
    ensures var p' := AssignTo(p, user, slot);
      && user in p.users && p'.users == p.users && p'.rows == p.rows[user := Assignment(slot, Stopped)]
      && p'.slots.Keys == p.slots.Keys && slot in p.slots
      && forall x :: x in p.slots ==>
           && p'.slots[x].settings == p.slots[x].settings
           && p'.slots[x].status == (if x == slot then Assigned
                                     else if user in p.rows && p.rows[user].slot == x then Free else p.slots[x].status)
  {
    var rest := Unbound(p, user);
    assert Bound(rest, user, slot).rows == rest.rows[user := Assignment(slot, Stopped)];
  }

  /** AssignFreeSlot's answer: the least free id, if the insert is possible. */
  ghost function Given(p: Portal, user: int): Option<string> {
    if FreeIds(p) != {} && Insertable(p, user, Least(FreeIds(p))) then Some(Least(FreeIds(p))) else None
  }

  ghost function AssignFree(p: Portal, user: int): Portal {
    if Given(p, user).Some? then Bound(p, user, Given(p, user).value) else p
  }

  /** SetGharpState: touches no slot and no binding. */
  function WithState(p: Portal, user: int, state: GharpState): Portal {
    if user in p.rows then p.(rows := p.rows[user := p.rows[user].(state := state)]) else p
  }

  predicate BindFails(f: Faults) {
    f.insert || f.mark || f.commit
  }

  /** A fault on a statement the transaction reaches. */
  predicate ReassignFails(p: Portal, user: int, f: Faults) {
    f.begin || f.lookup || (user in p.rows && (f.delete || f.release)) || BindFails(f)
  }

  // ---------------- the registry ----------------

  datatype Entry = Entry(id: string, settings: Settings)

  predicate ValidEntry(e: Entry) {
    && e.id != "" && e.settings.osUser != ""
    && ("unix://" <= e.settings.dockerHost || "tcp://" <= e.settings.dockerHost)
    && e.settings.network != "" && e.settings.baseUrl != "" && e.settings.internalAddr != ""
  }

  ghost predicate ValidFile(file: seq<Entry>) {
    file != [] && (forall i :: 0 <= i < |file| ==> ValidEntry(file[i])) &&
    forall i, j :: 0 <= i < j < |file| ==> file[i].id != file[j].id
  }

  function WithDefaults(e: Entry): Entry {
    if e.settings.maxRunners == 0 then e.(settings := e.settings.(maxRunners := 4)) else e
  }

  /** Insert as free, or rewrite the settings and leave the status alone. */
  function Upsert(p: Portal, e: Entry): Portal {
    p.(slots := p.slots[e.id := Slot(e.settings, if e.id in p.slots then p.slots[e.id].status else Free)])
  }

  function UpsertAll(p: Portal, es: seq<Entry>): Portal
    decreases |es|
  {
    if es == [] then p else UpsertAll(Upsert(p, es[0]), es[1..])
  }

  // ---------------- the database ----------------

  class DB {
    var users: set<int>
    var slots: map<string, Slot>
    var rows: map<int, Assignment>

    function Value(): Portal
      reads this
    {
      Portal(users, slots, rows)
    }

    method Rollback(slots0: map<string, Slot>, rows0: map<int, Assignment>)
      modifies this`slots, this`rows
      ensures slots == slots0 && rows == rows0
    {
      slots, rows := slots0, rows0;
    }

    method SetSlotStatus(slot: string, status: SlotStatus)
      modifies this`slots
      ensures Value() == Mark(old(Value()), slot, status)
    {
      if slot in slots {
        slots := slots[slot := slots[slot].(status := status)];
      }
    }

    /** SELECT id FROM slots WHERE status = 'free' ORDER BY id LIMIT 1 */
    method FindFree() returns (id: Option<string>)
      ensures id.None? <==> FreeIds(Value()) == {}
      ensures id.Some? ==> id.value == Least(FreeIds(Value()))
    {
      if FreeIds(Value()) == {} {
        return None;
      }
      LessTotalOn(FreeIds(Value()));
      var x := First(FreeIds(Value()), Less);
      LeastUnique(x, Least(FreeIds(Value())), FreeIds(Value()));
      id := Some(x);
    }

    method AssignFreeSlot(user: int, f: Faults) returns (slot: Option<string>)
      modifies this`slots, this`rows
      ensures slot == if f.begin || f.find || BindFails(f) then None else Given(old(Value()), user)
      ensures Value() == if slot.Some? then AssignFree(old(Value()), user) else old(Value())
      ensures slot.None? ==> slots == old(slots) && rows == old(rows)
      ensures slot.Some? ==>
        var s, was := slot.value, old(slots);
        (&& user in users && user !in old(rows) && s in was && was[s].status == Free
         && (forall x :: x in was && was[x].status == Free && x != s ==> Less(s, x))
         && (forall u :: u in old(rows) ==> old(rows)[u].slot != s)
         && !f.begin && !f.find && !f.insert && !f.mark && !f.commit
         && slots == was[s := was[s].(status := Assigned)] && rows == old(rows)[user := Assignment(s, Stopped)])
    {
      if f.begin {
        return None;
      }
      if f.find {
        return None;
      }
      var id := FindFree();
      if id.None? {
        return None;
      }
      var ok := DoAssign(user, id.value, f, slots, rows);
      slot := if ok then id else None;
    }

    method AssignSlot(user: int, slot: string, f: Faults) returns (ok: bool)
      modifies this`slots, this`rows
      ensures var p := old(Value());
        && (ok <==> !ReassignFails(p, user, f) && Insertable(Unbound(p, user), user, slot))
        && Value() == if ok then AssignTo(p, user, slot) else p
      ensures ok ==> !f.begin && !f.lookup && !f.insert && !f.mark && !f.commit && (user in old(rows) ==> !f.delete && !f.release)
    {
      if f.begin {
        return false;
      }
      var slots0, rows0 := slots, rows;
      var freed := FreeExistingAssignment(user, f);
      if !freed {
        Rollback(slots0, rows0);
        return false;
      }
      ok := DoAssign(user, slot, f, slots0, rows0);
    }

    /** Leaves a half-done release behind on failure; the caller rolls back. */
    method FreeExistingAssignment(user: int, f: Faults) returns (ok: bool)
      modifies this`slots, this`rows
      ensures ok <==> !f.lookup && (user in old(rows) ==> !f.delete && !f.release)
      ensures ok ==> Value() == Unbound(old(Value()), user)
    {
      if f.lookup {
        return false;
      }
      if user !in rows {
        return true;
      }
      var oldSlot := rows[user].slot;
      if f.delete {
        return false;
      }
      rows := rows - {user};
      if f.release {
        return false;
      }
      SetSlotStatus(oldSlot, Free);
      ok := true;
    }

    /** The tail of both transactions: insert, mark, commit, or roll back to (slots0, rows0). */
    method DoAssign(user: int, slot: string, f: Faults, slots0: map<string, Slot>, rows0: map<int, Assignment>)
      returns (ok: bool)
      modifies this`slots, this`rows
      ensures var p := old(Value());
        && (ok <==> !BindFails(f) && Insertable(p, user, slot))
        && Value() == if ok then Bound(p, user, slot) else Portal(users, slots0, rows0)
      ensures ok <==>
        && !f.insert && !f.mark && !f.commit && user in users && slot in old(slots) && user !in old(rows)
        && forall u :: u in old(rows) ==> old(rows)[u].slot != slot
    {
      if f.insert || !Insertable(Value(), user, slot) {
        Rollback(slots0, rows0);
        return false;
      }
      rows := rows[user := Assignment(slot, Stopped)];
      if f.mark {
        Rollback(slots0, rows0);
        return false;
      }
      SetSlotStatus(slot, Assigned);
      if f.commit {
        Rollback(slots0, rows0);
        return false;
      }
      ok := true;
    }

    method SetGharpState(user: int, state: GharpState)
      modifies this`rows
      ensures Value() == WithState(old(Value()), user, state)
      ensures rows == if user in old(rows) then old(rows)[user := Assignment(old(rows)[user].slot, state)] else old(rows)
    {
      if user in rows {
        rows := rows[user := rows[user].(state := state)];
      }
    }

    method UpsertSlot(e: Entry)
      modifies this`slots
      ensures Value() == Upsert(old(Value()), e)
      ensures slots == old(slots)[e.id := Slot(e.settings, if e.id in old(slots) then old(slots)[e.id].status else Free)]
    {
      if e.id in slots {
        slots := slots[e.id := slots[e.id].(settings := e.settings)];
      } else {
        slots := slots[e.id := Slot(e.settings, Free)];
      }
    }

    /** Upserts entry by entry and stops at the first failure, keeping what went before. */
    method LoadRegistry(file: seq<Entry>, upsertFails: string -> bool) returns (ok: bool, ghost applied: nat)
      modifies this`slots
      ensures ok <==> ValidFile(file) && forall i :: 0 <= i < |file| ==> !upsertFails(file[i].id)
      ensures applied <= |file| && Value() == UpsertAll(old(Value()), Parsed(file)[..applied])
      ensures !ValidFile(file) ==> applied == 0
      ensures ValidFile(file) && applied < |file| ==> upsertFails(file[applied].id)
      ensures forall i :: 0 <= i < applied ==> !upsertFails(file[i].id)
    {
      applied := 0;
      var parsed := ParseFile(file);
      if parsed.None? {
        return false, 0;
      }
      var es := parsed.value;
      var i := 0;
      assert es[..0] == [];
      while i < |es|
        invariant 0 <= i <= |es|
        invariant forall j :: 0 <= j < i ==> !upsertFails(file[j].id)
        invariant Value() == UpsertAll(old(Value()), es[..i])
      {
        if upsertFails(es[i].id) {
          return false, i;
        }
        UpsertSnoc(old(Value()), es[..i], es[i]);
        assert es[..i + 1] == es[..i] + [es[i]];
        UpsertSlot(es[i]);
        i := i + 1;
      }
      assert es[..i] == es;
      ok, applied := true, i;
    }
  }

  function Parsed(file: seq<Entry>): (es: seq<Entry>)
    ensures |es| == |file| && forall i :: 0 <= i < |es| ==> es[i] == WithDefaults(file[i])
  {
    seq(|file|, i requires 0 <= i < |file| => WithDefaults(file[i]))
  }

  lemma {:induction false} UpsertSnoc(p: Portal, es: seq<Entry>, e: Entry)
    ensures UpsertAll(p, es + [e]) == Upsert(UpsertAll(p, es), e)
    decreases |es|
  {
    if es == [] {
      assert ([] + [e])[1..] == [];
    } else {
      assert (es + [e])[1..] == es[1..] + [e];
      UpsertSnoc(Upsert(p, es[0]), es[1..], e);
    }
  }

  /** The decoded file's entries, validated one by one; None is an error. */
  method ParseFile(file: seq<Entry>) returns (es: Option<seq<Entry>>)
    ensures es == if ValidFile(file) then Some(Parsed(file)) else None
    ensures es.Some? <==>
      (&& |file| > 0
       && (forall i :: 0 <= i < |file| ==>
             var e := file[i].settings;
             && file[i].id != "" && e.osUser != "" && e.network != "" && e.baseUrl != "" && e.internalAddr != ""
             && ("unix://" <= e.dockerHost || "tcp://" <= e.dockerHost))
       && forall i, j :: 0 <= i < j < |file| ==> file[i].id != file[j].id)
    ensures es.Some? ==> |es.value| == |file| && forall i :: 0 <= i < |file| ==>
      var e := file[i].settings;
      es.value[i] == Entry(file[i].id, if e.maxRunners == 0 then e.(maxRunners := 4) else e)
  {
    if |file| == 0 {
      return None;
    }
    var seen: set<string>, out: seq<Entry> := {}, [];
    var i := 0;
    while i < |file|
      invariant 0 <= i <= |file|
      invariant forall j :: 0 <= j < i ==> ValidEntry(file[j]) && file[j].id in seen
      invariant forall x :: x in seen ==> exists j :: 0 <= j < i && file[j].id == x
      invariant forall j, k :: 0 <= j < k < i ==> file[j].id != file[k].id
      invariant out == Parsed(file)[..i]
    {
      if !ValidEntry(file[i]) {
        return None;
      }
      if file[i].id in seen {
        return None;
      }
      seen := seen + {file[i].id};
      var mr := file[i].settings.maxRunners;
      if mr == 0 {
        mr := 4;
      }
      out := out + [file[i].(settings := file[i].settings.(maxRunners := mr))];
      assert Parsed(file)[..i + 1] == Parsed(file)[..i] + [Parsed(file)[i]];
      i := i + 1;
    }
    assert Parsed(file)[..i] == Parsed(file);
    es := Some(out);
  }
}
