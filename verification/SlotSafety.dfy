/** What the slot allocator keeps over any run of assignments and registry reloads. */
module SlotSafety {
  import opened Store
  import opened Slots

  /** A slot is assigned exactly when one assignment names it; foreign keys hold. */
  ghost predicate Consistent(p: Portal) {
    && (forall s :: s in p.slots ==> (p.slots[s].status.Assigned? <==> Taken(p, s)))
    && (forall u :: u in p.rows ==> u in p.users && p.rows[u].slot in p.slots)
    && (forall u, v :: u in p.rows && v in p.rows && p.rows[u].slot == p.rows[v].slot ==> u == v)
  }

  /** A committed operation; a failed one leaves the portal as it was. */
  datatype Op =
    | TakeFree(user: int)
    | Take(user: int, slot: string)
    | SetState(user: int, state: GharpState)
    | Reload(es: seq<Entry>)
    | AddUser(user: int)

  ghost function Apply(p: Portal, op: Op): Portal {
    match op
    case TakeFree(user) => AssignFree(p, user)
    case Take(user, slot) => AssignTo(p, user, slot)
    case SetState(user, state) => WithState(p, user, state)
    case Reload(es) => UpsertAll(p, es)
    case AddUser(user) => p.(users := p.users + {user})
  }

  ghost function ApplyAll(p: Portal, ops: seq<Op>): Portal
    decreases |ops|
  {
    if ops == [] then p else ApplyAll(Apply(p, ops[0]), ops[1..])
  }

  lemma {:induction false} BoundConsistent(p: Portal, user: int, slot: string)
    requires Consistent(p) && Insertable(p, user, slot)
    ensures Consistent(Bound(p, user, slot))
    ensures FreeIds(Bound(p, user, slot)) == FreeIds(p) - {slot}
  {
    var q := Bound(p, user, slot);
    forall s | s in q.slots ensures q.slots[s].status.Assigned? <==> Taken(q, s) {
      if s == slot {
        assert q.rows[user].slot == slot;
      } else if Taken(p, s) {
        var u :| u in p.rows && p.rows[u].slot == s;
        assert q.rows[u].slot == s;
      }
    }
  }

  lemma {:induction false} UnboundConsistent(p: Portal, user: int)
    requires Consistent(p)
    ensures Consistent(Unbound(p, user))
  {
    if user in p.rows {
      var q, slot := Unbound(p, user), p.rows[user].slot;
      forall s | s in q.slots ensures q.slots[s].status.Assigned? <==> Taken(q, s) {
        if s != slot && Taken(p, s) {
          var u :| u in p.rows && p.rows[u].slot == s;
          assert q.rows[u].slot == s;
        }
      }
    }
  }

  lemma {:induction false} UpsertConsistent(p: Portal, e: Entry)
    requires Consistent(p)
    ensures Consistent(Upsert(p, e))
  {
    var q := Upsert(p, e);
    assert forall s :: Taken(q, s) <==> Taken(p, s);
  }

  lemma {:induction false} ReloadConsistent(p: Portal, es: seq<Entry>)
    requires Consistent(p)
    ensures Consistent(UpsertAll(p, es))
    decreases |es|
  {
    if es == [] {
    } else {
      UpsertConsistent(p, es[0]);
      ReloadConsistent(Upsert(p, es[0]), es[1..]);
    }
  }

  lemma {:induction false} StepConsistent(p: Portal, op: Op)
    requires Consistent(p)
    ensures Consistent(Apply(p, op))
  {
    match op {
      case TakeFree(user) =>
        if Given(p, user).Some? {
          BoundConsistent(p, user, Given(p, user).value);
        }
      case Take(user, slot) =>
        UnboundConsistent(p, user);
        if Insertable(Unbound(p, user), user, slot) {
          BoundConsistent(Unbound(p, user), user, slot);
        }
      case SetState(user, state) =>
        var q := Apply(p, op);
        assert forall u :: u in q.rows ==> u in p.rows && q.rows[u].slot == p.rows[u].slot;
        assert forall s :: Taken(q, s) <==> Taken(p, s) by {
          forall s | Taken(p, s) ensures Taken(q, s) {
            var u :| u in p.rows && p.rows[u].slot == s;
            assert q.rows[u].slot == s;
          }
        }
      case Reload(es) => ReloadConsistent(p, es);
      case AddUser(user) => assert forall s :: Taken(Apply(p, op), s) <==> Taken(p, s);
    }
  }

  function AssignedIds(p: Portal): set<string> {
    set s | s in p.slots && p.slots[s].status.Assigned?
  }

  lemma {:induction false} AssignedCount(p: Portal)
    requires Consistent(p)
    ensures |AssignedIds(p)| == |p.rows|
  {
    var held := map u | u in p.rows :: p.rows[u].slot;
    assert held.Keys == p.rows.Keys;
    forall u, v | u in held && v in held && held[u] == held[v] ensures u == v {
      assert p.rows[u].slot == p.rows[v].slot;
    }
    ImageSize(held, held.Keys);
    var image := Image(held, held.Keys);
    forall s | s in AssignedIds(p) ensures s in image {
      var u :| u in p.rows && p.rows[u].slot == s;
      assert held[u] in image;
    }
    forall u | u in held ensures held[u] in AssignedIds(p) {
      assert Taken(p, held[u]);
    }
    ImageWithin(held, held.Keys, AssignedIds(p));
    assert image == AssignedIds(p);
    assert |held.Keys| == |p.rows.Keys| == |p.rows|;
  }

  /** In every reachable state a slot is assigned exactly when one assignment names it, and
      there are as many assigned slots as assignments. */
  lemma {:induction false} AlwaysConsistent(p: Portal, ops: seq<Op>)
    requires Consistent(p)
    ensures var q := ApplyAll(p, ops);
            Consistent(q) && |AssignedIds(q)| == |q.rows|
    decreases |ops|
  {
    if ops == [] {
      AssignedCount(p);
    } else {
      StepConsistent(p, ops[0]);
      AlwaysConsistent(Apply(p, ops[0]), ops[1..]);
    }
  }

  function Image<K, V>(f: map<K, V>, keys: set<K>): set<V>
    requires keys <= f.Keys
  {
    set u | u in keys :: f[u]
  }

  /** The image of a set under an injective map is as large as the set. */
  lemma {:induction false} ImageSize<K, V>(f: map<K, V>, keys: set<K>)
    requires keys <= f.Keys
    requires forall u, v :: u in keys && v in keys && f[u] == f[v] ==> u == v
    ensures |Image(f, keys)| == |keys|
  {
    if keys == {} {
    } else {
      var x :| x in keys;
      ImageSize(f, keys - {x});
      assert Image(f, keys) == Image(f, keys - {x}) + {f[x]};
    }
  }

  lemma {:induction false} ImageWithin<K, V>(f: map<K, V>, keys: set<K>, bound: set<V>)
    requires keys <= f.Keys && forall k :: k in keys ==> f[k] in bound
    ensures Image(f, keys) <= bound
  {
  }

  // ---------------- who gets what ----------------

  /** AssignSlot, no statement failing, succeeds exactly when the user and the slot exist and
      nobody else holds the slot. So asking for one's own slot again succeeds, and so does
      asking for a disabled one. */
  lemma {:induction false} AssignSucceedsWhen(p: Portal, user: int, slot: string)
    requires Consistent(p)
    ensures Insertable(Unbound(p, user), user, slot) <==>
            user in p.users && slot in p.slots && (p.slots[slot].status.Assigned? ==> Holds(p, user, slot))
  {
    var q := Unbound(p, user);
    if Taken(p, slot) {
      var u :| u in p.rows && p.rows[u].slot == slot;
      if u != user {
        assert q.rows[u].slot == slot;
      }
    }
  }

  /** AssignFreeSlot succeeds exactly when a slot is free and the user has none yet. */
  lemma {:induction false} FreeSucceedsWhen(p: Portal, user: int)
    requires Consistent(p)
    ensures Given(p, user).Some? <==> FreeIds(p) != {} && user in p.users && user !in p.rows
  {
    if FreeIds(p) != {} {
      assert Least(FreeIds(p)) in FreeIds(p);
    }
  }

  /** The portal and the answers after one AssignFreeSlot per user of us, in turn. */
  ghost function TakeMany(p: Portal, us: seq<int>): (Portal, seq<Option<string>>)
    decreases |us|
  {
    if us == [] then (p, [])
    else
      var rest := TakeMany(AssignFree(p, us[0]), us[1..]);
      (rest.0, [Given(p, us[0])] + rest.1)
  }

  /** Existing users, no two the same, none holding a slot. */
  ghost predicate Waiting(p: Portal, us: seq<int>) {
    NoDup(us) && forall u :: u in us ==> u in p.users && u !in p.rows
  }

  /** One AssignFreeSlot: the least free slot, if there is one, goes to the user at the head. */
  lemma {:induction false} ServeOne(p: Portal, us: seq<int>)
    requires Consistent(p) && us != [] && Waiting(p, us)
    ensures var given, p1 := Given(p, us[0]), AssignFree(p, us[0]);
      && Consistent(p1) && Waiting(p1, us[1..])
      && (given.Some? <==> FreeIds(p) != {})
      && (given.None? ==> p1 == p)
      && (given.Some? ==> IsLeast(given.value, FreeIds(p)) && FreeIds(p1) == FreeIds(p) - {given.value})
      && (given.Some? ==> p1.rows == p.rows[us[0] := Assignment(given.value, Stopped)])
  {
    var u, rest := us[0], us[1..];
    FreeSucceedsWhen(p, u);
    StepConsistent(p, TakeFree(u));
    assert forall i :: 0 <= i < |rest| ==> rest[i] == us[i + 1];
    forall v | v in rest ensures v in p.users && v !in p.rows && v != u {
      var i :| 0 <= i < |rest| && rest[i] == v;
      assert us[i + 1] == v && us[i + 1] in us;
    }
    if Given(p, u).Some? {
      BoundConsistent(p, u, Given(p, u).value);
    }
  }

  /** What the users of us got, q being the portal afterwards. */
  ghost predicate Served(p: Portal, us: seq<int>, q: Portal, got: seq<Option<string>>) {
    && |got| == |us| && Consistent(q)
    && (forall i :: 0 <= i < |us| ==> (got[i].Some? <==> i < |FreeIds(p)|))
    && (forall i :: 0 <= i < |us| && got[i].Some? ==> got[i].value in FreeIds(p) && Holds(q, us[i], got[i].value))
    && (forall i, j :: 0 <= i < j < |us| && got[i].Some? && got[j].Some? ==> Less(got[i].value, got[j].value))
    && (forall u :: u in p.rows ==> u in q.rows && q.rows[u] == p.rows[u])
    && FreeIds(q) <= FreeIds(p)
  }

  /** The head's answer followed by what the rest got is what all got. */
  lemma {:induction false} ServedCons(p: Portal, p1: Portal, us: seq<int>, given: Option<string>, q: Portal, got: seq<Option<string>>)
    requires us != [] && us[0] !in p.rows && Served(p1, us[1..], q, got)
    requires given.Some? <==> FreeIds(p) != {}
    requires given.None? ==> p1 == p
    requires given.Some? ==> IsLeast(given.value, FreeIds(p)) && FreeIds(p1) == FreeIds(p) - {given.value}
    requires given.Some? ==> p1.rows == p.rows[us[0] := Assignment(given.value, Stopped)]
    ensures Served(p, us, q, [given] + got)
  {
    var all := [given] + got;
    assert forall i :: 1 <= i < |us| ==> all[i] == got[i - 1] && us[i] == us[1..][i - 1];
    assert given.Some? ==> |FreeIds(p1)| == |FreeIds(p)| - 1;
    assert given.Some? ==> us[0] in p1.rows && Holds(q, us[0], given.value);
  }

  /** From m free slots, k distinct users without a slot get exactly min(k, m) of them: the
      first m askers succeed, each receives a free slot smaller than every later one's, keeps
      it, and everyone after the m-th is refused. */
  lemma {:induction false} FirstComeFirstServed(p: Portal, us: seq<int>)
    requires Consistent(p) && Waiting(p, us)
    ensures var (q, got) := TakeMany(p, us); Served(p, us, q, got)
    decreases |us|
  {
    if us == [] {
    } else {
      var p1, rest := AssignFree(p, us[0]), TakeMany(AssignFree(p, us[0]), us[1..]);
      ServeOne(p, us);
      FirstComeFirstServed(p1, us[1..]);
      assert us[0] in us;
      ServedCons(p, p1, us, Given(p, us[0]), rest.0, rest.1);
    }
  }

  // ---------------- registry reload ----------------

  predicate Names(es: seq<Entry>, id: string) {
    exists i :: 0 <= i < |es| && es[i].id == id
  }

  /** A reload touches no assignment and no existing slot's status; what it adds is free; what
      the file does not name is as it was; what it names has the file's settings. */
  lemma {:induction false} ReloadForm(p: Portal, es: seq<Entry>)
    requires forall i, j :: 0 <= i < j < |es| ==> es[i].id != es[j].id
    ensures var q := UpsertAll(p, es);
      && q.rows == p.rows && q.users == p.users
      && (forall s :: s in q.slots <==> s in p.slots || Names(es, s))
      && (forall s :: s in q.slots ==> q.slots[s].status == if s in p.slots then p.slots[s].status else Free)
      && (forall s :: s in p.slots && !Names(es, s) ==> q.slots[s] == p.slots[s])
      && (forall i :: 0 <= i < |es| ==> q.slots[es[i].id].settings == es[i].settings)
    decreases |es|
  {
    if es == [] {
    } else {
      var rest := es[1..];
      assert forall i :: 0 <= i < |rest| ==> rest[i] == es[i + 1];
      ReloadForm(Upsert(p, es[0]), rest);
      assert !Names(rest, es[0].id);
      assert forall s :: Names(es, s) <==> s == es[0].id || Names(rest, s) by {
        forall s | Names(es, s) ensures s == es[0].id || Names(rest, s) {
          var i :| 0 <= i < |es| && es[i].id == s;
          assert i > 0 ==> rest[i - 1].id == s;
        }
        assert forall s :: Names(rest, s) ==> Names(es, s) by {
          forall s | Names(rest, s) ensures Names(es, s) {
            var i :| 0 <= i < |rest| && rest[i].id == s;
            assert es[i + 1].id == s;
          }
        }
        assert es[0].id == es[0].id && Names(es, es[0].id);
      }
    }
  }

  /** Loading the same file again changes nothing. */
  lemma {:induction false} ReloadIsIdempotent(p: Portal, es: seq<Entry>)
    requires forall i, j :: 0 <= i < j < |es| ==> es[i].id != es[j].id
    ensures UpsertAll(UpsertAll(p, es), es) == UpsertAll(p, es)
  {
    var q := UpsertAll(p, es);
    var r := UpsertAll(q, es);
    ReloadForm(p, es);
    ReloadForm(q, es);
    forall s | s in q.slots ensures r.slots[s] == q.slots[s] {
      if Names(es, s) {
        var i :| 0 <= i < |es| && es[i].id == s;
        assert r.slots[es[i].id].settings == q.slots[es[i].id].settings;
      }
    }
    assert r.slots == q.slots;
  }

  // ---------------- disabled slots ----------------

  /** A disabled slot stays disabled through every operation but one: an explicit assignment
      of it to an existing user, which nothing refuses. */
  lemma {:induction false} DisabledUntilTaken(p: Portal, op: Op, slot: string)
    requires Consistent(p) && slot in p.slots && p.slots[slot].status.Disabled?
    ensures slot in Apply(p, op).slots
    ensures Apply(p, op).slots[slot].status.Disabled? <==> !(op.Take? && op.slot == slot && op.user in p.users)
  {
    match op {
      case TakeFree(user) =>
        if FreeIds(p) != {} {
          assert Least(FreeIds(p)) in FreeIds(p);
        }
      case Take(user, s) =>
        AssignSucceedsWhen(p, user, s);
        if user in p.rows {
          assert Taken(p, p.rows[user].slot);
        }
      case Reload(es) => ReloadStatus(p, es, slot);
      case _ =>
    }
  }

  lemma {:induction false} ReloadStatus(p: Portal, es: seq<Entry>, slot: string)
    requires slot in p.slots
    ensures slot in UpsertAll(p, es).slots && UpsertAll(p, es).slots[slot].status == p.slots[slot].status
    decreases |es|
  {
    if es == [] {
    } else {
      ReloadStatus(Upsert(p, es[0]), es[1..], slot);
    }
  }

  /** And the operator's mark is then lost for good: when the user moves on to any other
      slot nobody holds, the once disabled slot comes back free. */
  lemma {:induction false} DisabledComesBackFree(p: Portal, user: int, slot: string, other: string)
    requires Consistent(p) && slot in p.slots && p.slots[slot].status.Disabled? && user in p.users
    requires other in p.slots && other != slot && !p.slots[other].status.Assigned?
    ensures slot in FreeIds(ApplyAll(p, [Take(user, slot), Take(user, other)]))
  {
    var a, b := Take(user, slot), Take(user, other);
    assert [a, b][1..] == [b] && [b][1..] == [];
    AssignSucceedsWhen(p, user, slot);
    StepConsistent(p, a);
    AssignSucceedsWhen(Apply(p, a), user, other);
    assert ApplyAll(p, [a, b]) == ApplyAll(Apply(p, a), [b]);
    assert ApplyAll(Apply(p, a), [b]) == ApplyAll(Apply(Apply(p, a), b), []);
  }
}
