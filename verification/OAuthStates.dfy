/** The portal's pending OAuth states: single-use tokens in a table that evicts as it grows. */
module OAuthStates {
  import opened Store

  const TTL: int := 600 * SECOND

  type Table = map<string, int>

  datatype Op = Put(now: int, state: string) | Claim(now: int, state: string)
  type History = seq<Op>

  /** Entries whose expiry the clock has passed are dropped; one expiring right now stays. */
  function Evict(t: Table, now: int): Table {
    map k | k in t && now <= t[k] :: t[k]
  }

  function Answer(t: Table, op: Op): bool {
    op.Claim? && op.state != "" && op.state in t && op.now < t[op.state]
  }

  function Claimed(t: Table, state: string): Table {
    if state == "" then t else t - {state}
  }

  function Step(t: Table, op: Op, evict: bool): Table {
    match op
    case Put(now, state) => (if evict then Evict(t, now) else t)[state := now + TTL]
    case Claim(_, state) => Claimed(t, state)
  }

  /** The table after history h from an empty one, evicting on every Put or never. */
  function After(h: History, evict: bool): Table {
    if h == [] then map[] else Step(After(Init(h), evict), Last(h), evict)
  }

  /** The clock is read once per operation and does not go back. */
  ghost predicate Ordered(h: History) {
    forall i, j :: 0 <= i < j < |h| ==> h[i].now <= h[j].now
  }

  /** The evicting table e is the plain one p less entries expired by `now`. */
  ghost predicate Lacks(e: Table, p: Table, now: int) {
    && (forall k :: k in e ==> k in p && e[k] == p[k])
    && (forall k :: k in p && k !in e ==> p[k] < now)
  }

  lemma {:induction false} StepLacks(e: Table, p: Table, earlier: int, op: Op)
    requires Lacks(e, p, earlier) && earlier <= op.now
    ensures Lacks(Step(e, op, true), Step(p, op, false), op.now)
  {
    var e', p' := Step(e, op, true), Step(p, op, false);
    forall k | k in e' ensures k in p' && e'[k] == p'[k] {
      assert k in e || (op.Put? && k == op.state);
    }
    forall k | k in p' && k !in e' ensures p'[k] < op.now {
      assert k in p;
    }
  }

  lemma {:induction false} EvictedHasExpired(h: History, now: int)
    requires Ordered(h) && (h != [] ==> Last(h).now <= now)
    ensures Lacks(After(h, true), After(h, false), now)
  {
    if h == [] {
    } else {
      EvictedHasExpired(Init(h), Last(h).now);
      StepLacks(After(Init(h), true), After(Init(h), false), Last(h).now, Last(h));
    }
  }

  /** When token state was last put without having been claimed since. */
  function Pending(h: History, state: string): Option<int> {
    if h == [] then None
    else if Last(h).state != state then Pending(Init(h), state)
    else if Last(h).Put? then Some(Last(h).now) else None
  }

  lemma {:induction false} PlainIsPending(h: History, state: string)
    requires state != ""
    ensures state in After(h, false) <==> Pending(h, state).Some?
    ensures state in After(h, false) ==> After(h, false)[state] == Pending(h, state).value + TTL
  {
    if h == [] {
    } else {
      PlainIsPending(Init(h), state);
    }
  }

  /** With a clock that does not go back, every claim is answered as if nothing were ever
      evicted: yes exactly if the token is not empty, was put, has not been claimed since, and
      its lifetime has not ended. */
  lemma {:induction false} EvictionIsInvisible(h: History, now: int, state: string)
    requires Ordered(h + [Claim(now, state)])
    ensures var asked := Claim(now, state);
      && Answer(After(h, true), asked) == Answer(After(h, false), asked)
      && (Answer(After(h, true), asked) <==>
            state != "" && Pending(h, state).Some? && now < Pending(h, state).value + TTL)
  {
    var all := h + [Claim(now, state)];
    assert forall i :: 0 <= i < |h| ==> all[i] == h[i];
    assert h != [] ==> all[|h| - 1].now <= all[|h|].now;
    EvictedHasExpired(h, now);
    if state != "" {
      PlainIsPending(h, state);
    }
  }

  function Puts(h: History, state: string): nat {
    if h == [] then 0 else Puts(Init(h), state) + (if Last(h).Put? && Last(h).state == state then 1 else 0)
  }

  /** Claims of state answered yes. */
  function Granted(h: History, state: string, evict: bool): nat {
    if h == [] then 0
    else Granted(Init(h), state, evict) + (if Last(h).state == state && Answer(After(Init(h), evict), Last(h)) then 1 else 0)
  }

  /** Whatever the clock does, a token is granted at most as often as it was put, and one put
      is still unspent while the token is in the table. */
  lemma {:induction false} SingleUse(h: History, state: string, evict: bool)
    ensures Granted(h, state, evict) + (if state in After(h, evict) then 1 else 0) <= Puts(h, state)
  {
    if h == [] {
    } else {
      SingleUse(Init(h), state, evict);
    }
  }

  /** A clock that goes back does show the eviction: a token dropped by somebody else's put
      is refused although its lifetime, by the claim's clock, has not ended. */
  lemma {:induction false} BackwardClockShows(a: string, b: string)
    requires a != "" && a != b
    ensures var h, asked := [Put(0, a), Put(TTL + 1, b)], Claim(1, a);
            Answer(After(h, false), asked) && !Answer(After(h, true), asked)
  {
    var h := [Put(0, a), Put(TTL + 1, b)];
    assert Init(h) == [Put(0, a)] && Init([Put(0, a)]) == [];
    assert After(Init(h), true) == Step(map[], Put(0, a), true);
    assert After(Init(h), false) == Step(map[], Put(0, a), false);
    assert After(h, true) == Step(After(Init(h), true), Put(TTL + 1, b), true);
    assert After(h, false) == Step(After(Init(h), false), Put(TTL + 1, b), false);
  }

  class OAuthStates {
    var entries: Table

    constructor ()
      ensures entries == After([], true)
    {
      entries := map[];
    }

    method Put(now: int, state: string)
      modifies this
      ensures entries == Step(old(entries), Op.Put(now, state), true)
      ensures state in entries && entries[state] == now + 600_000_000_000
      ensures forall k :: k != state ==>
        ((k in entries <==> k in old(entries) && now <= old(entries)[k]) && (k in entries ==> entries[k] == old(entries)[k]))
    {
      var todo := entries.Keys;
      while todo != {}
        invariant todo <= old(entries).Keys
        invariant forall k :: k in entries <==> k in old(entries) && (k in todo || now <= old(entries)[k])
        invariant forall k :: k in entries ==> entries[k] == old(entries)[k]
        decreases todo
      {
        var k :| k in todo;
        todo := todo - {k};
        if now > entries[k] {
          entries := entries - {k};
        }
      }
      assert entries == Evict(old(entries), now);
      entries := entries[state := now + TTL];
    }

    method Claim(now: int, state: string) returns (ok: bool)
      modifies this
      ensures ok == Answer(old(entries), Op.Claim(now, state))
      ensures entries == Step(old(entries), Op.Claim(now, state), true)
      ensures ok <==> state != "" && state in old(entries) && now < old(entries)[state]
      ensures entries == if state == "" then old(entries) else old(entries) - {state}
    {
      if state == "" {
        return false;
      }
      if state !in entries {
        assert entries - {state} == entries;
        return false;
      }
      var exp := entries[state];
      entries := entries - {state};
      ok := now < exp;
    }
  }
}
