/** The sweep over in_progress jobs whose completed webhook never came. */
module StaleSweep {
  import opened Store
  import opened Dispatch

  const LIST_LIMIT: nat := 500

  /** What the calls of one sweep answer. A mint's result depends on the installation, a
      GitHub read's and a store write's on the job. */
  datatype Env = Env(now: int, listErr: bool, reposErr: bool, appErr: bool,
                     mintFails: int -> bool, live: JobId -> Live,
                     markFails: JobId -> bool, writeClock: JobId -> int)

  /** ORDER BY updated_at DESC, id DESC */
  predicate Before(db: Db, a: JobId, b: JobId)
    requires a in db.jobs && b in db.jobs
  {
    db.jobs[a].updatedAt > db.jobs[b].updatedAt || (db.jobs[a].updatedAt == db.jobs[b].updatedAt && a > b)
  }

  function Running(db: Db): set<JobId> {
    set id | id in db.jobs && db.jobs[id].status.InProgress?
  }

  /** ids answers ListJobs(in_progress, LIMIT 500): the first rows in that order, no others. */
  ghost predicate Listing(db: Db, ids: seq<JobId>) {
    && |ids| <= LIST_LIMIT && NoDup(ids)
    && (forall id :: id in ids ==> id in Running(db))
    && (forall i, j :: 0 <= i < j < |ids| && ids[i] in db.jobs && ids[j] in db.jobs ==> Before(db, ids[i], ids[j]))
    && (forall id :: id in Running(db) && id !in ids ==>
          |ids| == LIST_LIMIT && forall x :: x in ids && x in db.jobs ==> Before(db, x, id))
  }

  /** A non-empty terminal conclusion, or None to leave the row alone. */
  function Conclusion(live: Live): (c: Option<string>)
    ensures c.Some? ==> c.value != ""
    ensures c.None? <==> live.LiveErr? || (live.Found? && live.status != "completed")
  {
    match live
    case LiveErr => None
    case NotFound => Some("cancelled")
    case AuthFailed => Some("cancelled")
    case Found(status, conclusion) =>
      if status != "completed" then None else if conclusion == "" then Some("neutral") else Some(conclusion)
  }

  predicate Stale(db: Db, id: JobId, now: int, maxLifetime: int) {
    id in db.jobs && now - db.jobs[id].updatedAt >= maxLifetime
  }

  /** Stale, and its repository belongs to an installation. */
  predicate Mapped(db: Db, id: JobId, now: int, maxLifetime: int) {
    Stale(db, id, now, maxLifetime) && db.jobs[id].repo in db.repos
  }

  /** The rows GitHub is asked about: stale, mapped, and their installation's mint succeeded. */
  predicate Asked(db: Db, id: JobId, env: Env, maxLifetime: int) {
    Mapped(db, id, env.now, maxLifetime) && !env.mintFails(db.repos[db.jobs[id].repo])
  }

  /** What the sweep does to one listed row; db0 is the database when the rows were listed. */
  function SweptOne(db0: Db, db: Db, id: JobId, env: Env, maxLifetime: int): Db {
    if Asked(db0, id, env, maxLifetime) && !env.markFails(id) && Conclusion(env.live(id)).Some?
    then Exec(db, env.writeClock(id), MarkCompleted(id, Conclusion(env.live(id)).value))
    else db
  }

  function Swept(db0: Db, db: Db, ids: seq<JobId>, env: Env, maxLifetime: int): Db
    decreases |ids|
  {
    if ids == [] then db else Swept(db0, SweptOne(db0, db, ids[0], env, maxLifetime), ids[1..], env, maxLifetime)
  }

  /** The calls the sweep makes before it turns to single rows, and its switch. */
  predicate Runs(env: Env, maxLifetime: int) {
    maxLifetime > 0 && !env.listErr && !env.reposErr && !env.appErr
  }

  /** The tables after one sweep whose listing is ids. */
  function AfterSweep(db: Db, ids: seq<JobId>, env: Env, maxLifetime: int): Db {
    if Runs(env, maxLifetime) then Swept(db, db, ids, env, maxLifetime) else db
  }

  lemma {:induction false} SweptFrame(db0: Db, db: Db, ids: seq<JobId>, env: Env, maxLifetime: int)
    ensures var d := Swept(db0, db, ids, env, maxLifetime);
            d.jobs.Keys == db.jobs.Keys && d.runners == db.runners && d.repos == db.repos
    decreases |ids|
  {
    if ids == [] {
    } else {
      SweptFrame(db0, SweptOne(db0, db, ids[0], env, maxLifetime), ids[1..], env, maxLifetime);
    }
  }

  /** The sweep writes exactly the rows GitHub settles, each once, each with a non-empty
      conclusion, and leaves everything else alone. */
  lemma {:induction false} SweptRows(db0: Db, db: Db, ids: seq<JobId>, env: Env, maxLifetime: int, id: JobId)
    requires NoDup(ids) && db.jobs.Keys == db0.jobs.Keys
    requires id in db.jobs
    requires forall x :: x in ids && x in db.jobs ==> db.jobs[x].status.InProgress?
    ensures var d := Swept(db0, db, ids, env, maxLifetime);
      && id in d.jobs
      && (var settled := id in ids && Asked(db0, id, env, maxLifetime) && !env.markFails(id) && Conclusion(env.live(id)).Some?;
          d.jobs[id] == if settled then Close(db.jobs[id], Conclusion(env.live(id)).value, env.writeClock(id)) else db.jobs[id])
    decreases |ids|
  {
    if ids == [] {
    } else {
      var head, rest := ids[0], ids[1..];
      var db' := SweptOne(db0, db, head, env, maxLifetime);
      forall x | x in rest ensures x in ids && x != head {
        var i :| 0 <= i < |rest| && rest[i] == x;
        assert ids[i + 1] == x;
      }
      SweptRows(db0, db', rest, env, maxLifetime, id);
      assert id in ids <==> id == head || id in rest;
    }
  }

  /** A sweep leaves row `id` exactly as it was unless it is listed, at least `maxLifetime` old,
      mapped, its token minted, its write possible, and GitHub's answer final; then it is closed
      with GitHub's own conclusion, with "neutral" if GitHub names none, or with "cancelled" if
      GitHub does not know the job or refuses. A running row is not listed only if 500 newer are. */
  lemma {:induction false} SweepVerdict(db: Db, ids: seq<JobId>, env: Env, maxLifetime: int, id: JobId)
    requires Listing(db, ids) && id in db.jobs
    ensures var d, job, live := AfterSweep(db, ids, env, maxLifetime), db.jobs[id], env.live(id);
      var due := && maxLifetime > 0 && !env.listErr && !env.reposErr && !env.appErr && id in ids
                 && env.now - job.updatedAt >= maxLifetime && job.repo in db.repos
                 && !env.mintFails(db.repos[job.repo]) && !env.markFails(id);
      var closed := (c: string) => job.(status := Completed, conclusion := c,
                                        updatedAt := env.writeClock(id) - env.writeClock(id) % 1_000_000_000);
      && id in d.jobs
      && (due && (live == NotFound || live == AuthFailed) ==> d.jobs[id] == closed("cancelled"))
      && (due && live == Found("completed", "") ==> d.jobs[id] == closed("neutral"))
      && (forall c :: c != "" && due && live == Found("completed", c) ==> d.jobs[id] == closed(c))
      && (!due || live == LiveErr || (live.Found? && live.status != "completed") ==> d.jobs[id] == job)
      && (job.status == InProgress && id !in ids ==>
            |ids| == 500 && forall x :: x in ids && x in db.jobs ==>
              db.jobs[x].updatedAt > job.updatedAt || (db.jobs[x].updatedAt == job.updatedAt && x > id))
  {
    if Runs(env, maxLifetime) {
      assert forall x :: x in ids && x in db.jobs ==> x in Running(db);
      SweptRows(db, db, ids, env, maxLifetime, id);
    }
  }

  /** Installations some mapped stale row of ids belongs to. */
  function Needed(db: Db, ids: seq<JobId>, now: int, maxLifetime: int): set<int> {
    set id | id in ids && Mapped(db, id, now, maxLifetime) :: db.repos[db.jobs[id].repo]
  }

  function StaleOnly(db: Db, ids: seq<JobId>, now: int, maxLifetime: int): seq<JobId> {
    if ids == [] then []
    else (if Stale(db, ids[0], now, maxLifetime) then [ids[0]] else []) + StaleOnly(db, ids[1..], now, maxLifetime)
  }

  lemma {:induction false} StaleRows(db: Db, ids: seq<JobId>, now: int, maxLifetime: int)
    requires NoDup(ids)
    ensures NoDup(StaleOnly(db, ids, now, maxLifetime))
    ensures forall id :: id in StaleOnly(db, ids, now, maxLifetime) <==> id in ids && Stale(db, id, now, maxLifetime)
  {
    if ids == [] {
    } else {
      var head, rest := ids[0], ids[1..];
      StaleRows(db, rest, now, maxLifetime);
      assert forall i :: 0 <= i < |rest| ==> rest[i] == ids[i + 1];
      assert head !in rest;
      assert forall x :: x in ids <==> x == head || x in rest;
      var tail := StaleOnly(db, rest, now, maxLifetime);
      assert forall i :: 0 <= i < |tail| ==> tail[i] in tail;
    }
  }

  /** Filtering first changes nothing: rows that are not stale are never acted on. */
  lemma {:induction false} FilterFirst(db0: Db, db: Db, ids: seq<JobId>, env: Env, maxLifetime: int)
    ensures Swept(db0, db, StaleOnly(db0, ids, env.now, maxLifetime), env, maxLifetime) == Swept(db0, db, ids, env, maxLifetime)
    decreases |ids|
  {
    if ids == [] {
    } else {
      FilterFirst(db0, SweptOne(db0, db, ids[0], env, maxLifetime), ids[1..], env, maxLifetime);
      var tail := StaleOnly(db0, ids[1..], env.now, maxLifetime);
      assert ([ids[0]] + tail)[1..] == tail;
      assert [] + tail == tail;
    }
  }

  /** The row is completed with what GitHub's answer calls for. */
  predicate ClosedBy(live: Live, job: Job) {
    && job.status == Completed
    && match live
       case LiveErr => false
       case Found(status, c) => status == "completed" && job.conclusion == if c == "" then "neutral" else c
       case _ => job.conclusion == "cancelled"
  }

  class Sweeper {
    const maxLifetime: int
    const store: SQLite

    constructor (maxLifetime: int, store: SQLite)
      ensures this.maxLifetime == maxLifetime && this.store == store
    {
      this.maxLifetime, this.store := maxLifetime, store;
    }

    /** `ids` is what ListJobs answers. `mints` are the token-mint attempts made, by
        installation, and `asked` the jobs GitHub was asked about: no installation and no job
        twice, and exactly those that need it. */
    method SweepStaleInProgressJobs(ids: seq<JobId>, env: Env) returns (mints: seq<int>, asked: seq<JobId>)
      requires Listing(store.Value(), ids)
      modifies store
      ensures store.Value() == AfterSweep(old(store.Value()), ids, env, maxLifetime)
      ensures !Runs(env, maxLifetime) ==> mints == [] && asked == []
      ensures Runs(env, maxLifetime) ==>
        && Lists(mints, Needed(old(store.Value()), ids, env.now, maxLifetime))
        && Lists(asked, AskedSet(old(store.Value()), ids, env, maxLifetime))
      ensures store.jobs.Keys == old(store.jobs).Keys
      ensures forall id :: id in store.jobs && store.jobs[id] != old(store.jobs)[id] ==>
        id in ids && ClosedBy(env.live(id), store.jobs[id])
    {
      ghost var before := store.Value();
      SweptFrame(before, before, ids, env, maxLifetime);
      forall id | id in before.jobs
        ensures var d := AfterSweep(before, ids, env, maxLifetime);
                id in d.jobs && (d.jobs[id] == before.jobs[id] || (id in ids && ClosedBy(env.live(id), d.jobs[id])))
      {
        SweepVerdict(before, ids, env, maxLifetime, id);
      }
      mints, asked := [], [];
      if maxLifetime <= 0 || env.listErr {
        return;
      }
      var stale := SelectStale(ids, env.now);
      StaleRows(store.Value(), ids, env.now, maxLifetime);
      FilterFirst(store.Value(), store.Value(), ids, env, maxLifetime);
      if stale == [] {
        return;
      }
      if env.reposErr || env.appErr {
        return;
      }
      mints, asked := SweepRows(stale, env);
    }

    method SelectStale(ids: seq<JobId>, now: int) returns (stale: seq<JobId>)
      ensures stale == StaleOnly(store.Value(), ids, now, maxLifetime)
    {
      stale := [];
      assert ids[0..] == ids;
      var i := 0;
      while i < |ids|
        invariant 0 <= i <= |ids|
        invariant stale + StaleOnly(store.Value(), ids[i..], now, maxLifetime) == StaleOnly(store.Value(), ids, now, maxLifetime)
      {
        assert ids[i..][1..] == ids[i + 1..];
        if Stale(store.Value(), ids[i], now, maxLifetime) {
          stale := stale + [ids[i]];
        }
        i := i + 1;
      }
    }

    /** The GitHub read for one row, and the write its answer calls for. */
    method SettleRow(ghost db0: Db, id: JobId, env: Env)
      requires Asked(db0, id, env, maxLifetime)
      modifies store
      ensures store.Value() == SweptOne(db0, old(store.Value()), id, env, maxLifetime)
    {
      var c := Conclusion(env.live(id));
      if c.Some? && !env.markFails(id) {
        var _ := store.MarkJobCompleted(env.writeClock(id), id, c.value);
      }
    }

    method SweepRows(stale: seq<JobId>, env: Env) returns (mints: seq<int>, asked: seq<JobId>)
      requires NoDup(stale) && forall id :: id in stale ==> Stale(store.Value(), id, env.now, maxLifetime)
      modifies store
      ensures store.Value() == Swept(old(store.Value()), old(store.Value()), stale, env, maxLifetime)
      ensures Lists(mints, Needed(old(store.Value()), stale, env.now, maxLifetime))
      ensures Lists(asked, AskedSet(old(store.Value()), stale, env, maxLifetime))
    {
      mints, asked := [], [];
      var rows, repoToInstall := store.jobs, store.repos;
      ghost var db0 := store.Value();
      ghost var goal := Swept(db0, db0, stale, env, maxLifetime);
      assert stale[0..] == stale;
      var tokens: set<int>, failedInstalls: set<int> := {}, {};
      var i := 0;
      while i < |stale|
        invariant 0 <= i <= |stale|
        invariant goal == Swept(db0, store.Value(), stale[i..], env, maxLifetime)
        invariant Lists(mints, Needed(db0, stale[..i], env.now, maxLifetime))
        invariant tokens + failedInstalls == Needed(db0, stale[..i], env.now, maxLifetime)
        invariant MintsKnown(tokens, failedInstalls, env)
        invariant Lists(asked, AskedSet(db0, stale[..i], env, maxLifetime))
      {
        var id := stale[i];
        NextRow(db0, stale, i, env, maxLifetime);
        i := i + 1;
        if rows[id].repo !in repoToInstall {
          continue;
        }
        var inst := repoToInstall[rows[id].repo];
        var minted, ok;
        minted, ok, tokens, failedInstalls := TokenFor(inst, tokens, failedInstalls, env);
        ListsMore(mints, Needed(db0, stale[..i - 1], env.now, maxLifetime), inst);
        mints := mints + minted;
        if !ok {
          continue;
        }
        ListsMore(asked, AskedSet(db0, stale[..i - 1], env, maxLifetime), id);
        asked := asked + [id];
        SettleRow(db0, id, env);
      }
      assert stale[..i] == stale;
    }

    /** An installation's cached token, or one mint attempt, remembered whichever way it goes. */
    method TokenFor(inst: int, tokens: set<int>, failedInstalls: set<int>, env: Env)
      returns (minted: seq<int>, ok: bool, tokens': set<int>, failedInstalls': set<int>)
      requires MintsKnown(tokens, failedInstalls, env)
      ensures minted == if inst in tokens + failedInstalls then [] else [inst]
      ensures ok == !env.mintFails(inst) && MintsKnown(tokens', failedInstalls', env)
      ensures tokens' + failedInstalls' == tokens + failedInstalls + {inst}
    {
      minted, tokens', failedInstalls' := [], tokens, failedInstalls;
      if inst in failedInstalls {
        return minted, false, tokens', failedInstalls';
      }
      if inst !in tokens {
        minted := [inst];
        if env.mintFails(inst) {
          return minted, false, tokens', failedInstalls + {inst};
        }
        tokens' := tokens + {inst};
      }
      ok := true;
    }
  }

  ghost predicate MintsKnown(tokens: set<int>, failedInstalls: set<int>, env: Env) {
    (forall m :: m in tokens ==> !env.mintFails(m)) && forall m :: m in failedInstalls ==> env.mintFails(m)
  }

  function AskedSet(db: Db, ids: seq<JobId>, env: Env, maxLifetime: int): set<JobId> {
    set id | id in ids && Asked(db, id, env, maxLifetime)
  }

  lemma {:induction false} ListsMore(xs: seq<int>, s: set<int>, x: int)
    requires Lists(xs, s)
    ensures x !in s ==> Lists(xs + [x], s + {x})
    ensures x in s ==> Lists(xs + [], s + {x})
  {
    if x !in s {
      assert forall i :: 0 <= i < |xs| ==> xs[i] in xs;
    } else {
      assert xs + [] == xs && s + {x} == s;
    }
  }

  lemma {:induction false} NextRow(db: Db, stale: seq<JobId>, i: nat, env: Env, maxLifetime: int)
    requires i < |stale| && NoDup(stale) && Stale(db, stale[i], env.now, maxLifetime)
    ensures stale[i] in stale && stale[i] !in stale[..i] && stale[i..][0] == stale[i] && stale[i..][1..] == stale[i + 1..]
    ensures forall x :: x in stale[..i + 1] <==> x in stale[..i] || x == stale[i]
    ensures Needed(db, stale[..i + 1], env.now, maxLifetime) ==
            Needed(db, stale[..i], env.now, maxLifetime) +
            (if db.jobs[stale[i]].repo in db.repos then {db.repos[db.jobs[stale[i]].repo]} else {})
    ensures stale[i] !in AskedSet(db, stale[..i], env, maxLifetime)
    ensures AskedSet(db, stale[..i + 1], env, maxLifetime) ==
            AskedSet(db, stale[..i], env, maxLifetime) + (if Asked(db, stale[i], env, maxLifetime) then {stale[i]} else {})
  {
    assert stale[..i + 1] == stale[..i] + [stale[i]];
  }
}
