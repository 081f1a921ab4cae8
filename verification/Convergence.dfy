/** Convergence without webhooks: one replay, drained, and one stale sweep settle every job. */
module Convergence {
  import opened Store
  import opened Dispatch
  import StaleSweep

  /** GitHub says the job is over: completed, or not found. */
  predicate Over(live: Live) {
    live.NotFound? || (live.Found? && live.status == "completed")
  }

  /** No call of this dispatch fails, its clock is not before the replay's, and GitHub says the
      job is over: completed at the first read, or not found at both. */
  ghost predicate Settling(env: Env, t0: int) {
    forall pc :: var r := env.reply(pc);
      && !r.err && !r.aborted && env.clock(pc) >= t0
      && (pc.Verify? || pc.Confirm? ==> Over(r.live))
      && (pc.Confirm? ==> r.live.NotFound?)
  }

  /** The row is past the replay age, and past the no-installation age if it is unmapped. */
  predicate Ripe(db: Db, id: JobId, t0: int) {
    id in db.jobs && Open(db.jobs[id]) ==>
      && (db.jobs[id].status.Dispatched? ==> db.jobs[id].updatedAt < Stamp(t0) - DISPATCHED_REPLAY_AGE)
      && (db.jobs[id].repo !in db.repos ==> t0 - db.jobs[id].receivedAt >= NO_INSTALLATION_CANCEL_AGE)
  }

  /** Rows of `done` that were open are completed; nothing else changed. */
  ghost predicate Settled(db: Db, db': Db, done: seq<JobId>) {
    && db'.jobs.Keys == db.jobs.Keys && db'.runners == db.runners && db'.repos == db.repos
    && forall x :: x in db.jobs ==>
         if x in done && Open(db.jobs[x]) then db'.jobs[x].status.Completed? else db'.jobs[x] == db.jobs[x]
  }

  /** From the GitHub read on: the row is closed and nothing is launched. */
  lemma {:induction false} VerifySettles(cfg: Config, t: Ticket, o: Outcome, env: Env, t0: int)
    requires Settling(env, t0)
    requires t.id in o.db.jobs && Open(o.db.jobs[t.id])
    ensures var o' := Drive(cfg, Verify(t), o, env.clock, env.reply);
            Settled(o.db, o'.db, [t.id]) && o'.runs == o.runs && o'.requeue == o.requeue
  {
    var live := env.reply(Verify(t)).live;
    Unroll(cfg, Verify(t), o, env);
    if live.NotFound? {
      Unroll(cfg, Confirm(t), o, env);
      CancelSettles(cfg, t.id, o, env, t0);
    } else {
      assert Over(live);
      Unroll(cfg, Complete(t.id, Verdict(live.conclusion)), o, env);
    }
  }

  lemma {:induction false} CancelSettles(cfg: Config, id: JobId, o: Outcome, env: Env, t0: int)
    requires Settling(env, t0)
    requires id in o.db.jobs && Open(o.db.jobs[id])
    ensures var o' := Drive(cfg, CancelRow(id), o, env.clock, env.reply);
            Settled(o.db, o'.db, [id]) && o'.runs == o.runs && o'.requeue == o.requeue
  {
    Unroll(cfg, CancelRow(id), o, env);
  }

  lemma {:induction false} TicketSettles(cfg: Config, t: Ticket, o: Outcome, env: Env, t0: int)
    requires Settling(env, t0) && t.id in o.db.jobs && Open(o.db.jobs[t.id])
    requires t.job.repo in o.db.repos || t0 - t.job.receivedAt >= NO_INSTALLATION_CANCEL_AGE
    ensures var o' := Drive(cfg, Locate(t), o, env.clock, env.reply);
            Settled(o.db, o'.db, [t.id]) && o'.runs == o.runs && o'.requeue == o.requeue
  {
    Unroll(cfg, Locate(t), o, env);
    if t.job.repo in o.db.repos {
      Unroll(cfg, Mint(t), o, env);
      VerifySettles(cfg, t, o, env, t0);
    } else {
      UnmappedSettles(cfg, t, o, env, t0);
    }
  }

  lemma {:induction false} UnmappedSettles(cfg: Config, t: Ticket, o: Outcome, env: Env, t0: int)
    requires Settling(env, t0) && t.id in o.db.jobs && Open(o.db.jobs[t.id])
    requires t0 - t.job.receivedAt >= NO_INSTALLATION_CANCEL_AGE
    ensures var o' := Drive(cfg, Unmapped(t), o, env.clock, env.reply);
            Settled(o.db, o'.db, [t.id]) && o'.runs == o.runs && o'.requeue == o.requeue
  {
    Unroll(cfg, Unmapped(t), o, env);
    CancelSettles(cfg, t.id, o, env, t0);
  }

  lemma {:induction false} DispatchSettles(cfg: Config, db: Db, id: JobId, env: Env, t0: int)
    requires Settling(env, t0) && |Active(db)| < cfg.maxRunners && Ripe(db, id, t0)
    ensures var o := Drive(cfg, Load(id), Outcome(db, None, []), env.clock, env.reply);
            Settled(db, o.db, [id]) && o.runs == [] && o.requeue == None
  {
    var o := Outcome(db, None, []);
    Unroll(cfg, Load(id), o, env);
    if id in db.jobs && Open(db.jobs[id]) {
      StampBounds(t0, t0);
      var t := Ticket(id, db.jobs[id], env.clock(Age(id, db.jobs[id])));
      Unroll(cfg, Age(id, db.jobs[id]), o, env);
      Unroll(cfg, Count(t), o, env);
      TicketSettles(cfg, t, o, env, t0);
    }
  }

  lemma {:induction false} DrainSettles(cfg: Config, db: Db, q: seq<JobId>, envs: seq<Env>, t0: int)
    requires |q| == |envs| && |Active(db)| < cfg.maxRunners
    requires forall env :: env in envs ==> Settling(env, t0)
    requires forall id :: id in db.jobs ==> Ripe(db, id, t0)
    ensures var (db', runs) := Drain(cfg, db, q, envs); Settled(db, db', q) && runs == []
    decreases |q|
  {
    if q == [] {
    } else {
      DispatchSettles(cfg, db, q[0], envs[0], t0);
      var db1 := Drive(cfg, Load(q[0]), Outcome(db, None, []), envs[0].clock, envs[0].reply).db;
      assert Active(db1) == Active(db);
      forall id | id in db1.jobs ensures Ripe(db1, id, t0) {
        assert Ripe(db, id, t0);
      }
      DrainSettles(cfg, db1, q[1..], envs[1..], t0);
      assert forall x :: x in q <==> x == q[0] || x in q[1..];
    }
  }

  /** The rows a replay must see are exactly the open ones, once they are ripe. */
  lemma {:induction false} RipeIsPending(db: Db, t0: int)
    requires forall id :: id in db.jobs ==> Ripe(db, id, t0)
    ensures forall id :: id in PendingSet(db, t0) <==> id in db.jobs && Open(db.jobs[id])
  {
  }

  /** The replay's cutoff and the dispatch's own age guard agree to within a second, on the safe
      side: what the replay lists, pending or dispatched, no later dispatch finds too young. */
  lemma {:induction false} CutoffImpliesAge(cfg: Config, db: Db, id: JobId, t0: int, env: Env)
    requires id in db.jobs
    ensures var job := db.jobs[id];
      && (job.status == Pending ==> id in PendingSet(db, t0))
      && (job.status == Dispatched && t0 - job.updatedAt >= 301_000_000_000 ==> id in PendingSet(db, t0))
      && (job.status == Dispatched && t0 - job.updatedAt <= 300_000_000_000 ==> id !in PendingSet(db, t0))
      && (job.status == InProgress || job.status == Completed ==> id !in PendingSet(db, t0))
      && (id in PendingSet(db, t0) && !env.reply(Load(id)).err && env.clock(Age(id, job)) >= t0 ==>
            var o := Outcome(db, None, []);
            Drive(cfg, Load(id), o, env.clock, env.reply) ==
            Drive(cfg, Count(Ticket(id, job, env.clock(Age(id, job)))), o, env.clock, env.reply))
  {
    StampBounds(t0, t0);
    var o := Outcome(db, None, []);
    if id in PendingSet(db, t0) && !env.reply(Load(id)).err {
      Unroll(cfg, Load(id), o, env);
      Unroll(cfg, Age(id, db.jobs[id]), o, env);
    }
  }

  /** The stale sweep is on and no call of it fails; in_progress rows fit one listing and are
      all stale and mapped; and GitHub says each of them is over. */
  ghost predicate Overdue(db: Db, env: StaleSweep.Env, maxLifetime: int) {
    && StaleSweep.Runs(env, maxLifetime)
    && |StaleSweep.Running(db)| <= StaleSweep.LIST_LIMIT
    && forall id :: id in StaleSweep.Running(db) ==>
         StaleSweep.Asked(db, id, env, maxLifetime) && !env.markFails(id) && Over(env.live(id))
  }

  /** Under the limit, the listing is complete. */
  lemma {:induction false} AllListed(db: Db, ids: seq<JobId>)
    requires StaleSweep.Listing(db, ids) && |StaleSweep.Running(db)| <= StaleSweep.LIST_LIMIT
    ensures forall id :: id in StaleSweep.Running(db) ==> id in ids
  {
    var listed := set id | id in ids;
    ListsSize(ids, listed);
    if id :| id in StaleSweep.Running(db) && id !in ids {
      forall x | x in listed + {id} ensures x in StaleSweep.Running(db) {
      }
      SubsetSize(listed + {id}, StaleSweep.Running(db));
      assert false;
    }
  }

  /** Take any tables in which active runners are below the cap and every open row is ripe.
      Replay (with room in the queue for its rows), dispatch everything queued, then run the
      stale sweep, while GitHub says every job is over and no call fails. Then every job row is
      completed, no container was started, and the runner table is as it was. */
  lemma {:induction false} Converges(cfg: Config, db: Db, q: seq<JobId>, ids: seq<JobId>, envs: seq<Env>, t0: int,
                                     staleIds: seq<JobId>, env: StaleSweep.Env, maxLifetime: int)
    requires |Active(db)| < cfg.maxRunners && forall id :: id in db.jobs ==> Ripe(db, id, t0)
    requires Lists(ids, PendingSet(db, t0)) && |q| + |ids| <= QUEUE_CAPACITY
    requires |envs| == |SendAll(q, ids)| && forall e :: e in envs ==> Settling(e, t0)
    requires Overdue(db, env, maxLifetime)
    requires StaleSweep.Listing(Drain(cfg, db, SendAll(q, ids), envs).0, staleIds)
    ensures var (mid, runs) := Drain(cfg, db, SendAll(q, ids), envs);
            var last := StaleSweep.AfterSweep(mid, staleIds, env, maxLifetime);
      && runs == [] && last.runners == db.runners && last.jobs.Keys == db.jobs.Keys
      && forall id :: id in last.jobs ==> last.jobs[id].status.Completed?
  {
    var queue := SendAll(q, ids);
    SendAllPrefix(q, ids);
    assert ids[..|ids|] == ids;
    assert queue == q + ids;
    DrainSettles(cfg, db, queue, envs, t0);
    var mid := Drain(cfg, db, queue, envs).0;
    RipeIsPending(db, t0);
    assert Settled(db, mid, queue);
    assert forall x :: x in StaleSweep.Running(mid) <==> x in StaleSweep.Running(db);
    assert StaleSweep.Running(mid) == StaleSweep.Running(db);
    AllListed(mid, staleIds);
    forall id | id in db.jobs
      ensures id in StaleSweep.Swept(mid, mid, staleIds, env, maxLifetime).jobs
      ensures StaleSweep.Swept(mid, mid, staleIds, env, maxLifetime).jobs[id].status.Completed?
    {
      assert Open(db.jobs[id]) ==> id in queue;
      assert id in StaleSweep.Running(db) ==> StaleSweep.Asked(db, id, env, maxLifetime) && mid.jobs[id] == db.jobs[id];
      StaleSweep.SweptRows(mid, mid, staleIds, env, maxLifetime, id);
    }
    StaleSweep.SweptFrame(mid, mid, staleIds, env, maxLifetime);
  }
}
