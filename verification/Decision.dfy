/** When exactly a dispatch starts a container, and what else it leaves behind. */
module Decision {
  import opened Store
  import opened Dispatch

  /** The row is owed a dispatch and the pool has room for it. */
  predicate Due(cfg: Config, db: Db, id: JobId, env: Env) {
    && id in db.jobs && Open(db.jobs[id]) && !env.reply(Load(id)).err
    && (var job := db.jobs[id];
        var at := env.clock(Age(id, job));
        var t := Ticket(id, job, at);
        && (job.status.Dispatched? ==> at - job.updatedAt >= DISPATCHED_REPLAY_AGE)
        && !env.reply(Count(t)).err && |Active(db)| < cfg.maxRunners)
  }

  function TicketFor(db: Db, id: JobId, env: Env): Ticket
    requires id in db.jobs
  {
    Ticket(id, db.jobs[id], env.clock(Age(id, db.jobs[id])))
  }

  /** GitHub's two answers let the launch go ahead: no definite answer, a queued job, or a
      not-found that the second read did not repeat, WHATEVER else the second read said. */
  predicate GoAhead(first: Live, second: Reply) {
    || first.LiveErr?
    || (first.Found? && first.status == "queued")
    || (first.NotFound? && !second.aborted && (second.live.LiveErr? || second.live.Found?))
  }

  /** The repository is mapped, a token was minted, and a fresh runner row went in. */
  predicate Placed(db: Db, t: Ticket, env: Env) {
    && !env.reply(Locate(t)).err && t.job.repo in db.repos && !env.reply(Mint(t)).err
    && !env.reply(Insert(t)).err && env.reply(Insert(t)).name !in db.runners
  }

  predicate Starts(cfg: Config, db: Db, id: JobId, env: Env) {
    Due(cfg, db, id, env) &&
    var t := TicketFor(db, id, env);
    Placed(db, t, env) && GoAhead(env.reply(Verify(t)).live, env.reply(Confirm(t)))
  }

  lemma {:induction false} Attempted(cfg: Config, t: Ticket, name: string, env: Env, k: nat) returns (n: nat)
    requires 1 <= k <= MaxAttempts(cfg)
    requires forall i :: 1 <= i < k ==> env.reply(Observe(t, name, i)).err && !env.reply(Pause(t, name, i)).aborted
    ensures Launched(cfg, t, name, env.reply, n)
    decreases MaxAttempts(cfg) - k
  {
    if !env.reply(Observe(t, name, k)).err || k == MaxAttempts(cfg) || env.reply(Pause(t, name, k)).aborted {
      n := k;
    } else {
      n := Attempted(cfg, t, name, env, k + 1);
    }
  }

  /** The tables with the new runner row in. */
  function Inserted(db: Db, t: Ticket, env: Env): Db {
    Exec(db, env.clock(Insert(t)), InsertRunner(env.reply(Insert(t)).name, t.job.repo, t.job.labels, env.clock(Insert(t))))
  }

  /** A launch in full: one new row, n docker runs under its name, then the row is finished
      or the job is marked. */
  lemma {:induction false} InsertOutcome(cfg: Config, t: Ticket, db: Db, env: Env) returns (n: nat)
    requires !env.reply(Insert(t)).err && env.reply(Insert(t)).name !in db.runners
    ensures var name := env.reply(Insert(t)).name;
      && Launched(cfg, t, name, env.reply, n)
      && Drive(cfg, Insert(t), Outcome(db, None, []), env.clock, env.reply) ==
         Settle(cfg, t, name, env.reply(Observe(t, name, n)).err,
                Outcome(Inserted(db, t, env), None, Repeat(name, n)), env.clock, env.reply)
  {
    var name := env.reply(Insert(t)).name;
    var o := Outcome(Inserted(db, t, env), None, []);
    InsertGoes(cfg, t, db, env);
    n := Attempted(cfg, t, name, env, 1);
    LaunchLoop(cfg, t, name, 1, n, o, env.clock, env.reply);
    assert o.runs + Repeat(name, n) == Repeat(name, n);
  }

  lemma {:induction false} InsertGoes(cfg: Config, t: Ticket, db: Db, env: Env)
    requires !env.reply(Insert(t)).err && env.reply(Insert(t)).name !in db.runners
    ensures Drive(cfg, Insert(t), Outcome(db, None, []), env.clock, env.reply) ==
            Drive(cfg, Launch(t, env.reply(Insert(t)).name, 1), Outcome(Inserted(db, t, env), None, []), env.clock, env.reply)
  {
    Unroll(cfg, Insert(t), Outcome(db, None, []), env);
  }

  /** A dispatch that never reached its launch touched at most its own job row. */
  predicate JobOnly(db: Db, o: Outcome, id: JobId) {
    && o.runs == [] && o.db.runners == db.runners && o.db.repos == db.repos && o.db.installs == db.installs
    && o.db.jobs.Keys == db.jobs.Keys
    && (forall x :: x in db.jobs && x != id ==> o.db.jobs[x] == db.jobs[x])
    && (id in db.jobs && o.db.jobs[id] != db.jobs[id] ==> Open(db.jobs[id]) && o.db.jobs[id].status.Completed?)
  }

  lemma {:induction false} CancelOutcome(cfg: Config, id: JobId, db: Db, env: Env)
    requires id in db.jobs && Open(db.jobs[id])
    ensures JobOnly(db, Drive(cfg, CancelRow(id), Outcome(db, None, []), env.clock, env.reply), id)
  {
    Unroll(cfg, CancelRow(id), Outcome(db, None, []), env);
  }

  /** From the GitHub read on: either the launch goes ahead on unchanged tables, or nothing
      but the job row moved. */
  lemma {:induction false} VerifyOutcome(cfg: Config, t: Ticket, db: Db, env: Env)
    requires t.id in db.jobs && Open(db.jobs[t.id])
    ensures var o, done := Outcome(db, None, []), Drive(cfg, Verify(t), Outcome(db, None, []), env.clock, env.reply);
            if GoAhead(env.reply(Verify(t)).live, env.reply(Confirm(t)))
            then done == Drive(cfg, Insert(t), o, env.clock, env.reply) else JobOnly(db, done, t.id)
  {
    var o, live := Outcome(db, None, []), env.reply(Verify(t)).live;
    Unroll(cfg, Verify(t), o, env);
    if live.NotFound? {
      Unroll(cfg, Confirm(t), o, env);
      CancelOutcome(cfg, t.id, db, env);
    } else if live.Found? && live.status == "completed" {
      Unroll(cfg, Complete(t.id, Verdict(live.conclusion)), o, env);
    }
  }

  lemma {:induction false} TicketOutcome(cfg: Config, t: Ticket, db: Db, env: Env)
    requires t.id in db.jobs && Open(db.jobs[t.id])
    ensures var o, done := Outcome(db, None, []), Drive(cfg, Locate(t), Outcome(db, None, []), env.clock, env.reply);
            if Placed(db, t, env) && GoAhead(env.reply(Verify(t)).live, env.reply(Confirm(t)))
            then done == Drive(cfg, Insert(t), o, env.clock, env.reply) else JobOnly(db, done, t.id)
  {
    Unroll(cfg, Locate(t), Outcome(db, None, []), env);
    if !env.reply(Locate(t)).err {
      if t.job.repo in db.repos {
        MintOutcome(cfg, t, db, env);
      } else {
        Unroll(cfg, Unmapped(t), Outcome(db, None, []), env);
        CancelOutcome(cfg, t.id, db, env);
      }
    }
  }

  lemma {:induction false} MintOutcome(cfg: Config, t: Ticket, db: Db, env: Env)
    requires t.id in db.jobs && Open(db.jobs[t.id]) && t.job.repo in db.repos && !env.reply(Locate(t)).err
    ensures var o, done := Outcome(db, None, []), Drive(cfg, Mint(t), Outcome(db, None, []), env.clock, env.reply);
            if Placed(db, t, env) && GoAhead(env.reply(Verify(t)).live, env.reply(Confirm(t)))
            then done == Drive(cfg, Insert(t), o, env.clock, env.reply) else JobOnly(db, done, t.id)
  {
    var o := Outcome(db, None, []);
    Unroll(cfg, Mint(t), o, env);
    if !env.reply(Mint(t)).err {
      VerifyOutcome(cfg, t, db, env);
      if !Placed(db, t, env) {
        Unroll(cfg, Insert(t), o, env);
      }
    }
  }

  lemma {:induction false} LoadOutcome(cfg: Config, db: Db, id: JobId, env: Env)
    ensures var o, done := Outcome(db, None, []), Drive(cfg, Load(id), Outcome(db, None, []), env.clock, env.reply);
            if Due(cfg, db, id, env) then done == Drive(cfg, Locate(TicketFor(db, id, env)), o, env.clock, env.reply)
            else JobOnly(db, done, id) && done.db == db
  {
    var o := Outcome(db, None, []);
    Unroll(cfg, Load(id), o, env);
    if !env.reply(Load(id)).err && id in db.jobs && Open(db.jobs[id]) {
      Unroll(cfg, Age(id, db.jobs[id]), o, env);
      Unroll(cfg, Count(TicketFor(db, id, env)), o, env);
    }
  }

  lemma {:induction false} RepeatIs(name: string, n: nat)
    ensures |Repeat(name, n)| == n && forall r :: r in Repeat(name, n) ==> r == name
  {
    if n == 0 {
    } else {
      RepeatIs(name, n - 1);
    }
  }

  /** What a launch leaves: one more row, 1..launchRetryMax runs under its name, every other
      row as it was, and job rows as they were unless the row is still starting and the mark
      went through. */
  ghost predicate LaunchLeaves(cfg: Config, db: Db, t: Ticket, name: string, o: Outcome) {
    && 1 <= |o.runs| <= MaxAttempts(cfg) && (forall r :: r in o.runs ==> r == name)
    && name !in db.runners && o.db.runners.Keys == db.runners.Keys + {name}
    && (forall x :: x in db.runners ==> o.db.runners[x] == db.runners[x])
    && (o.db.runners[name].status.Starting? || o.db.runners[name].status.Finished?)
    && o.db.jobs.Keys == db.jobs.Keys
    && (forall x :: x in db.jobs && (x != t.id || o.db.runners[name].status.Finished?) ==> o.db.jobs[x] == db.jobs[x])
    && (t.id in db.jobs && o.db.jobs[t.id] != db.jobs[t.id] ==> o.db.jobs[t.id].status.Dispatched?)
  }

  lemma {:induction false} SettleLeaves(cfg: Config, db: Db, t: Ticket, name: string, n: nat, failed: bool, env: Env)
    requires name == env.reply(Insert(t)).name && name !in db.runners && 1 <= n <= MaxAttempts(cfg)
    ensures var o := Outcome(Inserted(db, t, env), None, Repeat(name, n));
            LaunchLeaves(cfg, db, t, name, Settle(cfg, t, name, failed, o, env.clock, env.reply))
  {
    RepeatIs(name, n);
  }

  /** A dispatch run alone starts containers exactly when `Starts` says so, and then leaves what
      a launch leaves; otherwise no table but its own job row changes, and that only from open
      to completed. */
  lemma {:induction false} StartsExactlyWhen(cfg: Config, db: Db, id: JobId, env: Env)
    ensures var done := Drive(cfg, Load(id), Outcome(db, None, []), env.clock, env.reply);
      && (done.runs != [] <==> Starts(cfg, db, id, env))
      && (done.runs == [] ==> JobOnly(db, done, id))
      && (done.runs != [] ==> LaunchLeaves(cfg, db, TicketFor(db, id, env), done.runs[0], done))
  {
    LoadOutcome(cfg, db, id, env);
    if Due(cfg, db, id, env) {
      var t := TicketFor(db, id, env);
      TicketOutcome(cfg, t, db, env);
      if Starts(cfg, db, id, env) {
        var n := InsertOutcome(cfg, t, db, env);
        var name := env.reply(Insert(t)).name;
        SettleLeaves(cfg, db, t, name, n, env.reply(Observe(t, name, n)).err, env);
        var done := Drive(cfg, Load(id), Outcome(db, None, []), env.clock, env.reply);
        assert LaunchLeaves(cfg, db, t, name, done);
        assert done.runs[0] in done.runs;
      }
    }
  }

  // ---------------- what exactly is left ----------------

  lemma {:induction false} NeverRequeues(cfg: Config, pc: Pc, o: Outcome, env: Env)
    requires !pc.Load? && !pc.Age? && !pc.Count?
    ensures Drive(cfg, pc, o, env.clock, env.reply).requeue == o.requeue
    decreases Phase(pc), AttemptsLeft(cfg, pc), Tail(cfg, pc)
  {
    if pc.Ended? {
    } else {
      var m := Step(cfg, pc, o.db, env.clock(pc), env.reply(pc));
      NeverRequeues(cfg, m.next, Apply(o, m, env.clock(pc)), env);
    }
  }

  /** A dispatch arms its re-enqueue timer exactly at the cap: the row is open, a dispatched one
      is at least five minutes old, both store reads answered, and as many rows are active as
      the cap allows. It then changes nothing and starts nothing. */
  lemma {:induction false} RequeuedExactlyWhen(cfg: Config, db: Db, id: JobId, env: Env)
    ensures var done := Drive(cfg, Load(id), Outcome(db, None, []), env.clock, env.reply);
      && (done.requeue == Some(id) <==>
            && id in db.jobs && (db.jobs[id].status == Pending || db.jobs[id].status == Dispatched)
            && !env.reply(Load(id)).err
            && (db.jobs[id].status == Dispatched ==> env.clock(Age(id, db.jobs[id])) - db.jobs[id].updatedAt >= 300_000_000_000)
            && !env.reply(Count(TicketFor(db, id, env))).err
            && |Active(db)| >= cfg.maxRunners)
      && (done.requeue.Some? ==> done.requeue == Some(id) && done.db == db && done.runs == [])
  {
    var o := Outcome(db, None, []);
    Unroll(cfg, Load(id), o, env);
    if !env.reply(Load(id)).err && id in db.jobs && Open(db.jobs[id]) {
      var t := TicketFor(db, id, env);
      Unroll(cfg, Age(id, db.jobs[id]), o, env);
      Unroll(cfg, Count(t), o, env);
      NeverRequeues(cfg, Locate(t), o, env);
    }
  }

  /** The conclusion, and when it is written, that a due dispatch reaches without launching. */
  function Closing(db: Db, t: Ticket, env: Env): Option<(string, int)> {
    var first, second := env.reply(Verify(t)).live, env.reply(Confirm(t));
    var cancel := if env.reply(CancelRow(t.id)).err then None else Some(("cancelled", env.clock(CancelRow(t.id))));
    if env.reply(Locate(t)).err then None
    else if t.job.repo !in db.repos then
      if env.clock(Unmapped(t)) - t.job.receivedAt >= 60_000_000_000 then cancel else None
    else if env.reply(Mint(t)).err then None
    else if first.NotFound? then
      if !second.aborted && (second.live.NotFound? || second.live.AuthFailed?) then cancel else None
    else if first.Found? && first.status == "completed" then
      var c := if first.conclusion == "" then "cancelled" else first.conclusion;
      if env.reply(Complete(t.id, c)).err then None else Some((c, env.clock(Complete(t.id, c))))
    else None
  }

  function Written(job: Job, c: Option<(string, int)>): Job {
    if c.None? then job
    else job.(status := Completed, conclusion := c.value.0, updatedAt := c.value.1 - c.value.1 % 1_000_000_000)
  }

  /** A due dispatch that does not launch leaves its row as it was, or closed with the conclusion
      the case calls for: cancelled for a repository unmapped for a minute, or for a job GitHub
      does not know twice; GitHub's own conclusion, or cancelled for none, for a completed job. */
  lemma {:induction false} ClosesAs(cfg: Config, db: Db, id: JobId, env: Env)
    requires Due(cfg, db, id, env) && !Starts(cfg, db, id, env)
    ensures var done := Drive(cfg, Load(id), Outcome(db, None, []), env.clock, env.reply);
            id in done.db.jobs && done.db.jobs[id] == Written(db.jobs[id], Closing(db, TicketFor(db, id, env), env))
  {
    var o, t := Outcome(db, None, []), TicketFor(db, id, env);
    LoadOutcome(cfg, db, id, env);
    Unroll(cfg, Locate(t), o, env);
    if !env.reply(Locate(t)).err {
      if t.job.repo in db.repos {
        Unroll(cfg, Mint(t), o, env);
        if !env.reply(Mint(t)).err {
          VerifyCloses(cfg, t, db, env);
        }
      } else {
        Unroll(cfg, Unmapped(t), o, env);
        Unroll(cfg, CancelRow(id), o, env);
      }
    }
  }

  lemma {:induction false} VerifyCloses(cfg: Config, t: Ticket, db: Db, env: Env)
    requires t.id in db.jobs && Open(db.jobs[t.id]) && t.job.repo in db.repos
    requires !env.reply(Locate(t)).err && !env.reply(Mint(t)).err
    requires !(Placed(db, t, env) && GoAhead(env.reply(Verify(t)).live, env.reply(Confirm(t))))
    ensures var done := Drive(cfg, Verify(t), Outcome(db, None, []), env.clock, env.reply);
            t.id in done.db.jobs && done.db.jobs[t.id] == Written(db.jobs[t.id], Closing(db, t, env))
  {
    var live := env.reply(Verify(t)).live;
    if GoAhead(live, env.reply(Confirm(t))) {
      VerifyOutcome(cfg, t, db, env);
      Unroll(cfg, Insert(t), Outcome(db, None, []), env);
    } else if live.NotFound? {
      NotFoundCloses(cfg, t, db, env);
    } else {
      FoundCloses(cfg, t, db, env);
    }
  }

  lemma {:induction false} NotFoundCloses(cfg: Config, t: Ticket, db: Db, env: Env)
    requires t.id in db.jobs && Open(db.jobs[t.id]) && t.job.repo in db.repos
    requires !env.reply(Locate(t)).err && !env.reply(Mint(t)).err && env.reply(Verify(t)).live.NotFound?
    requires !GoAhead(NotFound, env.reply(Confirm(t)))
    ensures var done := Drive(cfg, Verify(t), Outcome(db, None, []), env.clock, env.reply);
            t.id in done.db.jobs && done.db.jobs[t.id] == Written(db.jobs[t.id], Closing(db, t, env))
  {
    var o := Outcome(db, None, []);
    Unroll(cfg, Verify(t), o, env);
    Unroll(cfg, Confirm(t), o, env);
    if !env.reply(Confirm(t)).aborted {
      Unroll(cfg, CancelRow(t.id), o, env);
    }
  }

  lemma {:induction false} FoundCloses(cfg: Config, t: Ticket, db: Db, env: Env)
    requires t.id in db.jobs && Open(db.jobs[t.id]) && t.job.repo in db.repos
    requires !env.reply(Locate(t)).err && !env.reply(Mint(t)).err
    requires var live := env.reply(Verify(t)).live; live.AuthFailed? || (live.Found? && live.status != "queued")
    ensures var done := Drive(cfg, Verify(t), Outcome(db, None, []), env.clock, env.reply);
            t.id in done.db.jobs && done.db.jobs[t.id] == Written(db.jobs[t.id], Closing(db, t, env))
  {
    var o, live := Outcome(db, None, []), env.reply(Verify(t)).live;
    Unroll(cfg, Verify(t), o, env);
    if live.Found? && live.status == "completed" {
      Unroll(cfg, Complete(t.id, if live.conclusion == "" then "cancelled" else live.conclusion), o, env);
    }
  }

  /** Attempts 1..k-1 failed and were waited out, and k succeeded, was the last allowed, or was
      followed by an aborted wait. */
  ghost predicate StopsAt(cfg: Config, t: Ticket, name: string, env: Env, k: nat) {
    && 1 <= k <= (if cfg.launchRetryMax < 1 then 1 else cfg.launchRetryMax)
    && (forall i :: 1 <= i < k ==> env.reply(Observe(t, name, i)).err && !env.reply(Pause(t, name, i)).aborted)
    && (|| !env.reply(Observe(t, name, k)).err || env.reply(Pause(t, name, k)).aborted
        || k == if cfg.launchRetryMax < 1 then 1 else cfg.launchRetryMax)
  }

  /** A launch whose attempts stop at k: exactly k runs; the new row carries the job's repository
      and labels and the insert's time, and is finished exactly if attempt k failed and that
      write went through; the job is marked dispatched exactly if it succeeded and that did. */
  lemma {:induction false} LaunchRecords(cfg: Config, db: Db, id: JobId, env: Env, k: nat)
    requires Starts(cfg, db, id, env)
    requires var t := TicketFor(db, id, env); StopsAt(cfg, t, env.reply(Insert(t)).name, env, k)
    ensures var t := TicketFor(db, id, env);
      var name, done := env.reply(Insert(t)).name, Drive(cfg, Load(id), Outcome(db, None, []), env.clock, env.reply);
      var failed := env.reply(Observe(t, name, k)).err;
      && |done.runs| == k && name in done.db.runners && id in done.db.jobs
      && (var row := done.db.runners[name];
          && row.repo == db.jobs[id].repo && row.labels == db.jobs[id].labels && row.runnerName == name
          && row.startedAt == env.clock(Insert(t))
          && row.status == if failed && !env.reply(Fail(name)).err then Finished else Starting)
      && done.db.jobs[id] == (if failed || env.reply(Mark(t)).err then db.jobs[id]
                              else db.jobs[id].(status := Dispatched,
                                                updatedAt := env.clock(Mark(t)) - env.clock(Mark(t)) % 1_000_000_000))
  {
    var t := TicketFor(db, id, env);
    var name := env.reply(Insert(t)).name;
    StopsIn(cfg, db, t, env, k);
    LoadOutcome(cfg, db, id, env);
    TicketOutcome(cfg, t, db, env);
    RepeatIs(name, k);
    SettleRecords(cfg, db, t, name, k, env.reply(Observe(t, name, k)).err, env);
  }

  lemma {:induction false} StopsIn(cfg: Config, db: Db, t: Ticket, env: Env, k: nat)
    requires !env.reply(Insert(t)).err && env.reply(Insert(t)).name !in db.runners
    requires StopsAt(cfg, t, env.reply(Insert(t)).name, env, k)
    ensures var name := env.reply(Insert(t)).name;
            Drive(cfg, Insert(t), Outcome(db, None, []), env.clock, env.reply) ==
            Settle(cfg, t, name, env.reply(Observe(t, name, k)).err, Outcome(Inserted(db, t, env), None, Repeat(name, k)),
                   env.clock, env.reply)
  {
    var name := env.reply(Insert(t)).name;
    var placed := Outcome(Inserted(db, t, env), None, []);
    InsertGoes(cfg, t, db, env);
    LaunchLoop(cfg, t, name, 1, k, placed, env.clock, env.reply);
    assert placed.runs + Repeat(name, k) == Repeat(name, k);
  }

  lemma {:induction false} SettleRecords(cfg: Config, db: Db, t: Ticket, name: string, k: nat, failed: bool, env: Env)
    requires name == env.reply(Insert(t)).name && name !in db.runners && t.id in db.jobs && Open(db.jobs[t.id])
    ensures var o := Outcome(Inserted(db, t, env), None, Repeat(name, k));
            var done := Settle(cfg, t, name, failed, o, env.clock, env.reply);
      && done.runs == Repeat(name, k) && name in done.db.runners && t.id in done.db.jobs
      && (var row := done.db.runners[name];
          && row.repo == t.job.repo && row.labels == t.job.labels && row.runnerName == name
          && row.startedAt == env.clock(Insert(t))
          && row.status == if failed && !env.reply(Fail(name)).err then Finished else Starting)
      && done.db.jobs[t.id] == (if failed || env.reply(Mark(t)).err then db.jobs[t.id]
                                else db.jobs[t.id].(status := Dispatched,
                                                    updatedAt := env.clock(Mark(t)) - env.clock(Mark(t)) % 1_000_000_000))
  {
  }

  // ---------------- after an admin retry ----------------

  /** An applied retry leaves a row that needs no age: it is owed to every replay from then on,
      whatever its clock, and its dispatch starts a container as soon as the reads answer, the cap
      has room, and the repository, the token, the row insert and GitHub's answers allow it. */
  lemma {:induction false} RetriedStartsAtOnce(cfg: Config, db: Db, id: JobId, now: int, later: int, env: Env)
    requires id in db.jobs && db.jobs[id].status == Completed
    ensures var db' := Exec(db, now, Retry(id));
      && id in db'.jobs && id in Owed(db', later)
      && (var t := TicketFor(db', id, env);
          && !env.reply(Load(id)).err && !env.reply(Count(t)).err && |Active(db')| < cfg.maxRunners
          && Placed(db', t, env) && GoAhead(env.reply(Verify(t)).live, env.reply(Confirm(t))) ==>
            Drive(cfg, Load(id), Outcome(db', None, []), env.clock, env.reply).runs != [])
  {
    var db' := Exec(db, now, Retry(id));
    assert id in PendingSet(db', later);
    StartsExactlyWhen(cfg, db', id, env);
  }

  /** The second read is not held to the first one's rule: once a 404 is not repeated, a job
      GitHub now calls completed is launched all the same. */
  lemma {:induction false} CompletedJobIsLaunched(cfg: Config, db: Db, id: JobId, env: Env, conclusion: string)
    requires Due(cfg, db, id, env) && Placed(db, TicketFor(db, id, env), env)
    requires env.reply(Verify(TicketFor(db, id, env))).live == NotFound
    requires !env.reply(Confirm(TicketFor(db, id, env))).aborted
    requires env.reply(Confirm(TicketFor(db, id, env))).live == Found("completed", conclusion)
    ensures Drive(cfg, Load(id), Outcome(db, None, []), env.clock, env.reply).runs != []
  {
    StartsExactlyWhen(cfg, db, id, env);
  }

  // ---------------- in the worker loop ----------------

  /** A round in which nothing is cancelled and the select picks the queue. */
  function Takes(fired: seq<JobId>, arrivals: seq<JobId>, env: Env): Round {
    Round(fired, arrivals, false, Pick.Job(env), false)
  }

  lemma {:induction false} TakesHead(cfg: Config, l: Loop, r: Round, id: JobId)
    requires !l.returned && Waited(l, r).queue != [] && Waited(l, r).queue[0] == id && r.pick.Job? && !r.cancelled && !r.cancelledAfter
    ensures var w, o := Waited(l, r), Drive(cfg, Load(id), Outcome(l.db, None, []), r.pick.env.clock, r.pick.env.reply);
            Picked(cfg, w, r) == Loop(o.db, w.queue[1..], if o.requeue.Some? then w.timers + multiset{o.requeue.value} else w.timers,
                                      l.runs + o.runs, l.late, false)
  {
  }

  /** A job that arrives at an idle loop is dispatched; if that dispatch meets the cap, the job
      is dispatched again once its timer fires, on the tables as they are then. */
  lemma {:induction false} CapRetries(cfg: Config, l: Loop, id: JobId, env: Env, again: Env)
    requires !l.returned && l.queue == []
    requires Drive(cfg, Load(id), Outcome(l.db, None, []), env.clock, env.reply).requeue == Some(id)
    ensures var o := Drive(cfg, Load(id), Outcome(l.db, None, []), again.clock, again.reply);
            Session(cfg, l, [Takes([], [id], env), Takes([id], [], again)]) ==
            l.(db := o.db, runs := l.runs + o.runs, timers := if o.requeue.Some? then l.timers + multiset{id} else l.timers)
  {
    var first, second := Takes([], [id], env), Takes([id], [], again);
    RequeuedExactlyWhen(cfg, l.db, id, env);
    RequeuedExactlyWhen(cfg, l.db, id, again);
    assert [first, second][1..] == [second] && [second][1..] == [];
    assert [id][1..] == [] && Send([], id) == [] + [id] == [id];
    assert SendAll([], [id]) == SendAll([id], []) == [id];
    assert Waited(l, first) == l.(queue := [id]);
    TakesHead(cfg, l, first, id);
    var l1 := Picked(cfg, Waited(l, first), first);
    assert l1 == l.(timers := l.timers + multiset{id});
    FiresOnce(l1, id, second);
    assert l1.timers - multiset{id} == l.timers;
    assert Waited(l1, second) == l.(queue := [id]);
    TakesHead(cfg, l1, second, id);
    var l2 := Picked(cfg, Waited(l1, second), second);
    assert Session(cfg, l2, []) == l2;
    assert Session(cfg, l1, [second]) == l2;
    assert Session(cfg, l, [first, second]) == l2;
  }

  lemma {:induction false} FiresOnce(l: Loop, id: JobId, r: Round)
    requires l.queue == [] && id in l.timers && r.fired == [id] && r.arrivals == [] && !r.cancelled
    ensures Waited(l, r) == l.(queue := [id], timers := l.timers - multiset{id})
  {
    assert [id][1..] == [] && Send([], id) == [] + [id] == [id];
    assert FireAll(l.timers, [], [id], false) == FireAll(l.timers - multiset{id}, [id], [], false);
  }

  /** As many rounds that take the queue as it holds, nothing else happening. */
  function Takings(envs: seq<Env>): seq<Round> {
    seq(|envs|, i requires 0 <= i < |envs| => Takes([], [], envs[i]))
  }

  /** Draining the queue is what the loop does in such rounds. */
  lemma {:induction false} DrainIsSession(cfg: Config, l: Loop, envs: seq<Env>)
    requires !l.returned && |envs| == |l.queue|
    ensures var l', drained := Session(cfg, l, Takings(envs)), Drain(cfg, l.db, l.queue, envs);
            l'.db == drained.0 && l'.runs == l.runs + drained.1 && l'.queue == [] && l'.late == l.late && !l'.returned
    decreases |l.queue|
  {
    if l.queue == [] {
    } else {
      var r, o := Takes([], [], envs[0]), Drive(cfg, Load(l.queue[0]), Outcome(l.db, None, []), envs[0].clock, envs[0].reply);
      assert Takings(envs)[1..] == Takings(envs[1..]);
      assert Waited(l, r) == l;
      TakesHead(cfg, l, r, l.queue[0]);
      var l1 := Picked(cfg, l, r);
      DrainIsSession(cfg, l1, envs[1..]);
      var rest := Drain(cfg, o.db, l.queue[1..], envs[1..]);
      assert (l.runs + o.runs) + rest.1 == l.runs + (o.runs + rest.1);
    }
  }

  /** A replay round followed by rounds that take the queue dispatches the rows owed work, each
      once, in the query's order. */
  lemma {:induction false} TickerReplays(cfg: Config, l: Loop, now: int, envs: seq<Env>)
    requires !l.returned && l.queue == [] && |envs| == |Owed(l.db, now)| <= 256
    ensures var l' := Session(cfg, l, [Round([], [], false, Ticker(now, false), false)] + Takings(envs));
            var drained := Drain(cfg, l.db, Owed(l.db, now), envs);
            l'.db == drained.0 && l'.runs == l.runs + drained.1 && l'.queue == [] && !l'.returned
  {
    var ids, r := Owed(l.db, now), Round([], [], false, Ticker(now, false), false);
    SendAllPrefix([], ids);
    assert [] + ids[..|ids|] == ids;
    assert Waited(l, r) == l;
    assert ([r] + Takings(envs))[1..] == Takings(envs);
    DrainIsSession(cfg, l.(queue := ids), envs);
  }
}
