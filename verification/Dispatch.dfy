/** The scheduler: its bounded queue, and one dispatch as a machine of atomic sub-steps.

    `Step` says what each sub-step of a dispatch does to the store and where it goes next,
    given the reply of whatever it called. The interleaved model runs `Step` between steps
    of other components; `Drive` runs it to the end with nobody else around. The imperative
    `Scheduler.DispatchWithContext` follows the original statement by statement and is
    proved equal to `Drive`. */
module Dispatch {
  import opened Store

  const QUEUE_CAPACITY: nat := 256
  const NO_INSTALLATION_CANCEL_AGE: int := 60 * SECOND

  datatype Config = Config(maxRunners: int, launchRetryMax: int, launchRetryBackoff: int)

  /** GitHub's answer for a workflow job. AuthFailed carries an empty status. */
  datatype Live = LiveErr | NotFound | AuthFailed | Found(status: string, conclusion: string)

  /** What the environment answers at one sub-step: did the call fail, what did GitHub say,
      was the context cancelled while waiting, which name was minted. */
  datatype Reply = Reply(err: bool, live: Live, aborted: bool, name: string)

  /** The job as dispatch read it, and when its age was checked. */
  datatype Ticket = Ticket(id: JobId, job: Job, checkedAt: int)

  datatype Pc =
    | Load(id: JobId)
    | Age(id: JobId, job: Job)
    | Count(t: Ticket)
    | Locate(t: Ticket)
    | Unmapped(t: Ticket)
    | CancelRow(id: JobId)
    | Mint(t: Ticket)
    | Verify(t: Ticket)
    | Confirm(t: Ticket)
    | Complete(id: JobId, conclusion: string)
    | Insert(t: Ticket)
    | Launch(t: Ticket, name: string, attempt: nat)
    | Observe(t: Ticket, name: string, attempt: nat)
    | Pause(t: Ticket, name: string, attempt: nat)
    | Fail(name: string)
    | Mark(t: Ticket)
    | Ended

  function TicketOf(pc: Pc): Option<Ticket> {
    match pc
    case Count(t) => Some(t)
    case Locate(t) => Some(t)
    case Unmapped(t) => Some(t)
    case Mint(t) => Some(t)
    case Verify(t) => Some(t)
    case Confirm(t) => Some(t)
    case Insert(t) => Some(t)
    case Launch(t, _, _) => Some(t)
    case Observe(t, _, _) => Some(t)
    case Pause(t, _, _) => Some(t)
    case Mark(t) => Some(t)
    case _ => None
  }

  /** One sub-step: the statement run, the job re-enqueued by a timer, and the
      container name handed to `docker run`. */
  datatype Move = Move(next: Pc, stmt: Option<Stmt>, requeue: Option<JobId>, run: Option<string>)

  function Go(next: Pc): Move {
    Move(next, None, None, None)
  }

  function Do(next: Pc, st: Stmt): Move {
    Move(next, Some(st), None, None)
  }

  function MaxAttempts(cfg: Config): nat {
    if cfg.launchRetryMax < 1 then 1 else cfg.launchRetryMax
  }

  function Verdict(conclusion: string): string {
    if conclusion == "" then "cancelled" else conclusion
  }

  function Step(cfg: Config, pc: Pc, db: Db, now: int, r: Reply): Move {
    match pc
    case Load(id) => LoadStep(id, db, r)
    case Age(id, job) => AgeStep(id, job, now)
    case Count(t) => CountStep(cfg, t, db, r)
    case Locate(t) => LocateStep(t, db, r)
    case Unmapped(t) =>
      if now - t.job.receivedAt < NO_INSTALLATION_CANCEL_AGE then Go(Ended) else Go(CancelRow(t.id))
    case CancelRow(id) => if r.err then Go(Ended) else Do(Ended, CancelIfPending(id))
    case Mint(t) => if r.err then Go(Ended) else Go(Verify(t))
    case Verify(t) => Go(VerifyStep(t, r.live))
    case Confirm(t) =>
      if r.aborted then Go(Ended)
      else if r.live.NotFound? || r.live.AuthFailed? then Go(CancelRow(t.id))
      else Go(Insert(t))
    case Complete(id, conclusion) => if r.err then Go(Ended) else Do(Ended, MarkCompleted(id, conclusion))
    case Insert(t) => InsertStep(t, db, now, r)
    case Launch(t, name, k) => Move(Observe(t, name, k), None, None, Some(name))
    case Observe(t, name, k) => Go(ObserveStep(cfg, t, name, k, r.err))
    case Pause(t, name, k) => if r.aborted then Go(Fail(name)) else Go(Launch(t, name, k + 1))
    case Fail(name) => if r.err then Go(Ended) else Do(Ended, SetRunner(name, Finished))
    case Mark(t) => if r.err then Go(Ended) else Do(Ended, MarkDispatched(t.id))
    case Ended => Go(Ended)
  }

  function LoadStep(id: JobId, db: Db, r: Reply): Move {
    if r.err || id !in db.jobs || !Open(db.jobs[id]) then Go(Ended) else Go(Age(id, db.jobs[id]))
  }

  function AgeStep(id: JobId, job: Job, now: int): Move {
    if job.status.Dispatched? && now - job.updatedAt < DISPATCHED_REPLAY_AGE then Go(Ended)
    else Go(Count(Ticket(id, job, now)))
  }

  function CountStep(cfg: Config, t: Ticket, db: Db, r: Reply): Move {
    if r.err then Go(Ended)
    else if |Active(db)| >= cfg.maxRunners then Move(Ended, None, Some(t.id), None)
    else Go(Locate(t))
  }

  function LocateStep(t: Ticket, db: Db, r: Reply): Move {
    if r.err then Go(Ended) else if t.job.repo in db.repos then Go(Mint(t)) else Go(Unmapped(t))
  }

  function VerifyStep(t: Ticket, live: Live): Pc {
    match live
    case LiveErr => Insert(t)
    case NotFound => Confirm(t)
    case AuthFailed => Ended
    case Found(status, conclusion) =>
      if status == "completed" then Complete(t.id, Verdict(conclusion))
      else if status != "queued" then Ended
      else Insert(t)
  }

  function InsertStep(t: Ticket, db: Db, now: int, r: Reply): Move {
    if r.err || r.name in db.runners then Go(Ended)
    else Do(Launch(t, r.name, 1), InsertRunner(r.name, t.job.repo, t.job.labels, now))
  }

  function ObserveStep(cfg: Config, t: Ticket, name: string, k: nat, failed: bool): Pc {
    if !failed then Mark(t) else if k >= MaxAttempts(cfg) then Fail(name) else Pause(t, name, k)
  }

  // ---------------- one dispatch, run alone ----------------

  datatype Outcome = Outcome(db: Db, requeue: Option<JobId>, runs: seq<string>)

  function Apply(o: Outcome, m: Move, now: int): Outcome {
    Outcome(ExecOpt(o.db, now, m.stmt),
            if m.requeue.Some? then m.requeue else o.requeue,
            if m.run.Some? then o.runs + [m.run.value] else o.runs)
  }

  function Attempts(cfg: Config, k: nat): nat {
    if k < MaxAttempts(cfg) then MaxAttempts(cfg) - k else 0
  }

  function Phase(pc: Pc): nat {
    match pc
    case Load(_) => 9
    case Age(_, _) => 8
    case Count(_) => 7
    case Locate(_) => 6
    case Mint(_) => 5
    case Verify(_) => 4
    case Confirm(_) => 3
    case Unmapped(_) => 2
    case Insert(_) => 2
    case Launch(_, _, _) => 1
    case Observe(_, _, _) => 1
    case Pause(_, _, _) => 1
    case Ended => 0
    case _ => 1
  }

  function AttemptsLeft(cfg: Config, pc: Pc): nat {
    match pc
    case Launch(_, _, k) => Attempts(cfg, k)
    case Observe(_, _, k) => Attempts(cfg, k)
    case Pause(_, _, k) => Attempts(cfg, k)
    case _ => 0
  }

  function Tail(cfg: Config, pc: Pc): nat {
    match pc
    case Launch(_, _, _) => 3
    case Observe(_, _, _) => 2
    case Pause(_, _, k) => if Attempts(cfg, k) == 0 then 4 else 1
    case _ => 0
  }

  /** Runs sub-steps until the dispatch ends. Every sub-step has its own clock reading and
      its own reply, so `clock` and `reply` describe an arbitrary environment. */
  function Drive(cfg: Config, pc: Pc, o: Outcome, clock: Pc -> int, reply: Pc -> Reply): Outcome
    decreases Phase(pc), AttemptsLeft(cfg, pc), Tail(cfg, pc)
  {
    if pc.Ended? then o
    else
      var m := Step(cfg, pc, o.db, clock(pc), reply(pc));
      Drive(cfg, m.next, Apply(o, m, clock(pc)), clock, reply)
  }

  /** One dispatch's environment: a clock reading and a reply for every sub-step. */
  datatype Env = Env(clock: Pc -> int, reply: Pc -> Reply)

  lemma {:induction false} Unroll(cfg: Config, pc: Pc, o: Outcome, env: Env)
    requires !pc.Ended?
    ensures var m := Step(cfg, pc, o.db, env.clock(pc), env.reply(pc));
            Drive(cfg, pc, o, env.clock, env.reply) == Drive(cfg, m.next, Apply(o, m, env.clock(pc)), env.clock, env.reply)
  {
  }

  /** The retry loop makes exactly n attempts: all but the last failed and were followed by a
      full sleep; the last succeeded, exhausted the limit, or was followed by an aborted one. */
  ghost predicate Launched(cfg: Config, t: Ticket, name: string, reply: Pc -> Reply, n: nat) {
    && 1 <= n <= MaxAttempts(cfg)
    && (forall k :: 1 <= k < n ==> reply(Observe(t, name, k)).err && !reply(Pause(t, name, k)).aborted)
    && (!reply(Observe(t, name, n)).err || n == MaxAttempts(cfg) || reply(Pause(t, name, n)).aborted)
  }

  function Repeat(name: string, n: nat): seq<string> {
    if n == 0 then [] else [name] + Repeat(name, n - 1)
  }

  lemma {:induction false} AttemptFails(cfg: Config, t: Ticket, name: string, k: nat, o: Outcome, clock: Pc -> int, reply: Pc -> Reply)
    requires 1 <= k < MaxAttempts(cfg) && reply(Observe(t, name, k)).err && !reply(Pause(t, name, k)).aborted
    ensures Drive(cfg, Launch(t, name, k), o, clock, reply) ==
            Drive(cfg, Launch(t, name, k + 1), o.(runs := o.runs + [name]), clock, reply)
  {
    var tried := o.(runs := o.runs + [name]);
    var goal := Drive(cfg, Launch(t, name, k), o, clock, reply);
    assert goal == Drive(cfg, Observe(t, name, k), tried, clock, reply);
    assert goal == Drive(cfg, Pause(t, name, k), tried, clock, reply);
  }

  lemma {:induction false} LastAttempt(cfg: Config, t: Ticket, name: string, n: nat, o: Outcome, clock: Pc -> int, reply: Pc -> Reply)
    requires Launched(cfg, t, name, reply, n)
    ensures Drive(cfg, Launch(t, name, n), o, clock, reply) ==
            Settle(cfg, t, name, reply(Observe(t, name, n)).err, o.(runs := o.runs + [name]), clock, reply)
  {
    var tried := o.(runs := o.runs + [name]);
    var goal := Drive(cfg, Launch(t, name, n), o, clock, reply);
    assert goal == Drive(cfg, Observe(t, name, n), tried, clock, reply);
    if reply(Observe(t, name, n)).err {
      if n < MaxAttempts(cfg) {
        assert goal == Drive(cfg, Pause(t, name, n), tried, clock, reply);
      }
      assert goal == Drive(cfg, Fail(name), tried, clock, reply);
      assert goal == Drive(cfg, Ended, Settle(cfg, t, name, true, tried, clock, reply), clock, reply);
    } else {
      assert goal == Drive(cfg, Mark(t), tried, clock, reply);
      assert goal == Drive(cfg, Ended, Settle(cfg, t, name, false, tried, clock, reply), clock, reply);
    }
  }

  /** After the launch loop: finish the row on failure, mark the job dispatched on success. */
  function Settle(cfg: Config, t: Ticket, name: string, failed: bool, o: Outcome, clock: Pc -> int, reply: Pc -> Reply): Outcome {
    if failed then
      if reply(Fail(name)).err then o else o.(db := Exec(o.db, clock(Fail(name)), SetRunner(name, Finished)))
    else
      if reply(Mark(t)).err then o else o.(db := Exec(o.db, clock(Mark(t)), MarkDispatched(t.id)))
  }

  lemma {:induction false} RepeatHead(runs: seq<string>, name: string, n: nat)
    ensures runs + [name] + Repeat(name, n) == runs + Repeat(name, n + 1)
  {
  }

  /** The machine's launch sub-steps from attempt k on are that loop. */
  lemma {:induction false} LaunchLoop(cfg: Config, t: Ticket, name: string, k: nat, n: nat, o: Outcome,
                                      clock: Pc -> int, reply: Pc -> Reply)
    requires Launched(cfg, t, name, reply, n) && 1 <= k <= n
    ensures Drive(cfg, Launch(t, name, k), o, clock, reply) ==
            Settle(cfg, t, name, reply(Observe(t, name, n)).err,
                   o.(runs := o.runs + Repeat(name, n - k + 1)), clock, reply)
    decreases n - k
  {
    if k < n {
      var tried := o.(runs := o.runs + [name]);
      AttemptFails(cfg, t, name, k, o, clock, reply);
      LaunchLoop(cfg, t, name, k + 1, n, tried, clock, reply);
      RepeatHead(o.runs, name, n - k);
    } else {
      LastAttempt(cfg, t, name, n, o, clock, reply);
      assert Repeat(name, 1) == [name] + Repeat(name, 0) == [name];
    }
  }

  function Pow2(n: nat): nat {
    if n == 0 then 1 else 2 * Pow2(n - 1)
  }

  /** The wait doubles: over a + b attempts it grows as over a, and then as over b. */
  lemma {:induction false} Pow2Doubles(a: nat, b: nat)
    ensures Pow2(0) == 1 && Pow2(1) == 2 && Pow2(a + b) == Pow2(a) * Pow2(b)
  {
    if a == 0 {
    } else {
      Pow2Doubles(a - 1, b);
    }
  }

  /** The queue's dispatches one after another; `runs` collects every docker run. */
  function Drain(cfg: Config, db: Db, q: seq<JobId>, envs: seq<Env>): (Db, seq<string>)
    requires |q| == |envs|
    decreases |q|
  {
    if q == [] then (db, [])
    else
      var o := Drive(cfg, Load(q[0]), Outcome(db, None, []), envs[0].clock, envs[0].reply);
      var rest := Drain(cfg, o.db, q[1..], envs[1..]);
      (rest.0, o.runs + rest.1)
  }

  // ---------------- the bounded queue ----------------

  /** A non-blocking send: dropped when the channel is full. */
  function Send(q: seq<JobId>, id: JobId): seq<JobId> {
    if |q| < QUEUE_CAPACITY then q + [id] else q
  }

  function SendAll(q: seq<JobId>, ids: seq<JobId>): seq<JobId>
    decreases |ids|
  {
    if ids == [] then q else SendAll(Send(q, ids[0]), ids[1..])
  }

  /** A replay keeps what was queued and appends as long a prefix of its rows as fits. */
  lemma {:induction false} SendAllPrefix(q: seq<JobId>, ids: seq<JobId>)
    requires |q| <= QUEUE_CAPACITY
    ensures var room := QUEUE_CAPACITY - |q|;
            SendAll(q, ids) == q + ids[..if |ids| <= room then |ids| else room]
    decreases |ids|
  {
    if ids == [] {
      assert q + [] == q;
    } else {
      SendAllPrefix(Send(q, ids[0]), ids[1..]);
      if |q| < QUEUE_CAPACITY {
        var room := QUEUE_CAPACITY - |q|;
        var n := if |ids| <= room then |ids| else room;
        assert ids[..n] == [ids[0]] + ids[1..][..n - 1];
      }
    }
  }

  /** A replay queues row i of its answer exactly if the queue has room for rows 0..i; so when
      it overflows, the rows it drops are newer than all those it kept. */
  lemma {:induction false} ReplayKeepsOldest(jobs: map<JobId, Job>, q: seq<JobId>, ids: seq<JobId>, i: nat, j: nat)
    requires |q| <= QUEUE_CAPACITY && SortedBy(Older(jobs), ids) && i < |ids| && j < |ids|
    ensures |q| + i < |SendAll(q, ids)| <==> |q| + i < QUEUE_CAPACITY
    ensures |q| + i < |SendAll(q, ids)| ==> SendAll(q, ids)[|q| + i] == ids[i]
    ensures |q| + i < |SendAll(q, ids)| <= |q| + j ==> Older(jobs)(ids[i], ids[j])
  {
    SendAllPrefix(q, ids);
  }

  // ---------------- the worker loop ----------------

  /** What a select picks: cancellation, the queue's head with the environment of its
      dispatch, or the replay ticker with the clock and the fate of the replay's query. */
  datatype Pick = Done | Job(env: Env) | Ticker(now: int, err: bool)

  /** One turn of the loop: re-enqueue timers that fire and ids other goroutines enqueue while
      the worker waits, whether the run context is cancelled by the time it picks, what it
      picks, and whether the context is cancelled once a dispatch has returned. */
  datatype Round = Round(fired: seq<JobId>, arrivals: seq<JobId>, cancelled: bool, pick: Pick, cancelledAfter: bool)

  /** `late` counts dispatches begun although the context was already cancelled. */
  datatype Loop = Loop(db: Db, queue: seq<JobId>, timers: multiset<JobId>, runs: seq<string>, late: nat, returned: bool)

  /** A timer that was stopped or has fired does nothing; a callback that sees the context
      cancelled does not enqueue. */
  function FireAll(timers: multiset<JobId>, q: seq<JobId>, fired: seq<JobId>, cancelled: bool): (multiset<JobId>, seq<JobId>)
    decreases |fired|
  {
    if fired == [] then (timers, q)
    else FireAll(timers - multiset{fired[0]}, if cancelled || fired[0] !in timers then q else Send(q, fired[0]),
                 fired[1..], cancelled)
  }

  function Waited(l: Loop, r: Round): Loop {
    var (timers, q) := FireAll(l.timers, l.queue, r.fired, r.cancelled);
    l.(timers := timers, queue := SendAll(q, r.arrivals))
  }

  function Return(l: Loop): Loop {
    l.(timers := multiset{}, returned := true)
  }

  /** One replay of the rows the store owes work at `now`. */
  ghost function Replayed(l: Loop, now: int, err: bool): Loop {
    if err then l else l.(queue := SendAll(l.queue, Owed(l.db, now)))
  }

  /** A pick that is not ready leaves the select blocked. */
  ghost function Picked(cfg: Config, l: Loop, r: Round): Loop {
    match r.pick
    case Done => if r.cancelled then Return(l) else l
    case Job(env) =>
      if l.queue == [] then l
      else
        var o := Drive(cfg, Load(l.queue[0]), Outcome(l.db, None, []), env.clock, env.reply);
        var l' := Loop(o.db, l.queue[1..], if o.requeue.Some? then l.timers + multiset{o.requeue.value} else l.timers,
                       l.runs + o.runs, l.late + (if r.cancelled then 1 else 0), false);
        if r.cancelledAfter then Return(l') else l'
    case Ticker(now, err) => Replayed(l, now, err)
  }

  ghost function Session(cfg: Config, l: Loop, rounds: seq<Round>): Loop
    decreases |rounds|
  {
    if rounds == [] || l.returned then l else Session(cfg, Picked(cfg, Waited(l, rounds[0]), rounds[0]), rounds[1..])
  }

  class Scheduler {
    const cfg: Config
    const store: SQLite
    var jobCh: seq<JobId>
    var pendingTimers: multiset<JobId>

    constructor (cfg: Config, store: SQLite)
      ensures this.cfg == cfg && this.store == store && jobCh == [] && pendingTimers == multiset{}
    {
      this.cfg, this.store := cfg, store;
      jobCh, pendingTimers := [], multiset{};
    }

    method Enqueue(id: JobId)
      modifies this`jobCh
      ensures jobCh == Send(old(jobCh), id)
      ensures jobCh == if |old(jobCh)| < 256 then old(jobCh) + [id] else old(jobCh)
    {
      if |jobCh| < QUEUE_CAPACITY {
        jobCh := jobCh + [id];
      }
    }

    /** Returns the rows the query answered, oldest first. */
    method Replay(now: int, err: bool) returns (ids: seq<JobId>)
      modifies this`jobCh
      ensures err ==> ids == [] && jobCh == old(jobCh)
      ensures !err ==> ids == Owed(store.Value(), now) && jobCh == SendAll(old(jobCh), ids)
    {
      ids := [];
      if err {
        return;
      }
      ids := store.PendingJobs(now);
      EnqueueAll(ids);
    }

    /** `attempts` docker runs were made and `slept` nanoseconds of backoff completed. */
    method LaunchWithRetry(t: Ticket, name: string, reply: Pc -> Reply)
      returns (ok: bool, attempts: nat, slept: int)
      ensures Launched(cfg, t, name, reply, attempts)
      ensures 1 <= attempts <= (if cfg.launchRetryMax < 1 then 1 else cfg.launchRetryMax)
      ensures forall k :: 1 <= k < attempts ==> reply(Observe(t, name, k)).err && !reply(Pause(t, name, k)).aborted
      ensures || ok || reply(Pause(t, name, attempts)).aborted
              || attempts == if cfg.launchRetryMax < 1 then 1 else cfg.launchRetryMax
      ensures ok <==> !reply(Observe(t, name, attempts)).err
      ensures slept == (if cfg.launchRetryBackoff > 0 then cfg.launchRetryBackoff else 0) * (Pow2(attempts - 1) - 1)
    {
      var maxAttempts := cfg.launchRetryMax;
      if maxAttempts < 1 {
        maxAttempts := 1;
      }
      var backoff := cfg.launchRetryBackoff;
      ghost var b := if backoff > 0 then backoff else 0;
      slept, attempts := 0, 0;
      while true
        invariant 0 <= attempts < maxAttempts
        invariant forall k :: 1 <= k <= attempts ==>
          reply(Observe(t, name, k)).err && !reply(Pause(t, name, k)).aborted
        invariant backoff > 0 ==> backoff == b * Pow2(attempts)
        invariant backoff <= 0 ==> b == 0
        invariant slept == b * (Pow2(attempts) - 1)
        decreases maxAttempts - attempts
      {
        attempts := attempts + 1;
        if !reply(Observe(t, name, attempts)).err {
          return true, attempts, slept;
        }
        if attempts == maxAttempts {
          break;
        }
        if reply(Pause(t, name, attempts)).aborted {
          return false, attempts, slept;
        }
        if backoff > 0 {
          slept := slept + backoff;
          backoff := backoff * 2;
        }
      }
      ok := false;
    }

    /** dispatchWithContext up to the GitHub calls, with nobody interleaved. `runs` lists the
        docker run commands issued. */
    method DispatchWithContext(id: JobId, clock: Pc -> int, reply: Pc -> Reply) returns (runs: seq<string>)
      modifies store, this`pendingTimers
      ensures var o := Drive(cfg, Load(id), Outcome(old(store.Value()), None, []), clock, reply);
              && store.Value() == o.db
              && runs == o.runs
              && pendingTimers == old(pendingTimers) + (if o.requeue.Some? then multiset{o.requeue.value} else multiset{})
      ensures var db := old(store.Value());
        var armed :=
          && id in db.jobs && !reply(Load(id)).err
          && (var job, at := db.jobs[id], clock(Age(id, db.jobs[id]));
              && (job.status == Pending || (job.status == Dispatched && at - job.updatedAt >= 300_000_000_000))
              && !reply(Count(Ticket(id, job, at))).err && |Active(db)| >= cfg.maxRunners);
        && pendingTimers == old(pendingTimers) + (if armed then multiset{id} else multiset{})
        && (armed ==> runs == [] && store.Value() == db)
    {
      runs := [];
      ghost var start := Outcome(store.Value(), None, []);
      ghost var goal := Drive(cfg, Load(id), start, clock, reply);
      if reply(Load(id)).err {
        return;
      }
      var row := store.GetJob(id);
      if row.None? {
        return;
      }
      var job := row.value;
      if !job.status.Pending? && !job.status.Dispatched? {
        return;
      }
      assert goal == Drive(cfg, Age(id, job), start, clock, reply);
      var checkedAt := clock(Age(id, job));
      if job.status.Dispatched? {
        if checkedAt - job.updatedAt < DISPATCHED_REPLAY_AGE {
          assert goal == Drive(cfg, Ended, start, clock, reply);
          return;
        }
      }
      var t := Ticket(id, job, checkedAt);
      assert goal == Drive(cfg, Count(t), start, clock, reply);
      if reply(Count(t)).err {
        assert goal == Drive(cfg, Ended, start, clock, reply);
        return;
      }
      var n := store.ActiveRunnerCount();
      if n >= cfg.maxRunners {
        pendingTimers := pendingTimers + multiset{id};
        assert goal == Drive(cfg, Ended, start.(requeue := Some(id)), clock, reply);
        return;
      }
      assert goal == Drive(cfg, Locate(t), start, clock, reply);
      runs := DispatchTicket(t, clock, reply);
    }

    /** The worker loop until the channel is empty: receive, dispatch, repeat. */
    method DrainQueue(envs: seq<Env>) returns (runs: seq<string>)
      requires |envs| == |jobCh|
      modifies store, this
      ensures jobCh == []
      ensures (store.Value(), runs) == Drain(cfg, old(store.Value()), old(jobCh), envs)
    {
      runs := [];
      ghost var goal := Drain(cfg, store.Value(), jobCh, envs);
      var i := 0;
      assert envs[0..] == envs && [] + goal.1 == goal.1;
      while jobCh != []
        invariant 0 <= i <= |envs| && |jobCh| == |envs| - i
        invariant var rest := Drain(cfg, store.Value(), jobCh, envs[i..]);
                  goal == (rest.0, runs + rest.1)
        decreases |jobCh|
      {
        var id := jobCh[0];
        jobCh := jobCh[1..];
        assert envs[i..][1..] == envs[i + 1..];
        ghost var done := runs;
        var started := DispatchWithContext(id, envs[i].clock, envs[i].reply);
        runs := runs + started;
        i := i + 1;
        ghost var rest := Drain(cfg, store.Value(), jobCh, envs[i..]);
        assert done + (started + rest.1) == runs + rest.1;
      }
      assert runs + [] == runs;
    }

    /** The callback of one re-enqueue timer. */
    method TimerFired(id: JobId, cancelled: bool)
      modifies this`jobCh, this`pendingTimers
      ensures pendingTimers == old(pendingTimers) - multiset{id}
      ensures jobCh == if cancelled || id !in old(pendingTimers) then old(jobCh) else Send(old(jobCh), id)
      ensures jobCh == if !cancelled && id in old(pendingTimers) && |old(jobCh)| < 256 then old(jobCh) + [id] else old(jobCh)
    {
      var armed := id in pendingTimers;
      pendingTimers := pendingTimers - multiset{id};
      if armed && !cancelled {
        Enqueue(id);
      }
    }

    method StopPendingTimers()
      modifies this`pendingTimers
      ensures pendingTimers == multiset{}
    {
      pendingTimers := multiset{};
    }

    /** What happens to queue and timers while the worker waits at its select. */
    method Wait(r: Round)
      modifies this`jobCh, this`pendingTimers
      ensures var w := FireAll(old(pendingTimers), old(jobCh), r.fired, r.cancelled);
              pendingTimers == w.0 && jobCh == SendAll(w.1, r.arrivals)
    {
      ghost var w := FireAll(pendingTimers, jobCh, r.fired, r.cancelled);
      assert r.fired[0..] == r.fired;
      for i := 0 to |r.fired|
        invariant FireAll(pendingTimers, jobCh, r.fired[i..], r.cancelled) == w
      {
        assert r.fired[i..][0] == r.fired[i] && r.fired[i..][1..] == r.fired[i + 1..];
        TimerFired(r.fired[i], r.cancelled);
      }
      EnqueueAll(r.arrivals);
    }

    method EnqueueAll(ids: seq<JobId>)
      modifies this`jobCh
      ensures jobCh == SendAll(old(jobCh), ids)
    {
      ghost var goal := SendAll(jobCh, ids);
      assert ids[0..] == ids;
      for i := 0 to |ids|
        invariant SendAll(jobCh, ids[i..]) == goal
      {
        assert ids[i..][0] == ids[i] && ids[i..][1..] == ids[i + 1..];
        Enqueue(ids[i]);
      }
    }

    ghost function State(runs: seq<string>, late: nat, returned: bool): Loop
      reads this, store
    {
      Loop(store.Value(), jobCh, pendingTimers, runs, late, returned)
    }

    /** One replay, then the for/select loop, for as many rounds as the script has; it leaves
        early when it picks cancellation or finds the context cancelled after a dispatch. */
    method RunWithDrain(now: int, err: bool, rounds: seq<Round>) returns (runs: seq<string>, ghost late: nat, returned: bool)
      modifies store, this
      ensures State(runs, late, returned) == Session(cfg, Replayed(old(State([], 0, false)), now, err), rounds)
    {
      runs, late, returned := [], 0, false;
      var _ := Replay(now, err);
      ghost var goal := Session(cfg, State(runs, late, false), rounds);
      assert rounds[0..] == rounds;
      var i := 0;
      while i < |rounds| && !returned
        invariant 0 <= i <= |rounds|
        invariant Session(cfg, State(runs, late, returned), rounds[i..]) == goal
      {
        assert rounds[i..][0] == rounds[i] && rounds[i..][1..] == rounds[i + 1..];
        var r := rounds[i];
        ghost var before := State(runs, late, false);
        Wait(r);
        assert State(runs, late, false) == Waited(before, r);
        runs, late, returned := Turn(r, runs, late);
        i := i + 1;
      }
    }

    /** The select of one round. */
    method Turn(r: Round, runs: seq<string>, ghost late: nat)
      returns (runs': seq<string>, ghost late': nat, returned: bool)
      modifies store, this
      ensures State(runs', late', returned) == Picked(cfg, old(State(runs, late, false)), r)
    {
      runs', late', returned := runs, late, false;
      match r.pick {
        case Done =>
          if r.cancelled {
            StopPendingTimers();
            returned := true;
          }
        case Job(env) =>
          if jobCh != [] {
            var id := jobCh[0];
            jobCh := jobCh[1..];
            var started := DispatchWithContext(id, env.clock, env.reply);
            runs', late' := runs + started, late + (if r.cancelled then 1 else 0);
            if r.cancelledAfter {
              StopPendingTimers();
              returned := true;
            }
          }
        case Ticker(now, err) =>
          var _ := Replay(now, err);
      }
    }

    /** The part of dispatchWithContext below the cap check. */
    method DispatchTicket(t: Ticket, clock: Pc -> int, reply: Pc -> Reply) returns (runs: seq<string>)
      modifies store
      ensures Drive(cfg, Locate(t), Outcome(old(store.Value()), None, []), clock, reply) ==
              Outcome(store.Value(), None, runs)
    {
      runs := [];
      ghost var start := Outcome(store.Value(), None, []);
      ghost var goal := Drive(cfg, Locate(t), start, clock, reply);
      if reply(Locate(t)).err {
        assert goal == Drive(cfg, Ended, start, clock, reply);
        return;
      }
      if t.job.repo !in store.repos {
        assert goal == Drive(cfg, Unmapped(t), start, clock, reply);
        if clock(Unmapped(t)) - t.job.receivedAt < NO_INSTALLATION_CANCEL_AGE {
          assert goal == Drive(cfg, Ended, start, clock, reply);
          return;
        }
        assert goal == Drive(cfg, CancelRow(t.id), start, clock, reply);
        CancelJob(t.id, clock, reply);
        return;
      }
      assert goal == Drive(cfg, Mint(t), start, clock, reply);
      if reply(Mint(t)).err {
        assert goal == Drive(cfg, Ended, start, clock, reply);
        return;
      }
      assert goal == Drive(cfg, Verify(t), start, clock, reply);
      var proceed := PreLaunchCheck(t, clock, reply);
      if proceed {
        assert goal == Drive(cfg, Insert(t), start, clock, reply);
        runs := LaunchJob(t, clock, reply);
      } else {
        assert goal == Drive(cfg, Ended, Outcome(store.Value(), None, []), clock, reply);
      }
    }

    method CancelJob(id: JobId, clock: Pc -> int, reply: Pc -> Reply)
      modifies store
      ensures Drive(cfg, CancelRow(id), Outcome(old(store.Value()), None, []), clock, reply) ==
              Outcome(store.Value(), None, [])
    {
      if !reply(CancelRow(id)).err {
        var _ := store.CancelJobIfPending(clock(CancelRow(id)), id);
      }
    }

    /** The switch over GitHub's live answer: does dispatch go on to launch? */
    method PreLaunchCheck(t: Ticket, clock: Pc -> int, reply: Pc -> Reply) returns (proceed: bool)
      modifies store
      ensures Drive(cfg, Verify(t), Outcome(old(store.Value()), None, []), clock, reply) ==
              Drive(cfg, if proceed then Insert(t) else Ended, Outcome(store.Value(), None, []), clock, reply)
      ensures proceed ==> store.Value() == old(store.Value())
    {
      ghost var start := Outcome(store.Value(), None, []);
      ghost var goal := Drive(cfg, Verify(t), start, clock, reply);
      match reply(Verify(t)).live {
        case LiveErr =>
          proceed := true;
        case NotFound =>
          assert goal == Drive(cfg, Confirm(t), start, clock, reply);
          var again := reply(Confirm(t));
          if again.aborted {
            proceed := false;
          } else if again.live.NotFound? || again.live.AuthFailed? {
            assert goal == Drive(cfg, CancelRow(t.id), start, clock, reply);
            CancelJob(t.id, clock, reply);
            proceed := false;
          } else {
            proceed := true;
          }
        case AuthFailed =>
          proceed := false;
        case Found(status, conclusion) =>
          if status == "completed" {
            var c := if conclusion == "" then "cancelled" else conclusion;
            assert goal == Drive(cfg, Complete(t.id, c), start, clock, reply);
            if !reply(Complete(t.id, c)).err {
              var _ := store.MarkJobCompleted(clock(Complete(t.id, c)), t.id, c);
            }
            proceed := false;
          } else {
            proceed := status == "queued";
          }
      }
    }

    /** Insert the row, then launch, then mark: the order every safety argument rests on. */
    method LaunchJob(t: Ticket, clock: Pc -> int, reply: Pc -> Reply) returns (runs: seq<string>)
      modifies store
      ensures Drive(cfg, Insert(t), Outcome(old(store.Value()), None, []), clock, reply) ==
              Outcome(store.Value(), None, runs)
    {
      runs := [];
      ghost var goal := Drive(cfg, Insert(t), Outcome(store.Value(), None, []), clock, reply);
      if reply(Insert(t)).err {
        assert goal == Drive(cfg, Ended, Outcome(store.Value(), None, []), clock, reply);
        return;
      }
      var name, insertedAt := reply(Insert(t)).name, clock(Insert(t));
      var inserted := store.InsertRunnerRow(insertedAt, name, t.job.repo, t.job.labels, insertedAt);
      if !inserted {
        assert goal == Drive(cfg, Ended, Outcome(store.Value(), None, []), clock, reply);
        return;
      }
      assert goal == Drive(cfg, Launch(t, name, 1), Outcome(store.Value(), None, []), clock, reply);
      runs := LaunchRow(t, name, clock, reply);
    }

    /** Launch under a row that is in, and settle the row and the job. */
    method LaunchRow(t: Ticket, name: string, clock: Pc -> int, reply: Pc -> Reply) returns (runs: seq<string>)
      modifies store
      ensures Drive(cfg, Launch(t, name, 1), Outcome(old(store.Value()), None, []), clock, reply) ==
              Outcome(store.Value(), None, runs)
    {
      ghost var placed := Outcome(store.Value(), None, []);
      var ok, attempts, _ := LaunchWithRetry(t, name, reply);
      runs := Repeat(name, attempts);
      LaunchLoop(cfg, t, name, 1, attempts, placed, clock, reply);
      assert placed.(runs := placed.runs + runs) == Outcome(store.Value(), None, runs);
      SettleLaunch(t, name, ok, runs, clock, reply);
    }

    method SettleLaunch(t: Ticket, name: string, ok: bool, ghost runs: seq<string>, clock: Pc -> int, reply: Pc -> Reply)
      modifies store
      ensures Settle(cfg, t, name, !ok, Outcome(old(store.Value()), None, runs), clock, reply) ==
              Outcome(store.Value(), None, runs)
    {
      if !ok {
        if !reply(Fail(name)).err {
          store.UpdateRunnerStatus(clock(Fail(name)), name, Finished);
        }
        return;
      }
      if !reply(Mark(t)).err {
        store.MarkJobDispatched(clock(Mark(t)), t.id);
      }
    }
  }
}
