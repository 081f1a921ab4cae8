/** The imperative components run alone are runs of the interleaved system, so whatever is
    proved of every run holds of them. */
module Alone {
  import opened Store
  import opened System
  import Dispatch
  import Reconcile
  import GitHubSweep
  import Handlers
  import StaleSweep

  /** Each sub-step's clock reading is at least the one before it. */
  ghost predicate DispatchClock(cfg: Dispatch.Config, env: Dispatch.Env) {
    forall pc, db :: env.clock(pc) <= env.clock(Dispatch.Step(cfg, pc, db, env.clock(pc), env.reply(pc)).next)
  }

  /** What one sub-step of the worker changes in the world. */
  ghost predicate Worked(cfg: Config, w: World, env: Dispatch.Env, pc: Dispatch.Pc, w': World) {
    var m := Dispatch.Step(cfg.dispatch, pc, w.db, env.clock(pc), env.reply(pc));
    && w'.worker == Dispatching(m.next) && w'.now == env.clock(pc) && w'.db == ExecOpt(w.db, env.clock(pc), m.stmt)
    && w'.queue == w.queue && w'.docker == w.docker && w'.roster == w.roster
    && w'.timers == (if m.requeue.Some? then w.timers + multiset{m.requeue.value} else w.timers)
    && w'.attempted == (if m.run.Some? then w.attempted + {m.run.value} else w.attempted)
  }

  lemma {:induction false} WorkPair(cfg: Config, ws: seq<World>, ls: seq<Label>, pc: Dispatch.Pc, env: Dispatch.Env)
    returns (ws': seq<World>, ls': seq<Label>)
    requires IsRun(cfg, ws, ls) && cfg.recon.prefix <= env.reply(pc).name && !pc.Ended?
    requires ws[|ls|].worker == Dispatching(pc) && ws[|ls|].now <= env.clock(pc)
    ensures IsRun(cfg, ws', ls') && ls' == ls + [Tick(env.clock(pc)), Work(env.reply(pc))]
    ensures Worked(cfg, ws[|ls|], env, pc, ws'[|ls'|])
  {
    ws', ls' := Extend(cfg, ws, ls, Tick(env.clock(pc)));
    ws', ls' := Extend(cfg, ws', ls', Work(env.reply(pc)));
  }

  /** The worker's part of the world after a whole dispatch. */
  ghost predicate Carried(w: World, pc: Dispatch.Pc, o: Dispatch.Outcome, done: Dispatch.Outcome, w': World) {
    && w'.worker == Dispatching(Dispatch.Ended) && w'.db == done.db
    && w'.queue == w.queue && w'.docker == w.docker && w'.roster == w.roster
    && (pc.Ended? ==> w'.timers == w.timers)
    && (o.requeue.None? ==> w'.timers == (if done.requeue.Some? then w.timers + multiset{done.requeue.value} else w.timers))
    && o.runs <= done.runs
    && w'.attempted == w.attempted + set i | |o.runs| <= i < |done.runs| :: done.runs[i]
  }

  /** From any point of any run where the worker stands at pc, the run goes on through the
      worker's sub-steps alone to the end of the dispatch; then the store, the re-enqueue
      timer and the containers docker was asked to run are those of `Dispatch.Drive`. */
  lemma {:induction false} DispatchIsRun(cfg: Config, ws: seq<World>, ls: seq<Label>, pc: Dispatch.Pc, o: Dispatch.Outcome,
                                         env: Dispatch.Env) returns (ws': seq<World>, ls': seq<Label>)
    requires IsRun(cfg, ws, ls) && DispatchClock(cfg.dispatch, env)
    requires forall p :: cfg.recon.prefix <= env.reply(p).name
    requires ws[|ls|].worker == Dispatching(pc) && ws[|ls|].now <= env.clock(pc) && ws[|ls|].db == o.db
    ensures IsRun(cfg, ws', ls') && ls <= ls'
    ensures forall i :: |ls| <= i < |ls'| ==> ls'[i].Work? || ls'[i].Tick?
    ensures Carried(ws[|ls|], pc, o, Dispatch.Drive(cfg.dispatch, pc, o, env.clock, env.reply), ws'[|ls'|])
    decreases Dispatch.Phase(pc), Dispatch.AttemptsLeft(cfg.dispatch, pc), Dispatch.Tail(cfg.dispatch, pc)
  {
    if pc.Ended? {
      ws', ls' := ws, ls;
    } else {
      var m := Dispatch.Step(cfg.dispatch, pc, o.db, env.clock(pc), env.reply(pc));
      var o1 := Dispatch.Apply(o, m, env.clock(pc));
      StepShrinks(cfg.dispatch, pc, o.db, env.clock(pc), env.reply(pc));
      var ws1, ls1 := WorkPair(cfg, ws, ls, pc, env);
      ws', ls' := DispatchIsRun(cfg, ws1, ls1, m.next, o1, env);
      Chain(cfg, ws[|ls|], ws1[|ls1|], ws'[|ls'|], pc, o, env);
    }
  }

  predicate DispatchSooner(cfg: Dispatch.Config, a: Dispatch.Pc, b: Dispatch.Pc) {
    || Dispatch.Phase(a) < Dispatch.Phase(b)
    || (Dispatch.Phase(a) == Dispatch.Phase(b) && Dispatch.AttemptsLeft(cfg, a) < Dispatch.AttemptsLeft(cfg, b))
    || (Dispatch.Phase(a) == Dispatch.Phase(b) && Dispatch.AttemptsLeft(cfg, a) == Dispatch.AttemptsLeft(cfg, b) &&
        Dispatch.Tail(cfg, a) < Dispatch.Tail(cfg, b))
  }

  lemma {:induction false} StepShrinks(cfg: Dispatch.Config, pc: Dispatch.Pc, db: Db, now: int, r: Dispatch.Reply)
    requires !pc.Ended?
    ensures DispatchSooner(cfg, Dispatch.Step(cfg, pc, db, now, r).next, pc)
    ensures Dispatch.Step(cfg, pc, db, now, r).requeue.Some? ==> Dispatch.Step(cfg, pc, db, now, r).next.Ended?
  {
  }

  /** One sub-step followed by the rest of the dispatch is the dispatch. */
  lemma {:induction false} Chain(cfg: Config, w: World, w1: World, w': World, pc: Dispatch.Pc, o: Dispatch.Outcome, env: Dispatch.Env)
    requires !pc.Ended? && Worked(cfg, w, env, pc, w1) && w.db == o.db
    requires var m := Dispatch.Step(cfg.dispatch, pc, o.db, env.clock(pc), env.reply(pc));
             var o1 := Dispatch.Apply(o, m, env.clock(pc));
             Carried(w1, m.next, o1, Dispatch.Drive(cfg.dispatch, m.next, o1, env.clock, env.reply), w')
    ensures Carried(w, pc, o, Dispatch.Drive(cfg.dispatch, pc, o, env.clock, env.reply), w')
  {
    var m := Dispatch.Step(cfg.dispatch, pc, o.db, env.clock(pc), env.reply(pc));
    var o1 := Dispatch.Apply(o, m, env.clock(pc));
    var done := Dispatch.Drive(cfg.dispatch, pc, o, env.clock, env.reply);
    assert done == Dispatch.Drive(cfg.dispatch, m.next, o1, env.clock, env.reply);
    StepShrinks(cfg.dispatch, pc, o.db, env.clock(pc), env.reply(pc));
    var before, after := set i | |o.runs| <= i < |done.runs| :: done.runs[i], set i | |o1.runs| <= i < |done.runs| :: done.runs[i];
    if m.run.Some? {
      assert done.runs[|o.runs|] == o1.runs[|o.runs|] == m.run.value;
      assert before == after + {m.run.value};
    } else {
      assert before == after;
    }
  }

  // ---------------- the docker-side reconciler ----------------

  ghost predicate ReconClock(cfg: Reconcile.Config, clock: Reconcile.Pc -> int, reply: (Reconcile.Pc, Reconcile.St) -> Reconcile.Reply) {
    forall pc, s :: clock(pc) <= clock(Reconcile.Step(cfg, pc, s, clock(pc), reply(pc, s)).next)
  }

  ghost predicate Truthful(cfg: Reconcile.Config, reply: (Reconcile.Pc, Reconcile.St) -> Reconcile.Reply) {
    forall pc, s :: Reconcile.Honest(cfg, pc, s, reply(pc, s))
  }

  function Shared(w: World): Reconcile.St {
    Reconcile.St(w.db, w.docker)
  }

  lemma {:induction false} ReconPair(cfg: Config, ws: seq<World>, ls: seq<Label>, clock: Reconcile.Pc -> int,
                                     reply: (Reconcile.Pc, Reconcile.St) -> Reconcile.Reply)
    returns (ws': seq<World>, ls': seq<Label>)
    requires IsRun(cfg, ws, ls) && Truthful(cfg.recon, reply)
    requires !ws[|ls|].recon.Ended? && ws[|ls|].now <= clock(ws[|ls|].recon)
    ensures var w := ws[|ls|];
      && IsRun(cfg, ws', ls')
      && ls' == ls + [Tick(clock(w.recon)), Recon(reply(w.recon, Shared(w)))]
      && (var m := Reconcile.Step(cfg.recon, w.recon, Shared(w), clock(w.recon), reply(w.recon, Shared(w)));
          && ws'[|ls'|].recon == m.next && ws'[|ls'|].now == clock(w.recon)
          && Shared(ws'[|ls'|]) == Reconcile.Apply(Shared(w), m, clock(w.recon))
          && ws'[|ls'|].queue == w.queue && ws'[|ls'|].roster == w.roster && ws'[|ls'|].worker == w.worker)
  {
    var pc := ws[|ls|].recon;
    var r := reply(pc, Shared(ws[|ls|]));
    assert Reconcile.Honest(cfg.recon, pc, Shared(ws[|ls|]), r);
    ws', ls' := Extend(cfg, ws, ls, Tick(clock(pc)));
    ws', ls' := Extend(cfg, ws', ls', Recon(r));
  }

  lemma {:induction false} ReconIsRun(cfg: Config, ws: seq<World>, ls: seq<Label>, pc: Reconcile.Pc, clock: Reconcile.Pc -> int,
                                      reply: (Reconcile.Pc, Reconcile.St) -> Reconcile.Reply)
    returns (ws': seq<World>, ls': seq<Label>)
    requires IsRun(cfg, ws, ls) && ReconClock(cfg.recon, clock, reply) && Truthful(cfg.recon, reply)
    requires ws[|ls|].recon == pc && ws[|ls|].now <= clock(pc)
    ensures IsRun(cfg, ws', ls') && ls <= ls'
    ensures forall i :: |ls| <= i < |ls'| ==> ls'[i].Recon? || ls'[i].Tick?
    ensures var w, w' := ws[|ls|], ws'[|ls'|];
      && w'.recon.Ended? && Shared(w') == Reconcile.Drive(cfg.recon, pc, Shared(w), clock, reply)
      && w'.queue == w.queue && w'.roster == w.roster && w'.worker == w.worker
    decreases Reconcile.Phase(pc), Reconcile.Pending(pc), Reconcile.Tail(pc)
  {
    if pc.Ended? {
      ws', ls' := ws, ls;
    } else {
      var s := Shared(ws[|ls|]);
      var m := Reconcile.Step(cfg.recon, pc, s, clock(pc), reply(pc, s));
      ReconShrinks(cfg.recon, pc, s, clock(pc), reply(pc, s));
      var ws1, ls1 := ReconPair(cfg, ws, ls, clock, reply);
      ws', ls' := ReconIsRun(cfg, ws1, ls1, m.next, clock, reply);
    }
  }

  predicate ReconSooner(a: Reconcile.Pc, b: Reconcile.Pc) {
    || Reconcile.Phase(a) < Reconcile.Phase(b)
    || (Reconcile.Phase(a) == Reconcile.Phase(b) && Reconcile.Pending(a) < Reconcile.Pending(b))
    || (Reconcile.Phase(a) == Reconcile.Phase(b) && Reconcile.Pending(a) == Reconcile.Pending(b) &&
        Reconcile.Tail(a) < Reconcile.Tail(b))
  }

  lemma {:induction false} ReconShrinks(cfg: Reconcile.Config, pc: Reconcile.Pc, s: Reconcile.St, now: int, r: Reconcile.Reply)
    requires !pc.Ended?
    ensures ReconSooner(Reconcile.Step(cfg, pc, s, now, r).next, pc)
  {
  }

  // ---------------- the GitHub-side sweep ----------------

  ghost predicate Faithful(reply: (GitHubSweep.Pc, GitHubSweep.Roster) -> GitHubSweep.Reply) {
    forall pc: GitHubSweep.Pc, roster :: pc.List? && !reply(pc, roster).err ==>
      GitHubSweep.HonestRunners(pc.repo, reply(pc, roster).runners, roster)
  }

  lemma {:induction false} SweepIsRun(cfg: Config, ws: seq<World>, ls: seq<Label>, pc: GitHubSweep.Pc,
                                      reply: (GitHubSweep.Pc, GitHubSweep.Roster) -> GitHubSweep.Reply)
    returns (ws': seq<World>, ls': seq<Label>)
    requires IsRun(cfg, ws, ls) && Faithful(reply) && ws[|ls|].sweep == pc
    ensures IsRun(cfg, ws', ls') && ls <= ls'
    ensures forall i :: |ls| <= i < |ls'| ==> ls'[i].Sweep?
    ensures var w, w' := ws[|ls|], ws'[|ls'|];
      w' == w.(sweep := GitHubSweep.Ended, roster := GitHubSweep.Drive(cfg.recon.prefix, pc, w.db, w.roster, reply))
    decreases GitHubSweep.Phase(pc), GitHubSweep.Todo(pc), GitHubSweep.Tail(pc), GitHubSweep.Cands(pc)
  {
    if pc.Ended? {
      ws', ls' := ws, ls;
    } else {
      var w := ws[|ls|];
      var r := reply(pc, w.roster);
      assert pc.List? && !r.err ==> GitHubSweep.HonestRunners(pc.repo, r.runners, w.roster);
      var ws1, ls1 := Extend(cfg, ws, ls, Sweep(r));
      var m := GitHubSweep.Step(cfg.recon.prefix, pc, w.db, r);
      ws', ls' := SweepIsRun(cfg, ws1, ls1, m.next, reply);
    }
  }

  // ---------------- the webhook handlers ----------------

  lemma {:induction false} ScriptIsRun(cfg: Config, ws: seq<World>, ls: seq<Label>, sts: seq<Stmt>)
    returns (ws': seq<World>, ls': seq<Label>)
    requires IsRun(cfg, ws, ls) && forall st :: st in sts ==> Outsider(st)
    ensures IsRun(cfg, ws', ls') && ls <= ls'
    ensures ws'[|ls'|] == ws[|ls|].(db := Handlers.RunScript(ws[|ls|].db, ws[|ls|].now, sts))
    decreases |sts|
  {
    if sts == [] {
      ws', ls' := ws, ls;
    } else {
      var ws1, ls1 := Extend(cfg, ws, ls, Outside(sts[0]));
      ws', ls' := ScriptIsRun(cfg, ws1, ls1, sts[1..]);
    }
  }

  /** A webhook delivery is a run of statements, then at most one push. */
  lemma {:induction false} DeliveryIsRun(cfg: Config, ws: seq<World>, ls: seq<Label>, ev: Handlers.Event, f: Handlers.Faults)
    returns (ws': seq<World>, ls': seq<Label>)
    requires IsRun(cfg, ws, ls)
    ensures IsRun(cfg, ws', ls') && ls <= ls'
    ensures var w, w' := ws[|ls|], ws'[|ls'|];
            var p := Handlers.Deliver(Handlers.Pool(w.db, w.queue), w.now, ev, f);
            w' == w.(db := p.db, queue := p.queue)
  {
    var w := ws[|ls|];
    Handlers.ScriptsAreOutside(w.db, ev, f);
    ws', ls' := ScriptIsRun(cfg, ws, ls, Handlers.Script(w.db, ev, f));
    if ev.JobQueued? && ev.admitted && !f.job && ev.id !in w.db.jobs {
      ws', ls' := Extend(cfg, ws', ls', Push(ev.id));
    }
  }

  // ---------------- the stale-job sweep ----------------

  /** The sweep's writes read a clock that does not go back. */
  ghost predicate WriteClock(ids: seq<JobId>, env: StaleSweep.Env, start: int) {
    && (forall i :: 0 <= i < |ids| ==> start <= env.writeClock(ids[i]))
    && (forall i, j :: 0 <= i < j < |ids| ==> env.writeClock(ids[i]) <= env.writeClock(ids[j]))
  }

  lemma {:induction false} SettleIsRun(cfg: Config, ws: seq<World>, ls: seq<Label>, db0: Db, id: JobId,
                                       env: StaleSweep.Env, maxLifetime: int) returns (ws': seq<World>, ls': seq<Label>)
    requires IsRun(cfg, ws, ls) && ws[|ls|].held.None? && ws[|ls|].now <= env.writeClock(id)
    requires db0.jobs.Keys <= ws[|ls|].db.jobs.Keys
    ensures IsRun(cfg, ws', ls') && ls <= ls' && ws'[|ls'|].held.None? && ws'[|ls'|].now <= env.writeClock(id)
    ensures ws'[|ls'|].db == StaleSweep.SweptOne(db0, ws[|ls|].db, id, env, maxLifetime)
    ensures ws[|ls|].db.jobs.Keys <= ws'[|ls'|].db.jobs.Keys
  {
    var c := StaleSweep.Conclusion(env.live(id));
    if StaleSweep.Asked(db0, id, env, maxLifetime) && !env.markFails(id) && c.Some? {
      ws', ls' := Extend(cfg, ws, ls, Tick(env.writeClock(id)));
      ws', ls' := Extend(cfg, ws', ls', StaleRead(id, c.value));
      ws', ls' := Extend(cfg, ws', ls', StaleWrite(true));
    } else {
      ws', ls' := ws, ls;
    }
  }

  /** The stale-job sweep run alone reads and writes row by row as the system admits. */
  lemma {:induction false} StaleSweepIsRun(cfg: Config, ws: seq<World>, ls: seq<Label>, db0: Db, ids: seq<JobId>,
                                           env: StaleSweep.Env, maxLifetime: int) returns (ws': seq<World>, ls': seq<Label>)
    requires IsRun(cfg, ws, ls) && ws[|ls|].held.None? && WriteClock(ids, env, ws[|ls|].now)
    requires db0.jobs.Keys <= ws[|ls|].db.jobs.Keys
    ensures IsRun(cfg, ws', ls') && ls <= ls' && ws'[|ls'|].held.None?
    ensures ws'[|ls'|].db == StaleSweep.Swept(db0, ws[|ls|].db, ids, env, maxLifetime)
    decreases |ids|
  {
    if ids == [] {
      ws', ls' := ws, ls;
    } else {
      var ws1, ls1 := SettleIsRun(cfg, ws, ls, db0, ids[0], env, maxLifetime);
      ws', ls' := StaleSweepIsRun(cfg, ws1, ls1, db0, ids[1..], env, maxLifetime);
    }
  }
}
