/** The whole pool as one interleaved transition system.

    One dispatch worker, the docker-side reconciler and the GitHub-side sweep each run their
    machine of atomic sub-steps; the stale-job sweep reads a conclusion in one step and writes
    it in another. Between any two sub-steps may come: statements of webhook and admin
    handlers, re-enqueue timers, containers appearing and vanishing,
    runners registering with GitHub, and the clock. */
module System {
  import opened Store
  import JobHistory
  import Dispatch
  import Reconcile
  import GitHubSweep

  datatype Config = Config(dispatch: Dispatch.Config, recon: Reconcile.Config)

  /** The scheduler goroutine: at its select, inside a dispatch, or returned. */
  datatype Worker = Select | Dispatching(pc: Dispatch.Pc) | Returned

  /** A conclusion the stale-job sweep has read from GitHub and not written yet. */
  datatype Held = Held(id: JobId, conclusion: string)

  datatype World = World(
    now: int, db: Db,
    queue: seq<JobId>, timers: multiset<JobId>, firing: multiset<JobId>,
    cancelled: bool, worker: Worker,
    docker: map<string, int>, attempted: set<string>, recon: Reconcile.Pc,
    roster: GitHubSweep.Roster, nextId: int, sweep: GitHubSweep.Pc, held: Option<Held>)

  datatype Label =
    | Tick(now: int)
    | Shutdown
    | Receive
    | Stop
    | Finish
    | Work(r: Dispatch.Reply)
    | ReconTick
    | Recon(rr: Reconcile.Reply)
    | SweepTick
    | Sweep(gr: GitHubSweep.Reply)
    | StaleRead(job: JobId, conclusion: string)
    | StaleWrite(ok: bool)
    | Outside(st: Stmt)
    | Push(id: JobId)
    | TimerFires(id: JobId)
    | TimerSends(id: JobId)
    | Appear(name: string)
    | Stranger(name: string)
    | Vanish(name: string)
    | Register(name: string)
    | RegisterStranger(repo: string, name: string)
    | Unregister(reg: int)
    | SetBusy(reg: int, busy: bool)

  /** Statements of the webhook handlers and the admin handlers, in any order and number. */
  predicate Outsider(st: Stmt) {
    && !st.InsertRunner? && !st.MarkDispatched? && !st.SetRunner?
    && (st.SetRunnerByName? ==> st.status.Busy? || st.status.Finished?)
    && JobHistory.Legal(st)
  }

  /** When a step may happen. A GitHub sweep may begin with any repositories, and StaleRead may
      name any row, so theorems hold of more runs than the original has; a lemma that exhibits a
      run says itself that these were the store's answers. */
  ghost predicate Enabled(cfg: Config, w: World, l: Label) {
    match l
    case Tick(now) => now >= w.now
    case Shutdown => true
    case Receive => w.worker.Select? && w.queue != []
    case Stop => w.worker.Select? && w.cancelled
    case Finish => w.worker == Dispatching(Dispatch.Ended)
    case Work(r) =>
      w.worker.Dispatching? && !w.worker.pc.Ended? && (w.worker.pc.Insert? ==> cfg.recon.prefix <= r.name)
    case ReconTick => w.recon.Ended?
    case Recon(rr) => !w.recon.Ended? && Reconcile.Honest(cfg.recon, w.recon, Reconcile.St(w.db, w.docker), rr)
    case SweepTick => w.sweep.Ended?
    case Sweep(gr) =>
      !w.sweep.Ended? && (w.sweep.List? && !gr.err ==> GitHubSweep.HonestRunners(w.sweep.repo, gr.runners, w.roster))
    case StaleRead(job, conclusion) => w.held.None? && job in w.db.jobs && conclusion != ""
    case StaleWrite(_) => w.held.Some?
    case Outside(st) => Outsider(st)
    case Push(_) => true
    case TimerFires(id) => id in w.timers
    case TimerSends(id) => id in w.firing
    case Appear(name) => name in w.attempted && name !in w.docker
    case Stranger(name) => name !in w.attempted && name !in w.docker
    case Vanish(_) => true
    case Register(name) => name in w.attempted && name in w.db.runners
    case RegisterStranger(_, _) => true
    case Unregister(_) => true
    case SetBusy(reg, _) => reg in w.roster
  }

  function Moved(cfg: Config, w: World, r: Dispatch.Reply): Dispatch.Move
    requires w.worker.Dispatching?
  {
    Dispatch.Step(cfg.dispatch, w.worker.pc, w.db, w.now, r)
  }

  function ReconMoved(cfg: Config, w: World, rr: Reconcile.Reply): Reconcile.Move {
    Reconcile.Step(cfg.recon, w.recon, Reconcile.St(w.db, w.docker), w.now, rr)
  }

  function SweepMoved(cfg: Config, w: World, gr: GitHubSweep.Reply): GitHubSweep.Move {
    GitHubSweep.Step(cfg.recon.prefix, w.sweep, w.db, gr)
  }

  /** The one statement a step runs, if any: the database changes in no other way. */
  ghost function StmtOf(cfg: Config, w: World, l: Label): Option<Stmt> {
    match l
    case Work(r) => if w.worker.Dispatching? then Moved(cfg, w, r).stmt else None
    case Recon(rr) => ReconMoved(cfg, w, rr).stmt
    case StaleWrite(ok) => if ok && w.held.Some? then Some(MarkCompleted(w.held.value.id, w.held.value.conclusion)) else None
    case Outside(st) => Some(st)
    case _ => None
  }

  ghost function Next(cfg: Config, w: World, l: Label): World
    requires Enabled(cfg, w, l)
  {
    var v := w.(db := ExecOpt(w.db, w.now, StmtOf(cfg, w, l)));
    match l
    case Tick(now) => v.(now := now)
    case Shutdown => v.(cancelled := true)
    case Receive => v.(worker := Dispatching(Dispatch.Load(w.queue[0])), queue := w.queue[1..])
    case Stop => v.(worker := Returned, timers := multiset{})
    case Finish => if w.cancelled then v.(worker := Returned, timers := multiset{}) else v.(worker := Select)
    case Work(r) =>
      var m := Moved(cfg, w, r);
      v.(worker := Dispatching(m.next), timers := if m.requeue.Some? then w.timers + multiset{m.requeue.value} else w.timers,
         attempted := if m.run.Some? then w.attempted + {m.run.value} else w.attempted)
    case ReconTick => v.(recon := Reconcile.Begin)
    case Recon(rr) =>
      var m := ReconMoved(cfg, w, rr);
      v.(recon := m.next, docker := if m.kill.Some? then w.docker - {m.kill.value} else w.docker)
    case SweepTick => v.(sweep := GitHubSweep.Begin)
    case Sweep(gr) =>
      var m := SweepMoved(cfg, w, gr);
      v.(sweep := m.next, roster := GitHubSweep.Apply(w.roster, m))
    case StaleRead(job, conclusion) => v.(held := Some(Held(job, conclusion)))
    case StaleWrite(_) => v.(held := None)
    case Outside(_) => v
    case Push(id) => v.(queue := Dispatch.Send(w.queue, id))
    case TimerFires(id) =>
      v.(timers := w.timers - multiset{id}, firing := if w.cancelled then w.firing else w.firing + multiset{id})
    case TimerSends(id) => v.(firing := w.firing - multiset{id}, queue := Dispatch.Send(w.queue, id))
    case Appear(name) => v.(docker := w.docker[name := w.now])
    case Stranger(name) => v.(docker := w.docker[name := w.now])
    case Vanish(name) => v.(docker := w.docker - {name})
    case Register(name) =>
      v.(roster := w.roster[w.nextId := GitHubSweep.Registration(w.db.runners[name].repo, name, false)], nextId := w.nextId + 1)
    case RegisterStranger(repo, name) =>
      v.(roster := w.roster[w.nextId := GitHubSweep.Registration(repo, name, false)], nextId := w.nextId + 1)
    case Unregister(reg) => v.(roster := w.roster - {reg})
    case SetBusy(reg, busy) => v.(roster := w.roster[reg := w.roster[reg].(busy := busy)])
  }

  /** A pool with nothing in flight and nothing on GitHub's roster. */
  function Quiet(now: int, db: Db, queue: seq<JobId>, docker: map<string, int>, attempted: set<string>): World {
    World(now, db, queue, multiset{}, multiset{}, false, Select, docker, attempted, Reconcile.Ended,
          map[], 0, GitHubSweep.Ended, None)
  }

  /** A pool at start-up: nothing in flight. Tables, queue, containers and roster may hold
      anything an earlier process left, as long as containers it tried to launch have rows. */
  ghost predicate Initial(w: World) {
    && w.worker.Select? && w.recon.Ended? && w.sweep.Ended? && w.held.None? && w.timers == multiset{} && w.firing == multiset{}
    && Keyed(w.db) && w.attempted <= w.db.runners.Keys
    && (forall id :: id in w.roster ==> id < w.nextId)
  }

  /** ws[0] -ls[0]-> ws[1] -ls[1]-> ... */
  ghost predicate IsRun(cfg: Config, ws: seq<World>, ls: seq<Label>) {
    && |ws| == |ls| + 1 && Initial(ws[0])
    && forall i :: 0 <= i < |ls| ==> StepAt(cfg, ws, ls, i)
  }

  ghost predicate StepAt(cfg: Config, ws: seq<World>, ls: seq<Label>, i: int)
    requires |ws| == |ls| + 1 && 0 <= i < |ls|
  {
    Enabled(cfg, ws[i], ls[i]) && ws[i + 1] == Next(cfg, ws[i], ls[i])
  }

  /** A run grows by any enabled step. */
  lemma {:induction false} Extend(cfg: Config, ws: seq<World>, ls: seq<Label>, l: Label)
    returns (ws': seq<World>, ls': seq<Label>)
    requires IsRun(cfg, ws, ls) && Enabled(cfg, ws[|ls|], l)
    ensures IsRun(cfg, ws', ls') && |ls'| == |ls| + 1 && ls' == ls + [l]
    ensures ws <= ws' && ws'[0] == ws[0] && ws'[|ls|] == ws[|ls|] && ws'[|ls'|] == Next(cfg, ws[|ls|], l)
  {
    ws', ls' := ws + [Next(cfg, ws[|ls|], l)], ls + [l];
    forall i | 0 <= i < |ls'| ensures StepAt(cfg, ws', ls', i) {
      if i < |ls| {
        assert StepAt(cfg, ws, ls, i);
      }
    }
  }

  // ---------------- what holds in every reachable world ----------------

  /** The name whose container the worker may start. */
  function LaunchName(pc: Dispatch.Pc): Option<string> {
    match pc
    case Launch(_, name, _) => Some(name)
    case Observe(_, name, _) => Some(name)
    case Pause(_, name, _) => Some(name)
    case _ => None
  }

  function Cands(pc: GitHubSweep.Pc): seq<GitHubSweep.RepoRunner> {
    match pc
    case Recheck(_, cands, _) => cands
    case Delete(_, cands, _, _) => cands
    case _ => []
  }

  /** The dispatch in flight works on rows that exist: the runner row is inserted before
      the launch. */
  ghost predicate WorkerInv(pc: Dispatch.Pc, db: Db) {
    && (LaunchName(pc).Some? ==> LaunchName(pc).value in db.runners)
    && (pc.Age? ==> pc.id in db.jobs)
    && (Dispatch.TicketOf(pc).Some? ==> Dispatch.TicketOf(pc).value.id in db.jobs)
  }

  ghost predicate Inv(w: World) {
    && Keyed(w.db)
    && w.attempted <= w.db.runners.Keys
    && (w.worker.Dispatching? ==> WorkerInv(w.worker.pc, w.db))
    && (forall id :: id in w.roster ==> id < w.nextId)
    && (forall g :: g in Cands(w.sweep) ==> g.id < w.nextId)
  }

  /** Rows stay, clocks do not go back. */
  ghost predicate Grows(w: World, w': World) {
    && w.now <= w'.now && w.nextId <= w'.nextId
    && w.db.jobs.Keys <= w'.db.jobs.Keys
    && w.db.runners.Keys <= w'.db.runners.Keys
    && (forall n :: n in w.db.runners ==> w'.db.runners[n].repo == w.db.runners[n].repo)
    && w.attempted <= w'.attempted
    && (w.cancelled ==> w'.cancelled)
  }

  lemma {:induction false} RowsKept(db: Db, now: int, st: Option<Stmt>)
    requires Keyed(db)
    ensures Keyed(ExecOpt(db, now, st))
    ensures db.jobs.Keys <= ExecOpt(db, now, st).jobs.Keys
    ensures db.runners.Keys <= ExecOpt(db, now, st).runners.Keys
    ensures forall n :: n in db.runners ==> ExecOpt(db, now, st).runners[n].repo == db.runners[n].repo
  {
    if st.Some? {
      ActiveGrowth(db, now, st.value);
    }
  }

  lemma {:induction false} NextGrows(cfg: Config, w: World, l: Label)
    requires Enabled(cfg, w, l) && Keyed(w.db)
    ensures Grows(w, Next(cfg, w, l)) && Keyed(Next(cfg, w, l).db)
  {
    var st := StmtOf(cfg, w, l);
    assert Next(cfg, w, l).db == ExecOpt(w.db, w.now, st);
    RowsKept(w.db, w.now, st);
  }

  lemma {:induction false} InvKept(cfg: Config, w: World, l: Label)
    requires Enabled(cfg, w, l) && Inv(w)
    ensures Inv(Next(cfg, w, l))
  {
    NextGrows(cfg, w, l);
    var w' := Next(cfg, w, l);
    match l {
      case Sweep(gr) => SweepInv(cfg, w, gr);
      case Work(r) => WorkInv(cfg, w, r);
      case _ =>
    }
  }

  lemma {:induction false} TicketKept(cfg: Dispatch.Config, pc: Dispatch.Pc, db: Db, now: int, r: Dispatch.Reply)
    requires WorkerInv(pc, db)
    ensures var next := Dispatch.Step(cfg, pc, db, now, r).next;
            && (next.Age? ==> next.id in db.jobs)
            && (Dispatch.TicketOf(next).Some? ==> Dispatch.TicketOf(next).value.id in db.jobs)
  {
  }

  lemma {:induction false} LaunchKept(cfg: Dispatch.Config, pc: Dispatch.Pc, db: Db, now: int, r: Dispatch.Reply)
    requires WorkerInv(pc, db)
    ensures var m := Dispatch.Step(cfg, pc, db, now, r);
            && (LaunchName(m.next).Some? ==>
                  LaunchName(m.next).value in db.runners ||
                  (m.stmt.Some? && m.stmt.value.InsertRunner? && m.stmt.value.name == LaunchName(m.next).value))
            && (m.run.Some? ==> m.run.value in db.runners)
  {
  }

  lemma {:induction false} StepInv(cfg: Dispatch.Config, pc: Dispatch.Pc, db: Db, now: int, r: Dispatch.Reply)
    requires Keyed(db) && WorkerInv(pc, db)
    ensures var m := Dispatch.Step(cfg, pc, db, now, r);
            && WorkerInv(m.next, ExecOpt(db, now, m.stmt))
            && (m.run.Some? ==> m.run.value in db.runners)
  {
    RowsKept(db, now, Dispatch.Step(cfg, pc, db, now, r).stmt);
    TicketKept(cfg, pc, db, now, r);
    LaunchKept(cfg, pc, db, now, r);
  }

  lemma {:induction false} WorkInv(cfg: Config, w: World, r: Dispatch.Reply)
    requires Enabled(cfg, w, Work(r)) && Inv(w)
    ensures Inv(Next(cfg, w, Work(r)))
  {
    NextGrows(cfg, w, Work(r));
    StepInv(cfg.dispatch, w.worker.pc, w.db, w.now, r);
  }

  lemma {:induction false} SweepInv(cfg: Config, w: World, gr: GitHubSweep.Reply)
    requires Enabled(cfg, w, Sweep(gr)) && Inv(w)
    ensures Inv(Next(cfg, w, Sweep(gr)))
  {
    if w.sweep.List? {
      GitHubSweep.CandidatesExactly(cfg.recon.prefix, w.sweep.repo, gr.runners, w.sweep.c.known);
    }
  }

  /** The invariant holds at every point of every run, and history only grows. */
  lemma {:induction false} RunInv(cfg: Config, ws: seq<World>, ls: seq<Label>, i: nat)
    requires IsRun(cfg, ws, ls) && i < |ws|
    ensures Inv(ws[i])
    decreases i
  {
    if i == 0 {
    } else {
      RunInv(cfg, ws, ls, i - 1);
      assert StepAt(cfg, ws, ls, i - 1);
      InvKept(cfg, ws[i - 1], ls[i - 1]);
    }
  }

  lemma {:induction false} RunGrows(cfg: Config, ws: seq<World>, ls: seq<Label>, i: nat, j: nat)
    requires IsRun(cfg, ws, ls) && i <= j < |ws|
    ensures Grows(ws[i], ws[j])
    decreases j
  {
    if i == j {
    } else {
      RunGrows(cfg, ws, ls, i, j - 1);
      RunInv(cfg, ws, ls, j - 1);
      assert StepAt(cfg, ws, ls, j - 1);
      NextGrows(cfg, ws[j - 1], ls[j - 1]);
    }
  }

  // ---------------- runs are histories ----------------

  /** The statements of the first n steps, with the clock each ran at. */
  ghost function HistoryOf(cfg: Config, ws: seq<World>, ls: seq<Label>, n: nat): JobHistory.History
    requires |ws| == |ls| + 1 && n <= |ls|
  {
    if n == 0 then []
    else
      var st := StmtOf(cfg, ws[n - 1], ls[n - 1]);
      HistoryOf(cfg, ws, ls, n - 1) + (if st.Some? then [JobHistory.At(ws[n - 1].now, st.value)] else [])
  }

  /** One more statement, or none. */
  lemma {:induction false} Appended(db: Db, h: JobHistory.History, now: int, st: Option<Stmt>)
    ensures JobHistory.After(db, h + (if st.Some? then [JobHistory.At(now, st.value)] else [])) ==
            ExecOpt(JobHistory.After(db, h), now, st)
  {
    if st.Some? {
      assert Init(h + [JobHistory.At(now, st.value)]) == h;
    } else {
      assert h + [] == h;
    }
  }

  /** One step's part of the history and of the database, in the same terms. */
  lemma {:induction false} StepHistory(cfg: Config, ws: seq<World>, ls: seq<Label>, i: nat)
    returns (h: JobHistory.History, now: int, st: Option<Stmt>)
    requires IsRun(cfg, ws, ls) && i < |ls|
    ensures h == HistoryOf(cfg, ws, ls, i)
    ensures HistoryOf(cfg, ws, ls, i + 1) == h + (if st.Some? then [JobHistory.At(now, st.value)] else [])
    ensures ws[i + 1].db == ExecOpt(ws[i].db, now, st) && (st.Some? ==> JobHistory.Legal(st.value))
  {
    h, now, st := HistoryOf(cfg, ws, ls, i), ws[i].now, StmtOf(cfg, ws[i], ls[i]);
    assert StepAt(cfg, ws, ls, i);
  }

  /** Every run's database is what its statements, in order, make of the initial one, so each
      theorem of JobHistory (first terminal writer, balance, rank, row shape) holds of runs. */
  lemma {:induction false} RunIsHistory(cfg: Config, ws: seq<World>, ls: seq<Label>, n: nat)
    requires IsRun(cfg, ws, ls) && n <= |ls|
    ensures JobHistory.After(ws[0].db, HistoryOf(cfg, ws, ls, n)) == ws[n].db
    ensures forall e :: e in HistoryOf(cfg, ws, ls, n) ==> JobHistory.Legal(e.st)
  {
    if n == 0 {
    } else {
      RunIsHistory(cfg, ws, ls, n - 1);
      var h, now, st := StepHistory(cfg, ws, ls, n - 1);
      Appended(ws[0].db, h, now, st);
    }
  }

  /** Row shape in every reachable world. */
  lemma {:induction false} ReachableRowsShaped(cfg: Config, ws: seq<World>, ls: seq<Label>, n: nat)
    requires IsRun(cfg, ws, ls) && JobHistory.RowsShaped(ws[0].db) && n <= |ls|
    ensures JobHistory.RowsShaped(ws[n].db)
  {
    RunIsHistory(cfg, ws, ls, n);
    JobHistory.ShapeKept(ws[0].db, HistoryOf(cfg, ws, ls, n));
  }

  /** In every reachable world a completed row carries the first verdict written since its
      last effective retry, effective terminal writes and retries balance, and a status rank
      has dropped only if some retry took effect. */
  lemma {:induction false} ReachableVerdicts(cfg: Config, ws: seq<World>, ls: seq<Label>, n: nat, id: JobId)
    requires IsRun(cfg, ws, ls) && n <= |ls|
    ensures var h, first, last := HistoryOf(cfg, ws, ls, n), ws[0].db, ws[n].db;
      && JobHistory.FirstVerdict(first, h, id) ==
           (if JobHistory.IsDone(last, id) then Some(last.jobs[id].conclusion) else None)
      && JobHistory.Closings(first, h, id) + (if JobHistory.IsDone(first, id) then 1 else 0) ==
           JobHistory.Reopenings(first, h, id) + (if JobHistory.IsDone(last, id) then 1 else 0)
      && (id in first.jobs ==> id in last.jobs)
      && (id in first.jobs && JobHistory.Rank(last.jobs[id].status) < JobHistory.Rank(first.jobs[id].status) ==>
            JobHistory.Reopenings(first, h, id) > 0)
  {
    var h := HistoryOf(cfg, ws, ls, n);
    RunIsHistory(cfg, ws, ls, n);
    JobHistory.FirstTerminalWriterWins(ws[0].db, h, id);
    JobHistory.ClosingsBalance(ws[0].db, h, id);
    if id in ws[0].db.jobs {
      JobHistory.RankFallsOnlyByRetry(ws[0].db, h, id);
    }
  }
}
