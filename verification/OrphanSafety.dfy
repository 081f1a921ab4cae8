/** The orphan sweep and dispatches that overlap it. */
module OrphanSafety {
  import opened Store
  import opened System
  import Dispatch
  import Reconcile

  /** What is fixed when the active rows are read: the time, docker's contents, and whether
      the row of the name under study was active. */
  datatype Base = Base(at: int, docker: map<string, int>, claimed: bool)

  predicate Named(rows: seq<Reconcile.RowRef>, n: string) {
    exists i :: 0 <= i < |rows| && rows[i].name == n
  }

  /** Any container called n was created at or after the snapshot. */
  predicate Recent(docker: map<string, int>, n: string, at: int) {
    n in docker ==> docker[n] >= at
  }

  predicate Covered(c: Reconcile.Ctx, docker: map<string, int>, n: string, b: Base) {
    c.snap == Reconcile.Snap(true, b.at) &&
    (b.claimed ==> Named(c.todo, n) || n in c.alive || Recent(docker, n, b.at))
  }

  /** A listed container older than the snapshot existed then, unclaimed. */
  predicate ListedOld(cs: seq<Reconcile.Container>, known: set<string>, n: string, b: Base) {
    forall i :: 0 <= i < |cs| && cs[i].name == n && cs[i].createdAt.Some? && cs[i].createdAt.value < b.at ==>
      n in b.docker && b.docker[n] == cs[i].createdAt.value && (b.claimed ==> n in known)
  }

  /** The reconciler's progress since the snapshot keeps n protected. */
  predicate Protected(pc: Reconcile.Pc, docker: map<string, int>, n: string, b: Base) {
    match pc
    case Begin => false
    case Snapped(rows, snap) => snap == Reconcile.Snap(true, b.at) && (b.claimed ==> Named(rows, n))
    case Rows(c) => Covered(c, docker, n, b)
    case Clear(_, c) => Covered(c, docker, n, b)
    case Reap(row, c) => c.snap == Reconcile.Snap(true, b.at) && (row.name == n || Covered(c, docker, n, b))
    case Reaped(_, c) => Covered(c, docker, n, b)
    case ListAll(known, snap) =>
      snap == Reconcile.Snap(true, b.at) && (b.claimed ==> n in known || Recent(docker, n, b.at))
    case Listed(cs, known, snap) => snap == Reconcile.Snap(true, b.at) && ListedOld(cs, known, n, b)
    case Orphans(cs, known, _, snap) => snap == Reconcile.Snap(true, b.at) && ListedOld(cs, known, n, b)
    case Ended => true
  }

  ghost predicate Tracked(w: World, n: string, b: Base) {
    && b.at <= w.now
    && (n in w.docker && w.docker[n] < b.at ==> n in b.docker && b.docker[n] == w.docker[n])
    && Protected(w.recon, w.docker, n, b)
  }

  lemma {:induction false} NamedRest(rows: seq<Reconcile.RowRef>, n: string)
    requires rows != [] && Named(rows, n)
    ensures rows[0].name == n || Named(rows[1..], n)
  {
    var i :| 0 <= i < |rows| && rows[i].name == n;
    if i > 0 {
      assert rows[1..][i - 1].name == n;
    }
  }

  lemma {:induction false} ListingTracked(cfg: Reconcile.Config, cs: seq<Reconcile.Container>, known: set<string>,
                                          docker: map<string, int>, n: string, b: Base)
    requires Reconcile.HonestContainers(cfg.prefix, cs, docker)
    requires n in docker && docker[n] < b.at ==> n in b.docker && b.docker[n] == docker[n]
    requires b.claimed ==> n in known || Recent(docker, n, b.at)
    ensures ListedOld(cs, known, n, b)
  {
    forall i | 0 <= i < |cs| && cs[i].name == n ensures n in docker {
      assert Reconcile.ContainerNames(cs)[i] in Reconcile.ContainerNames(cs);
      assert n in Reconcile.Prefixed(cfg.prefix, docker);
    }
  }

  /** One sub-step of the reconciler itself. */
  lemma {:induction false} ReconTracked(cfg: Reconcile.Config, pc: Reconcile.Pc, s: Reconcile.St, now: int, r: Reconcile.Reply,
                                        n: string, b: Base)
    requires Reconcile.Honest(cfg, pc, s, r) && !pc.Begin? && !pc.Ended?
    requires n in s.docker && s.docker[n] < b.at ==> n in b.docker && b.docker[n] == s.docker[n]
    requires Protected(pc, s.docker, n, b)
    ensures var m := Reconcile.Step(cfg, pc, s, now, r);
            Protected(m.next, Reconcile.Apply(s, m, now).docker, n, b)
  {
    match pc {
      case Rows(c) =>
        if c.todo != [] && Named(c.todo, n) {
          NamedRest(c.todo, n);
        }
      case ListAll(known, snap) =>
        if !r.err {
          ListingTracked(cfg, r.cs, known, s.docker, n, b);
        }
      case Orphans(cs, known, clock, snap) =>
        assert forall i :: 0 <= i < |cs| - 1 ==> cs[1..][i] == cs[i + 1];
      case _ =>
    }
  }

  /** Others may take containers away, or start them now. */
  lemma {:induction false} OthersTracked(cfg: Config, w: World, l: Label, n: string, b: Base)
    requires Enabled(cfg, w, l) && !l.Recon? && Tracked(w, n, b) && !w.recon.Ended?
    ensures var w' := Next(cfg, w, l);
      && w'.recon == w.recon && w'.now >= w.now
      && (n in w'.docker ==> (n in w.docker && w'.docker[n] == w.docker[n]) || w'.docker[n] >= b.at)
  {
  }

  lemma {:induction false} ProtectedKept(pc: Reconcile.Pc, docker: map<string, int>, docker': map<string, int>, n: string, b: Base)
    requires Protected(pc, docker, n, b)
    requires n in docker' ==> (n in docker && docker'[n] == docker[n]) || docker'[n] >= b.at
    ensures Protected(pc, docker', n, b)
  {
  }

  lemma {:induction false} TrackedKept(cfg: Config, w: World, l: Label, n: string, b: Base)
    requires Enabled(cfg, w, l) && Tracked(w, n, b) && !w.recon.Ended?
    ensures Tracked(Next(cfg, w, l), n, b)
  {
    if l.Recon? {
      ReconTracked(cfg.recon, w.recon, Reconcile.St(w.db, w.docker), w.now, l.rr, n, b);
    } else {
      OthersTracked(cfg, w, l, n, b);
      ProtectedKept(w.recon, w.docker, Next(cfg, w, l).docker, n, b);
    }
  }

  lemma {:induction false} TrackedThrough(cfg: Config, ws: seq<World>, ls: seq<Label>, i: nat, j: nat, n: string, b: Base)
    requires IsRun(cfg, ws, ls) && i <= j <= |ls| && Tracked(ws[i], n, b)
    requires forall k :: i <= k <= j ==> !ws[k].recon.Ended?
    ensures Tracked(ws[j], n, b)
    decreases j
  {
    if i == j {
    } else {
      TrackedThrough(cfg, ws, ls, i, j - 1, n, b);
      assert StepAt(cfg, ws, ls, j - 1);
      TrackedKept(cfg, ws[j - 1], ls[j - 1], n, b);
    }
  }

  /** Step e of the reconciler removes the container listed first as an orphan. */
  predicate RemovesOrphan(cfg: Config, w: World, l: Label) {
    l.Recon? && w.recon.Orphans? && w.recon.cs != [] && ReconMoved(cfg, w, l.rr).kill == Some(w.recon.cs[0].name)
  }

  lemma {:induction false} SnapshotTracks(cfg: Config, ws: seq<World>, ls: seq<Label>, k: nat, n: string)
    requires IsRun(cfg, ws, ls) && k < |ls| && ws[k].recon.Begin? && ls[k].Recon? && !ls[k].rr.err
    ensures Tracked(ws[k + 1], n, Base(ws[k].now, ws[k].docker, n in Active(ws[k].db)))
  {
    assert StepAt(cfg, ws, ls, k);
    var rows := ls[k].rr.rows;
    if n in Active(ws[k].db) {
      assert n in Reconcile.RowNames(rows);
      var i :| 0 <= i < |rows| && Reconcile.RowNames(rows)[i] == n;
      assert rows[i].name == n;
    }
  }

  lemma {:induction false} StatementAdds(db: Db, now: int, st: Stmt, n: string)
    requires n !in db.runners && n in Exec(db, now, st).runners
    ensures st.InsertRunner? && st.name == n
  {
  }

  lemma {:induction false} StepInserts(cfg: Dispatch.Config, pc: Dispatch.Pc, db: Db, now: int, r: Dispatch.Reply)
    ensures var st := Dispatch.Step(cfg, pc, db, now, r).stmt;
            st.Some? && st.value.InsertRunner? ==> pc.Insert? && !r.err && st.value.name == r.name
  {
  }

  /** A row appears only by the worker's insert. */
  lemma {:induction false} OnlyInsertAdds(cfg: Config, w: World, l: Label, n: string)
    requires Enabled(cfg, w, l)
    ensures n !in w.db.runners && n in Next(cfg, w, l).db.runners ==>
      l.Work? && w.worker.Dispatching? && w.worker.pc.Insert? && !l.r.err && l.r.name == n
  {
    var st := StmtOf(cfg, w, l);
    assert Next(cfg, w, l).db == ExecOpt(w.db, w.now, st);
    if st.Some? && n !in w.db.runners && n in Exec(w.db, w.now, st.value).runners {
      StatementAdds(w.db, w.now, st.value, n);
      if l.Work? {
        StepInserts(cfg.dispatch, w.worker.pc, w.db, w.now, l.r);
      }
    }
  }

  /** No row inserted in steps k..e takes a name some container carried at step k. Names end in
      eight random hex digits, so the original expects this and does not check it. */
  ghost predicate FreshMints(ws: seq<World>, ls: seq<Label>, k: nat, e: nat)
    requires k <= e <= |ls| < |ws|
  {
    forall i :: k <= i < e && ls[i].Work? && ws[i].worker.Dispatching? && ws[i].worker.pc.Insert? && !ls[i].r.err ==>
      ls[i].r.name !in ws[k].docker
  }

  lemma {:induction false} NeverInserted(cfg: Config, ws: seq<World>, ls: seq<Label>, k: nat, j: nat, e: nat, n: string)
    requires IsRun(cfg, ws, ls) && k <= j <= e <= |ls| && FreshMints(ws, ls, k, e)
    requires n in ws[k].docker && n !in ws[k].db.runners
    ensures n !in ws[j].db.runners
    decreases j
  {
    if j == k {
    } else {
      NeverInserted(cfg, ws, ls, k, j - 1, e, n);
      assert StepAt(cfg, ws, ls, j - 1);
      OnlyInsertAdds(cfg, ws[j - 1], ls[j - 1], n);
    }
  }

  /** The listed entry an orphan removal acts on: it was there at the snapshot, unclaimed. */
  lemma {:induction false} RemovedWasListedOld(cfg: Config, ws: seq<World>, ls: seq<Label>, k: nat, e: nat)
    requires IsRun(cfg, ws, ls) && k < e < |ls|
    requires ws[k].recon.Begin? && ls[k].Recon? && !ls[k].rr.err
    requires forall i :: k < i <= e ==> !ws[i].recon.Ended?
    requires RemovesOrphan(cfg, ws[e], ls[e]) && ws[e].recon.cs[0].createdAt.Some?
    requires ws[e].recon.clock - ws[k].now < cfg.recon.grace
    ensures var c := ws[e].recon.cs[0];
      c.name in ws[k].docker && ws[k].docker[c.name] == c.createdAt.value && c.name !in Active(ws[k].db)
  {
    var c := ws[e].recon.cs[0];
    var b := Base(ws[k].now, ws[k].docker, c.name in Active(ws[k].db));
    SnapshotTracks(cfg, ws, ls, k, c.name);
    TrackedThrough(cfg, ws, ls, k + 1, e, c.name, b);
  }

  /** Suppose the active-row read at step k succeeded, the same tick's orphan loop read its
      clock less than `grace` later, its step e removes whatever container holds the name of a
      dated entry, and no row was inserted under a name already carried at the snapshot. Then
      that name had no active row at the snapshot and none was inserted since: if it has a row
      at all, or docker was ever asked to run it, the row was there at the snapshot, finished.
      So the container of a row that was active at the snapshot, or that was inserted after
      it, is never removed, however dispatches overlap the tick. */
  lemma {:induction false} OrphanSweepIsSafe(cfg: Config, ws: seq<World>, ls: seq<Label>, k: nat, e: nat)
    requires IsRun(cfg, ws, ls) && k < e < |ls|
    requires ws[k].recon.Begin? && ls[k].Recon? && !ls[k].rr.err
    requires forall i :: k < i <= e ==> !ws[i].recon.Ended?
    requires RemovesOrphan(cfg, ws[e], ls[e]) && ws[e].recon.cs[0].createdAt.Some?
    requires ws[e].recon.clock - ws[k].now < cfg.recon.grace
    requires FreshMints(ws, ls, k, e)
    ensures var n := ws[e].recon.cs[0].name;
      && n !in Active(ws[k].db)
      && (n in ws[e].db.runners || n in ws[e].attempted ==>
            n in ws[k].db.runners && ws[k].db.runners[n].status.Finished?)
  {
    var n := ws[e].recon.cs[0].name;
    RemovedWasListedOld(cfg, ws, ls, k, e);
    RunInv(cfg, ws, ls, e);
    if n !in ws[k].db.runners {
      NeverInserted(cfg, ws, ls, k, e, e, n);
    }
  }

  /** A pool of one queued job, at a moment one grace period after the epoch. */
  function OneJob(cfg: Config, job: Job, queue: seq<JobId>, docker: map<string, int>, recon: Reconcile.Pc): World {
    Quiet(cfg.recon.grace, Db(map[7 := job], map[], {1}, map[job.repo := 1]), queue, docker, {}).(recon := recon)
  }

  /** A tick up to its listing, over a docker that holds only n, a grace period old. */
  lemma {:induction false} SnapshotRun(cfg: Config, n: string, job: Job) returns (ws: seq<World>, ls: seq<Label>)
    ensures IsRun(cfg, ws, ls) && |ls| == 4
    ensures ws[1] == OneJob(cfg, job, [7], map[n := 0], Reconcile.Begin) && ls[1].Recon? && !ls[1].rr.err
    ensures forall i :: 1 <= i <= 4 ==> !ws[i].recon.Ended?
    ensures ws[4] == OneJob(cfg, job, [7], map[n := 0], Reconcile.ListAll({}, Reconcile.Snap(true, cfg.recon.grace)))
  {
    var r := Reconcile.Reply(false, [], []);
    var w := OneJob(cfg, job, [7], map[n := 0], Reconcile.Ended);
    assert Reconcile.RowNames([]) == [] && Active(w.db) == {};
    ws, ls := [w], [];
    ws, ls := Extend(cfg, ws, ls, ReconTick);
    ws, ls := Extend(cfg, ws, ls, Recon(r));
    ws, ls := Extend(cfg, ws, ls, Recon(r));
    ws, ls := Extend(cfg, ws, ls, Recon(r));
  }

  lemma {:induction false} ListingRun(cfg: Config, n: string, job: Job) returns (ws: seq<World>, ls: seq<Label>)
    requires cfg.recon.prefix <= n
    ensures IsRun(cfg, ws, ls) && |ls| == 6
    ensures ws[1] == OneJob(cfg, job, [7], map[n := 0], Reconcile.Begin) && ls[1].Recon? && !ls[1].rr.err
    ensures forall i :: 1 <= i <= 6 ==> !ws[i].recon.Ended?
    ensures var snap := Reconcile.Snap(true, cfg.recon.grace);
            ws[6] == OneJob(cfg, job, [7], map[n := 0],
                            Reconcile.Orphans([Reconcile.Container(n, Some(0))], {}, cfg.recon.grace, snap))
  {
    var cs := [Reconcile.Container(n, Some(0))];
    ws, ls := SnapshotRun(cfg, n, job);
    assert Reconcile.ContainerNames(cs) == [n] && Reconcile.Prefixed(cfg.recon.prefix, ws[4].docker) == {n};
    ws, ls := Extend(cfg, ws, ls, Recon(Reconcile.Reply(false, [], cs)));
    ws, ls := Extend(cfg, ws, ls, Recon(Reconcile.Reply(false, [], cs)));
  }

  function MintReply(n: string): Dispatch.Reply {
    Dispatch.Reply(false, Dispatch.Found("queued", ""), false, n)
  }

  /** From there n vanishes and the worker takes the job. */
  lemma {:induction false} ReceiveRun(cfg: Config, n: string, job: Job, ws: seq<World>, ls: seq<Label>)
    returns (ws': seq<World>, ls': seq<Label>)
    requires IsRun(cfg, ws, ls) && ws[|ls|] == OneJob(cfg, job, [7], map[n := 0], ws[|ls|].recon)
    ensures IsRun(cfg, ws', ls') && |ls'| == |ls| + 2 && ls <= ls' && ws <= ws'
    ensures ws'[|ls'|] == OneJob(cfg, job, [], map[], ws[|ls|].recon).(worker := Dispatching(Dispatch.Load(7)))
    ensures forall i :: |ls| <= i <= |ls'| ==> ws'[i].recon == ws[|ls|].recon
  {
    assert map[n := 0] - {n} == map[];
    ws', ls' := Extend(cfg, ws, ls, Vanish(n));
    ws', ls' := Extend(cfg, ws', ls', Receive);
  }

  /** A dispatch sub-step that runs no statement, arms no timer and starts nothing. */
  lemma {:induction false} ReadRun(cfg: Config, ws: seq<World>, ls: seq<Label>, r: Dispatch.Reply)
    returns (ws': seq<World>, ls': seq<Label>)
    requires IsRun(cfg, ws, ls) && cfg.recon.prefix <= r.name
    requires var w := ws[|ls|];
      && w.worker.Dispatching? && !w.worker.pc.Ended?
      && Moved(cfg, w, r) == Dispatch.Go(Moved(cfg, w, r).next)
    ensures IsRun(cfg, ws', ls') && |ls'| == |ls| + 1 && ls <= ls' && ws <= ws'
    ensures ws'[|ls'|] == ws[|ls|].(worker := Dispatching(Moved(cfg, ws[|ls|], r).next))
  {
    ws', ls' := Extend(cfg, ws, ls, Work(r));
  }

  /** The job is owed a dispatch, the pool has room, and GitHub says it is queued. */
  lemma {:induction false} ClaimRun(cfg: Config, n: string, job: Job, ws: seq<World>, ls: seq<Label>)
    returns (ws': seq<World>, ls': seq<Label>)
    requires cfg.recon.prefix <= n && job.status.Pending? && cfg.dispatch.maxRunners >= 1 && IsRun(cfg, ws, ls)
    requires ws[|ls|] == OneJob(cfg, job, [], map[], ws[|ls|].recon).(worker := Dispatching(Dispatch.Load(7)))
    ensures IsRun(cfg, ws', ls') && |ls'| == |ls| + 6 && ls <= ls' && ws <= ws'
    ensures ws'[|ls'|] == ws[|ls|].(worker := Dispatching(Dispatch.Insert(Dispatch.Ticket(7, job, cfg.recon.grace))))
    ensures forall i :: |ls| <= i <= |ls'| ==> ws'[i].recon == ws[|ls|].recon
  {
    assert Active(ws[|ls|].db) == {};
    ws', ls' := ReadRun(cfg, ws, ls, MintReply(n));
    ws', ls' := ReadRun(cfg, ws', ls', MintReply(n));
    ws', ls' := ReadRun(cfg, ws', ls', MintReply(n));
    ws', ls' := ReadRun(cfg, ws', ls', MintReply(n));
    ws', ls' := ReadRun(cfg, ws', ls', MintReply(n));
    ws', ls' := ReadRun(cfg, ws', ls', MintReply(n));
  }

  /** Fresh names are needed: the listed container vanishes, a dispatch mints its very name,
      inserts the row and launches, and the tick removes the new container of the active row. */
  lemma {:induction false} NameCollisionRemovesLaunched(cfg: Config, n: string, job: Job) returns (ws: seq<World>, ls: seq<Label>)
    requires cfg.recon.prefix <= n && cfg.recon.grace > 0 && cfg.dispatch.maxRunners >= 1 && job.status.Pending?
    ensures IsRun(cfg, ws, ls) && |ls| == 18
    ensures ws[1].recon.Begin? && ls[1].Recon? && !ls[1].rr.err && forall i :: 1 < i <= 17 ==> !ws[i].recon.Ended?
    ensures RemovesOrphan(cfg, ws[17], ls[17]) && ws[17].recon.cs[0] == Reconcile.Container(n, Some(0))
    ensures ws[17].recon.clock - ws[1].now < cfg.recon.grace
    ensures n !in ws[1].db.runners && n in Active(ws[17].db)
    ensures n in ws[17].docker && ws[17].docker[n] >= ws[1].now && n !in ws[18].docker
  {
    ws, ls := ListingRun(cfg, n, job);
    ws, ls := ReceiveRun(cfg, n, job, ws, ls);
    ws, ls := ClaimRun(cfg, n, job, ws, ls);
    ws, ls := LaunchRun(cfg, n, ws, ls);
    ws, ls := Extend(cfg, ws, ls, Recon(Reconcile.Reply(false, [], [])));
  }

  /** Insert, launch, and the container is there. */
  lemma {:induction false} LaunchRun(cfg: Config, n: string, ws: seq<World>, ls: seq<Label>)
    returns (ws': seq<World>, ls': seq<Label>)
    requires IsRun(cfg, ws, ls) && cfg.recon.prefix <= n
    requires var w := ws[|ls|]; w.worker.Dispatching? && w.worker.pc.Insert? && n !in w.db.runners && n !in w.docker
    ensures IsRun(cfg, ws', ls') && |ls'| == |ls| + 3 && ls <= ls' && ws <= ws'
    ensures var w, w' := ws[|ls|], ws'[|ls'|];
      && w'.recon == w.recon && n in Active(w'.db) && w'.docker == w.docker[n := w.now] && w'.now == w.now
    ensures forall i :: |ls| <= i <= |ls'| ==> ws'[i].recon == ws[|ls|].recon
  {
    var ws1, ls1 := InsertRun(cfg, n, ws, ls);
    ws', ls' := Extend(cfg, ws1, ls1, Work(MintReply(n)));
    assert ws'[|ls'|] == ws1[|ls1|].(worker := ws'[|ls'|].worker, attempted := ws1[|ls1|].attempted + {n});
    ws', ls' := Extend(cfg, ws', ls', Appear(n));
  }

  lemma {:induction false} InsertRun(cfg: Config, n: string, ws: seq<World>, ls: seq<Label>)
    returns (ws': seq<World>, ls': seq<Label>)
    requires IsRun(cfg, ws, ls) && cfg.recon.prefix <= n
    requires var w := ws[|ls|]; w.worker.Dispatching? && w.worker.pc.Insert? && n !in w.db.runners
    ensures IsRun(cfg, ws', ls') && |ls'| == |ls| + 1 && ls <= ls' && ws <= ws'
    ensures var w, w' := ws[|ls|], ws'[|ls'|];
      && w'.recon == w.recon && w'.docker == w.docker && w'.now == w.now && n in Active(w'.db)
      && w'.worker == Dispatching(Dispatch.Launch(w.worker.pc.t, n, 1))
  {
    ws', ls' := Extend(cfg, ws, ls, Work(MintReply(n)));
  }

  /** A one-row pool whose busy runner has a container as old as grace asks. */
  function LiveWorld(cfg: Config, n: string, row: Runner, recon: Reconcile.Pc): World {
    Quiet(if cfg.recon.grace > 0 then cfg.recon.grace else 0, Db(map[], map[n := row], {}, map[]), [], map[n := 0], {n})
      .(recon := recon)
  }

  /** A tick whose row read fails, up to its orphan loop. */
  lemma {:induction false} UnclaimedRun(cfg: Config, n: string, row: Runner, cs: seq<Reconcile.Container>)
    returns (ws: seq<World>, ls: seq<Label>)
    requires cfg.recon.prefix <= n && row.runnerName == n && cs == [Reconcile.Container(n, Some(0))]
    ensures IsRun(cfg, ws, ls) && |ls| == 4 && ws[0] == LiveWorld(cfg, n, row, Reconcile.Ended)
    ensures var now := ws[0].now;
            ws[4] == LiveWorld(cfg, n, row, Reconcile.Orphans(cs, {}, now, Reconcile.Snap(false, now)))
  {
    var w := LiveWorld(cfg, n, row, Reconcile.Ended);
    assert Reconcile.ContainerNames(cs) == [n] && Reconcile.Prefixed(cfg.recon.prefix, w.docker) == {n};
    ws, ls := [w], [];
    ws, ls := Extend(cfg, ws, ls, ReconTick);
    ws, ls := Extend(cfg, ws, ls, Recon(Reconcile.Reply(true, [], [])));
    ws, ls := Extend(cfg, ws, ls, Recon(Reconcile.Reply(false, [], cs)));
    ws, ls := Extend(cfg, ws, ls, Recon(Reconcile.Reply(false, [], cs)));
  }

  /** The snapshot must succeed: when the active-row read fails, the sweep goes on with nothing
      claimed and removes the container of a busy runner. */
  lemma {:induction false} FailedSnapshotRemovesLive(cfg: Config, n: string, row: Runner)
    returns (ws: seq<World>, ls: seq<Label>)
    requires cfg.recon.prefix <= n && row.runnerName == n && row.status.Busy?
    ensures |ls| == 5 && IsRun(cfg, ws, ls) && RemovesOrphan(cfg, ws[4], ls[4])
    ensures n in ws[0].docker && n in Active(ws[0].db)
    ensures n !in ws[5].docker && ws[5].db == ws[0].db
  {
    var cs := [Reconcile.Container(n, Some(0))];
    ws, ls := UnclaimedRun(cfg, n, row, cs);
    ws, ls := Extend(cfg, ws, ls, Recon(Reconcile.Reply(false, [], cs)));
  }

  // ---------------- the ghost branch ----------------

  /** Nobody but the reconciler moves it while a tick is under way. */
  lemma {:induction false} ReconUntouched(cfg: Config, ws: seq<World>, ls: seq<Label>, i: nat, j: nat)
    requires IsRun(cfg, ws, ls) && i <= j <= |ls| && !ws[i].recon.Ended?
    requires forall x :: i <= x < j ==> !ls[x].Recon?
    ensures ws[j].recon == ws[i].recon
    decreases j
  {
    if i == j {
    } else {
      ReconUntouched(cfg, ws, ls, i, j - 1);
      assert StepAt(cfg, ws, ls, j - 1);
    }
  }

  /** The inspection of row n: docker is asked, and answers or not. */
  predicate Inspects(w: World, l: Label, n: string) {
    l.Recon? && w.recon.Rows? && w.recon.c.todo != [] && w.recon.c.todo[0].name == n
  }

  /** Step l takes the ghost branch for row n and finishes it. */
  ghost predicate GhostFinishes(cfg: Config, w: World, l: Label, n: string) {
    l.Recon? && w.recon.Clear? && StmtOf(cfg, w, l) == Some(SetRunner(n, Finished))
  }

  lemma {:induction false} InspectionDecides(cfg: Config, w: World, l: Label, n: string)
    requires Enabled(cfg, w, l) && Inspects(w, l, n)
    ensures var next := Next(cfg, w, l).recon;
      && !next.Ended?
      && (next.Clear? <==> !l.rr.err && n !in w.docker)
      && (next.Clear? ==> next.row.name == n)
  {
  }

  /** The ghost branch, which alone finishes rows so, always goes back to an inspection that
      found no container, with the reconciler untouched in between. */
  lemma {:induction false} GhostWasInspected(cfg: Config, ws: seq<World>, ls: seq<Label>, e: nat) returns (k: nat)
    requires IsRun(cfg, ws, ls) && e <= |ls| && ws[e].recon.Clear?
    ensures k < e && Inspects(ws[k], ls[k], ws[e].recon.row.name) && !ls[k].rr.err
    ensures ws[e].recon.row.name !in ws[k].docker
    ensures forall x :: k < x < e ==> !ls[x].Recon?
    decreases e
  {
    if e == 0 {
      assert false;
    } else {
      assert StepAt(cfg, ws, ls, e - 1);
      if ls[e - 1].Recon? {
        k := e - 1;
      } else {
        k := GhostWasInspected(cfg, ws, ls, e - 1);
      }
    }
  }

  /** Take an inspection of row n at step k and the reconciler's next sub-step at e. Step e
      finishes the row as a ghost exactly if docker answered at k, had no container of that name
      then, and the write succeeds, even if the container is there by e and whatever the row
      says. */
  lemma {:induction false} GhostFinishedExactlyWhen(cfg: Config, ws: seq<World>, ls: seq<Label>, k: nat, e: nat, n: string)
    requires IsRun(cfg, ws, ls) && k < e < |ls| && Inspects(ws[k], ls[k], n)
    requires ls[e].Recon? && forall x :: k < x < e ==> !ls[x].Recon?
    ensures GhostFinishes(cfg, ws[e], ls[e], n) <==> !ls[k].rr.err && n !in ws[k].docker && !ls[e].rr.err
    ensures GhostFinishes(cfg, ws[e], ls[e], n) && n in ws[e].db.runners ==>
      n in ws[e + 1].db.runners && ws[e + 1].db.runners[n].status.Finished?
  {
    assert StepAt(cfg, ws, ls, k);
    assert StepAt(cfg, ws, ls, e);
    InspectionDecides(cfg, ws[k], ls[k], n);
    ReconUntouched(cfg, ws, ls, k + 1, e);
    assert ws[e + 1].db == ExecOpt(ws[e].db, ws[e].now, StmtOf(cfg, ws[e], ls[e]));
  }

  /** A pool with one starting row whose launch docker has not finished yet. */
  function LaunchingWorld(n: string, row: Runner, recon: Reconcile.Pc): World {
    Quiet(0, Db(map[], map[n := row], {}, map[]), [], map[], {n}).(recon := recon)
  }

  lemma {:induction false} GhostRun(cfg: Config, n: string, row: Runner, answer: Reconcile.Reply)
    returns (ws: seq<World>, ls: seq<Label>)
    requires row.status.Starting? && row.runnerName == n
    requires answer == Reconcile.Reply(false, [Reconcile.RowRef(n, row.startedAt)], [])
    ensures IsRun(cfg, ws, ls) && |ls| == 4 && ws[0] == LaunchingWorld(n, row, Reconcile.Ended)
    ensures ws[4] == LaunchingWorld(n, row, Reconcile.Clear(answer.rows[0], Reconcile.Ctx([], 0, {}, Reconcile.Snap(true, 0))))
  {
    assert Reconcile.RowNames(answer.rows) == [n] && answer.rows[1..] == [];
    assert Active(LaunchingWorld(n, row, Reconcile.Begin).db) == {n};
    ws, ls := [LaunchingWorld(n, row, Reconcile.Ended)], [];
    ws, ls := Extend(cfg, ws, ls, ReconTick);
    ws, ls := Extend(cfg, ws, ls, Recon(answer));
    ws, ls := Extend(cfg, ws, ls, Recon(answer));
    ws, ls := Extend(cfg, ws, ls, Recon(answer));
  }

  /** The ghost sweep grants no grace: a tick that falls between the row's insert and the
      container's appearance finishes the row, and the container then lives without one. */
  lemma {:induction false} GhostSweepHasNoGrace(cfg: Config, n: string, row: Runner)
    returns (ws: seq<World>, ls: seq<Label>)
    requires row.status.Starting? && row.runnerName == n
    ensures IsRun(cfg, ws, ls) && |ls| == 6 && n in Active(ws[0].db) && n in ws[0].attempted
    ensures n in ws[6].docker && n in ws[6].db.runners && ws[6].db.runners[n].status.Finished?
  {
    var answer := Reconcile.Reply(false, [Reconcile.RowRef(n, row.startedAt)], []);
    ws, ls := GhostRun(cfg, n, row, answer);
    ws, ls := Extend(cfg, ws, ls, Recon(answer));
    ws, ls := Extend(cfg, ws, ls, Appear(n));
  }
}
