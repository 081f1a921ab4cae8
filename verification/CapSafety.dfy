/** The concurrency cap over whole runs. */
module CapSafety {
  import opened Store
  import opened System
  import Dispatch

  /** One in_progress event that turned a finished runner row busy again. */
  function Flips(w: World, l: Label): nat {
    if l.Outside? && Revives(w.db, l.st) then 1 else 0
  }

  function FlipCount(ws: seq<World>, ls: seq<Label>, n: nat): nat
    requires |ws| == |ls| + 1 && n <= |ls|
  {
    if n == 0 then 0 else FlipCount(ws, ls, n - 1) + Flips(ws[n - 1], ls[n - 1])
  }

  /** The worker has read a count below the cap and has not inserted its row yet. */
  predicate Admitted(pc: Dispatch.Pc) {
    pc.Locate? || pc.Unmapped? || pc.Mint? || pc.Verify? || pc.Confirm? || pc.Insert?
  }

  ghost predicate Fits(db: Db, admitted: bool, bound: int) {
    |Active(db)| + (if admitted then 1 else 0) <= bound
  }

  ghost predicate Within(w: World, bound: int) {
    Fits(w.db, w.worker.Dispatching? && Admitted(w.worker.pc), bound)
  }

  lemma {:induction false} OptGrowth(db: Db, now: int, st: Option<Stmt>)
    requires Keyed(db)
    ensures |Active(ExecOpt(db, now, st))| <=
            |Active(db)| + (if st.Some? && (Inserts(db, st.value) || Revives(db, st.value)) then 1 else 0)
  {
    if st.Some? {
      ActiveGrowth(db, now, st.value);
    }
  }

  /** A dispatch sub-step reserves its place with the count and uses it with the insert. */
  lemma {:induction false} DispatchFits(cfg: Dispatch.Config, pc: Dispatch.Pc, db: Db, now: int, r: Dispatch.Reply, bound: int)
    requires Keyed(db) && Fits(db, Admitted(pc), bound) && cfg.maxRunners <= bound
    ensures var m := Dispatch.Step(cfg, pc, db, now, r);
            Fits(ExecOpt(db, now, m.stmt), Admitted(m.next), bound)
  {
    var m := Dispatch.Step(cfg, pc, db, now, r);
    OptGrowth(db, now, m.stmt);
    assert m.stmt.Some? ==> !Admitted(m.next) && (Inserts(db, m.stmt.value) ==> pc.Insert?) && !Revives(db, m.stmt.value);
    assert Admitted(m.next) ==> Admitted(pc) || |Active(db)| < cfg.maxRunners;
  }

  /** Only the worker's own steps admit a dispatch or insert a row, and only an in_progress
      event revives one. */
  lemma {:induction false} OthersGrow(cfg: Config, w: World, l: Label)
    requires Enabled(cfg, w, l) && !l.Work? && Keyed(w.db)
    ensures var w' := Next(cfg, w, l);
      && (w'.worker.Dispatching? && Admitted(w'.worker.pc) ==> w.worker.Dispatching? && Admitted(w.worker.pc))
      && |Active(w'.db)| <= |Active(w.db)| + Flips(w, l)
  {
    var st := StmtOf(cfg, w, l);
    assert Next(cfg, w, l).db == ExecOpt(w.db, w.now, st);
    OptGrowth(w.db, w.now, st);
  }

  lemma {:induction false} StepWithin(cfg: Config, w: World, l: Label, bound: int)
    requires Enabled(cfg, w, l) && Keyed(w.db) && Within(w, bound) && cfg.dispatch.maxRunners <= bound
    ensures Within(Next(cfg, w, l), bound + Flips(w, l))
  {
    if l.Work? {
      DispatchFits(cfg.dispatch, w.worker.pc, w.db, w.now, l.r, bound);
    } else {
      OthersGrow(cfg, w, l);
    }
  }

  /** At every point of every run the active rows number at most the larger of the cap and
      the count at start-up, plus the revivals so far. The cap check is not atomic with the
      insert; one worker is what makes it hold. */
  lemma {:induction false} CapHolds(cfg: Config, ws: seq<World>, ls: seq<Label>, n: nat)
    requires IsRun(cfg, ws, ls) && n <= |ls|
    ensures var cap, start := cfg.dispatch.maxRunners, |Active(ws[0].db)|;
            Within(ws[n], (if start >= cap then start else cap) + FlipCount(ws, ls, n))
  {
    if n == 0 {
    } else {
      CapHolds(cfg, ws, ls, n - 1);
      RunInv(cfg, ws, ls, n - 1);
      assert StepAt(cfg, ws, ls, n - 1);
      var cap, start := cfg.dispatch.maxRunners, |Active(ws[0].db)|;
      StepWithin(cfg, ws[n - 1], ls[n - 1], (if start >= cap then start else cap) + FlipCount(ws, ls, n - 1));
    }
  }

  // ---------------- the bound is reached ----------------

  /** The runner-row half of an in_progress event, on statements. */
  lemma {:induction false} FlipStatement(db: Db, now: int, n: string)
    requires Keyed(db) && n in db.runners && db.runners[n].status.Finished?
    ensures var st := SetRunnerByName(n, Busy); var db' := Exec(db, now, st);
      && Revives(db, st) && Active(db') == Active(db) + {n} && n !in Active(db)
      && db'.jobs == db.jobs && db'.runners.Keys == db.runners.Keys
      && (forall x :: x in db.runners && x != n ==> db'.runners[x] == db.runners[x])
  {
  }

  /** One in_progress event: the job row advances, and its finished runner row turns busy. */
  lemma {:induction false} Revive(cfg: Config, ws: seq<World>, ls: seq<Label>, id: JobId, n: string)
    returns (ws': seq<World>, ls': seq<Label>)
    requires IsRun(cfg, ws, ls) && n != ""
    requires var db := ws[|ls|].db;
             id in db.jobs && Open(db.jobs[id]) && n in db.runners && db.runners[n].status.Finished?
    ensures IsRun(cfg, ws', ls') && ws <= ws'
    ensures ls' == ls + [Outside(MarkInProgress(id, 1, n)), Outside(SetRunnerByName(n, Busy))]
    ensures FlipCount(ws', ls', |ls'|) == FlipCount(ws, ls, |ls|) + 1
    ensures var db, db' := ws[|ls|].db, ws'[|ls'|].db;
      && Active(db') == Active(db) + {n} && n !in Active(db)
      && db'.jobs.Keys == db.jobs.Keys && (forall x :: x in db.jobs && x != id ==> db'.jobs[x] == db.jobs[x])
      && db'.runners.Keys == db.runners.Keys && (forall x :: x in db.runners && x != n ==> db'.runners[x] == db.runners[x])
  {
    var w, mark, flip := ws[|ls|], MarkInProgress(id, 1, n), SetRunnerByName(n, Busy);
    RunInv(cfg, ws, ls, |ls|);
    var ws1, ls1 := Extend(cfg, ws, ls, Outside(mark));
    assert ws1[|ls1|].db == Exec(w.db, w.now, mark);
    AdvanceStatement(w.db, w.now, id, n);
    FlipStatement(ws1[|ls1|].db, w.now, n);
    ws', ls' := Extend(cfg, ws1, ls1, Outside(flip));
    assert ws'[|ls'|].db == Exec(ws1[|ls1|].db, w.now, flip);
    FlipsKept(ws, ls, ws', ls', |ls|);
    assert ws'[|ls|] == w && ws'[|ls| + 1] == ws1[|ls1|];
    FlipsAdd(ws', ls', |ls|, mark, flip);
  }

  lemma {:induction false} AdvanceStatement(db: Db, now: int, id: JobId, n: string)
    requires Keyed(db) && id in db.jobs && Open(db.jobs[id])
    ensures var db' := Exec(db, now, MarkInProgress(id, 1, n));
      && db'.runners == db.runners && Keyed(db') && Active(db') == Active(db)
      && db'.jobs.Keys == db.jobs.Keys && (forall x :: x in db.jobs && x != id ==> db'.jobs[x] == db.jobs[x])
  {
  }

  lemma {:induction false} FlipsAdd(ws: seq<World>, ls: seq<Label>, n: nat, mark: Stmt, flip: Stmt)
    requires |ws| == |ls| + 1 && n + 2 <= |ls| && ls[n] == Outside(mark) && ls[n + 1] == Outside(flip)
    requires !Revives(ws[n].db, mark) && Revives(ws[n + 1].db, flip)
    ensures FlipCount(ws, ls, n + 2) == FlipCount(ws, ls, n) + 1
  {
    assert FlipCount(ws, ls, n + 1) == FlipCount(ws, ls, n);
  }

  lemma {:induction false} FlipsKept(ws: seq<World>, ls: seq<Label>, ws': seq<World>, ls': seq<Label>, n: nat)
    requires |ws| == |ls| + 1 && |ws'| == |ls'| + 1 && ws <= ws' && ls <= ls' && n <= |ls|
    ensures FlipCount(ws, ls, n) == FlipCount(ws', ls', n)
  {
    if n == 0 {
    } else {
      FlipsKept(ws, ls, ws', ls', n - 1);
    }
  }

  function RunnerName(i: nat): string {
    seq(i + 1, _ => 'r')
  }

  lemma {:induction false} NamesDiffer(i: nat, j: nat)
    ensures i != j ==> RunnerName(i) != RunnerName(j)
  {
    assert |RunnerName(i)| == i + 1 && |RunnerName(j)| == j + 1;
  }

  /** Rows 0..total, the first `busy` of them active and the rest finished. */
  function Rows(busy: nat, total: nat): map<string, Runner> {
    if total == 0 then map[]
    else
      var status := if total <= busy then RunnerStatus.Busy else Finished;
      Rows(busy, total - 1)[RunnerName(total - 1) := Runner("o/r", RunnerName(total - 1), "", status, 0, None)]
  }

  /** Row total - 1 is new and active exactly if it is among the first `busy`. */
  lemma {:induction false} OneMoreRow(busy: nat, total: nat, before: Db, db: Db)
    requires total > 0 && before.runners == Rows(busy, total - 1) && db.runners == Rows(busy, total)
    requires RunnerName(total - 1) !in before.runners
    ensures |Active(db)| == |Active(before)| + (if total <= busy then 1 else 0)
  {
    assert Active(db) == Active(before) + (if total <= busy then {RunnerName(total - 1)} else {});
  }

  lemma {:induction false} RowsForm(busy: nat, total: nat, db: Db)
    requires db.runners == Rows(busy, total)
    ensures Keyed(db) && |Active(db)| == if total <= busy then total else busy
    ensures forall i: nat :: RunnerName(i) in db.runners <==> i < total
    ensures forall i: nat :: i < total ==> (db.runners[RunnerName(i)].status.Finished? <==> i >= busy)
  {
    if total == 0 {
      assert Active(db) == {};
    } else {
      var before, n := db.(runners := Rows(busy, total - 1)), RunnerName(total - 1);
      RowsForm(busy, total - 1, before);
      forall i: nat ensures i != total - 1 ==> RunnerName(i) != n {
        NamesDiffer(i, total - 1);
      }
      OneMoreRow(busy, total, before, db);
    }
  }

  function JobRow(id: JobId): Job {
    Job("o/r", "", Dispatched, "", 0, "", id, 0)
  }

  /** A pool at its cap, with m finished rows and m dispatched jobs. */
  function FullPool(cfg: Config, m: nat): World {
    var busy := if cfg.dispatch.maxRunners < 0 then 0 else cfg.dispatch.maxRunners;
    Quiet(0, Db(map i | 0 <= i < m :: JobRow(i), Rows(busy, busy + m), {}, map[]), [], map[], {})
  }

  /** For every cap and every number m of revivals there is a run from a full pool that makes
      them and ends with exactly cap + m active rows: the bound of CapHolds cannot be lowered. */
  lemma {:induction false} CapBoundIsReached(cfg: Config, m: nat) returns (ws: seq<World>, ls: seq<Label>)
    ensures IsRun(cfg, ws, ls) && ws[0] == FullPool(cfg, m) && FlipCount(ws, ls, |ls|) == m
    ensures |Active(ws[0].db)| == if cfg.dispatch.maxRunners < 0 then 0 else cfg.dispatch.maxRunners
    ensures |Active(ws[|ls|].db)| == |Active(ws[0].db)| + m
  {
    var busy := if cfg.dispatch.maxRunners < 0 then 0 else cfg.dispatch.maxRunners;
    ws, ls := [FullPool(cfg, m)], [];
    RowsForm(busy, busy + m, ws[0].db);
    ws, ls := ReviveUpTo(cfg, busy, m, m);
  }

  /** Jobs j..m are open and rows busy + j..busy + m finished, busy + j rows active. */
  ghost predicate Revivable(db: Db, busy: nat, m: nat, j: nat) {
    && |Active(db)| == busy + j
    && (forall i :: j <= i < m ==> i in db.jobs && Open(db.jobs[i]))
    && (forall i: nat :: busy + j <= i < busy + m ==>
          RunnerName(i) in db.runners && db.runners[RunnerName(i)].status.Finished?)
  }

  lemma {:induction false} RevivedOne(db: Db, db': Db, busy: nat, m: nat, j: nat)
    requires Revivable(db, busy, m, j) && j < m
    requires var n := RunnerName(busy + j);
      && Active(db') == Active(db) + {n} && n !in Active(db)
      && db'.jobs.Keys == db.jobs.Keys && (forall x :: x in db.jobs && x != j ==> db'.jobs[x] == db.jobs[x])
      && db'.runners.Keys == db.runners.Keys && (forall x :: x in db.runners && x != n ==> db'.runners[x] == db.runners[x])
    ensures Revivable(db', busy, m, j + 1)
  {
    forall i: nat ensures i != busy + j ==> RunnerName(i) != RunnerName(busy + j) {
      NamesDiffer(i, busy + j);
    }
  }

  /** The first j of those revivals. */
  lemma {:induction false} ReviveUpTo(cfg: Config, busy: nat, m: nat, j: nat) returns (ws: seq<World>, ls: seq<Label>)
    requires busy == (if cfg.dispatch.maxRunners < 0 then 0 else cfg.dispatch.maxRunners) && j <= m
    ensures IsRun(cfg, ws, ls) && ws[0] == FullPool(cfg, m) && FlipCount(ws, ls, |ls|) == j
    ensures Revivable(ws[|ls|].db, busy, m, j)
  {
    if j == 0 {
      ws, ls := [FullPool(cfg, m)], [];
      RowsForm(busy, busy + m, ws[0].db);
    } else {
      var ws0, ls0 := ReviveUpTo(cfg, busy, m, j - 1);
      ws, ls := Revive(cfg, ws0, ls0, j - 1, RunnerName(busy + j - 1));
      RevivedOne(ws0[|ls0|].db, ws[|ls|].db, busy, m, j - 1);
    }
  }
}
