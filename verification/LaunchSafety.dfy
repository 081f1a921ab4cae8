/** No duplicate launch, for any number of queue copies of a job. */
module LaunchSafety {
  import opened Store
  import opened System
  import Dispatch
  import JobHistory

  predicate Launches(w: World, l: Label, id: JobId) {
    l.Work? && w.worker.Dispatching? && w.worker.pc.Observe? && w.worker.pc.t.id == id && !l.r.err
  }

  /** The write of 'dispatched' after a launch; `ok` says whether it succeeds. */
  predicate Marks(w: World, l: Label, id: JobId, ok: bool) {
    l.Work? && w.worker.Dispatching? && w.worker.pc.Mark? && w.worker.pc.t.id == id && (ok <==> !l.r.err)
  }

  /** An admin retry of row id that takes effect. */
  predicate Retried(w: World, l: Label, id: JobId) {
    l.Outside? && l.st == Retry(id) && JobHistory.Reopens(w.db, l.st, id)
  }

  /** Row id was marked at stored time `since` or later, or has moved on. */
  predicate Spent(db: Db, id: JobId, since: int) {
    id in db.jobs &&
    (db.jobs[id].status.InProgress? || db.jobs[id].status.Completed? ||
     (db.jobs[id].status.Dispatched? && db.jobs[id].updatedAt >= since))
  }

  /** A dispatch of id in flight saw the mark, or checked the age a full replay age after it. */
  predicate Waits(pc: Dispatch.Pc, id: JobId, since: int, now: int) {
    && (pc.Age? && pc.id == id ==> pc.job.status.Dispatched? && pc.job.updatedAt >= since)
    && (Dispatch.TicketOf(pc).Some? && Dispatch.TicketOf(pc).value.id == id ==>
          since + DISPATCHED_REPLAY_AGE <= Dispatch.TicketOf(pc).value.checkedAt <= now)
  }

  ghost predicate Held(w: World, id: JobId, since: int) {
    && since <= Stamp(w.now) && Spent(w.db, id, since)
    && (w.worker.Dispatching? ==> Waits(w.worker.pc, id, since, w.now))
  }

  lemma {:induction false} SpentKept(db: Db, now: int, st: Option<Stmt>, id: JobId, since: int)
    requires Spent(db, id, since) && since <= Stamp(now)
    requires !(st == Some(Retry(id)) && db.jobs[id].status.Completed?)
    ensures Spent(ExecOpt(db, now, st), id, since)
  {
  }

  lemma {:induction false} WaitsKept(cfg: Dispatch.Config, pc: Dispatch.Pc, db: Db, now: int, r: Dispatch.Reply, id: JobId, since: int)
    requires Waits(pc, id, since, now) && Spent(db, id, since)
    ensures var m := Dispatch.Step(cfg, pc, db, now, r);
            Waits(m.next, id, since, now) && (m.stmt.Some? ==> !m.stmt.value.Retry?)
  {
  }

  /** A step of anybody else leaves the worker where it is, receives a job, or ends. */
  lemma {:induction false} OthersWait(cfg: Config, w: World, l: Label, id: JobId, since: int)
    requires Enabled(cfg, w, l) && !l.Work?
    requires w.worker.Dispatching? ==> Waits(w.worker.pc, id, since, w.now)
    ensures var w' := Next(cfg, w, l);
            w'.now >= w.now && (w'.worker.Dispatching? ==> Waits(w'.worker.pc, id, since, w'.now))
  {
  }

  lemma {:induction false} HeldKept(cfg: Config, w: World, l: Label, id: JobId, since: int)
    requires Enabled(cfg, w, l) && Held(w, id, since) && !Retried(w, l, id)
    ensures Held(Next(cfg, w, l), id, since)
  {
    var st := StmtOf(cfg, w, l);
    assert Next(cfg, w, l).db == ExecOpt(w.db, w.now, st);
    if l.Work? {
      WaitsKept(cfg.dispatch, w.worker.pc, w.db, w.now, l.r, id, since);
    } else {
      OthersWait(cfg, w, l, id, since);
    }
    StampBounds(w.now, Next(cfg, w, l).now);
    SpentKept(w.db, w.now, st, id, since);
  }

  lemma {:induction false} HeldThrough(cfg: Config, ws: seq<World>, ls: seq<Label>, i: nat, j: nat, id: JobId, since: int)
    requires IsRun(cfg, ws, ls) && i <= j <= |ls| && Held(ws[i], id, since)
    requires forall k :: i <= k < j ==> !Retried(ws[k], ls[k], id)
    ensures Held(ws[j], id, since)
    decreases j
  {
    if i == j {
    } else {
      HeldThrough(cfg, ws, ls, i, j - 1, id, since);
      assert StepAt(cfg, ws, ls, j - 1);
      HeldKept(cfg, ws[j - 1], ls[j - 1], id, since);
    }
  }

  /** Nobody but the worker moves a dispatch, so the mark is reached. */
  lemma {:induction false} MarkComes(cfg: Config, ws: seq<World>, ls: seq<Label>, i: nat, b: nat, t: Dispatch.Ticket) returns (m: nat)
    requires IsRun(cfg, ws, ls) && i <= b < |ls|
    requires ws[i].worker == Dispatching(Dispatch.Mark(t)) && ws[b].worker != Dispatching(Dispatch.Mark(t))
    ensures i <= m < b && ls[m].Work? && ws[m].worker == Dispatching(Dispatch.Mark(t))
    decreases b - i
  {
    assert StepAt(cfg, ws, ls, i);
    if ls[i].Work? {
      m := i;
    } else {
      m := MarkComes(cfg, ws, ls, i + 1, b, t);
    }
  }

  lemma {:induction false} MarkHolds(cfg: Config, ws: seq<World>, ls: seq<Label>, m: nat, id: JobId)
    requires IsRun(cfg, ws, ls) && m < |ls| && Marks(ws[m], ls[m], id, true)
    ensures Held(ws[m + 1], id, Stamp(ws[m].now))
  {
    RunInv(cfg, ws, ls, m);
    assert StepAt(cfg, ws, ls, m);
  }

  /** Take two successful launches of one job, with no admin retry of it taking effect in
      between and no failed 'dispatched' write. Then the first was marked at some step m, and
      the second passed its age check at least DISPATCHED_REPLAY_AGE after the time stored
      there. Queue contents, timers, and everybody else's steps are arbitrary. */
  lemma {:induction false} NoDuplicateLaunch(cfg: Config, ws: seq<World>, ls: seq<Label>, a: nat, b: nat, id: JobId) returns (m: nat)
    requires IsRun(cfg, ws, ls) && a < b < |ls|
    requires Launches(ws[a], ls[a], id) && Launches(ws[b], ls[b], id)
    requires forall k :: a < k < b ==> !Retried(ws[k], ls[k], id) && !Marks(ws[k], ls[k], id, false)
    ensures a < m < b && Marks(ws[m], ls[m], id, true)
    ensures Stamp(ws[m].now) + DISPATCHED_REPLAY_AGE <= ws[b].worker.pc.t.checkedAt <= ws[b].now
  {
    assert StepAt(cfg, ws, ls, a);
    m := MarkComes(cfg, ws, ls, a + 1, b, ws[a].worker.pc.t);
    MarkHolds(cfg, ws, ls, m, id);
    HeldThrough(cfg, ws, ls, m + 1, b, id, Stamp(ws[m].now));
  }
}
