/** Which admin retries survive verdicts read before them. */
module RetrySafety {
  import opened Store
  import opened System
  import Dispatch
  import JobHistory
  import LaunchSafety
  import StaleSweep

  /** A step that completes row id. */
  ghost predicate Closes(cfg: Config, w: World, l: Label, id: JobId) {
    StmtOf(cfg, w, l).Some? && JobHistory.Verdict(w.db, StmtOf(cfg, w, l).value, id).Some?
  }

  /** The worker has decided to close row id and has not written yet. */
  predicate WorkerHolds(w: World, id: JobId) {
    w.worker.Dispatching? && (w.worker.pc.Complete? || w.worker.pc.CancelRow?) && w.worker.pc.id == id
  }

  /** The stale-job sweep has. */
  predicate SweepHolds(w: World, id: JobId) {
    w.held.Some? && w.held.value.id == id
  }

  /** A step in which the worker or the stale-job sweep takes a verdict on row id. */
  ghost predicate Decides(cfg: Config, w: World, l: Label, id: JobId)
    requires Enabled(cfg, w, l)
  {
    (l.Work? && WorkerHolds(Next(cfg, w, l), id)) || (l.StaleRead? && l.job == id)
  }

  // ---------------- where a closing comes from ----------------

  lemma {:induction false} DispatchCloses(cfg: Dispatch.Config, pc: Dispatch.Pc, db: Db, now: int, r: Dispatch.Reply, id: JobId)
    requires var st := Dispatch.Step(cfg, pc, db, now, r).stmt; st.Some? && JobHistory.Verdict(db, st.value, id).Some?
    ensures (pc.Complete? || pc.CancelRow?) && pc.id == id
  {
  }

  /** Only three writers close rows: the handlers, and whoever holds a verdict. */
  lemma {:induction false} ClosingHasVerdict(cfg: Config, w: World, l: Label, id: JobId)
    requires Enabled(cfg, w, l) && Closes(cfg, w, l, id)
    ensures l.Outside? || (l.Work? && WorkerHolds(w, id)) || (l.StaleWrite? && SweepHolds(w, id))
  {
    if l.Work? {
      DispatchCloses(cfg.dispatch, w.worker.pc, w.db, w.now, l.r, id);
    }
  }

  lemma {:induction false} HoldStep(cfg: Config, w: World, l: Label, id: JobId)
    requires Enabled(cfg, w, l) && !Decides(cfg, w, l, id)
    ensures WorkerHolds(Next(cfg, w, l), id) ==> Next(cfg, w, l).worker == w.worker
    ensures SweepHolds(Next(cfg, w, l), id) ==> Next(cfg, w, l).held == w.held
  {
  }

  ghost predicate NoDecision(cfg: Config, ws: seq<World>, ls: seq<Label>, i: nat, j: nat, id: JobId)
    requires |ws| == |ls| + 1 && i <= j <= |ls|
  {
    forall k :: i <= k < j ==> Enabled(cfg, ws[k], ls[k]) && !Decides(cfg, ws[k], ls[k], id)
  }

  /** A verdict held at j and not taken in steps i..j was held at i already. */
  lemma {:induction false} HeldSince(cfg: Config, ws: seq<World>, ls: seq<Label>, i: nat, j: nat, id: JobId)
    requires IsRun(cfg, ws, ls) && i <= j <= |ls| && NoDecision(cfg, ws, ls, i, j, id)
    ensures WorkerHolds(ws[j], id) ==> ws[j].worker == ws[i].worker
    ensures SweepHolds(ws[j], id) ==> ws[j].held == ws[i].held
    decreases j
  {
    if i == j {
    } else {
      HeldSince(cfg, ws, ls, i, j - 1, id);
      assert StepAt(cfg, ws, ls, j - 1);
      HoldStep(cfg, ws[j - 1], ls[j - 1], id);
    }
  }

  /** Step k closes row id on a verdict its writer held, unchanged, at i. */
  ghost predicate StaleClose(cfg: Config, ws: seq<World>, ls: seq<Label>, i: nat, k: nat, id: JobId)
    requires |ws| == |ls| + 1 && i <= k < |ls|
  {
    Closes(cfg, ws[k], ls[k], id) &&
    ((ls[k].Work? && WorkerHolds(ws[i], id) && ws[k].worker == ws[i].worker) ||
     (ls[k].StaleWrite? && SweepHolds(ws[i], id) && ws[k].held == ws[i].held))
  }

  /** Every closing after an effective retry is a handler's, or on a verdict taken after the
      retry, or on one held since before it. */
  lemma {:induction false} ClosingAfterRetry(cfg: Config, ws: seq<World>, ls: seq<Label>, i: nat, e: nat, id: JobId)
    requires IsRun(cfg, ws, ls) && i < e < |ls| && LaunchSafety.Retried(ws[i], ls[i], id) && Closes(cfg, ws[e], ls[e], id)
    ensures ls[e].Outside? || !NoDecision(cfg, ws, ls, i + 1, e, id) || StaleClose(cfg, ws, ls, i, e, id)
  {
    assert StepAt(cfg, ws, ls, i);
    assert StepAt(cfg, ws, ls, e);
    ClosingHasVerdict(cfg, ws[e], ls[e], id);
    if NoDecision(cfg, ws, ls, i + 1, e, id) {
      HeldSince(cfg, ws, ls, i + 1, e, id);
    }
  }

  // ---------------- which retries survive ----------------

  lemma {:induction false} DoneStep(cfg: Config, w: World, l: Label, id: JobId)
    requires Enabled(cfg, w, l) && id in w.db.jobs
    ensures var db := Next(cfg, w, l).db;
      && id in db.jobs
      && (!LaunchSafety.Retried(w, l, id) ==>
            (JobHistory.IsDone(db, id) <==> JobHistory.IsDone(w.db, id) || Closes(cfg, w, l, id)))
  {
    var st := StmtOf(cfg, w, l);
    assert Next(cfg, w, l).db == ExecOpt(w.db, w.now, st);
    if st.Some? {
      assert st.value.Retry? ==> l.Work? || l.Outside?;
      DoneStatement(w.db, w.now, st.value, id);
      if st.value.Retry? && l.Work? {
        RetryIsOutside(cfg.dispatch, w.worker.pc, w.db, w.now, l.r);
      }
    }
  }

  lemma {:induction false} DoneStatement(db: Db, now: int, st: Stmt, id: JobId)
    requires id in db.jobs
    ensures var db' := Exec(db, now, st);
      && id in db'.jobs
      && (!(st == Retry(id) && JobHistory.IsDone(db, id)) ==>
            (JobHistory.IsDone(db', id) <==> JobHistory.IsDone(db, id) || JobHistory.Verdict(db, st, id).Some?))
  {
  }

  lemma {:induction false} RetryIsOutside(cfg: Dispatch.Config, pc: Dispatch.Pc, db: Db, now: int, r: Dispatch.Reply)
    ensures var st := Dispatch.Step(cfg, pc, db, now, r).stmt; st.Some? ==> !st.value.Retry?
  {
  }

  /** Some step between the retry at i and j closed the row. */
  ghost predicate ClosedBetween(cfg: Config, ws: seq<World>, ls: seq<Label>, i: nat, j: nat, id: JobId)
    requires |ws| == |ls| + 1 && i < j <= |ls|
  {
    exists k :: i < k < j && Closes(cfg, ws[k], ls[k], id)
  }

  lemma {:induction false} DoneWhenClosed(cfg: Config, ws: seq<World>, ls: seq<Label>, i: nat, j: nat, id: JobId)
    requires IsRun(cfg, ws, ls) && i < j <= |ls| && LaunchSafety.Retried(ws[i], ls[i], id)
    requires forall k :: i < k < j ==> !LaunchSafety.Retried(ws[k], ls[k], id)
    ensures id in ws[j].db.jobs
    ensures JobHistory.IsDone(ws[j].db, id) <==> ClosedBetween(cfg, ws, ls, i, j, id)
    decreases j
  {
    if j == i + 1 {
      assert StepAt(cfg, ws, ls, i);
    } else {
      DoneWhenClosed(cfg, ws, ls, i, j - 1, id);
      assert StepAt(cfg, ws, ls, j - 1);
      DoneStep(cfg, ws[j - 1], ls[j - 1], id);
    }
  }

  /** Take an effective retry of row id at step i, and steps up to j in which no handler closes
      the row, nobody takes a new verdict on it, and it is not retried again. Then it is
      completed at j exactly if a verdict held when the retry took effect was written since. */
  lemma {:induction false} RetryUndoneExactlyWhen(cfg: Config, ws: seq<World>, ls: seq<Label>, i: nat, j: nat, id: JobId)
    requires IsRun(cfg, ws, ls) && i < j <= |ls| && LaunchSafety.Retried(ws[i], ls[i], id)
    requires forall k :: i < k < j ==> !LaunchSafety.Retried(ws[k], ls[k], id)
    requires forall k :: i < k < j && ls[k].Outside? ==> !Closes(cfg, ws[k], ls[k], id)
    requires NoDecision(cfg, ws, ls, i + 1, j, id)
    ensures id in ws[j].db.jobs
    ensures JobHistory.IsDone(ws[j].db, id) <==> exists k :: i < k < j && StaleClose(cfg, ws, ls, i, k, id)
  {
    DoneWhenClosed(cfg, ws, ls, i, j, id);
    if k :| i < k < j && Closes(cfg, ws[k], ls[k], id) {
      assert NoDecision(cfg, ws, ls, i + 1, k, id);
      ClosingAfterRetry(cfg, ws, ls, i, k, id);
      assert StaleClose(cfg, ws, ls, i, k, id);
    }
  }

  /** So a retry that finds nobody holding a verdict on its row survives until a handler or a
      later verdict closes it. */
  lemma {:induction false} RetrySurvives(cfg: Config, ws: seq<World>, ls: seq<Label>, i: nat, j: nat, id: JobId)
    requires IsRun(cfg, ws, ls) && i < j <= |ls| && LaunchSafety.Retried(ws[i], ls[i], id)
    requires !WorkerHolds(ws[i], id) && !SweepHolds(ws[i], id)
    requires forall k :: i < k < j && ls[k].Outside? ==> !Closes(cfg, ws[k], ls[k], id)
    requires NoDecision(cfg, ws, ls, i + 1, j, id)
    ensures id in ws[j].db.jobs && !JobHistory.IsDone(ws[j].db, id)
    decreases j
  {
    if k :| i < k < j && LaunchSafety.Retried(ws[k], ls[k], id) {
      assert NoDecision(cfg, ws, ls, i + 1, k, id);
      RetrySurvives(cfg, ws, ls, i, k, id);
      assert false;
    }
    RetryUndoneExactlyWhen(cfg, ws, ls, i, j, id);
  }

  // ---------------- and which do not ----------------

  /** What the worker is about to write: GitHub's conclusion, or a cancellation for a job or an
      installation that is gone. */
  function HeldConclusion(pc: Dispatch.Pc): string {
    if pc.Complete? then pc.conclusion else "cancelled"
  }

  /** A held verdict closes a row just reopened. */
  lemma {:induction false} WriteCloses(cfg: Dispatch.Config, pc: Dispatch.Pc, db: Db, now: int, r: Dispatch.Reply, id: JobId)
    requires (pc.Complete? || pc.CancelRow?) && pc.id == id && JobHistory.IsDone(db, id) && !r.err
    ensures var db1 := Exec(db, now, Retry(id));
            var db2 := ExecOpt(db1, now, Dispatch.Step(cfg, pc, db1, now, r).stmt);
            JobHistory.IsDone(db2, id) && db2.jobs[id].conclusion == HeldConclusion(pc)
  {
  }

  /** From any point of any run where the worker holds a verdict and the row was closed
      meanwhile, a retry takes effect and is undone by the worker's next step. */
  lemma {:induction false} WorkerUndoesRetry(cfg: Config, ws: seq<World>, ls: seq<Label>, id: JobId, r: Dispatch.Reply)
    returns (ws': seq<World>, ls': seq<Label>)
    requires IsRun(cfg, ws, ls) && WorkerHolds(ws[|ls|], id)
    requires JobHistory.IsDone(ws[|ls|].db, id) && !r.err
    ensures IsRun(cfg, ws', ls') && ws <= ws' && ls' == ls + [Outside(Retry(id)), Work(r)]
    ensures LaunchSafety.Retried(ws'[|ls|], ls'[|ls|], id)
    ensures JobHistory.IsDone(ws'[|ls'|].db, id)
    ensures ws'[|ls'|].db.jobs[id].conclusion == HeldConclusion(ws[|ls|].worker.pc)
  {
    var w := ws[|ls|];
    WriteCloses(cfg.dispatch, w.worker.pc, w.db, w.now, r, id);
    ws', ls' := Extend(cfg, ws, ls, Outside(Retry(id)));
    assert ws'[|ls'|] == w.(db := Exec(w.db, w.now, Retry(id)));
    ws', ls' := Extend(cfg, ws', ls', Work(r));
  }

  /** Likewise where the stale-job sweep holds it. */
  lemma {:induction false} SweepUndoesRetry(cfg: Config, ws: seq<World>, ls: seq<Label>, id: JobId, conclusion: string)
    returns (ws': seq<World>, ls': seq<Label>)
    requires IsRun(cfg, ws, ls) && ws[|ls|].held == Some(Held(id, conclusion))
    requires JobHistory.IsDone(ws[|ls|].db, id)
    ensures IsRun(cfg, ws', ls') && ws <= ws' && ls' == ls + [Outside(Retry(id)), StaleWrite(true)]
    ensures LaunchSafety.Retried(ws'[|ls|], ls'[|ls|], id)
    ensures JobHistory.IsDone(ws'[|ls'|].db, id) && ws'[|ls'|].db.jobs[id].conclusion == conclusion
  {
    ws', ls' := Extend(cfg, ws, ls, Outside(Retry(id)));
    ws', ls' := Extend(cfg, ws', ls', StaleWrite(true));
  }

  /** A pool with one running job whose repository is mapped to installation 1. */
  function RunningJob(now: int, job: Job): World {
    Quiet(now, Db(map[7 := job], map[], {1}, map[job.repo := 1]), [], map[], {})
  }

  /** The stale-job sweep reads a conclusion, and the lost webhook arrives after all. */
  lemma {:induction false} LateWebhook(cfg: Config, now: int, job: Job, read: string, late: string)
    returns (ws: seq<World>, ls: seq<Label>)
    requires job.status.InProgress? && read != ""
    ensures IsRun(cfg, ws, ls) && ls == [StaleRead(7, read), Outside(MarkCompleted(7, late))]
    ensures ws[0] == RunningJob(now, job) && ws[2].held == Some(Held(7, read)) && JobHistory.IsDone(ws[2].db, 7)
  {
    ws, ls := [RunningJob(now, job)], [];
    ws, ls := Extend(cfg, ws, ls, StaleRead(7, read));
    ws, ls := Extend(cfg, ws, ls, Outside(MarkCompleted(7, late)));
  }

  /** A whole run, from any pool with one mapped in_progress job that is overdue and that GitHub
      calls over: the sweep, which lists the job and asks GitHub about it, reads the conclusion;
      the webhook arrives; the admin retries; and the sweep's write closes the retried row. */
  lemma {:induction false} RetryLost(cfg: Config, job: Job, late: string, env: StaleSweep.Env, maxLifetime: int)
    returns (ws: seq<World>, ls: seq<Label>)
    requires job.status.InProgress? && maxLifetime > 0 && env.now - job.updatedAt >= maxLifetime
    requires !env.mintFails(1) && StaleSweep.Conclusion(env.live(7)).Some?
    ensures var read := StaleSweep.Conclusion(env.live(7)).value;
      && IsRun(cfg, ws, ls) && ls == [StaleRead(7, read), Outside(MarkCompleted(7, late)), Outside(Retry(7)), StaleWrite(true)]
      && ws[0].now == env.now && ws[0].db.jobs == map[7 := job]
      && StaleSweep.Listing(ws[0].db, [7]) && StaleSweep.Asked(ws[0].db, 7, env, maxLifetime)
      && LaunchSafety.Retried(ws[2], ls[2], 7)
      && JobHistory.IsDone(ws[4].db, 7) && ws[4].db.jobs[7].conclusion == read
  {
    var read := StaleSweep.Conclusion(env.live(7)).value;
    ws, ls := LateWebhook(cfg, env.now, job, read, late);
    ws, ls := SweepUndoesRetry(cfg, ws, ls, 7, read);
  }
}
