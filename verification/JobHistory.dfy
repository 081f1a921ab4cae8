/** Whole histories of statements, seen from one job row. */
module JobHistory {
  import opened Store

  datatype Timed = At(now: int, st: Stmt)
  type History = seq<Timed>

  /** The database after running h, in order, from db. */
  function After(db: Db, h: History): Db {
    if h == [] then db else Exec(After(db, Init(h)), Last(h).now, Last(h).st)
  }

  /** The conclusion st would write to row id if its guard holds; None for other statements. */
  function Verdict(db: Db, st: Stmt, id: JobId): Option<string> {
    if id !in Matched(db, st) then None
    else match st
         case MarkCompleted(_, conclusion) => Some(conclusion)
         case CancelIfPending(_) => Some("cancelled")
         case CancelForRepo(_) => Some("cancelled")
         case _ => None
  }

  predicate Reopens(db: Db, st: Stmt, id: JobId) {
    st.Retry? && id in Matched(db, st)
  }

  predicate IsDone(db: Db, id: JobId) {
    id in db.jobs && db.jobs[id].status.Completed?
  }

  /** Terminal writes to row id whose guard held. */
  function Closings(db: Db, h: History, id: JobId): nat {
    if h == [] then 0
    else Closings(db, Init(h), id) + (if Verdict(After(db, Init(h)), Last(h).st, id).Some? then 1 else 0)
  }

  /** Retries of row id whose guard held. */
  function Reopenings(db: Db, h: History, id: JobId): nat {
    if h == [] then 0
    else Reopenings(db, Init(h), id) + (if Reopens(After(db, Init(h)), Last(h).st, id) then 1 else 0)
  }

  /** What the FIRST guarded terminal write since the last effective retry said: a later
      one never replaces it in this bookkeeping. */
  function FirstVerdict(db: Db, h: History, id: JobId): Option<string> {
    if h == [] then (if IsDone(db, id) then Some(db.jobs[id].conclusion) else None)
    else
      var before := FirstVerdict(db, Init(h), id);
      var d := After(db, Init(h));
      if Reopens(d, Last(h).st, id) then None
      else if before.Some? then before
      else Verdict(d, Last(h).st, id)
  }

  /** First terminal writer wins, in every history. */
  lemma {:induction false} FirstTerminalWriterWins(db: Db, h: History, id: JobId)
    ensures FirstVerdict(db, h, id) ==
            if IsDone(After(db, h), id) then Some(After(db, h).jobs[id].conclusion) else None
  {
    if h == [] {
    } else {
      FirstTerminalWriterWins(db, Init(h), id);
    }
  }

  /** Between two effective terminal writes there is exactly one effective retry. */
  lemma {:induction false} ClosingsBalance(db: Db, h: History, id: JobId)
    ensures Closings(db, h, id) + (if IsDone(db, id) then 1 else 0) ==
            Reopenings(db, h, id) + (if IsDone(After(db, h), id) then 1 else 0)
  {
    if h == [] {
    } else {
      ClosingsBalance(db, Init(h), id);
    }
  }

  function Rank(s: JobStatus): nat {
    match s
    case Pending => 0
    case Dispatched => 1
    case InProgress => 2
    case Completed => 3
  }

  /** Rows are never deleted, and the status rank drops only across an effective retry. */
  lemma {:induction false} RankFallsOnlyByRetry(db: Db, h: History, id: JobId)
    requires id in db.jobs
    ensures id in After(db, h).jobs
    ensures Rank(After(db, h).jobs[id].status) < Rank(db.jobs[id].status) ==> Reopenings(db, h, id) > 0
  {
    if h == [] {
    } else {
      RankFallsOnlyByRetry(db, Init(h), id);
    }
  }

  /** What the handlers may run: an in_progress event without a runner name is dropped. */
  predicate Legal(st: Stmt) {
    st.MarkInProgress? ==> st.runnerName != ""
  }

  predicate Shaped(j: Job) {
    && (Open(j) ==> j.runnerId == 0 && j.runnerName == "")
    && (j.status.InProgress? ==> j.runnerName != "")
    && (!j.status.Completed? ==> j.conclusion == "")
  }

  ghost predicate RowsShaped(db: Db) {
    forall id :: id in db.jobs ==> Shaped(db.jobs[id])
  }

  lemma {:induction false} ShapeKept(db: Db, h: History)
    requires RowsShaped(db) && forall e :: e in h ==> Legal(e.st)
    ensures RowsShaped(After(db, h))
  {
    if h == [] {
    } else {
      assert Last(h) in h;
      forall e | e in Init(h) ensures Legal(e.st) {
        assert e in h;
      }
      ShapeKept(db, Init(h));
    }
  }
}
