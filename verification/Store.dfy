/** The runner pool's two tables and the statements every component runs on them.

    Each store call of the original is one SQL statement, hence one atomic step here.
    `Exec` is the value-level meaning of a statement; class `SQLite` updates the tables
    in place and is proved against `Exec`. */
module Store {
  type JobId = int

  /** Clocks count nanoseconds; the database stores whole seconds. */
  const SECOND: int := 1_000_000_000
  const DISPATCHED_REPLAY_AGE: int := 300 * SECOND

  datatype Option<T> = None | Some(value: T)

  function Last<T>(xs: seq<T>): T
    requires xs != []
  {
    xs[|xs| - 1]
  }

  function Init<T>(xs: seq<T>): seq<T>
    requires xs != []
  {
    xs[..|xs| - 1]
  }

  datatype JobStatus = Pending | Dispatched | InProgress | Completed

  datatype Job = Job(
    repo: string, labels: string, status: JobStatus, conclusion: string,
    runnerId: int, runnerName: string, receivedAt: int, updatedAt: int)

  datatype RunnerStatus = Starting | Idle | Busy | Finished

  datatype Runner = Runner(
    repo: string, runnerName: string, labels: string, status: RunnerStatus,
    startedAt: int, finishedAt: Option<int>)

  datatype Db = Db(
    jobs: map<JobId, Job>, runners: map<string, Runner>,
    installs: set<int>, repos: map<string, int>)

  datatype Stmt =
    | InsertJob(id: JobId, repo: string, labels: string)
    | MarkDispatched(id: JobId)
    | MarkInProgress(id: JobId, runnerId: int, runnerName: string)
    | MarkCompleted(id: JobId, conclusion: string)
    | CancelIfPending(id: JobId)
    | Retry(id: JobId)
    | CancelForRepo(repo: string)
    | InsertRunner(name: string, repo: string, labels: string, startedAt: int)
    | SetRunner(name: string, status: RunnerStatus)
    | SetRunnerByName(name: string, status: RunnerStatus)
    | UpsertInstall(inst: int)
    | UpsertRepo(repo: string, inst: int)
    | RemoveRepo(repo: string)

  /** CURRENT_TIMESTAMP: the clock cut to whole seconds. */
  function Stamp(now: int): int {
    now - now % SECOND
  }

  lemma {:induction false} StampBounds(a: int, b: int)
    requires a <= b
    ensures Stamp(a) <= Stamp(b)
    ensures Stamp(b) <= b < Stamp(b) + SECOND
  {
    assert a / SECOND <= b / SECOND;
  }

  // ---------------- jobs ----------------

  /** status IN ('pending','dispatched') */
  predicate Open(j: Job) {
    j.status.Pending? || j.status.Dispatched?
  }

  function Close(j: Job, conclusion: string, now: int): Job {
    j.(status := Completed, conclusion := conclusion, updatedAt := Stamp(now))
  }

  function ExecJobs(jobs: map<JobId, Job>, now: int, st: Stmt): map<JobId, Job> {
    match st
    case InsertJob(id, repo, labels) =>
      if id in jobs then jobs
      else jobs[id := Job(repo, labels, Pending, "", 0, "", Stamp(now), Stamp(now))]
    case MarkDispatched(id) =>
      if id in jobs && Open(jobs[id])
      then jobs[id := jobs[id].(status := Dispatched, updatedAt := Stamp(now))] else jobs
    case MarkInProgress(id, rid, name) =>
      if id in jobs && Open(jobs[id])
      then jobs[id := jobs[id].(status := InProgress, runnerId := rid, runnerName := name, updatedAt := Stamp(now))]
      else jobs
    case MarkCompleted(id, conclusion) =>
      if id in jobs && !jobs[id].status.Completed? then jobs[id := Close(jobs[id], conclusion, now)] else jobs
    case CancelIfPending(id) =>
      if id in jobs && Open(jobs[id]) then jobs[id := Close(jobs[id], "cancelled", now)] else jobs
    case Retry(id) =>
      if id in jobs && jobs[id].status.Completed?
      then jobs[id := jobs[id].(status := Pending, conclusion := "", runnerId := 0, runnerName := "", updatedAt := Stamp(now))]
      else jobs
    case CancelForRepo(repo) =>
      map id | id in jobs ::
        if jobs[id].repo == repo && Open(jobs[id]) then Close(jobs[id], "cancelled", now) else jobs[id]
    case _ => jobs
  }

  /** The rows a status-guarded job update matches: RowsAffected() > 0 iff it is non-empty. */
  function Matched(db: Db, st: Stmt): set<JobId> {
    match st
    case MarkDispatched(id) => if id in db.jobs && Open(db.jobs[id]) then {id} else {}
    case MarkInProgress(id, _, _) => if id in db.jobs && Open(db.jobs[id]) then {id} else {}
    case MarkCompleted(id, _) => if id in db.jobs && !db.jobs[id].status.Completed? then {id} else {}
    case CancelIfPending(id) => if id in db.jobs && Open(db.jobs[id]) then {id} else {}
    case Retry(id) => if id in db.jobs && db.jobs[id].status.Completed? then {id} else {}
    case CancelForRepo(repo) => set id | id in db.jobs && db.jobs[id].repo == repo && Open(db.jobs[id])
    case _ => {}
  }

  /** Rows owed dispatch work: 'pending', or 'dispatched' and strictly older than the
      replay age by the database's whole-second clock. */
  function PendingSet(db: Db, now: int): set<JobId> {
    set id | id in db.jobs &&
             (db.jobs[id].status.Pending? ||
              (db.jobs[id].status.Dispatched? && db.jobs[id].updatedAt < Stamp(now) - DISPATCHED_REPLAY_AGE))
  }

  // ---------------- runners ----------------

  function SetStatus(r: Runner, status: RunnerStatus, now: int): Runner {
    r.(status := status, finishedAt := if status.Finished? then Some(Stamp(now)) else r.finishedAt)
  }

  function ExecRunners(runners: map<string, Runner>, now: int, st: Stmt): map<string, Runner> {
    match st
    case InsertRunner(name, repo, labels, startedAt) =>
      if name in runners then runners
      else runners[name := Runner(repo, name, labels, Starting, startedAt, None)]
    case SetRunner(name, status) =>
      if name in runners then runners[name := SetStatus(runners[name], status, now)] else runners
    case SetRunnerByName(name, status) =>
      map n | n in runners :: if runners[n].runnerName == name then SetStatus(runners[n], status, now) else runners[n]
    case _ => runners
  }

  /** Names of the rows with status 'starting', 'idle' or 'busy'. */
  function Active(db: Db): set<string> {
    set n | n in db.runners && !db.runners[n].status.Finished?
  }

  /** container_name and runner_name are minted as one string. */
  ghost predicate Keyed(db: Db) {
    forall n :: n in db.runners ==> db.runners[n].runnerName == n
  }

  // ---------------- installations ----------------

  /** installation_repos.installation_id references installations(id). */
  ghost predicate ForeignKeys(db: Db) {
    forall r :: r in db.repos ==> db.repos[r] in db.installs
  }

  // ---------------- one statement ----------------

  function Exec(db: Db, now: int, st: Stmt): Db {
    Db(ExecJobs(db.jobs, now, st),
       ExecRunners(db.runners, now, st),
       if st.UpsertInstall? then db.installs + {st.inst} else db.installs,
       match st
       case UpsertRepo(repo, inst) => if inst in db.installs then db.repos[repo := inst] else db.repos
       case RemoveRepo(repo) => db.repos - {repo}
       case _ => db.repos)
  }

  function ExecOpt(db: Db, now: int, st: Option<Stmt>): Db {
    if st.Some? then Exec(db, now, st.value) else db
  }

  /** A revival: an unguarded runner update turns a finished row active again. */
  predicate Revives(db: Db, st: Stmt) {
    (st.SetRunner? || st.SetRunnerByName?) && !st.status.Finished? &&
    st.name in db.runners && db.runners[st.name].status.Finished?
  }

  predicate Inserts(db: Db, st: Stmt) {
    st.InsertRunner? && st.name !in db.runners
  }

  lemma {:induction false} ActiveAfter(db: Db, now: int, st: Stmt)
    requires Keyed(db)
    ensures Active(Exec(db, now, st)) <= Active(db) + (if Inserts(db, st) || Revives(db, st) then {st.name} else {})
  {
  }

  /** No statement deletes a runner row; one statement adds at most one active row, and only
      an insert or a revival does. */
  lemma {:induction false} ActiveGrowth(db: Db, now: int, st: Stmt)
    requires Keyed(db)
    ensures Keyed(Exec(db, now, st))
    ensures db.runners.Keys <= Exec(db, now, st).runners.Keys
    ensures forall n :: n in db.runners ==> Exec(db, now, st).runners[n].repo == db.runners[n].repo
    ensures |Active(Exec(db, now, st))| <= |Active(db)| + (if Inserts(db, st) || Revives(db, st) then 1 else 0)
  {
    ActiveAfter(db, now, st);
    var added := if Inserts(db, st) || Revives(db, st) then {st.name} else {};
    SubsetSize(Active(Exec(db, now, st)), Active(db) + added);
  }

  lemma {:induction false} SubsetSize<T>(a: set<T>, b: set<T>)
    requires a <= b
    ensures |a| <= |b|
  {
    if a == {} {
    } else {
      var x :| x in a;
      SubsetSize(a - {x}, b - {x});
    }
  }

  lemma {:induction false} ForeignKeysKept(db: Db, now: int, st: Stmt)
    requires ForeignKeys(db)
    ensures ForeignKeys(Exec(db, now, st))
  {
  }

  // ---------------- query answers ----------------

  ghost predicate NoDup<T>(xs: seq<T>) {
    forall i, j :: 0 <= i < j < |xs| ==> xs[i] != xs[j]
  }

  /** xs is an answer listing exactly the rows of s, each once, in some order. */
  ghost predicate Lists<T(!new)>(xs: seq<T>, s: set<T>) {
    NoDup(xs) && forall x :: x in xs <==> x in s
  }

  lemma {:induction false} ListsRest<T(!new)>(xs: seq<T>, s: set<T>)
    requires Lists(xs, s) && xs != []
    ensures Lists(xs[1..], s - {xs[0]})
  {
    var rest := xs[1..];
    forall y ensures y in rest <==> y in s - {xs[0]} {
      if y in s - {xs[0]} {
        var i :| 0 <= i < |xs| && xs[i] == y;
        assert rest[i - 1] == y;
      }
    }
  }

  lemma {:induction false} ListsSize<T(!new)>(xs: seq<T>, s: set<T>)
    requires Lists(xs, s)
    ensures |xs| == |s|
  {
    if xs == [] {
      assert s == {};
    } else {
      assert xs[0] in xs;
      ListsRest(xs, s);
      ListsSize(xs[1..], s - {xs[0]});
    }
  }

  // ---------------- ORDER BY ----------------

  ghost predicate TotalOn<T(!new)>(less: (T, T) -> bool, s: set<T>) {
    && (forall a :: a in s ==> !less(a, a))
    && (forall a, b :: a in s && b in s && a != b ==> less(a, b) || less(b, a))
    && (forall a, b, c :: a in s && b in s && c in s && less(a, b) && less(b, c) ==> less(a, c))
  }

  ghost predicate SortedBy<T(!new)>(less: (T, T) -> bool, xs: seq<T>) {
    forall i, j :: 0 <= i < j < |xs| ==> less(xs[i], xs[j])
  }

  lemma {:induction false} FirstExists<T(!new)>(s: set<T>, less: (T, T) -> bool) returns (x: T)
    requires s != {} && TotalOn(less, s)
    ensures x in s && forall y :: y in s && y != x ==> less(x, y)
  {
    x :| x in s;
    if s == {x} {
    } else {
      var y := FirstExists(s - {x}, less);
      x := if less(x, y) then x else y;
    }
  }

  lemma {:induction false} OrderedExists<T(!new)>(s: set<T>, less: (T, T) -> bool) returns (xs: seq<T>)
    requires TotalOn(less, s)
    ensures Lists(xs, s) && SortedBy(less, xs)
  {
    if s == {} {
      xs := [];
    } else {
      var x := FirstExists(s, less);
      var rest := OrderedExists(s - {x}, less);
      assert forall i :: 0 <= i < |rest| ==> rest[i] in rest;
      xs := [x] + rest;
    }
  }

  lemma {:induction false} HeadIsFirst<T(!new)>(s: set<T>, less: (T, T) -> bool, xs: seq<T>)
    requires Lists(xs, s) && SortedBy(less, xs) && xs != []
    ensures xs[0] in s && forall y :: y in s && y != xs[0] ==> less(xs[0], y)
  {
    assert xs[0] in xs;
    forall y | y in s && y != xs[0] ensures less(xs[0], y) {
      assert y in xs;
    }
  }

  lemma {:induction false} OrderedUnique<T(!new)>(s: set<T>, less: (T, T) -> bool, a: seq<T>, b: seq<T>)
    requires TotalOn(less, s)
    requires Lists(a, s) && SortedBy(less, a) && Lists(b, s) && SortedBy(less, b)
    ensures a == b
  {
    ListsSize(a, s);
    ListsSize(b, s);
    if a == [] {
    } else {
      HeadIsFirst(s, less, a);
      HeadIsFirst(s, less, b);
      assert a[0] == b[0];
      ListsRest(a, s);
      ListsRest(b, s);
      OrderedUnique(s - {a[0]}, less, a[1..], b[1..]);
    }
  }

  /** The rows of s in the one order `less` allows. */
  ghost function Ordered<T(!new)>(s: set<T>, less: (T, T) -> bool): (xs: seq<T>)
    requires TotalOn(less, s)
    ensures Lists(xs, s) && SortedBy(less, xs)
  {
    assert exists xs :: Lists(xs, s) && SortedBy(less, xs) by {
      var xs := OrderedExists(s, less);
    }
    var xs :| Lists(xs, s) && SortedBy(less, xs);
    xs
  }

  method First<T(==,!new)>(s: set<T>, less: (T, T) -> bool) returns (x: T)
    requires s != {} && TotalOn(less, s)
    ensures x in s && forall y :: y in s && y != x ==> less(x, y)
  {
    x :| x in s;
    var todo := s - {x};
    while todo != {}
      invariant todo <= s && x in s && x !in todo
      invariant forall y :: y in s && y !in todo && y != x ==> less(x, y)
      decreases todo
    {
      var y :| y in todo;
      todo := todo - {y};
      if less(y, x) {
        x := y;
      }
    }
  }

  method Sort<T(==,!new)>(s: set<T>, less: (T, T) -> bool) returns (xs: seq<T>)
    requires TotalOn(less, s)
    ensures xs == Ordered(s, less)
  {
    xs := [];
    var todo := s;
    while todo != {}
      invariant todo <= s && Lists(xs, s - todo) && SortedBy(less, xs)
      invariant forall x, y :: x in xs && y in todo ==> less(x, y)
      decreases todo
    {
      var x := First(todo, less);
      assert forall i :: 0 <= i < |xs| ==> xs[i] in xs;
      xs := xs + [x];
      todo := todo - {x};
    }
    assert s - todo == s;
    OrderedUnique(s, less, xs, Ordered(s, less));
  }

  /** SQLite's order on text. */
  predicate Less(a: string, b: string) {
    b != "" && (a == "" || a[0] < b[0] || (a[0] == b[0] && Less(a[1..], b[1..])))
  }

  lemma {:induction false} LessTotal(a: string, b: string)
    ensures a == b || Less(a, b) || Less(b, a)
    ensures !(Less(a, b) && Less(b, a)) && !Less(a, a)
  {
    if a != "" && b != "" {
      LessTotal(a[1..], b[1..]);
      assert a == [a[0]] + a[1..] && b == [b[0]] + b[1..];
    }
    if a == "" {
    } else {
      LessTotal(a[1..], a[1..]);
    }
  }

  lemma {:induction false} LessTransitive(a: string, b: string, c: string)
    requires Less(a, b) && Less(b, c)
    ensures Less(a, c)
  {
    if a == "" || a[0] != b[0] || b[0] != c[0] {
    } else {
      LessTransitive(a[1..], b[1..], c[1..]);
    }
  }

  /** Byte order: a comes first if b extends it, or at the first place where they differ. */
  lemma {:induction false} LessMeans(common: string, a: string, b: string)
    requires a == "" || b == "" || a[0] != b[0]
    ensures Less(common + a, common + b) <==> b != "" && (a == "" || a[0] < b[0])
  {
    if common == "" {
      assert common + a == a && common + b == b;
    } else {
      assert (common + a)[1..] == common[1..] + a && (common + b)[1..] == common[1..] + b;
      LessMeans(common[1..], a, b);
    }
  }

  /** ORDER BY received_at, id */
  function Older(jobs: map<JobId, Job>): (JobId, JobId) -> bool {
    (a, b) => a in jobs && b in jobs &&
              (jobs[a].receivedAt < jobs[b].receivedAt || (jobs[a].receivedAt == jobs[b].receivedAt && a < b))
  }

  /** ORDER BY started_at, container_name */
  function Earlier(runners: map<string, Runner>): (string, string) -> bool {
    (a, b) => a in runners && b in runners &&
              (runners[a].startedAt < runners[b].startedAt || (runners[a].startedAt == runners[b].startedAt && Less(a, b)))
  }

  lemma {:induction false} OlderTotal(jobs: map<JobId, Job>)
    ensures TotalOn(Older(jobs), jobs.Keys)
  {
  }

  lemma {:induction false} EarlierTotal(runners: map<string, Runner>)
    ensures TotalOn(Earlier(runners), runners.Keys)
  {
    forall a, b ensures a == b || Less(a, b) || Less(b, a) ensures !(Less(a, b) && Less(b, a)) && !Less(a, a) {
      LessTotal(a, b);
    }
    forall a, b, c | Less(a, b) && Less(b, c) ensures Less(a, c) {
      LessTransitive(a, b, c);
    }
  }

  lemma {:induction false} TotalWithin<T(!new)>(less: (T, T) -> bool, s: set<T>, t: set<T>)
    requires TotalOn(less, s) && t <= s
    ensures TotalOn(less, t)
  {
  }

  /** The rows owed dispatch work, oldest first. */
  ghost function Owed(db: Db, now: int): (ids: seq<JobId>)
    ensures Lists(ids, PendingSet(db, now)) && SortedBy(Older(db.jobs), ids)
  {
    OlderTotal(db.jobs);
    TotalWithin(Older(db.jobs), db.jobs.Keys, PendingSet(db, now));
    Ordered(PendingSet(db, now), Older(db.jobs))
  }

  /** The active rows' names, earliest start first. */
  ghost function ActiveInOrder(db: Db): (names: seq<string>)
    ensures Lists(names, Active(db)) && SortedBy(Earlier(db.runners), names)
  {
    EarlierTotal(db.runners);
    TotalWithin(Earlier(db.runners), db.runners.Keys, Active(db));
    Ordered(Active(db), Earlier(db.runners))
  }

  lemma {:induction false} LessTotalOn(s: set<string>)
    ensures TotalOn(Less, s)
  {
    forall a, b ensures a == b || Less(a, b) || Less(b, a) ensures !(Less(a, b) && Less(b, a)) && !Less(a, a) {
      LessTotal(a, b);
    }
    forall a, b, c | Less(a, b) && Less(b, c) ensures Less(a, c) {
      LessTransitive(a, b, c);
    }
  }

  /** The mapped repositories by name. */
  ghost function ReposInOrder(db: Db): (repos: seq<string>)
    ensures Lists(repos, db.repos.Keys) && SortedBy(Less, repos)
  {
    LessTotalOn(db.repos.Keys);
    Ordered(db.repos.Keys, Less)
  }

  /** The store object: four tables updated in place, one method per statement. */
  class SQLite {
    var jobs: map<JobId, Job>
    var runners: map<string, Runner>
    var installs: set<int>
    var repos: map<string, int>

    function Value(): Db
      reads this
    {
      Db(jobs, runners, installs, repos)
    }

    method InsertJobIfNew(now: int, id: JobId, repo: string, labels: string) returns (inserted: bool)
      modifies this
      ensures Value() == Exec(old(Value()), now, InsertJob(id, repo, labels))
      ensures inserted == (id !in old(jobs))
      ensures !inserted ==> jobs == old(jobs)
      ensures inserted ==> jobs.Keys == old(jobs).Keys + {id} && forall x :: x in old(jobs) ==> jobs[x] == old(jobs)[x]
      ensures inserted ==> jobs[id].repo == repo && jobs[id].labels == labels && jobs[id].status == Pending
      ensures inserted ==> jobs[id].conclusion == "" && jobs[id].runnerId == 0 && jobs[id].runnerName == ""
      ensures inserted ==> jobs[id].receivedAt == jobs[id].updatedAt == now - now % 1_000_000_000
    {
      inserted := id !in jobs;
      if inserted {
        var t := Stamp(now);
        jobs := jobs[id := Job(repo, labels, Pending, "", 0, "", t, t)];
      }
    }

    /** Any one statement, by whoever runs it. */
    method Run(now: int, st: Stmt)
      modifies this
      ensures Value() == Exec(old(Value()), now, st)
    {
      var db := Exec(Value(), now, st);
      jobs, runners, installs, repos := db.jobs, db.runners, db.installs, db.repos;
    }

    method GetJob(id: JobId) returns (job: Option<Job>)
      ensures job == if id in jobs then Some(jobs[id]) else None
    {
      if id in jobs {
        job := Some(jobs[id]);
      } else {
        job := None;
      }
    }

    method MarkJobDispatched(now: int, id: JobId)
      modifies this
      ensures Value() == Exec(old(Value()), now, MarkDispatched(id))
      ensures jobs.Keys == old(jobs).Keys && forall x :: x in jobs && x != id ==> jobs[x] == old(jobs)[x]
      ensures id in jobs ==> var j := old(jobs)[id];
        jobs[id] == (if j.status == Pending || j.status == Dispatched
                     then j.(status := Dispatched, updatedAt := now - now % 1_000_000_000) else j)
    {
      if id in jobs && Open(jobs[id]) {
        jobs := jobs[id := jobs[id].(status := Dispatched, updatedAt := Stamp(now))];
      }
    }

    method MarkJobInProgress(now: int, id: JobId, runnerId: int, runnerName: string) returns (advanced: bool)
      modifies this
      ensures Value() == Exec(old(Value()), now, MarkInProgress(id, runnerId, runnerName))
      ensures advanced == (Matched(old(Value()), MarkInProgress(id, runnerId, runnerName)) != {})
      ensures jobs.Keys == old(jobs).Keys && forall x :: x in jobs && x != id ==> jobs[x] == old(jobs)[x]
      ensures advanced <==> id in old(jobs) && (old(jobs)[id].status == Pending || old(jobs)[id].status == Dispatched)
      ensures !advanced ==> jobs == old(jobs)
      ensures advanced ==> jobs[id].status == InProgress && jobs[id].runnerId == runnerId && jobs[id].runnerName == runnerName
      ensures advanced ==> jobs[id].updatedAt == now - now % 1_000_000_000 && jobs[id].receivedAt == old(jobs)[id].receivedAt
      ensures advanced ==> jobs[id].repo == old(jobs)[id].repo && jobs[id].labels == old(jobs)[id].labels
    {
      advanced := id in jobs && Open(jobs[id]);
      if advanced {
        jobs := jobs[id := jobs[id].(status := InProgress, runnerId := runnerId, runnerName := runnerName,
                                     updatedAt := Stamp(now))];
      }
    }

    method MarkJobCompleted(now: int, id: JobId, conclusion: string) returns (done: bool)
      modifies this
      ensures Value() == Exec(old(Value()), now, MarkCompleted(id, conclusion))
      ensures done == (Matched(old(Value()), MarkCompleted(id, conclusion)) != {})
      ensures jobs.Keys == old(jobs).Keys && forall x :: x in jobs && x != id ==> jobs[x] == old(jobs)[x]
      ensures done <==> id in old(jobs) && old(jobs)[id].status != Completed
      ensures !done ==> jobs == old(jobs)
      ensures done ==> jobs[id].status == Completed && jobs[id].conclusion == conclusion
      ensures done ==> jobs[id].updatedAt == now - now % 1_000_000_000 && jobs[id].receivedAt == old(jobs)[id].receivedAt
      ensures done ==> jobs[id].repo == old(jobs)[id].repo && jobs[id].labels == old(jobs)[id].labels
    {
      done := id in jobs && !jobs[id].status.Completed?;
      if done {
        jobs := jobs[id := Close(jobs[id], conclusion, now)];
      }
    }

    method CancelJobIfPending(now: int, id: JobId) returns (cancelled: bool)
      modifies this
      ensures Value() == Exec(old(Value()), now, CancelIfPending(id))
      ensures cancelled == (Matched(old(Value()), CancelIfPending(id)) != {})
      ensures jobs.Keys == old(jobs).Keys && forall x :: x in jobs && x != id ==> jobs[x] == old(jobs)[x]
      ensures cancelled <==> id in old(jobs) && (old(jobs)[id].status == Pending || old(jobs)[id].status == Dispatched)
      ensures !cancelled ==> jobs == old(jobs)
      ensures cancelled ==> jobs[id].status == Completed && jobs[id].conclusion == "cancelled"
      ensures cancelled ==> jobs[id].updatedAt == now - now % 1_000_000_000 && jobs[id].receivedAt == old(jobs)[id].receivedAt
      ensures cancelled ==> jobs[id].repo == old(jobs)[id].repo && jobs[id].labels == old(jobs)[id].labels
    {
      cancelled := id in jobs && Open(jobs[id]);
      if cancelled {
        jobs := jobs[id := Close(jobs[id], "cancelled", now)];
      }
    }

    method RetryJobIfCompleted(now: int, id: JobId) returns (updated: bool)
      modifies this
      ensures Value() == Exec(old(Value()), now, Retry(id))
      ensures updated == (Matched(old(Value()), Retry(id)) != {})
      ensures jobs.Keys == old(jobs).Keys && forall x :: x in jobs && x != id ==> jobs[x] == old(jobs)[x]
      ensures updated <==> id in old(jobs) && old(jobs)[id].status == Completed
      ensures !updated ==> jobs == old(jobs)
      ensures updated ==> jobs[id].status == Pending && jobs[id].conclusion == "" && jobs[id].updatedAt == now - now % 1_000_000_000
      ensures updated ==> jobs[id].runnerId == 0 && jobs[id].runnerName == "" && jobs[id].receivedAt == old(jobs)[id].receivedAt
      ensures updated ==> jobs[id].repo == old(jobs)[id].repo && jobs[id].labels == old(jobs)[id].labels
    {
      updated := id in jobs && jobs[id].status.Completed?;
      if updated {
        jobs := jobs[id := jobs[id].(status := Pending, conclusion := "", runnerId := 0, runnerName := "",
                                     updatedAt := Stamp(now))];
      }
    }

    method CancelPendingJobsForRepo(now: int, repo: string) returns (n: nat)
      modifies this
      ensures Value() == Exec(old(Value()), now, CancelForRepo(repo))
      ensures n == |Matched(old(Value()), CancelForRepo(repo))|
      ensures jobs.Keys == old(jobs).Keys
      ensures forall x :: x in jobs ==> var j := old(jobs)[x];
        jobs[x] == (if j.repo == repo && (j.status == Pending || j.status == Dispatched)
                    then j.(status := Completed, conclusion := "cancelled", updatedAt := now - now % 1_000_000_000) else j)
    {
      n := |set id | id in jobs && jobs[id].repo == repo && Open(jobs[id])|;
      jobs := map id | id in jobs ::
        if jobs[id].repo == repo && Open(jobs[id]) then Close(jobs[id], "cancelled", now) else jobs[id];
    }

    method PendingJobs(now: int) returns (ids: seq<JobId>)
      ensures ids == Owed(Value(), now)
      ensures forall id :: id in ids <==>
        (id in jobs && (jobs[id].status == Pending ||
                        (jobs[id].status == Dispatched && jobs[id].updatedAt < now - now % 1_000_000_000 - 300_000_000_000)))
      ensures forall i, j :: 0 <= i < j < |ids| && ids[i] in jobs && ids[j] in jobs ==>
        jobs[ids[i]].receivedAt < jobs[ids[j]].receivedAt ||
        (jobs[ids[i]].receivedAt == jobs[ids[j]].receivedAt && ids[i] < ids[j])
    {
      OlderTotal(jobs);
      TotalWithin(Older(jobs), jobs.Keys, PendingSet(Value(), now));
      ids := Sort(PendingSet(Value(), now), Older(jobs));
    }

    /** The primary key refuses a second row of the same name. */
    method InsertRunnerRow(now: int, name: string, repo: string, labels: string, startedAt: int) returns (ok: bool)
      modifies this
      ensures Value() == Exec(old(Value()), now, InsertRunner(name, repo, labels, startedAt))
      ensures ok == (name !in old(runners))
      ensures !ok ==> runners == old(runners)
      ensures ok ==> runners.Keys == old(runners).Keys + {name} && forall x :: x in old(runners) ==> runners[x] == old(runners)[x]
      ensures ok ==> runners[name].repo == repo && runners[name].labels == labels && runners[name].runnerName == name
      ensures ok ==> runners[name].status == Starting && runners[name].startedAt == startedAt && runners[name].finishedAt == None
    {
      ok := name !in runners;
      if ok {
        runners := runners[name := Runner(repo, name, labels, Starting, startedAt, None)];
      }
    }

    method UpdateRunnerStatus(now: int, name: string, status: RunnerStatus)
      modifies this
      ensures Value() == Exec(old(Value()), now, SetRunner(name, status))
      ensures runners.Keys == old(runners).Keys && forall x :: x in runners && x != name ==> runners[x] == old(runners)[x]
      ensures name in runners ==> runners[name].status == status
      ensures name in runners && status == Finished ==> runners[name].finishedAt == Some(now - now % 1_000_000_000)
    {
      if name in runners {
        runners := runners[name := SetStatus(runners[name], status, now)];
      }
    }

    method UpdateRunnerStatusByName(now: int, name: string, status: RunnerStatus)
      modifies this
      ensures Value() == Exec(old(Value()), now, SetRunnerByName(name, status))
      ensures runners.Keys == old(runners).Keys
      ensures forall x :: x in runners && runners[x].runnerName != name ==> runners[x] == old(runners)[x]
      ensures forall x :: x in runners && runners[x].runnerName == name ==>
        old(runners)[x].runnerName == name && runners[x].status == status
    {
      runners := map n | n in runners ::
        if runners[n].runnerName == name then SetStatus(runners[n], status, now) else runners[n];
    }

    method ActiveRunnerCount() returns (n: nat)
      ensures n == |Active(Value())|
      ensures n == |set x | x in runners && (runners[x].status == Starting || runners[x].status == Idle || runners[x].status == Busy)|
    {
      n := |Active(Value())|;
      assert Active(Value()) ==
        set x | x in runners && (runners[x].status == Starting || runners[x].status == Idle || runners[x].status == Busy);
    }

    method ListActiveRunners() returns (names: seq<string>)
      ensures names == ActiveInOrder(Value())
      ensures forall x :: x in names <==> x in runners && runners[x].status != Finished
      ensures forall i, j :: 0 <= i < j < |names| && names[i] in runners && names[j] in runners ==>
        runners[names[i]].startedAt < runners[names[j]].startedAt ||
        (runners[names[i]].startedAt == runners[names[j]].startedAt && Less(names[i], names[j]))
    {
      EarlierTotal(runners);
      TotalWithin(Earlier(runners), runners.Keys, Active(Value()));
      names := Sort(Active(Value()), Earlier(runners));
    }

    method ListAllInstallationRepos() returns (names: seq<string>)
      ensures names == ReposInOrder(Value())
    {
      LessTotalOn(repos.Keys);
      names := Sort(repos.Keys, Less);
    }

    method UpsertInstallation(now: int, inst: int)
      modifies this
      ensures Value() == Exec(old(Value()), now, UpsertInstall(inst))
      ensures installs == old(installs) + {inst} && repos == old(repos)
    {
      installs := installs + {inst};
    }

    /** Fails on the foreign key when the installation row is missing. */
    method UpsertRepoInstallation(now: int, repo: string, inst: int) returns (ok: bool)
      modifies this
      ensures Value() == Exec(old(Value()), now, UpsertRepo(repo, inst))
      ensures ok == (inst in old(installs))
      ensures repos == if ok then old(repos)[repo := inst] else old(repos)
    {
      ok := inst in installs;
      if ok {
        repos := repos[repo := inst];
      }
    }

    method RemoveRepoInstallation(now: int, repo: string)
      modifies this
      ensures Value() == Exec(old(Value()), now, RemoveRepo(repo))
      ensures repos == old(repos) - {repo} && jobs == old(jobs)
    {
      repos := repos - {repo};
    }
  }
}
