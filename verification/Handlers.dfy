/** Webhook and admin handlers over the store and the dispatch queue. */
module Handlers {
  import opened Store
  import Admission
  import Dispatch
  import JobHistory
  import Owners
  import System

  /** A decoded webhook. `admitted` is the verdict of the gates of `Admission`, see `Gated`. */
  datatype Event =
    | InstallationCreated(inst: int, repos: seq<string>)
    | InstallationDeleted(repos: seq<string>)
    | InstallationRepositories(inst: int, added: seq<string>, removed: seq<string>)
    | JobQueued(id: JobId, repo: string, labels: string, inst: int, admitted: bool)
    | JobInProgress(id: JobId, runnerId: int, runnerName: string, admitted: bool)
    | JobCompleted(id: JobId, conclusion: string, runnerName: string, admitted: bool)

  /** Which store calls fail: per repository for installation events, per kind otherwise. */
  datatype Faults = Faults(install: bool, link: string -> bool, unlink: string -> bool, cancel: string -> bool,
                           job: bool, runner: bool)

  const NO_FAULTS: Faults := Faults(false, _ => false, _ => false, _ => false, false, false)

  datatype Pool = Pool(db: Db, queue: seq<JobId>)

  datatype Action = Queued | Started | Ended | OtherAction

  /** A workflow_job payload. */
  datatype JobEvent = JobEvent(
    action: Action, id: JobId, repo: Admission.Repository, labels: seq<string>, inst: int,
    runnerId: int, runnerName: string, conclusion: string)

  /** The label gate holds for every action, the public-repository and owner gates for queued. */
  predicate Admits(g: Admission.Gate, e: JobEvent) {
    && Admission.LabelsServed(g, e.labels)
    && (e.action.Queued? ==> Admission.PublicAllowed(g, e.repo) && Owners.OwnerOk(e.repo.fullName, Owners.Resolved(g.app), g.stored))
  }

  function Gated(g: Admission.Gate, e: JobEvent): Event
    requires !e.action.OtherAction?
  {
    match e.action
    case Queued => JobQueued(e.id, e.repo.fullName, Owners.Join(e.labels), e.inst, Admits(g, e))
    case Started => JobInProgress(e.id, e.runnerId, e.runnerName, Admits(g, e))
    case Ended => JobCompleted(e.id, e.conclusion, e.runnerName, Admits(g, e))
  }

  // ---------------- which statements an event runs ----------------

  function LinkScript(inst: int, repos: seq<string>, f: Faults): seq<Stmt> {
    if repos == [] then []
    else (if f.link(repos[0]) then [] else [UpsertRepo(repos[0], inst)]) + LinkScript(inst, repos[1..], f)
  }

  /** Unmap first, cancel second; a failed unmap skips the cancel. */
  function PurgeOne(repo: string, f: Faults): seq<Stmt> {
    if f.unlink(repo) then [] else if f.cancel(repo) then [RemoveRepo(repo)] else [RemoveRepo(repo), CancelForRepo(repo)]
  }

  function PurgeScript(repos: seq<string>, f: Faults): seq<Stmt> {
    if repos == [] then [] else PurgeOne(repos[0], f) + PurgeScript(repos[1..], f)
  }

  function Script(db: Db, ev: Event, f: Faults): seq<Stmt> {
    match ev
    case InstallationCreated(inst, repos) => (if f.install then [] else [UpsertInstall(inst)]) + LinkScript(inst, repos, f)
    case InstallationDeleted(repos) => PurgeScript(repos, f)
    case InstallationRepositories(inst, added, removed) => LinkScript(inst, added, f) + PurgeScript(removed, f)
    case JobQueued(id, repo, labels, inst, admitted) =>
      if !admitted then []
      else (if inst != 0 && repo != "" && !f.link(repo) then [UpsertRepo(repo, inst)] else []) +
           (if f.job then [] else [InsertJob(id, repo, labels)])
    case JobInProgress(id, rid, name, admitted) =>
      if !admitted || name == "" || f.job then []
      else
        var mark := MarkInProgress(id, rid, name);
        [mark] + (if Matched(db, mark) != {} && !f.runner then [SetRunnerByName(name, Busy)] else [])
    case JobCompleted(id, conclusion, name, admitted) =>
      if !admitted || f.job then []
      else
        var mark := MarkCompleted(id, conclusion);
        [mark] + (if Matched(db, mark) != {} && name != "" && !f.runner then [SetRunnerByName(name, Finished)] else [])
  }

  function RunScript(db: Db, now: int, sts: seq<Stmt>): Db
    decreases |sts|
  {
    if sts == [] then db else RunScript(Exec(db, now, sts[0]), now, sts[1..])
  }

  function Deliver(p: Pool, now: int, ev: Event, f: Faults): Pool {
    Pool(RunScript(p.db, now, Script(p.db, ev, f)),
         if ev.JobQueued? && ev.admitted && !f.job && ev.id !in p.db.jobs then Dispatch.Send(p.queue, ev.id) else p.queue)
  }

  /** Some repository's unmap or cancel fails. */
  predicate PurgeFails(repos: seq<string>, f: Faults) {
    repos != [] && (f.unlink(repos[0]) || f.cancel(repos[0]) || PurgeFails(repos[1..], f))
  }

  lemma {:induction false} PurgeFailsWhen(repos: seq<string>, f: Faults)
    ensures PurgeFails(repos, f) <==> exists r :: r in repos && (f.unlink(r) || f.cancel(r))
  {
    if repos == [] {
    } else {
      PurgeFailsWhen(repos[1..], f);
      assert forall r :: r in repos <==> r == repos[0] || r in repos[1..];
    }
  }

  /** 503 asks GitHub to deliver again. */
  predicate MustRetry(ev: Event, f: Faults) {
    match ev
    case InstallationDeleted(repos) => PurgeFails(repos, f)
    case InstallationRepositories(_, _, removed) => PurgeFails(removed, f)
    case JobQueued(_, _, _, _, admitted) => admitted && f.job
    case _ => false
  }

  lemma {:induction false} RunScriptAppend(db: Db, now: int, a: seq<Stmt>, b: seq<Stmt>)
    ensures RunScript(db, now, a + b) == RunScript(RunScript(db, now, a), now, b)
    decreases |a|
  {
    if a == [] {
      assert a + b == b;
    } else {
      assert (a + b)[1..] == a[1..] + b;
      RunScriptAppend(Exec(db, now, a[0]), now, a[1..], b);
    }
  }

  /** Every statement a handler runs is one the interleaved system admits between any two
      sub-steps of the worker and the sweeps. */
  lemma {:induction false} ScriptsAreOutside(db: Db, ev: Event, f: Faults)
    ensures forall st :: st in Script(db, ev, f) ==> System.Outsider(st)
  {
    match ev {
      case InstallationCreated(inst, repos) => LinkOutside(inst, repos, f);
      case InstallationDeleted(repos) => PurgeOutside(repos, f);
      case InstallationRepositories(inst, added, removed) =>
        LinkOutside(inst, added, f);
        PurgeOutside(removed, f);
      case _ =>
    }
  }

  lemma {:induction false} LinkOutside(inst: int, repos: seq<string>, f: Faults)
    ensures forall st :: st in LinkScript(inst, repos, f) ==> System.Outsider(st)
  {
    if repos == [] {
    } else {
      LinkOutside(inst, repos[1..], f);
    }
  }

  lemma {:induction false} PurgeOutside(repos: seq<string>, f: Faults)
    ensures forall st :: st in PurgeScript(repos, f) ==> System.Outsider(st)
  {
    if repos == [] {
    } else {
      PurgeOutside(repos[1..], f);
    }
  }

  /** The order other components may see: a repository's jobs are cancelled right after it is
      unmapped, a job is inserted last, after its repository is mapped, and a runner row moves
      right after its job row. */
  ghost predicate InOrder(s: seq<Stmt>) {
    forall i :: 0 <= i < |s| ==> InPlace(s, i)
  }

  predicate InPlace(s: seq<Stmt>, i: nat)
    requires i < |s|
  {
    && (s[i].CancelForRepo? ==> i > 0 && s[i - 1] == RemoveRepo(s[i].repo))
    && (s[i].InsertJob? ==> i == |s| - 1)
    && (s[i].SetRunnerByName? ==> i > 0 && (s[i - 1].MarkInProgress? || s[i - 1].MarkCompleted?))
  }

  lemma {:induction false} ScriptInOrder(db: Db, ev: Event, f: Faults)
    ensures InOrder(Script(db, ev, f))
  {
    match ev {
      case InstallationCreated(inst, repos) =>
        LinksOnly(inst, repos, f);
        InOrderAppend(if f.install then [] else [UpsertInstall(inst)], LinkScript(inst, repos, f));
      case InstallationDeleted(repos) => PurgeInOrder(repos, f);
      case InstallationRepositories(inst, added, removed) =>
        LinksOnly(inst, added, f);
        PurgeInOrder(removed, f);
        InOrderAppend(LinkScript(inst, added, f), PurgeScript(removed, f));
      case _ =>
    }
  }

  lemma {:induction false} InOrderAppend(a: seq<Stmt>, b: seq<Stmt>)
    requires InOrder(a) && InOrder(b) && forall st :: st in a ==> !st.InsertJob?
    ensures InOrder(a + b)
  {
    var s := a + b;
    forall i | 0 <= i < |s| ensures InPlace(s, i) {
      if i < |a| {
        assert InPlace(a, i) && a[i] in a;
      } else {
        assert InPlace(b, i - |a|) && s[i] == b[i - |a|] && (i > |a| ==> s[i - 1] == b[i - |a| - 1]);
      }
    }
  }

  lemma {:induction false} LinksOnly(inst: int, repos: seq<string>, f: Faults)
    ensures InOrder(LinkScript(inst, repos, f)) && forall st :: st in LinkScript(inst, repos, f) ==> st.UpsertRepo?
  {
    if repos == [] {
    } else {
      LinksOnly(inst, repos[1..], f);
      InOrderAppend(if f.link(repos[0]) then [] else [UpsertRepo(repos[0], inst)], LinkScript(inst, repos[1..], f));
    }
  }

  lemma {:induction false} PurgeInOrder(repos: seq<string>, f: Faults)
    ensures InOrder(PurgeScript(repos, f))
  {
    if repos == [] {
    } else {
      PurgeInOrder(repos[1..], f);
      assert InOrder(PurgeOne(repos[0], f));
      InOrderAppend(PurgeOne(repos[0], f), PurgeScript(repos[1..], f));
    }
  }

  // ---------------- closed forms ----------------

  function LinkMap(m: map<string, int>, inst: int, repos: seq<string>, f: Faults): map<string, int> {
    m + map r | r in repos && !f.link(r) :: inst
  }

  function Linked(db: Db, inst: int, repos: seq<string>, f: Faults): Db {
    db.(repos := if inst in db.installs then LinkMap(db.repos, inst, repos, f) else db.repos)
  }

  lemma {:induction false} LinkMapStep(m: map<string, int>, inst: int, repos: seq<string>, f: Faults)
    requires repos != []
    ensures LinkMap(if f.link(repos[0]) then m else m[repos[0] := inst], inst, repos[1..], f) == LinkMap(m, inst, repos, f)
  {
    assert forall r :: r in repos <==> r == repos[0] || r in repos[1..];
  }

  lemma {:induction false} LinkForm(db: Db, now: int, inst: int, repos: seq<string>, f: Faults)
    ensures RunScript(db, now, LinkScript(inst, repos, f)) == Linked(db, inst, repos, f)
    decreases |repos|
  {
    if repos != [] {
      var head := if f.link(repos[0]) then [] else [UpsertRepo(repos[0], inst)];
      var d := if f.link(repos[0]) then db else Exec(db, now, UpsertRepo(repos[0], inst));
      RunScriptAppend(db, now, head, LinkScript(inst, repos[1..], f));
      OneStatement(db, now, UpsertRepo(repos[0], inst));
      LinkForm(d, now, inst, repos[1..], f);
      LinkMapStep(db.repos, inst, repos, f);
    } else {
      assert Linked(db, inst, [], f).repos == db.repos;
    }
  }

  lemma {:induction false} OneStatement(db: Db, now: int, a: Stmt)
    ensures RunScript(db, now, [a]) == Exec(db, now, a)
  {
    assert [a][1..] == [];
  }

  lemma {:induction false} TwoStatements(db: Db, now: int, a: Stmt, b: Stmt)
    ensures RunScript(db, now, [a] + [b]) == Exec(Exec(db, now, a), now, b)
  {
    RunScriptAppend(db, now, [a], [b]);
    OneStatement(db, now, a);
    OneStatement(Exec(db, now, a), now, b);
  }

  function PurgedJob(j: Job, now: int, repos: seq<string>, f: Faults): Job {
    if j.repo in repos && !f.unlink(j.repo) && !f.cancel(j.repo) && Open(j) then Close(j, "cancelled", now) else j
  }

  function Purged(db: Db, now: int, repos: seq<string>, f: Faults): Db {
    db.(repos := map r | r in db.repos && !(r in repos && !f.unlink(r)) :: db.repos[r],
        jobs := map id | id in db.jobs :: PurgedJob(db.jobs[id], now, repos, f))
  }

  lemma {:induction false} PurgeOneForm(db: Db, now: int, repo: string, f: Faults)
    ensures RunScript(db, now, PurgeOne(repo, f)) == Purged(db, now, [repo], f)
  {
    PurgedOne(db, now, repo, f);
    OneStatement(db, now, RemoveRepo(repo));
    TwoStatements(db, now, RemoveRepo(repo), CancelForRepo(repo));
    assert [RemoveRepo(repo)] + [CancelForRepo(repo)] == [RemoveRepo(repo), CancelForRepo(repo)];
  }

  lemma {:induction false} PurgedOne(db: Db, now: int, repo: string, f: Faults)
    ensures var d := Exec(db, now, RemoveRepo(repo));
            Purged(db, now, [repo], f) ==
            if f.unlink(repo) then db else if f.cancel(repo) then d else Exec(d, now, CancelForRepo(repo))
  {
    var d := Exec(db, now, RemoveRepo(repo));
    PurgedOneJobs(db, now, repo, f);
    assert d.jobs == db.jobs && d.runners == db.runners && d.installs == db.installs;
    var p := Purged(db, now, [repo], f);
    assert p.repos == if f.unlink(repo) then db.repos else d.repos;
    if !f.unlink(repo) && !f.cancel(repo) {
      var e := Exec(d, now, CancelForRepo(repo));
      assert e.repos == d.repos && e.runners == d.runners && e.installs == d.installs;
    }
  }

  lemma {:induction false} PurgedOneJobs(db: Db, now: int, repo: string, f: Faults)
    ensures Purged(db, now, [repo], f).jobs ==
            if f.unlink(repo) || f.cancel(repo) then db.jobs else ExecJobs(db.jobs, now, CancelForRepo(repo))
  {
    var jobs := Purged(db, now, [repo], f).jobs;
    assert forall id :: id in jobs ==> jobs[id] == PurgedJob(db.jobs[id], now, [repo], f);
    assert forall r :: r in [repo] <==> r == repo;
  }

  lemma {:induction false} PurgedStep(db: Db, now: int, repos: seq<string>, f: Faults)
    requires repos != []
    ensures Purged(Purged(db, now, [repos[0]], f), now, repos[1..], f) == Purged(db, now, repos, f)
  {
    assert forall r :: r in repos <==> r == repos[0] || r in repos[1..];
    var d, e := Purged(Purged(db, now, [repos[0]], f), now, repos[1..], f), Purged(db, now, repos, f);
    assert forall j :: PurgedJob(PurgedJob(j, now, [repos[0]], f), now, repos[1..], f) == PurgedJob(j, now, repos, f);
    assert d.jobs == e.jobs;
    assert d.repos == e.repos;
  }

  lemma {:induction false} PurgeForm(db: Db, now: int, repos: seq<string>, f: Faults)
    ensures RunScript(db, now, PurgeScript(repos, f)) == Purged(db, now, repos, f)
    decreases |repos|
  {
    if repos != [] {
      RunScriptAppend(db, now, PurgeOne(repos[0], f), PurgeScript(repos[1..], f));
      PurgeOneForm(db, now, repos[0], f);
      PurgeForm(Purged(db, now, [repos[0]], f), now, repos[1..], f);
      PurgedStep(db, now, repos, f);
    } else {
      assert forall j :: PurgedJob(j, now, [], f) == j;
      assert Purged(db, now, [], f).jobs == db.jobs;
      assert Purged(db, now, [], f).repos == db.repos;
    }
  }

  /** A removal answered 200 left none of its repositories mapped and no open job of theirs,
      whatever was there before; so a redelivery after a 503 repairs what the first missed. */
  lemma {:induction false} RemovalIsComplete(p: Pool, now: int, repos: seq<string>, f: Faults, r: string)
    requires r in repos && !MustRetry(InstallationDeleted(repos), f)
    ensures var db := Deliver(p, now, InstallationDeleted(repos), f).db;
            r !in db.repos && forall id :: id in db.jobs && db.jobs[id].repo == r ==> !Open(db.jobs[id])
  {
    PurgeFailsWhen(repos, f);
    PurgeForm(p.db, now, repos, f);
  }

  /** A delivery that maps repository r: an installation event that adds it, or a queued job
      of it, however late, whose installation is still on file. */
  predicate Maps(db: Db, ev: Event, r: string) {
    match ev
    case InstallationCreated(_, repos) => r in repos
    case InstallationDeleted(_) => false
    case InstallationRepositories(inst, added, removed) => r in added && r !in removed && inst in db.installs
    case JobQueued(_, repo, _, inst, admitted) => admitted && repo == r && r != "" && inst != 0 && inst in db.installs
    case _ => false
  }

  /** An unmapped repository stays unmapped through exactly the deliveries that do not map it.
      Installation rows are never deleted, so after a removal a late queued event maps it again. */
  lemma {:induction false} UnmappedUntilMapped(p: Pool, now: int, ev: Event, r: string)
    requires r !in p.db.repos
    ensures r in Deliver(p, now, ev, NO_FAULTS).db.repos <==> Maps(p.db, ev, r)
    ensures p.db.installs <= Deliver(p, now, ev, NO_FAULTS).db.installs
  {
    match ev {
      case InstallationCreated(inst, repos) =>
        var link := LinkScript(inst, repos, NO_FAULTS);
        assert ([UpsertInstall(inst)] + link)[1..] == link;
        LinkForm(Exec(p.db, now, UpsertInstall(inst)), now, inst, repos, NO_FAULTS);
      case InstallationDeleted(repos) => PurgeForm(p.db, now, repos, NO_FAULTS);
      case InstallationRepositories(inst, added, removed) => MovedForm(p.db, now, inst, added, removed);
      case JobQueued(id, repo, labels, inst, admitted) =>
        if inst != 0 && repo != "" {
          TwoStatements(p.db, now, UpsertRepo(repo, inst), InsertJob(id, repo, labels));
        } else {
          assert [] + [InsertJob(id, repo, labels)] == [InsertJob(id, repo, labels)];
          OneStatement(p.db, now, InsertJob(id, repo, labels));
        }
      case _ => TransitionForm(p, now, ev);
    }
  }

  // ---------------- redelivery ----------------

  /** Delivering any webhook twice in a row, at any two times, is delivering it once. */
  lemma {:induction false} RedeliveryIsIdempotent(p: Pool, t1: int, t2: int, ev: Event)
    ensures Deliver(Deliver(p, t1, ev, NO_FAULTS), t2, ev, NO_FAULTS) == Deliver(p, t1, ev, NO_FAULTS)
  {
    match ev {
      case InstallationCreated(inst, repos) => CreatedTwice(p.db, t1, t2, inst, repos);
      case InstallationDeleted(repos) =>
        PurgeForm(p.db, t1, repos, NO_FAULTS);
        PurgedTwice(p.db, t1, t2, [], repos, 0);
        PurgeForm(Purged(p.db, t1, repos, NO_FAULTS), t2, repos, NO_FAULTS);
      case InstallationRepositories(inst, added, removed) =>
        MovedForm(p.db, t1, inst, added, removed);
        MovedForm(Deliver(p, t1, ev, NO_FAULTS).db, t2, inst, added, removed);
        PurgedTwice(p.db, t1, t2, added, removed, inst);
      case JobQueued(_, _, _, _, _) => QueuedTwice(p, t1, t2, ev);
      case _ => TransitionTwice(p, t1, t2, ev);
    }
  }

  lemma {:induction false} CreatedTwice(db: Db, t1: int, t2: int, inst: int, repos: seq<string>)
    ensures var s := [UpsertInstall(inst)] + LinkScript(inst, repos, NO_FAULTS);
            RunScript(RunScript(db, t1, s), t2, s) == RunScript(db, t1, s)
  {
    var link := LinkScript(inst, repos, NO_FAULTS);
    assert ([UpsertInstall(inst)] + link)[1..] == link;
    var d := Exec(db, t1, UpsertInstall(inst));
    LinkForm(d, t1, inst, repos, NO_FAULTS);
    var once := Linked(d, inst, repos, NO_FAULTS);
    assert Exec(once, t2, UpsertInstall(inst)) == once;
    LinkForm(once, t2, inst, repos, NO_FAULTS);
    assert Linked(once, inst, repos, NO_FAULTS) == once;
  }

  lemma {:induction false} MovedForm(db: Db, now: int, inst: int, added: seq<string>, removed: seq<string>)
    ensures RunScript(db, now, LinkScript(inst, added, NO_FAULTS) + PurgeScript(removed, NO_FAULTS)) ==
            Purged(Linked(db, inst, added, NO_FAULTS), now, removed, NO_FAULTS)
  {
    RunScriptAppend(db, now, LinkScript(inst, added, NO_FAULTS), PurgeScript(removed, NO_FAULTS));
    LinkForm(db, now, inst, added, NO_FAULTS);
    PurgeForm(Linked(db, inst, added, NO_FAULTS), now, removed, NO_FAULTS);
  }

  lemma {:induction false} PurgedTwice(db: Db, t1: int, t2: int, added: seq<string>, removed: seq<string>, inst: int)
    ensures var once := Purged(Linked(db, inst, added, NO_FAULTS), t1, removed, NO_FAULTS);
            Purged(Linked(once, inst, added, NO_FAULTS), t2, removed, NO_FAULTS) == once
    ensures added == [] ==> var once := Purged(db, t1, removed, NO_FAULTS); Purged(once, t2, removed, NO_FAULTS) == once
  {
    var once := Purged(Linked(db, inst, added, NO_FAULTS), t1, removed, NO_FAULTS);
    var twice := Purged(Linked(once, inst, added, NO_FAULTS), t2, removed, NO_FAULTS);
    assert forall j :: PurgedJob(PurgedJob(j, t1, removed, NO_FAULTS), t2, removed, NO_FAULTS) == PurgedJob(j, t1, removed, NO_FAULTS);
    assert twice.jobs == once.jobs;
    assert twice.repos == once.repos;
    if added == [] {
      var one := Purged(db, t1, removed, NO_FAULTS);
      assert Purged(one, t2, removed, NO_FAULTS).jobs == one.jobs;
      assert Purged(one, t2, removed, NO_FAULTS).repos == one.repos;
    }
  }

  lemma {:induction false} QueuedTwice(p: Pool, t1: int, t2: int, ev: Event)
    requires ev.JobQueued?
    ensures Deliver(Deliver(p, t1, ev, NO_FAULTS), t2, ev, NO_FAULTS) == Deliver(p, t1, ev, NO_FAULTS)
  {
    if ev.admitted {
      var insert := InsertJob(ev.id, ev.repo, ev.labels);
      if ev.inst != 0 && ev.repo != "" {
        TwoStatements(p.db, t1, UpsertRepo(ev.repo, ev.inst), insert);
        TwoStatements(Deliver(p, t1, ev, NO_FAULTS).db, t2, UpsertRepo(ev.repo, ev.inst), insert);
      } else {
        assert [] + [insert] == [insert];
        OneStatement(p.db, t1, insert);
        OneStatement(Deliver(p, t1, ev, NO_FAULTS).db, t2, insert);
      }
    }
  }

  lemma {:induction false} TransitionTwice(p: Pool, t1: int, t2: int, ev: Event)
    requires ev.JobInProgress? || ev.JobCompleted?
    ensures Deliver(Deliver(p, t1, ev, NO_FAULTS), t2, ev, NO_FAULTS) == Deliver(p, t1, ev, NO_FAULTS)
  {
    TransitionForm(p, t1, ev);
    TransitionForm(Deliver(p, t1, ev, NO_FAULTS), t2, ev);
  }

  /** A transition event writes the job row, and the runner row only if the job row moved. */
  lemma {:induction false} TransitionForm(p: Pool, now: int, ev: Event)
    requires ev.JobInProgress? || ev.JobCompleted?
    ensures var mark := if ev.JobInProgress? then MarkInProgress(ev.id, ev.runnerId, ev.runnerName)
                        else MarkCompleted(ev.id, ev.conclusion);
            var acts := ev.admitted && (ev.JobCompleted? || ev.runnerName != "") && Matched(p.db, mark) != {};
            var d := if acts then Exec(p.db, now, mark) else p.db;
            Deliver(p, now, ev, NO_FAULTS) ==
            Pool(if acts && ev.runnerName != ""
                 then Exec(d, now, SetRunnerByName(ev.runnerName, if ev.JobInProgress? then Busy else Finished)) else d,
                 p.queue)
  {
    var mark := if ev.JobInProgress? then MarkInProgress(ev.id, ev.runnerId, ev.runnerName)
                else MarkCompleted(ev.id, ev.conclusion);
    var setRunner := SetRunnerByName(ev.runnerName, if ev.JobInProgress? then Busy else Finished);
    TwoStatements(p.db, now, mark, setRunner);
    assert [mark] + [] == [mark];
    OneStatement(p.db, now, mark);
    if Matched(p.db, mark) == {} {
      assert Exec(p.db, now, mark) == p.db;
    }
  }

  // ---------------- reordering ----------------

  /** An in_progress or completed event of one job, bound to one runner and one conclusion. */
  datatype Transition = Transition(at: int, ev: Event)

  ghost predicate About(es: seq<Transition>, id: JobId, conclusion: string, name: string) {
    forall i :: 0 <= i < |es| ==>
      && (es[i].ev.JobInProgress? || es[i].ev.JobCompleted?)
      && es[i].ev.admitted && es[i].ev.id == id && es[i].ev.runnerName == name
      && (es[i].ev.JobCompleted? ==> es[i].ev.conclusion == conclusion)
  }

  function DeliverAll(p: Pool, es: seq<Transition>): Pool
    decreases |es|
  {
    if es == [] then p else DeliverAll(Deliver(p, es[0].at, es[0].ev, NO_FAULTS), es[1..])
  }

  predicate SomeCompleted(es: seq<Transition>) {
    exists i :: 0 <= i < |es| && es[i].ev.JobCompleted?
  }

  lemma {:induction false} AfterCompletion(p: Pool, es: seq<Transition>, id: JobId, conclusion: string, name: string)
    requires About(es, id, conclusion, name) && id in p.db.jobs && p.db.jobs[id].status.Completed?
    ensures DeliverAll(p, es) == p
    decreases |es|
  {
    if es == [] {
    } else {
      TransitionForm(p, es[0].at, es[0].ev);
      AfterCompletion(p, es[1..], id, conclusion, name);
    }
  }

  /** For a job that is not completed, any ordering and duplication of its in_progress and
      completed events, with at least one completed, ends with the same job status and
      conclusion and the same status of every runner row. */
  lemma {:induction false} OrderDoesNotMatter(p: Pool, es: seq<Transition>, id: JobId, conclusion: string, name: string)
    requires About(es, id, conclusion, name) && SomeCompleted(es)
    requires id in p.db.jobs && !p.db.jobs[id].status.Completed?
    ensures var db := DeliverAll(p, es).db;
      && id in db.jobs && db.jobs[id].status.Completed? && db.jobs[id].conclusion == conclusion
      && db.runners.Keys == p.db.runners.Keys
      && forall n :: n in db.runners ==>
           && db.runners[n].runnerName == p.db.runners[n].runnerName
           && db.runners[n].status ==
                if name != "" && p.db.runners[n].runnerName == name then Finished else p.db.runners[n].status
    decreases |es|
  {
    var p1 := Deliver(p, es[0].at, es[0].ev, NO_FAULTS);
    TransitionForm(p, es[0].at, es[0].ev);
    if es[0].ev.JobCompleted? {
      AfterCompletion(p1, es[1..], id, conclusion, name);
    } else {
      var i :| 0 <= i < |es| && es[i].ev.JobCompleted?;
      assert es[1..][i - 1] == es[i];
      OrderDoesNotMatter(p1, es[1..], id, conclusion, name);
    }
  }

  // ---------------- what each delivery writes, field by field ----------------

  /** A new job is inserted pending with its repository and joined labels, and queued last if
      there is room; its repository is mapped to the event's installation if that is on file. */
  predicate QueuedWrote(p: Pool, p': Pool, now: int, e: JobEvent, admitted: bool, f: Faults) {
    var inserted, stamp := admitted && !f.job && e.id !in p.db.jobs, now - now % 1_000_000_000;
    var name := e.repo.fullName;
    && p'.db.jobs == (if inserted then p.db.jobs[e.id := Job(name, Owners.Join(e.labels), Pending, "", 0, "", stamp, stamp)]
                      else p.db.jobs)
    && p'.db.repos == (if admitted && e.inst != 0 && name != "" && !f.link(name) && e.inst in p.db.installs
                       then p.db.repos[name := e.inst] else p.db.repos)
    && p'.db.runners == p.db.runners && p'.db.installs == p.db.installs
    && p'.queue == if inserted && |p.queue| < 256 then p.queue + [e.id] else p.queue
  }

  /** An open row is marked in_progress with the event's runner, and only then do the rows of
      that runner's name turn busy. */
  predicate StartedWrote(p: Pool, p': Pool, now: int, e: JobEvent, admitted: bool, f: Faults) {
    var moved := && admitted && e.runnerName != "" && !f.job && e.id in p.db.jobs
                 && (p.db.jobs[e.id].status == Pending || p.db.jobs[e.id].status == Dispatched);
    && p'.db.jobs == (if moved
                      then p.db.jobs[e.id := p.db.jobs[e.id].(status := InProgress, runnerId := e.runnerId,
                                                              runnerName := e.runnerName, updatedAt := now - now % 1_000_000_000)]
                      else p.db.jobs)
    && p'.db.runners == (map n | n in p.db.runners ::
                           if moved && !f.runner && p.db.runners[n].runnerName == e.runnerName
                           then p.db.runners[n].(status := Busy) else p.db.runners[n])
    && p'.db.repos == p.db.repos && p'.db.installs == p.db.installs && p'.queue == p.queue
  }

  /** A row not yet completed is closed with the event's conclusion, and only then are the rows
      of the event's runner finished. */
  predicate EndedWrote(p: Pool, p': Pool, now: int, e: JobEvent, admitted: bool, f: Faults) {
    var stamp := now - now % 1_000_000_000;
    var moved := admitted && !f.job && e.id in p.db.jobs && p.db.jobs[e.id].status != Completed;
    && p'.db.jobs == (if moved
                      then p.db.jobs[e.id := p.db.jobs[e.id].(status := Completed, conclusion := e.conclusion, updatedAt := stamp)]
                      else p.db.jobs)
    && p'.db.runners == (map n | n in p.db.runners ::
                           if moved && !f.runner && e.runnerName != "" && p.db.runners[n].runnerName == e.runnerName
                           then p.db.runners[n].(status := Finished, finishedAt := Some(stamp)) else p.db.runners[n])
    && p'.db.repos == p.db.repos && p'.db.installs == p.db.installs && p'.queue == p.queue
  }

  lemma {:induction false} QueuedWrites(p: Pool, now: int, g: Admission.Gate, e: JobEvent, f: Faults)
    requires e.action.Queued?
    ensures QueuedWrote(p, Deliver(p, now, Gated(g, e), f), now, e, Admits(g, e), f)
  {
    QueuedRuns(p.db, now, Gated(g, e), f);
    QueuedExec(p.db, now, e);
    QueuedExec(Exec(p.db, now, UpsertRepo(e.repo.fullName, e.inst)), now, e);
  }

  lemma {:induction false} QueuedExec(db: Db, now: int, e: JobEvent)
    ensures var name, stamp := e.repo.fullName, now - now % 1_000_000_000;
      && Exec(db, now, UpsertRepo(name, e.inst)) == db.(repos := if e.inst in db.installs then db.repos[name := e.inst] else db.repos)
      && Exec(db, now, InsertJob(e.id, name, Owners.Join(e.labels))) ==
         db.(jobs := if e.id in db.jobs then db.jobs
                     else db.jobs[e.id := Job(name, Owners.Join(e.labels), Pending, "", 0, "", stamp, stamp)])
  {
  }

  lemma {:induction false} QueuedRuns(db: Db, now: int, ev: Event, f: Faults)
    requires ev.JobQueued?
    ensures var links := ev.admitted && ev.inst != 0 && ev.repo != "" && !f.link(ev.repo);
      var d := if links then Exec(db, now, UpsertRepo(ev.repo, ev.inst)) else db;
      RunScript(db, now, Script(db, ev, f)) ==
      if ev.admitted && !f.job then Exec(d, now, InsertJob(ev.id, ev.repo, ev.labels)) else d
  {
    var insert := InsertJob(ev.id, ev.repo, ev.labels);
    QueuedSteps(db, now, UpsertRepo(ev.repo, ev.inst), insert);
  }

  lemma {:induction false} StartedWrites(p: Pool, now: int, g: Admission.Gate, e: JobEvent, f: Faults)
    requires e.action.Started?
    ensures StartedWrote(p, Deliver(p, now, Gated(g, e), f), now, e, Admits(g, e), f)
  {
    Transitioned(p.db, now, MarkInProgress(e.id, e.runnerId, e.runnerName), SetRunnerByName(e.runnerName, Busy));
    assert (map n | n in p.db.runners :: p.db.runners[n]) == p.db.runners;
  }

  lemma {:induction false} EndedWrites(p: Pool, now: int, g: Admission.Gate, e: JobEvent, f: Faults)
    requires e.action.Ended?
    ensures EndedWrote(p, Deliver(p, now, Gated(g, e), f), now, e, Admits(g, e), f)
  {
    Transitioned(p.db, now, MarkCompleted(e.id, e.conclusion), SetRunnerByName(e.runnerName, Finished));
    assert (map n | n in p.db.runners :: p.db.runners[n]) == p.db.runners;
  }

  lemma {:induction false} QueuedSteps(db: Db, now: int, link: Stmt, insert: Stmt)
    ensures RunScript(db, now, [link] + [insert]) == Exec(Exec(db, now, link), now, insert)
    ensures RunScript(db, now, [link] + []) == Exec(db, now, link)
    ensures RunScript(db, now, [] + [insert]) == Exec(db, now, insert)
  {
    Transitioned(db, now, link, insert);
    OneStatement(db, now, insert);
    assert [] + [insert] == [insert];
  }

  // ---------------- the handlers ----------------

  class WebhookHandler {
    const store: SQLite
    const sched: Dispatch.Scheduler

    constructor (store: SQLite, sched: Dispatch.Scheduler)
      ensures this.store == store && this.sched == sched
    {
      this.store, this.sched := store, sched;
    }

    function State(): Pool
      reads this, store, sched
    {
      Pool(store.Value(), sched.jobCh)
    }

    method LinkRepos(now: int, inst: int, repos: seq<string>, f: Faults)
      modifies store
      ensures store.Value() == RunScript(old(store.Value()), now, LinkScript(inst, repos, f))
    {
      ghost var goal := RunScript(store.Value(), now, LinkScript(inst, repos, f));
      assert repos[0..] == repos;
      var i := 0;
      while i < |repos|
        invariant 0 <= i <= |repos|
        invariant goal == RunScript(store.Value(), now, LinkScript(inst, repos[i..], f))
      {
        assert repos[i..][1..] == repos[i + 1..];
        var rest := LinkScript(inst, repos[i + 1..], f);
        if !f.link(repos[i]) {
          assert ([UpsertRepo(repos[i], inst)] + rest)[1..] == rest;
          var _ := store.UpsertRepoInstallation(now, repos[i], inst);
        } else {
          assert [] + rest == rest;
        }
        i := i + 1;
      }
    }

    /** Unmap, then cancel; a failed unmap skips the cancel. */
    method PurgeRepo(now: int, repo: string, f: Faults) returns (failed: bool)
      modifies store
      ensures store.Value() == RunScript(old(store.Value()), now, PurgeOne(repo, f))
      ensures failed <==> f.unlink(repo) || f.cancel(repo)
    {
      ghost var before := store.Value();
      if f.unlink(repo) {
        return true;
      }
      store.RemoveRepoInstallation(now, repo);
      OneStatement(before, now, RemoveRepo(repo));
      if f.cancel(repo) {
        return true;
      }
      var _ := store.CancelPendingJobsForRepo(now, repo);
      TwoStatements(before, now, RemoveRepo(repo), CancelForRepo(repo));
      assert [RemoveRepo(repo)] + [CancelForRepo(repo)] == [RemoveRepo(repo), CancelForRepo(repo)];
      failed := false;
    }

    /** Repository by repository; `failed` reports any store failure. */
    method PurgeRepos(now: int, repos: seq<string>, f: Faults) returns (failed: bool)
      modifies store
      ensures store.Value() == RunScript(old(store.Value()), now, PurgeScript(repos, f))
      ensures failed <==> PurgeFails(repos, f)
    {
      failed := false;
      ghost var goal := RunScript(store.Value(), now, PurgeScript(repos, f));
      assert repos[0..] == repos;
      var i := 0;
      while i < |repos|
        invariant 0 <= i <= |repos|
        invariant goal == RunScript(store.Value(), now, PurgeScript(repos[i..], f))
        invariant PurgeFails(repos, f) <==> failed || PurgeFails(repos[i..], f)
      {
        assert repos[i..][0] == repos[i] && repos[i..][1..] == repos[i + 1..];
        RunScriptAppend(store.Value(), now, PurgeOne(repos[i], f), PurgeScript(repos[i + 1..], f));
        var missed := PurgeRepo(now, repos[i], f);
        failed := failed || missed;
        i := i + 1;
      }
    }

    method HandleInstallation(now: int, ev: Event, f: Faults) returns (status: int)
      requires ev.InstallationCreated? || ev.InstallationDeleted?
      modifies store
      ensures State() == Deliver(old(State()), now, ev, f)
      ensures status == if MustRetry(ev, f) then 503 else 200
      ensures ev.InstallationCreated? ==>
        var db := old(store.Value());
        (&& store.Value() == Linked(if f.install then db else db.(installs := db.installs + {ev.inst}), ev.inst, ev.repos, f)
         && status == 200)
      ensures ev.InstallationDeleted? ==>
        (&& store.Value() == Purged(old(store.Value()), now, ev.repos, f)
         && (status == 503 <==> exists r :: r in ev.repos && (f.unlink(r) || f.cancel(r))))
    {
      match ev {
        case InstallationCreated(inst, repos) =>
          LinkForm(if f.install then store.Value() else Exec(store.Value(), now, UpsertInstall(inst)), now, inst, repos, f);
          var link := LinkScript(inst, repos, f);
          assert ([UpsertInstall(inst)] + link)[1..] == link;
          assert [] + link == link;
          if !f.install {
            store.UpsertInstallation(now, inst);
          }
          LinkRepos(now, inst, repos, f);
        case InstallationDeleted(repos) =>
          PurgeForm(store.Value(), now, repos, f);
          PurgeFailsWhen(repos, f);
          var failed := PurgeRepos(now, repos, f);
          if failed {
            return 503;
          }
      }
      status := 200;
    }

    method HandleInstallationRepositories(now: int, ev: Event, f: Faults) returns (status: int)
      requires ev.InstallationRepositories?
      modifies store
      ensures State() == Deliver(old(State()), now, ev, f)
      ensures store.Value() == Purged(Linked(old(store.Value()), ev.inst, ev.added, f), now, ev.removed, f)
      ensures status == 503 <==> exists r :: r in ev.removed && (f.unlink(r) || f.cancel(r))
      ensures status == if MustRetry(ev, f) then 503 else 200
    {
      LinkForm(store.Value(), now, ev.inst, ev.added, f);
      PurgeForm(Linked(store.Value(), ev.inst, ev.added, f), now, ev.removed, f);
      PurgeFailsWhen(ev.removed, f);
      RunScriptAppend(store.Value(), now, LinkScript(ev.inst, ev.added, f), PurgeScript(ev.removed, f));
      LinkRepos(now, ev.inst, ev.added, f);
      var removeFailed := PurgeRepos(now, ev.removed, f);
      if removeFailed {
        return 503;
      }
      status := 200;
    }

    /** The gates, then the store. */
    method HandleWorkflowJob(now: int, g: Admission.Gate, e: JobEvent, f: Faults) returns (status: int)
      modifies store, sched`jobCh
      ensures State() == if e.action.OtherAction? then old(State()) else Deliver(old(State()), now, Gated(g, e), f)
      ensures e.action.OtherAction? ==> State() == old(State()) && status == 200
      ensures e.action.Queued? ==>
        var login := Owners.Resolved(g.app);
        var admitted := && Admission.LabelsServed(g, e.labels) && Admission.PublicAllowed(g, e.repo)
                        && Owners.OwnerOk(e.repo.fullName, login, g.stored);
        QueuedWrote(old(State()), State(), now, e, admitted, f) && status == if admitted && f.job then 503 else 200
      ensures e.action.Started? ==>
        StartedWrote(old(State()), State(), now, e, Admission.LabelsServed(g, e.labels), f) && status == 200
      ensures e.action.Ended? ==>
        EndedWrote(old(State()), State(), now, e, Admission.LabelsServed(g, e.labels), f) && status == 200
    {
      match e.action {
        case Queued => QueuedWrites(State(), now, g, e, f);
        case Started => StartedWrites(State(), now, g, e, f);
        case Ended => EndedWrites(State(), now, g, e, f);
        case OtherAction =>
      }
      var served := Admission.LabelsMatch(e.labels, g);
      if !served {
        return 200;
      }
      match e.action {
        case OtherAction => return 200;
        case Queued =>
          var allowed := Admission.PublicRepoAllowed(g, e.repo);
          if !allowed {
            return 200;
          }
          var owned, _ := Owners.OwnerAllowed(e.repo.fullName, g.app, g.stored);
          if !owned {
            return 200;
          }
        case _ =>
      }
      status := ApplyWorkflowJob(now, Gated(g, e), f);
    }

    method ApplyWorkflowJob(now: int, ev: Event, f: Faults) returns (status: int)
      requires ev.JobQueued? || ev.JobInProgress? || ev.JobCompleted?
      modifies store, sched`jobCh
      ensures State() == Deliver(old(State()), now, ev, f)
      ensures status == if MustRetry(ev, f) then 503 else 200
    {
      ghost var db := store.Value();
      if !ev.admitted {
        return 200;
      }
      match ev {
        case JobQueued(id, repo, labels, inst, _) =>
          RunScriptAppend(db, now, if inst != 0 && repo != "" && !f.link(repo) then [UpsertRepo(repo, inst)] else [],
                          if f.job then [] else [InsertJob(id, repo, labels)]);
          OneStatement(db, now, UpsertRepo(repo, inst));
          if inst != 0 && repo != "" {
            if !f.link(repo) {
              var _ := store.UpsertRepoInstallation(now, repo, inst);
            }
          }
          if f.job {
            return 503;
          }
          OneStatement(store.Value(), now, InsertJob(id, repo, labels));
          var inserted := store.InsertJobIfNew(now, id, repo, labels);
          if inserted {
            sched.Enqueue(id);
          }
        case JobInProgress(id, runnerId, runnerName, _) =>
          if runnerName == "" || f.job {
            return 200;
          }
          var advanced := store.MarkJobInProgress(now, id, runnerId, runnerName);
          Transitioned(db, now, MarkInProgress(id, runnerId, runnerName), SetRunnerByName(runnerName, Busy));
          if advanced && !f.runner {
            store.UpdateRunnerStatusByName(now, runnerName, Busy);
          }
        case JobCompleted(id, conclusion, runnerName, _) =>
          if f.job {
            return 200;
          }
          var completed := store.MarkJobCompleted(now, id, conclusion);
          Transitioned(db, now, MarkCompleted(id, conclusion), SetRunnerByName(runnerName, Finished));
          if completed && runnerName != "" && !f.runner {
            store.UpdateRunnerStatusByName(now, runnerName, Finished);
          }
      }
      status := 200;
    }
  }

  lemma {:induction false} Transitioned(db: Db, now: int, mark: Stmt, setRunner: Stmt)
    ensures RunScript(db, now, [mark] + [setRunner]) == Exec(Exec(db, now, mark), now, setRunner)
    ensures RunScript(db, now, [mark] + []) == Exec(db, now, mark)
  {
    TwoStatements(db, now, mark, setRunner);
    OneStatement(db, now, mark);
    assert [mark] + [] == [mark];
  }

  /** The admin endpoints, after authorisation. */
  class JobsHandler {
    const store: SQLite
    const sched: Dispatch.Scheduler

    constructor (store: SQLite, sched: Dispatch.Scheduler)
      ensures this.store == store && this.sched == sched
    {
      this.store, this.sched := store, sched;
    }

    /** Statements of other components that fall between the read and the guarded write. */
    method Meanwhile(now: int, others: seq<Stmt>)
      modifies store
      ensures store.Value() == RunScript(old(store.Value()), now, others)
    {
      ghost var goal := RunScript(store.Value(), now, others);
      assert others[0..] == others;
      for i := 0 to |others|
        invariant RunScript(store.Value(), now, others[i..]) == goal
      {
        assert others[i..][0] == others[i] && others[i..][1..] == others[i + 1..];
        store.Run(now, others[i]);
      }
    }

    /** A 200 means the row is pending again and queued (if there was room); a 500 after the
        write means the same, only the row could not be read back. The second 409 is for a row
        that somebody else moved between the read and the write. */
    method Retry(now: int, id: JobId, others: seq<Stmt>, readFails: bool, writeFails: bool, rereadFails: bool)
      returns (status: int, ghost applied: bool)
      modifies store, sched`jobCh
      ensures var db := old(store.Value()); var mid := RunScript(db, now, others);
        var seen := !readFails && JobHistory.IsDone(db, id);
        && (applied <==> seen && !writeFails && JobHistory.IsDone(mid, id))
        && (store.Value() == if applied then Exec(mid, now, Stmt.Retry(id)) else if seen then mid else db)
        && (status == if readFails then 500 else if id !in db.jobs then 404 else if !seen then 409
                      else if writeFails then 500 else if !applied then 409 else if rereadFails then 500 else 200)
      ensures sched.jobCh == if applied && |old(sched.jobCh)| < 256 then old(sched.jobCh) + [id] else old(sched.jobCh)
      ensures applied ==>
        var mid := RunScript(old(store.Value()), now, others).jobs;
        (&& id in mid && mid[id].status == Completed
         && store.jobs == mid[id := mid[id].(status := Pending, conclusion := "", runnerId := 0, runnerName := "",
                                             updatedAt := now - now % 1_000_000_000)])
    {
      applied := false;
      if readFails {
        return 500, applied;
      }
      var job := store.GetJob(id);
      if job.None? {
        return 404, applied;
      }
      if !job.value.status.Completed? {
        return 409, applied;
      }
      Meanwhile(now, others);
      if writeFails {
        return 500, applied;
      }
      var updated := store.RetryJobIfCompleted(now, id);
      if !updated {
        assert Exec(RunScript(old(store.Value()), now, others), now, Stmt.Retry(id)) == RunScript(old(store.Value()), now, others);
        return 409, applied;
      }
      applied := true;
      sched.Enqueue(id);
      status := if rereadFails then 500 else 200;
    }

    /** A 200 means an open row is now completed with conclusion cancelled. */
    method Cancel(now: int, id: JobId, others: seq<Stmt>, readFails: bool, writeFails: bool, rereadFails: bool)
      returns (status: int, ghost applied: bool)
      modifies store
      ensures var db := old(store.Value()); var mid := RunScript(db, now, others);
        var seen := !readFails && IsOpen(db, id);
        && (applied <==> seen && !writeFails && IsOpen(mid, id))
        && (store.Value() == if applied then Exec(mid, now, CancelIfPending(id)) else if seen then mid else db)
        && (status == if readFails then 500 else if id !in db.jobs then 404 else if !seen then 409
                      else if writeFails then 500 else if !applied then 409 else if rereadFails then 500 else 200)
      ensures applied ==>
        var mid := RunScript(old(store.Value()), now, others).jobs;
        (&& id in mid && (mid[id].status == Pending || mid[id].status == Dispatched)
         && store.jobs == mid[id := mid[id].(status := Completed, conclusion := "cancelled", updatedAt := now - now % 1_000_000_000)])
    {
      applied := false;
      if readFails {
        return 500, applied;
      }
      var job := store.GetJob(id);
      if job.None? {
        return 404, applied;
      }
      if !job.value.status.Pending? && !job.value.status.Dispatched? {
        return 409, applied;
      }
      Meanwhile(now, others);
      if writeFails {
        return 500, applied;
      }
      var updated := store.CancelJobIfPending(now, id);
      if !updated {
        assert Exec(RunScript(old(store.Value()), now, others), now, CancelIfPending(id)) == RunScript(old(store.Value()), now, others);
        return 409, applied;
      }
      applied := true;
      status := if rereadFails then 500 else 200;
    }
  }

  predicate IsOpen(db: Db, id: JobId) {
    id in db.jobs && Open(db.jobs[id])
  }
}
