/** The GitHub-side sweep: deregister runners of our namespace that no active row claims.

    Same scheme: `Step` for interleaving, `Drive` for running alone, and the imperative
    sweep proved equal to `Drive`. */
module GitHubSweep {
  import opened Store

  datatype RepoRef = RepoRef(repo: string, inst: int)

  /** One entry of GitHub's runner list for a repository. */
  datatype RepoRunner = RepoRunner(id: int, name: string, busy: bool)

  /** GitHub's roster: registration id -> where, under which name, running a job or not. */
  datatype Registration = Registration(repo: string, name: string, busy: bool)
  type Roster = map<int, Registration>

  /** Loop state: repositories to do, (repo, runner name) pairs claimed at the top of the
      sweep, installations whose token is cached. */
  datatype Ctx = Ctx(todo: seq<RepoRef>, known: set<(string, string)>, tokens: set<int>)

  datatype Pc =
    | Begin
    | Snapshot(repos: seq<RepoRef>)
    | AppKey(c: Ctx)
    | Repos(c: Ctx)
    | List(repo: string, c: Ctx)
    | Recheck(repo: string, cands: seq<RepoRunner>, c: Ctx)
    | Delete(repo: string, cands: seq<RepoRunner>, claimed: set<string>, c: Ctx)
    | Ended

  datatype Reply = Reply(err: bool, repos: seq<RepoRef>, runners: seq<RepoRunner>)

  function Claimed(db: Db): set<(string, string)> {
    set n | n in Active(db) :: (db.runners[n].repo, db.runners[n].runnerName)
  }

  function ClaimedBy(runners: map<string, Runner>, names: seq<string>): set<(string, string)> {
    set n | n in names && n in runners :: (runners[n].repo, runners[n].runnerName)
  }

  function ActiveNames(db: Db, repo: string): set<string> {
    set n | n in Active(db) && db.runners[n].repo == repo :: db.runners[n].runnerName
  }

  predicate Candidate(prefix: string, repo: string, g: RepoRunner, known: set<(string, string)>) {
    prefix <= g.name && (repo, g.name) !in known && !g.busy
  }

  function Candidates(prefix: string, repo: string, runners: seq<RepoRunner>, known: set<(string, string)>): seq<RepoRunner> {
    if runners == [] then []
    else
      var rest := Candidates(prefix, repo, runners[1..], known);
      if Candidate(prefix, repo, runners[0], known) then [runners[0]] + rest else rest
  }

  lemma {:induction false} CandidatesExactly(prefix: string, repo: string, runners: seq<RepoRunner>, known: set<(string, string)>)
    ensures forall g :: g in Candidates(prefix, repo, runners, known) <==>
                        g in runners && Candidate(prefix, repo, g, known)
  {
    if runners == [] {
    } else {
      CandidatesExactly(prefix, repo, runners[1..], known);
      assert forall g :: g in runners <==> g == runners[0] || g in runners[1..];
    }
  }

  /** The successor, and the registration deleted. */
  datatype Move = Move(next: Pc, delete: Option<int>)

  function Go(next: Pc): Move {
    Move(next, None)
  }

  function Step(prefix: string, pc: Pc, db: Db, r: Reply): Move {
    match pc
    case Begin => if r.err || r.repos == [] then Go(Ended) else Go(Snapshot(r.repos))
    case Snapshot(repos) => if r.err then Go(Ended) else Go(AppKey(Ctx(repos, Claimed(db), {})))
    case AppKey(c) => if r.err then Go(Ended) else Go(Repos(c))
    case Repos(c) =>
      if c.todo == [] then Go(Ended)
      else
        var rest := c.(todo := c.todo[1..]);
        if c.todo[0].inst in c.tokens then Go(List(c.todo[0].repo, rest))
        else if r.err then Go(Repos(rest))
        else Go(List(c.todo[0].repo, rest.(tokens := c.tokens + {c.todo[0].inst})))
    case List(repo, c) =>
      var cands := Candidates(prefix, repo, r.runners, c.known);
      if r.err || cands == [] then Go(Repos(c)) else Go(Recheck(repo, cands, c))
    case Recheck(repo, cands, c) =>
      if r.err then Go(Repos(c)) else Go(Delete(repo, cands, ActiveNames(db, repo), c))
    case Delete(repo, cands, claimed, c) =>
      if cands == [] then Go(Repos(c))
      else if cands[0].name in claimed || r.err then Go(Delete(repo, cands[1..], claimed, c))
      else Move(Delete(repo, cands[1..], claimed, c), Some(cands[0].id))
    case Ended => Go(Ended)
  }

  /** A runner list GitHub may answer for repo: exactly its registrations, in any order. */
  ghost predicate HonestRunners(repo: string, runners: seq<RepoRunner>, roster: Roster) {
    && (forall g :: g in runners ==> g.id in roster && roster[g.id] == Registration(repo, g.name, g.busy))
    && (forall id :: id in roster && roster[id].repo == repo ==>
          RepoRunner(id, roster[id].name, roster[id].busy) in runners)
  }

  function Apply(roster: Roster, m: Move): Roster {
    if m.delete.Some? then roster - {m.delete.value} else roster
  }

  function Phase(pc: Pc): nat {
    match pc
    case Begin => 3
    case Snapshot(_) => 2
    case AppKey(_) => 1
    case _ => 0
  }

  function Todo(pc: Pc): nat {
    match pc
    case Repos(c) => |c.todo|
    case List(_, c) => |c.todo|
    case Recheck(_, _, c) => |c.todo|
    case Delete(_, _, _, c) => |c.todo|
    case _ => 0
  }

  function Tail(pc: Pc): nat {
    match pc
    case Repos(_) => 1
    case List(_, _) => 4
    case Recheck(_, _, _) => 3
    case Delete(_, _, _, _) => 2
    case _ => 0
  }

  function Cands(pc: Pc): nat {
    if pc.Delete? then |pc.cands| else 0
  }

  function Drive(prefix: string, pc: Pc, db: Db, roster: Roster, reply: (Pc, Roster) -> Reply): Roster
    decreases Phase(pc), Todo(pc), Tail(pc), Cands(pc)
  {
    if pc.Ended? then roster
    else
      var m := Step(prefix, pc, db, reply(pc, roster));
      Drive(prefix, m.next, db, Apply(roster, m), reply)
  }

  /** The installed repositories, each with its installation. */
  ghost predicate HonestRepos(repos: seq<RepoRef>, db: Db) {
    && (forall r :: r in repos ==> r.repo in db.repos && r.inst == db.repos[r.repo])
    && (forall name :: name in db.repos ==> RepoRef(name, db.repos[name]) in repos)
  }

  /** What the installed-repositories query answers. */
  ghost function InstalledRepos(db: Db): (repos: seq<RepoRef>)
    ensures HonestRepos(repos, db)
  {
    var names := ReposInOrder(db);
    assert forall i :: 0 <= i < |names| ==> names[i] in names;
    var repos := seq(|names|, i requires 0 <= i < |names| => RepoRef(names[i], db.repos[names[i]]));
    assert HonestRepos(repos, db) by {
      forall name | name in db.repos ensures RepoRef(name, db.repos[name]) in repos {
        assert name in names;
        var i :| 0 <= i < |names| && names[i] == name;
        assert repos[i] == RepoRef(name, db.repos[name]);
      }
    }
    repos
  }

  /** The environment `reply`, with the repository query answered by the store itself. */
  ghost function FromStore(reply: (Pc, Roster) -> Reply, db: Db): (Pc, Roster) -> Reply {
    (pc: Pc, roster: Roster) => if pc.Begin? then reply(pc, roster).(repos := InstalledRepos(db)) else reply(pc, roster)
  }

  lemma {:induction false} AfterBegin(prefix: string, pc: Pc, db: Db, roster: Roster, reply: (Pc, Roster) -> Reply)
    requires !pc.Begin?
    ensures Drive(prefix, pc, db, roster, FromStore(reply, db)) == Drive(prefix, pc, db, roster, reply)
    decreases Phase(pc), Todo(pc), Tail(pc), Cands(pc)
  {
    if pc.Ended? {
    } else {
      var m := Step(prefix, pc, db, reply(pc, roster));
      AfterBegin(prefix, m.next, db, Apply(roster, m), reply);
    }
  }

  class GitHub {
    var roster: Roster

    /** A 404 counts as success. */
    method DeleteRepoRunner(id: int)
      modifies this
      ensures roster == old(roster) - {id}
    {
      roster := roster - {id};
    }
  }

  class Sweeper {
    const prefix: string
    const store: SQLite
    const gh: GitHub

    constructor (prefix: string, store: SQLite, gh: GitHub)
      ensures this.prefix == prefix && this.store == store && this.gh == gh
    {
      this.prefix, this.store, this.gh := prefix, store, gh;
    }

    method SweepGitHubGhostRunners(reply: (Pc, Roster) -> Reply)
      modifies gh
      ensures gh.roster == Drive(prefix, Begin, store.Value(), old(gh.roster), FromStore(reply, store.Value()))
    {
      ghost var goal := Drive(prefix, Begin, store.Value(), gh.roster, FromStore(reply, store.Value()));
      if reply(Begin, gh.roster).err {
        return;
      }
      var repos := ListAllInstallationRepos();
      if repos == [] {
        return;
      }
      assert goal == Drive(prefix, Snapshot(repos), store.Value(), gh.roster, FromStore(reply, store.Value()));
      AfterBegin(prefix, Snapshot(repos), store.Value(), gh.roster, reply);
      if reply(Snapshot(repos), gh.roster).err {
        return;
      }
      var known := KnownRunners();
      assert goal == Drive(prefix, AppKey(Ctx(repos, known, {})), store.Value(), gh.roster, reply);
      if reply(AppKey(Ctx(repos, known, {})), gh.roster).err {
        return;
      }
      SweepRepos(repos, known, reply);
    }

    method ListAllInstallationRepos() returns (repos: seq<RepoRef>)
      ensures repos == InstalledRepos(store.Value())
    {
      var names := store.ListAllInstallationRepos();
      assert forall i :: 0 <= i < |names| ==> names[i] in names;
      repos := [];
      for i := 0 to |names|
        invariant |repos| == i && forall j :: 0 <= j < i ==> repos[j] == RepoRef(names[j], store.repos[names[j]])
      {
        repos := repos + [RepoRef(names[i], store.repos[names[i]])];
      }
    }

    /** The (repository, runner name) pairs of the active rows. */
    method KnownRunners() returns (known: set<(string, string)>)
      ensures known == Claimed(store.Value())
      ensures known == set n | n in store.runners && store.runners[n].status != Finished :: (store.runners[n].repo, store.runners[n].runnerName)
    {
      var names := store.ListActiveRunners();
      assert forall i :: 0 <= i < |names| ==> names[i] in names;
      known := {};
      for i := 0 to |names|
        invariant known == ClaimedBy(store.runners, names[..i])
      {
        assert names[..i + 1] == names[..i] + [names[i]];
        known := known + {(store.runners[names[i]].repo, store.runners[names[i]].runnerName)};
      }
      assert names[..|names|] == names;
    }

    method ActiveRunnerNames(repo: string) returns (out: set<string>)
      ensures out == ActiveNames(store.Value(), repo)
      ensures out == set n | n in store.runners && store.runners[n].status != Finished && store.runners[n].repo == repo :: store.runners[n].runnerName
    {
      var names := store.ListActiveRunners();
      assert forall i :: 0 <= i < |names| ==> names[i] in names;
      out := {};
      for i := 0 to |names|
        invariant out == set n | n in names[..i] && n in store.runners && store.runners[n].repo == repo :: store.runners[n].runnerName
      {
        assert names[..i + 1] == names[..i] + [names[i]];
        if store.runners[names[i]].repo == repo {
          out := out + {store.runners[names[i]].runnerName};
        }
      }
      assert names[..|names|] == names;
    }

    method SweepRepos(repos: seq<RepoRef>, known: set<(string, string)>, reply: (Pc, Roster) -> Reply)
      modifies gh
      ensures gh.roster == Drive(prefix, Repos(Ctx(repos, known, {})), store.Value(), old(gh.roster), reply)
    {
      var tokens := {};
      ghost var goal := Drive(prefix, Repos(Ctx(repos, known, {})), store.Value(), gh.roster, reply);
      assert repos[0..] == repos;
      var i := 0;
      while i < |repos|
        invariant 0 <= i <= |repos|
        invariant goal == Drive(prefix, Repos(Ctx(repos[i..], known, tokens)), store.Value(), gh.roster, reply)
      {
        var ri, here, rest := repos[i], Ctx(repos[i..], known, tokens), repos[i + 1..];
        assert repos[i..][1..] == rest;
        i := i + 1;
        if ri.inst !in tokens {
          if reply(Repos(here), gh.roster).err {
            continue;
          }
          tokens := tokens + {ri.inst};
        }
        assert goal == Drive(prefix, List(ri.repo, Ctx(rest, known, tokens)), store.Value(), gh.roster, reply);
        SweepRepo(ri.repo, Ctx(rest, known, tokens), reply);
      }
    }

    /** One repository: collect candidates, recheck once, delete those still unclaimed. */
    method SweepRepo(repo: string, c: Ctx, reply: (Pc, Roster) -> Reply)
      modifies gh
      ensures Drive(prefix, List(repo, c), store.Value(), old(gh.roster), reply) ==
              Drive(prefix, Repos(c), store.Value(), gh.roster, reply)
    {
      ghost var goal := Drive(prefix, List(repo, c), store.Value(), gh.roster, reply);
      var answer := reply(List(repo, c), gh.roster);
      if answer.err {
        return;
      }
      var cands := CollectCandidates(repo, answer.runners, c.known);
      if cands == [] {
        return;
      }
      assert goal == Drive(prefix, Recheck(repo, cands, c), store.Value(), gh.roster, reply);
      if reply(Recheck(repo, cands, c), gh.roster).err {
        return;
      }
      var claimed := ActiveRunnerNames(repo);
      assert goal == Drive(prefix, Delete(repo, cands, claimed, c), store.Value(), gh.roster, reply);
      assert cands[0..] == cands;
      var i := 0;
      while i < |cands|
        invariant 0 <= i <= |cands|
        invariant goal == Drive(prefix, Delete(repo, cands[i..], claimed, c), store.Value(), gh.roster, reply)
      {
        assert cands[i..][1..] == cands[i + 1..];
        var gr, failed := cands[i], reply(Delete(repo, cands[i..], claimed, c), gh.roster).err;
        i := i + 1;
        if gr.name in claimed {
          continue;
        }
        if !failed {
          gh.DeleteRepoRunner(gr.id);
        }
      }
    }

    method CollectCandidates(repo: string, runners: seq<RepoRunner>, known: set<(string, string)>)
      returns (cands: seq<RepoRunner>)
      ensures cands == Candidates(prefix, repo, runners, known)
      ensures forall g :: g in cands <==> g in runners && prefix <= g.name && (repo, g.name) !in known && !g.busy
    {
      CandidatesExactly(prefix, repo, runners, known);
      cands := [];
      assert runners[0..] == runners;
      var i := 0;
      while i < |runners|
        invariant 0 <= i <= |runners|
        invariant cands + Candidates(prefix, repo, runners[i..], known) == Candidates(prefix, repo, runners, known)
      {
        assert runners[i..][1..] == runners[i + 1..];
        var gr := runners[i];
        i := i + 1;
        if !(prefix <= gr.name) {
          continue;
        }
        if (repo, gr.name) in known {
          continue;
        }
        if gr.busy {
          continue;
        }
        cands := cands + [gr];
      }
    }
  }
}
