/** What one fault-free, uninterleaved GitHub-side sweep deregisters, in closed form. */
module Deregistration {
  import opened Store
  import opened GitHubSweep

  /** A registration of ours, idle, that no active row of its repository claims. */
  predicate Ghost(prefix: string, db: Db, g: Registration) {
    prefix <= g.name && !g.busy && g.name !in ActiveNames(db, g.repo)
  }

  function GhostsIn(prefix: string, db: Db, roster: Roster, repo: string): set<int> {
    set id | id in roster && roster[id].repo == repo && Ghost(prefix, db, roster[id])
  }

  function Ghosts(prefix: string, db: Db, roster: Roster, repos: seq<RepoRef>): set<int> {
    set id | id in roster && Covers(repos, roster[id].repo) && Ghost(prefix, db, roster[id])
  }

  predicate Covers(repos: seq<RepoRef>, repo: string) {
    exists i :: 0 <= i < |repos| && repos[i].repo == repo
  }

  /** The sub-steps that belong to one repository's turn. */
  predicate Concerns(pc: Pc, repo: string) {
    match pc
    case Repos(c) => c.todo != [] && c.todo[0].repo == repo
    case List(r, _) => r == repo
    case Recheck(r, _, _) => r == repo
    case Delete(r, _, _, _) => r == repo
    case _ => false
  }

  /** No call of this repository's turn fails: mint, list, recheck, deletions. */
  ghost predicate Unfailing(repo: string, reply: (Pc, Roster) -> Reply) {
    forall pc, roster :: Concerns(pc, repo) ==> !reply(pc, roster).err
  }

  /** A list that answers is the roster's. */
  ghost predicate Truthful(reply: (Pc, Roster) -> Reply) {
    forall pc: Pc, roster ::
      pc.List? && !reply(pc, roster).err ==> HonestRunners(pc.repo, reply(pc, roster).runners, roster)
  }

  function Ids(cands: seq<RepoRunner>, claimed: set<string>): set<int> {
    set i | 0 <= i < |cands| && cands[i].name !in claimed :: cands[i].id
  }

  /** The deletions of one repository, whichever of them fail. */
  lemma {:induction false} DeleteLoop(prefix: string, repo: string, cands: seq<RepoRunner>, claimed: set<string>, c: Ctx,
                                      db: Db, roster: Roster, reply: (Pc, Roster) -> Reply) returns (gone: set<int>)
    ensures Drive(prefix, Delete(repo, cands, claimed, c), db, roster, reply) == Drive(prefix, Repos(c), db, roster - gone, reply)
    ensures gone <= Ids(cands, claimed) && (Unfailing(repo, reply) ==> gone == Ids(cands, claimed))
    decreases |cands|
  {
    var pc := Delete(repo, cands, claimed, c);
    if cands == [] {
      gone := {};
      assert Ids(cands, claimed) == {};
      assert roster - {} == roster;
    } else {
      var rest := cands[1..];
      var head := if cands[0].name in claimed || reply(pc, roster).err then {} else {cands[0].id};
      assert roster - {} == roster;
      assert Drive(prefix, pc, db, roster, reply) == Drive(prefix, Delete(repo, rest, claimed, c), db, roster - head, reply);
      var more := DeleteLoop(prefix, repo, rest, claimed, c, db, roster - head, reply);
      IdsHead(cands, claimed);
      assert Concerns(pc, repo);
      gone := head + more;
      assert (roster - head) - more == roster - gone;
    }
  }

  lemma {:induction false} IdsHead(cands: seq<RepoRunner>, claimed: set<string>)
    requires cands != []
    ensures Ids(cands, claimed) == Ids(cands[1..], claimed) + (if cands[0].name in claimed then {} else {cands[0].id})
  {
    var rest := cands[1..];
    forall id | id in Ids(cands, claimed) ensures id in Ids(rest, claimed) || (cands[0].name !in claimed && id == cands[0].id) {
      var i :| 0 <= i < |cands| && cands[i].name !in claimed && cands[i].id == id;
      assert i > 0 ==> rest[i - 1] == cands[i];
    }
    forall id | id in Ids(rest, claimed) ensures id in Ids(cands, claimed) {
      var i :| 0 <= i < |rest| && rest[i].name !in claimed && rest[i].id == id;
      assert cands[i + 1] == rest[i];
    }
  }

  lemma {:induction false} ClaimedNames(db: Db, repo: string, name: string)
    ensures (repo, name) in Claimed(db) <==> name in ActiveNames(db, repo)
  {
    if name in ActiveNames(db, repo) {
      var n :| n in Active(db) && db.runners[n].repo == repo && db.runners[n].runnerName == name;
      assert (db.runners[n].repo, db.runners[n].runnerName) in Claimed(db);
    }
  }

  /** The candidates left after the recheck are exactly the repository's ghosts. */
  lemma {:induction false} CandidatesAreGhosts(prefix: string, repo: string, runners: seq<RepoRunner>, db: Db, roster: Roster)
    requires HonestRunners(repo, runners, roster)
    ensures Ids(Candidates(prefix, repo, runners, Claimed(db)), ActiveNames(db, repo)) == GhostsIn(prefix, db, roster, repo)
  {
    var cands, claimed := Candidates(prefix, repo, runners, Claimed(db)), ActiveNames(db, repo);
    CandidatesExactly(prefix, repo, runners, Claimed(db));
    forall id | id in Ids(cands, claimed) ensures id in GhostsIn(prefix, db, roster, repo) {
      var i :| 0 <= i < |cands| && cands[i].name !in claimed && cands[i].id == id;
      assert cands[i] in cands;
    }
    forall id | id in GhostsIn(prefix, db, roster, repo) ensures id in Ids(cands, claimed) {
      var g := RepoRunner(id, roster[id].name, roster[id].busy);
      assert g in runners;
      ClaimedNames(db, repo, g.name);
      assert g in cands;
      var i :| 0 <= i < |cands| && cands[i] == g;
      assert cands[i].id == id;
    }
  }

  /** One repository's turn once its token is there, whichever of its calls fail. */
  lemma {:induction false} RepoStep(prefix: string, repo: string, c: Ctx, db: Db, roster: Roster,
                                    reply: (Pc, Roster) -> Reply) returns (gone: set<int>)
    requires Truthful(reply) && c.known == Claimed(db)
    ensures Drive(prefix, List(repo, c), db, roster, reply) == Drive(prefix, Repos(c), db, roster - gone, reply)
    ensures gone <= GhostsIn(prefix, db, roster, repo)
    ensures Unfailing(repo, reply) ==> gone == GhostsIn(prefix, db, roster, repo)
  {
    var pc := List(repo, c);
    var runners := reply(pc, roster).runners;
    var cands := Candidates(prefix, repo, runners, c.known);
    var goal := Drive(prefix, pc, db, roster, reply);
    gone := {};
    assert roster - {} == roster && Concerns(pc, repo);
    if !reply(pc, roster).err {
      CandidatesAreGhosts(prefix, repo, runners, db, roster);
      if cands != [] {
        var again := Recheck(repo, cands, c);
        assert goal == Drive(prefix, again, db, roster, reply) && Concerns(again, repo);
        if !reply(again, roster).err {
          assert goal == Drive(prefix, Delete(repo, cands, ActiveNames(db, repo), c), db, roster, reply);
          gone := DeleteLoop(prefix, repo, cands, ActiveNames(db, repo), c, db, roster, reply);
        }
      }
    }
  }

  lemma {:induction false} RepoLoop(prefix: string, todo: seq<RepoRef>, tokens: set<int>, db: Db, roster: Roster,
                                    reply: (Pc, Roster) -> Reply) returns (gone: set<int>)
    requires Truthful(reply)
    ensures Drive(prefix, Repos(Ctx(todo, Claimed(db), tokens)), db, roster, reply) == roster - gone
    ensures gone <= Ghosts(prefix, db, roster, todo)
    ensures forall id :: id in Ghosts(prefix, db, roster, todo) && Unfailing(roster[id].repo, reply) ==> id in gone
    decreases |todo|
  {
    var pc := Repos(Ctx(todo, Claimed(db), tokens));
    if todo == [] {
      NoGhosts(prefix, db, roster);
      gone := {};
      assert roster - {} == roster;
    } else {
      var repo, rest := todo[0].repo, todo[1..];
      var minted := todo[0].inst in tokens || !reply(pc, roster).err;
      var tokens' := if minted && todo[0].inst !in tokens then tokens + {todo[0].inst} else tokens;
      var c, goal, head := Ctx(rest, Claimed(db), tokens'), Drive(prefix, pc, db, roster, reply), {};
      assert Concerns(pc, repo) && roster - {} == roster;
      if minted {
        assert goal == Drive(prefix, List(repo, c), db, roster, reply);
        head := RepoStep(prefix, repo, c, db, roster, reply);
      }
      assert goal == Drive(prefix, Repos(c), db, roster - head, reply);
      var more := RepoLoop(prefix, rest, tokens', db, roster - head, reply);
      GhostsHead(prefix, db, roster, todo, head);
      gone := head + more;
      assert (roster - head) - more == roster - gone;
    }
  }

  lemma {:induction false} GhostsHead(prefix: string, db: Db, roster: Roster, todo: seq<RepoRef>, head: set<int>)
    requires todo != []
    ensures Ghosts(prefix, db, roster - head, todo[1..]) == Ghosts(prefix, db, roster, todo[1..]) - head
    ensures Ghosts(prefix, db, roster, todo) == GhostsIn(prefix, db, roster, todo[0].repo) + Ghosts(prefix, db, roster, todo[1..])
  {
    var rest := todo[1..];
    forall r ensures Covers(todo, r) <==> r == todo[0].repo || Covers(rest, r) {
      if i :| 0 <= i < |todo| && todo[i].repo == r {
        assert i > 0 ==> rest[i - 1].repo == r;
      }
      if i :| 0 <= i < |rest| && rest[i].repo == r {
        assert todo[i + 1].repo == r;
      }
    }
    forall id
      ensures id in Ghosts(prefix, db, roster, todo) <==>
              id in GhostsIn(prefix, db, roster, todo[0].repo) + Ghosts(prefix, db, roster, rest)
    {
    }
    forall id ensures id in Ghosts(prefix, db, roster - head, rest) <==> id in Ghosts(prefix, db, roster, rest) - head {
    }
  }

  lemma {:induction false} NoGhosts(prefix: string, db: Db, roster: Roster)
    ensures Ghosts(prefix, db, roster, []) == {}
  {
    forall r ensures !Covers([], r) {
    }
    assert forall id :: id !in Ghosts(prefix, db, roster, []);
  }

  /** Every registration of ours in an installed repository, idle and unclaimed. */
  function AllGhosts(prefix: string, db: Db, roster: Roster): set<int> {
    set id | id in roster && roster[id].repo in db.repos && Ghost(prefix, db, roster[id])
  }

  lemma {:induction false} CoversInstalled(prefix: string, db: Db, roster: Roster, repos: seq<RepoRef>)
    requires HonestRepos(repos, db)
    ensures Ghosts(prefix, db, roster, repos) == AllGhosts(prefix, db, roster)
  {
    forall name ensures Covers(repos, name) <==> name in db.repos {
      if name in db.repos {
        assert RepoRef(name, db.repos[name]) in repos;
      }
      if i :| 0 <= i < |repos| && repos[i].repo == name {
        assert repos[i] in repos;
      }
    }
    forall id | id in roster ensures id in Ghosts(prefix, db, roster, repos) <==> id in AllGhosts(prefix, db, roster) {
    }
    assert Ghosts(prefix, db, roster, repos) == AllGhosts(prefix, db, roster);
  }

  /** The registration is ours, idle, in an installed repository, and claimed by no active row. */
  predicate Doomed(prefix: string, db: Db, g: Registration) {
    && prefix <= g.name && !g.busy && g.repo in db.repos
    && forall n :: n in db.runners && db.runners[n].status != Finished ==>
         !(db.runners[n].repo == g.repo && db.runners[n].runnerName == g.name)
  }

  lemma {:induction false} GhostsAreDoomed(prefix: string, db: Db, roster: Roster, id: int)
    requires id in roster
    ensures id in AllGhosts(prefix, db, roster) <==> Doomed(prefix, db, roster[id])
  {
    var g := roster[id];
    assert forall n :: n in Active(db) <==> n in db.runners && db.runners[n].status != Finished;
    if n :| n in Active(db) && db.runners[n].repo == g.repo && db.runners[n].runnerName == g.name {
      assert g.name in ActiveNames(db, g.repo);
    }
  }

  /** What the sweep knows before its first repository. */
  ghost function Start(db: Db): Ctx {
    Ctx(InstalledRepos(db), Claimed(db), {})
  }

  /** The reads before the first repository answered: repositories, active rows, App key. */
  ghost predicate Opened(db: Db, roster: Roster, reply: (Pc, Roster) -> Reply) {
    && !reply(Begin, roster).err && !reply(Snapshot(InstalledRepos(db)), roster).err
    && !reply(AppKey(Start(db)), roster).err
  }

  /** Faults stay where they happen. Whatever calls fail, a sweep alone deregisters nobody but
      idle unclaimed runners of ours in installed repositories; and once it has opened, it
      deregisters every one of those whose own repository's calls do not fail, whatever fails
      for the others. If it does not open it deregisters nobody. */
  lemma {:induction false} FaultsAreLocal(prefix: string, db: Db, roster: Roster, reply: (Pc, Roster) -> Reply, id: int)
    requires Truthful(reply) && id in roster
    ensures var after := Drive(prefix, Begin, db, roster, FromStore(reply, db));
      && (id in after ==> after[id] == roster[id])
      && (id !in after ==> Opened(db, roster, reply) && Doomed(prefix, db, roster[id]))
      && (Opened(db, roster, reply) && Doomed(prefix, db, roster[id]) && Unfailing(roster[id].repo, reply) ==> id !in after)
  {
    var repos, full := InstalledRepos(db), FromStore(reply, db);
    var goal := Drive(prefix, Begin, db, roster, full);
    CoversInstalled(prefix, db, roster, repos);
    GhostsAreDoomed(prefix, db, roster, id);
    if reply(Begin, roster).err {
    } else if repos == [] {
      NoGhosts(prefix, db, roster);
    } else {
      assert goal == Drive(prefix, Snapshot(repos), db, roster, full);
      AfterBegin(prefix, Snapshot(repos), db, roster, reply);
      if !reply(Snapshot(repos), roster).err {
        assert goal == Drive(prefix, AppKey(Start(db)), db, roster, reply);
        if !reply(AppKey(Start(db)), roster).err {
          var gone := RepoLoop(prefix, repos, {}, db, roster, reply);
          assert goal == roster - gone;
        } else {
          assert goal == Drive(prefix, Ended, db, roster, reply);
        }
      }
    }
  }

  /** No call fails and GitHub's lists are its roster. */
  ghost predicate Answers(reply: (Pc, Roster) -> Reply) {
    forall pc: Pc, roster ::
      !reply(pc, roster).err && (pc.List? ==> HonestRunners(pc.repo, reply(pc, roster).runners, roster))
  }

  /** With no fault and nobody interleaved the sweep, reading the installed repositories from
      the store, deregisters exactly the idle runners under our prefix, in those repositories,
      that no active row claims; and a second sweep deregisters nothing. */
  lemma {:induction false} SweepDeregistersExactly(prefix: string, db: Db, roster: Roster, reply: (Pc, Roster) -> Reply)
    requires Answers(reply)
    ensures var after := Drive(prefix, Begin, db, roster, FromStore(reply, db));
      after == roster - AllGhosts(prefix, db, roster) && Drive(prefix, Begin, db, after, FromStore(reply, db)) == after
  {
    OneSweep(prefix, db, roster, reply);
    var after := roster - AllGhosts(prefix, db, roster);
    OneSweep(prefix, db, after, reply);
    assert AllGhosts(prefix, db, after) == {};
    assert after - {} == after;
  }

  lemma {:induction false} OneSweep(prefix: string, db: Db, roster: Roster, reply: (Pc, Roster) -> Reply)
    requires Answers(reply)
    ensures Drive(prefix, Begin, db, roster, FromStore(reply, db)) == roster - AllGhosts(prefix, db, roster)
  {
    var after := Drive(prefix, Begin, db, roster, FromStore(reply, db));
    OnlyDeletes(prefix, Begin, db, roster, FromStore(reply, db));
    forall id | id in roster
      ensures id in after <==> id !in AllGhosts(prefix, db, roster)
      ensures id in after ==> after[id] == roster[id]
    {
      FaultsAreLocal(prefix, db, roster, reply, id);
      GhostsAreDoomed(prefix, db, roster, id);
    }
    assert after == roster - AllGhosts(prefix, db, roster);
  }

  lemma {:induction false} OnlyDeletes(prefix: string, pc: Pc, db: Db, roster: Roster, reply: (Pc, Roster) -> Reply)
    ensures Drive(prefix, pc, db, roster, reply).Keys <= roster.Keys
    decreases Phase(pc), Todo(pc), Tail(pc), Cands(pc)
  {
    if pc.Ended? {
    } else {
      var m := Step(prefix, pc, db, reply(pc, roster));
      OnlyDeletes(prefix, m.next, db, Apply(roster, m), reply);
    }
  }
}
