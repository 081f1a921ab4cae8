/** The GitHub-side sweep and dispatches that overlap its round-trips. */
module GitHubSafety {
  import opened Store
  import opened System
  import GitHubSweep

  predicate Deletes(cfg: Config, w: World, l: Label, g: int) {
    l.Sweep? && SweepMoved(cfg, w, l.gr).delete == Some(g)
  }

  // ---------------- a launched runner whose row is active ----------------

  /** A registration: its id, its name, and the repository of its row. */
  datatype Reg = Reg(id: int, name: string, repo: string)

  /** A candidate with this id carries this name, in this repository; past the recheck, the
      name is among those found active. */
  predicate Spared(pc: GitHubSweep.Pc, g: Reg) {
    match pc
    case Recheck(repo, cands, _) => forall x :: x in cands && x.id == g.id ==> x.name == g.name && repo == g.repo
    case Delete(repo, cands, claimed, _) =>
      forall x :: x in cands && x.id == g.id ==> x.name == g.name && g.name in claimed
    case _ => true
  }

  ghost predicate Tracked(w: World, g: Reg) {
    && Keyed(w.db) && g.id < w.nextId
    && (g.id in w.roster ==> w.roster[g.id].name == g.name && w.roster[g.id].repo == g.repo)
    && g.name in w.db.runners && w.db.runners[g.name].repo == g.repo
    && Spared(w.sweep, g)
  }

  lemma {:induction false} SweepTracked(cfg: Config, w: World, gr: GitHubSweep.Reply, g: Reg)
    requires Enabled(cfg, w, Sweep(gr)) && Tracked(w, g)
    requires w.sweep.Recheck? ==> g.name in Active(w.db)
    ensures Spared(SweepMoved(cfg, w, gr).next, g)
    ensures !Deletes(cfg, w, Sweep(gr), g.id)
  {
    match w.sweep {
      case List(repo, c) =>
        GitHubSweep.CandidatesExactly(cfg.recon.prefix, repo, gr.runners, c.known);
      case Recheck(repo, cands, c) =>
        assert g.repo == repo ==> g.name in GitHubSweep.ActiveNames(w.db, repo);
      case Delete(repo, cands, claimed, c) =>
        if cands != [] {
          assert cands[0] in cands;
        }
      case _ =>
    }
  }

  lemma {:induction false} TrackedKept(cfg: Config, w: World, l: Label, g: Reg)
    requires Enabled(cfg, w, l) && Tracked(w, g)
    requires w.sweep.Recheck? ==> g.name in Active(w.db)
    ensures Tracked(Next(cfg, w, l), g) && !Deletes(cfg, w, l, g.id)
  {
    NextGrows(cfg, w, l);
    if l.Sweep? {
      SweepTracked(cfg, w, l.gr, g);
    }
  }

  lemma {:induction false} TrackedThrough(cfg: Config, ws: seq<World>, ls: seq<Label>, i: nat, j: nat, g: Reg)
    requires IsRun(cfg, ws, ls) && i <= j <= |ls| && Tracked(ws[i], g)
    requires forall k :: i <= k < j && ws[k].sweep.Recheck? ==> g.name in Active(ws[k].db)
    ensures Tracked(ws[j], g)
    decreases j
  {
    if i == j {
    } else {
      TrackedThrough(cfg, ws, ls, i, j - 1, g);
      assert StepAt(cfg, ws, ls, j - 1);
      TrackedKept(cfg, ws[j - 1], ls[j - 1], g);
    }
  }

  /** A runner registered by a launch at step r is not deregistered by the sweep at any later
      step e, if its row was active whenever the sweep rechecked in between. The list GitHub
      returned may be arbitrarily old and dispatches may overlap it in any way. */
  lemma {:induction false} ActiveRunnerKept(cfg: Config, ws: seq<World>, ls: seq<Label>, r: nat, e: nat)
    requires IsRun(cfg, ws, ls) && r < e < |ls| && ls[r].Register?
    requires forall k :: r < k <= e && ws[k].sweep.Recheck? ==> ls[r].name in Active(ws[k].db)
    ensures !Deletes(cfg, ws[e], ls[e], ws[r].nextId)
  {
    RunInv(cfg, ws, ls, r);
    assert StepAt(cfg, ws, ls, r);
    var g := Reg(ws[r].nextId, ls[r].name, ws[r].db.runners[ls[r].name].repo);
    forall x | x in Cands(ws[r].sweep) ensures x.id != g.id {
    }
    assert Tracked(ws[r + 1], g);
    TrackedThrough(cfg, ws, ls, r + 1, e, g);
    assert StepAt(cfg, ws, ls, e);
    TrackedKept(cfg, ws[e], ls[e], g);
  }

  // ---------------- foreign and busy runners ----------------

  /** The repository whose candidates the sweep holds. */
  function RepoOf(pc: GitHubSweep.Pc): string {
    match pc
    case Recheck(repo, _, _) => repo
    case Delete(repo, _, _, _) => repo
    case _ => ""
  }

  /** In world w GitHub lists candidate x: it is registered there, under our prefix, idle, and
      unclaimed at the top of the sweep. */
  ghost predicate Shows(cfg: Config, w: World, l: Label, x: GitHubSweep.RepoRunner) {
    && l.Sweep? && !l.gr.err && w.sweep.List?
    && x.id in w.roster && w.roster[x.id] == GitHubSweep.Registration(w.sweep.repo, x.name, false)
    && cfg.recon.prefix <= x.name && (w.sweep.repo, x.name) !in w.sweep.c.known
  }

  /** The candidates a Sweep step hands on were candidates before it, or it listed them. */
  lemma {:induction false} CandsStep(cfg: Config, w: World, l: Label, x: GitHubSweep.RepoRunner)
    requires Enabled(cfg, w, l) && x in Cands(Next(cfg, w, l).sweep)
    ensures (x in Cands(w.sweep) && RepoOf(w.sweep) == RepoOf(Next(cfg, w, l).sweep)) ||
            (Shows(cfg, w, l, x) && w.sweep.repo == RepoOf(Next(cfg, w, l).sweep))
  {
    if l.Sweep? && w.sweep.List? {
      GitHubSweep.CandidatesExactly(cfg.recon.prefix, w.sweep.repo, l.gr.runners, w.sweep.c.known);
    }
  }

  /** Every candidate was listed at an earlier step k of the same repository's pass. */
  lemma {:induction false} CandidateWasListed(cfg: Config, ws: seq<World>, ls: seq<Label>, i: nat, x: GitHubSweep.RepoRunner)
    returns (k: nat)
    requires IsRun(cfg, ws, ls) && i <= |ls| && x in Cands(ws[i].sweep)
    ensures k < i && Shows(cfg, ws[k], ls[k], x) && ws[k].sweep.repo == RepoOf(ws[i].sweep)
    ensures forall j :: k < j <= i ==> ws[j].sweep.Recheck? || ws[j].sweep.Delete?
    decreases i
  {
    if i == 0 {
      assert false;
    } else {
      assert StepAt(cfg, ws, ls, i - 1);
      CandsStep(cfg, ws[i - 1], ls[i - 1], x);
      if Shows(cfg, ws[i - 1], ls[i - 1], x) {
        k := i - 1;
      } else {
        k := CandidateWasListed(cfg, ws, ls, i - 1, x);
      }
    }
  }

  /** A registration id is never reused, and keeps its name and repository while it lasts. */
  lemma {:induction false} RosterKeeps(cfg: Config, ws: seq<World>, ls: seq<Label>, k: nat, j: nat, id: int)
    requires IsRun(cfg, ws, ls) && k <= j <= |ls| && id in ws[k].roster
    ensures id < ws[j].nextId
    ensures id in ws[j].roster ==>
      ws[j].roster[id].name == ws[k].roster[id].name && ws[j].roster[id].repo == ws[k].roster[id].repo
    decreases j
  {
    RunInv(cfg, ws, ls, k);
    if j == k {
    } else {
      RosterKeeps(cfg, ws, ls, k, j - 1, id);
      assert StepAt(cfg, ws, ls, j - 1);
    }
  }

  /** What a step deregisters: exactly the head of its candidates, if the recheck did not find
      the name active and the call succeeds. Busy or not plays no part any more. */
  lemma {:induction false} DeletesHead(cfg: Config, w: World, l: Label, g: int)
    ensures Deletes(cfg, w, l, g) <==>
      l.Sweep? && w.sweep.Delete? && w.sweep.cands != [] && w.sweep.cands[0].id == g &&
      w.sweep.cands[0].name !in w.sweep.claimed && !l.gr.err
  {
  }

  /** Whatever registration g the sweep deletes at step e: at some earlier step k of the same
      repository's pass it stood on GitHub's roster under our prefix and idle, and if it is
      still there its name is still ours. */
  lemma {:induction false} OnlyOursListedIdle(cfg: Config, ws: seq<World>, ls: seq<Label>, e: nat, g: int) returns (k: nat)
    requires IsRun(cfg, ws, ls) && e < |ls| && Deletes(cfg, ws[e], ls[e], g)
    ensures k < e && ls[k].Sweep? && ws[k].sweep.List? && ws[k].sweep.repo == RepoOf(ws[e].sweep)
    ensures forall j :: k < j <= e ==> ws[j].sweep.Recheck? || ws[j].sweep.Delete?
    ensures g in ws[k].roster && !ws[k].roster[g].busy && cfg.recon.prefix <= ws[k].roster[g].name
    ensures g in ws[e].roster ==> cfg.recon.prefix <= ws[e].roster[g].name
  {
    var x := ws[e].sweep.cands[0];
    assert x in Cands(ws[e].sweep);
    k := CandidateWasListed(cfg, ws, ls, e, x);
    RosterKeeps(cfg, ws, ls, k, e, g);
  }

  /** So a registration outside our prefix, or busy at every list step that sees it, is never
      deregistered. */
  lemma {:induction false} ForeignOrBusyKept(cfg: Config, ws: seq<World>, ls: seq<Label>, e: nat, g: int)
    requires IsRun(cfg, ws, ls) && e < |ls|
    requires forall k :: 0 <= k < e && ls[k].Sweep? && ws[k].sweep.List? && g in ws[k].roster ==>
      ws[k].roster[g].busy || !(cfg.recon.prefix <= ws[k].roster[g].name)
    ensures !Deletes(cfg, ws[e], ls[e], g)
  {
    if Deletes(cfg, ws[e], ls[e], g) {
      var k := OnlyOursListedIdle(cfg, ws, ls, e, g);
    }
  }

  /** The names claimed in a pass are those active at its recheck. */
  lemma {:induction false} ClaimedAtRecheck(cfg: Config, ws: seq<World>, ls: seq<Label>, e: nat) returns (r: nat)
    requires IsRun(cfg, ws, ls) && e <= |ls| && ws[e].sweep.Delete?
    ensures r < e && ls[r].Sweep? && ws[r].sweep.Recheck? && ws[r].sweep.repo == ws[e].sweep.repo
    ensures ws[e].sweep.claimed == GitHubSweep.ActiveNames(ws[r].db, ws[e].sweep.repo)
    ensures forall j :: r < j <= e ==> ws[j].sweep.Delete?
    decreases e
  {
    if e == 0 {
      assert false;
    } else {
      assert StepAt(cfg, ws, ls, e - 1);
      if ws[e - 1].sweep.Delete? {
        r := ClaimedAtRecheck(cfg, ws, ls, e - 1);
      } else {
        r := e - 1;
      }
    }
  }

  /** When the turn of candidate g comes, at step e: it was listed at k, ours and idle, its
      repository was rechecked at r, between k and e, and it is deregistered exactly if no row
      of its name was active at r and the call succeeds; so also if it is busy by now. */
  lemma {:induction false} DeletedExactlyWhen(cfg: Config, ws: seq<World>, ls: seq<Label>, e: nat, g: int)
    returns (k: nat, r: nat)
    requires IsRun(cfg, ws, ls) && e < |ls| && ls[e].Sweep? && ws[e].sweep.Delete?
    requires ws[e].sweep.cands != [] && ws[e].sweep.cands[0].id == g
    ensures k < r < e && ws[k].sweep.List? && ws[r].sweep.Recheck?
    ensures g in ws[k].roster && !ws[k].roster[g].busy && cfg.recon.prefix <= ws[k].roster[g].name
    ensures Deletes(cfg, ws[e], ls[e], g) <==>
      ws[k].roster[g].name !in GitHubSweep.ActiveNames(ws[r].db, ws[k].roster[g].repo) && !ls[e].gr.err
  {
    var x := ws[e].sweep.cands[0];
    assert x in Cands(ws[e].sweep);
    k := CandidateWasListed(cfg, ws, ls, e, x);
    r := ClaimedAtRecheck(cfg, ws, ls, e);
    assert !ws[k].sweep.Delete? && !ws[k].sweep.Recheck?;
    DeletesHead(cfg, ws[e], ls[e], g);
  }

  /** A pool without rows, one mapped repository, and one registration, id 0, on GitHub's roster. */
  function StaleWorld(repo: string, name: string, busy: bool, pc: GitHubSweep.Pc): World {
    Quiet(0, Db(map[], map[], {1}, map[repo := 1]), [], map[], {})
      .(roster := map[0 := GitHubSweep.Registration(repo, name, busy)], nextId := 1, sweep := pc)
  }

  /** The sweep up to its first repository. */
  lemma {:induction false} StaleBeginRun(cfg: Config, repo: string, name: string, ok: GitHubSweep.Reply)
    returns (ws: seq<World>, ls: seq<Label>)
    requires cfg.recon.prefix <= name
    requires ok == GitHubSweep.Reply(false, [GitHubSweep.RepoRef(repo, 1)], [GitHubSweep.RepoRunner(0, name, false)])
    ensures IsRun(cfg, ws, ls) && |ls| == 4
    ensures ls[1] == Sweep(ok) && ws[1] == StaleWorld(repo, name, false, GitHubSweep.Begin)
    ensures ws[4] == StaleWorld(repo, name, false, GitHubSweep.Repos(GitHubSweep.Ctx(ok.repos, {}, {})))
  {
    assert GitHubSweep.Claimed(Db(map[], map[], {1}, map[repo := 1])) == {};
    ws, ls := [StaleWorld(repo, name, false, GitHubSweep.Ended)], [];
    ws, ls := Extend(cfg, ws, ls, SweepTick);
    ws, ls := Extend(cfg, ws, ls, Sweep(ok));
    ws, ls := Extend(cfg, ws, ls, Sweep(ok));
    ws, ls := Extend(cfg, ws, ls, Sweep(ok));
  }

  /** And on to its recheck, over a runner listed idle. */
  lemma {:induction false} StaleListRun(cfg: Config, repo: string, name: string, ok: GitHubSweep.Reply)
    returns (ws: seq<World>, ls: seq<Label>)
    requires cfg.recon.prefix <= name
    requires ok == GitHubSweep.Reply(false, [GitHubSweep.RepoRef(repo, 1)], [GitHubSweep.RepoRunner(0, name, false)])
    ensures IsRun(cfg, ws, ls) && |ls| == 6
    ensures ls[1] == Sweep(ok) && ws[1] == StaleWorld(repo, name, false, GitHubSweep.Begin)
    ensures ws[6] == StaleWorld(repo, name, false, GitHubSweep.Recheck(repo, ok.runners, GitHubSweep.Ctx([], {}, {1})))
  {
    assert ok.runners[1..] == [] && ok.repos[1..] == [] && {} + {1} == {1};
    assert GitHubSweep.Candidates(cfg.recon.prefix, repo, ok.runners[1..], {}) == [];
    assert GitHubSweep.Candidates(cfg.recon.prefix, repo, ok.runners, {}) == ok.runners;
    ws, ls := StaleBeginRun(cfg, repo, name, ok);
    ws, ls := Extend(cfg, ws, ls, Sweep(ok));
    ws, ls := Extend(cfg, ws, ls, Sweep(ok));
  }

  /** Which meanwhile has taken a job. */
  lemma {:induction false} BusySinceRun(cfg: Config, repo: string, name: string, ok: GitHubSweep.Reply)
    returns (ws: seq<World>, ls: seq<Label>)
    requires cfg.recon.prefix <= name
    requires ok == GitHubSweep.Reply(false, [GitHubSweep.RepoRef(repo, 1)], [GitHubSweep.RepoRunner(0, name, false)])
    ensures IsRun(cfg, ws, ls) && |ls| == 7
    ensures ls[1] == Sweep(ok) && ws[1] == StaleWorld(repo, name, false, GitHubSweep.Begin)
    ensures ws[7] == StaleWorld(repo, name, true, GitHubSweep.Recheck(repo, ok.runners, GitHubSweep.Ctx([], {}, {1})))
  {
    ws, ls := StaleListRun(cfg, repo, name, ok);
    ws, ls := Extend(cfg, ws, ls, SetBusy(0, true));
  }

  /** Idle when listed is not idle when deleted: the sweep can delete a runner that took a job
      after the list. */
  lemma {:induction false} BusyRunnerCanBeDeleted(cfg: Config, repo: string, name: string)
    returns (ws: seq<World>, ls: seq<Label>)
    requires cfg.recon.prefix <= name
    ensures IsRun(cfg, ws, ls) && |ls| == 9
    ensures ls[1].Sweep? && ws[1].sweep.Begin? && !ls[1].gr.err && GitHubSweep.HonestRepos(ls[1].gr.repos, ws[1].db)
    ensures 0 in ws[8].roster && ws[8].roster[0].busy && Deletes(cfg, ws[8], ls[8], 0)
  {
    var ok := GitHubSweep.Reply(false, [GitHubSweep.RepoRef(repo, 1)], [GitHubSweep.RepoRunner(0, name, false)]);
    assert GitHubSweep.ActiveNames(Db(map[], map[], {1}, map[repo := 1]), repo) == {};
    ws, ls := BusySinceRun(cfg, repo, name, ok);
    ws, ls := Extend(cfg, ws, ls, Sweep(ok));
    ws, ls := Extend(cfg, ws, ls, Sweep(ok));
  }
}
