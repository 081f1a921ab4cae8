/** What one fault-free, uninterleaved reconciler tick leaves behind, in closed form, and
    why a second tick finds nothing to do. */
module Agreement {
  import opened Store
  import opened Reconcile

  // ---------------- reference definition ----------------

  /** Active rows with no container, or past their lifetime. */
  function Dead(cfg: Config, s: St, now: int): set<string> {
    set n | n in Active(s.db) && (n !in s.docker || Expired(cfg, s.db.runners[n].startedAt, now))
  }

  function FinishAll(db: Db, names: set<string>, now: int): Db {
    db.(runners := map n | n in db.runners ::
          if n in names then SetStatus(db.runners[n], Finished, now) else db.runners[n])
  }

  /** Containers of ours that no surviving row claims and that grace does not protect;
      `undated` are the names whose stamp did not parse. */
  function Doomed(cfg: Config, claimed: set<string>, docker: map<string, int>, undated: set<string>, now: int): set<string> {
    set n | n in docker && cfg.prefix <= n && n !in claimed && (n in undated || now - docker[n] >= cfg.grace)
  }

  function Reconciled(cfg: Config, s: St, undated: set<string>, now: int): St {
    var dead := Dead(cfg, s, now);
    var docker := s.docker - dead;
    St(FinishAll(s.db, dead, now), docker - Doomed(cfg, Active(s.db) - dead, docker, undated, now))
  }

  // ---------------- the machine computes it ----------------

  /** Every call after the active-row read succeeds and answers honestly; container stamps
      parse except those of `undated`. */
  ghost predicate FaultFreeAfterRead(cfg: Config, undated: set<string>, reply: (Pc, St) -> Reply) {
    forall pc: Pc, s :: var r := reply(pc, s);
      !pc.Begin? ==>
        && !r.err && Honest(cfg, pc, s, r)
        && (pc.ListAll? ==> forall i :: 0 <= i < |r.cs| ==> (r.cs[i].createdAt.None? <==> r.cs[i].name in undated))
  }

  ghost predicate FaultFree(cfg: Config, undated: set<string>, reply: (Pc, St) -> Reply) {
    FaultFreeAfterRead(cfg, undated, reply) &&
    forall s :: !reply(Begin, s).err && Honest(cfg, Begin, s, reply(Begin, s))
  }

  /** With the store answering the active-row query, it is enough that no call fails and docker
      answers honestly: what the reconciler class reads is an honest answer. */
  lemma {:induction false} StoreAnswersHonestly(cfg: Config, undated: set<string>, reply: (Pc, St) -> Reply)
    requires FaultFreeAfterRead(cfg, undated, reply) && forall s :: !reply(Begin, s).err
    ensures FaultFree(cfg, undated, FromStore(reply))
  {
    var full := FromStore(reply);
    forall s ensures !full(Begin, s).err && Honest(cfg, Begin, s, full(Begin, s)) {
      assert !reply(Begin, s).err;
    }
    forall pc: Pc, s | !pc.Begin? ensures full(pc, s) == reply(pc, s) {
    }
  }

  /** The rows of `todo` that the row loop will finish. */
  function DeadRows(cfg: Config, todo: seq<RowRef>, docker: map<string, int>, now: int): set<string> {
    set i | 0 <= i < |todo| && (todo[i].name !in docker || Expired(cfg, todo[i].startedAt, now)) :: todo[i].name
  }

  function NameSet(todo: seq<RowRef>): set<string> {
    set i | 0 <= i < |todo| :: todo[i].name
  }

  lemma {:induction false} RowLoop(cfg: Config, todo: seq<RowRef>, alive: set<string>, snap: Snap, s: St, now: int,
                                   undated: set<string>, clock: Pc -> int, reply: (Pc, St) -> Reply)
    requires FaultFreeAfterRead(cfg, undated, reply) && forall pc :: clock(pc) == now
    requires NoDup(RowNames(todo)) && NameSet(todo) <= s.db.runners.Keys
    ensures var dead := DeadRows(cfg, todo, s.docker, now);
            Drive(cfg, Rows(Ctx(todo, now, alive, snap)), s, clock, reply) ==
            Drive(cfg, ListAll(alive + (NameSet(todo) - dead), snap),
                  St(FinishAll(s.db, dead, now), s.docker - dead), clock, reply)
    decreases |todo|
  {
    var dead := DeadRows(cfg, todo, s.docker, now);
    if todo == [] {
      assert dead == {} && NameSet(todo) - dead == {};
      assert FinishAll(s.db, {}, now) == s.db;
      assert s.docker - {} == s.docker;
      assert alive + {} == alive;
      assert Drive(cfg, Rows(Ctx(todo, now, alive, snap)), s, clock, reply) == Drive(cfg, ListAll(alive, snap), s, clock, reply);
    } else {
      var row, rest := todo[0], todo[1..];
      var gone := row.name !in s.docker || Expired(cfg, row.startedAt, now);
      var s' := if gone then St(Exec(s.db, now, SetRunner(row.name, Finished)), s.docker - {row.name}) else s;
      var alive' := if gone then alive else alive + {row.name};
      RowStep(cfg, todo, alive, snap, s, now, undated, clock, reply);
      RowTotals(cfg, todo, alive, s, now);
      RowLoop(cfg, rest, alive', snap, s', now, undated, clock, reply);
    }
  }

  /** Finishing the head row and then the rest finishes exactly the dead rows. */
  lemma {:induction false} RowTotals(cfg: Config, todo: seq<RowRef>, alive: set<string>, s: St, now: int)
    requires todo != [] && NoDup(RowNames(todo)) && NameSet(todo) <= s.db.runners.Keys
    ensures var row, rest := todo[0], todo[1..];
            var gone := row.name !in s.docker || Expired(cfg, row.startedAt, now);
            var s' := if gone then St(Exec(s.db, now, SetRunner(row.name, Finished)), s.docker - {row.name}) else s;
            var dead, dead' := DeadRows(cfg, todo, s.docker, now), DeadRows(cfg, rest, s'.docker, now);
            && NoDup(RowNames(rest)) && NameSet(rest) <= s'.db.runners.Keys
            && FinishAll(s'.db, dead', now) == FinishAll(s.db, dead, now)
            && s'.docker - dead' == s.docker - dead
            && (if gone then alive else alive + {row.name}) + (NameSet(rest) - dead') == alive + (NameSet(todo) - dead)
  {
    HeadAndRest(todo);
    DeadHead(cfg, todo, s.docker, now);
    var row, rest := todo[0], todo[1..];
    var gone := row.name !in s.docker || Expired(cfg, row.startedAt, now);
    var db' := Exec(s.db, now, SetRunner(row.name, Finished));
    var dead' := DeadRows(cfg, rest, s.docker - {row.name}, now);
    if gone {
      assert dead' <= NameSet(rest);
      assert FinishAll(db', dead', now).runners == FinishAll(s.db, dead' + {row.name}, now).runners;
    }
  }

  lemma {:induction false} HeadAndRest(todo: seq<RowRef>)
    requires todo != [] && NoDup(RowNames(todo))
    ensures NoDup(RowNames(todo[1..]))
    ensures NameSet(todo) == {todo[0].name} + NameSet(todo[1..]) && todo[0].name !in NameSet(todo[1..])
  {
    var rest := todo[1..];
    assert forall i :: 0 <= i < |todo| ==> RowNames(todo)[i] == todo[i].name;
    assert forall i :: 0 <= i < |rest| ==> RowNames(rest)[i] == todo[i + 1].name && rest[i] == todo[i + 1];
    forall n | n in NameSet(todo) ensures n == todo[0].name || n in NameSet(rest) {
      var i :| 0 <= i < |todo| && todo[i].name == n;
      assert i > 0 ==> rest[i - 1].name == n;
    }
  }

  lemma {:induction false} DeadHead(cfg: Config, todo: seq<RowRef>, docker: map<string, int>, now: int)
    requires todo != [] && todo[0].name !in NameSet(todo[1..])
    ensures var gone := todo[0].name !in docker || Expired(cfg, todo[0].startedAt, now);
            DeadRows(cfg, todo, docker, now) ==
            if gone then DeadRows(cfg, todo[1..], docker - {todo[0].name}, now) + {todo[0].name}
            else DeadRows(cfg, todo[1..], docker, now)
  {
    var rest := todo[1..];
    var gone := todo[0].name !in docker || Expired(cfg, todo[0].startedAt, now);
    var docker' := if gone then docker - {todo[0].name} else docker;
    forall i | 1 <= i < |todo| ensures todo[i].name in NameSet(rest) {
      assert rest[i - 1] == todo[i];
    }
    forall n | n in DeadRows(cfg, todo, docker, now) && n != todo[0].name ensures n in DeadRows(cfg, rest, docker', now) {
      var i :| 0 <= i < |todo| && (todo[i].name !in docker || Expired(cfg, todo[i].startedAt, now)) && todo[i].name == n;
      assert rest[i - 1] == todo[i];
    }
    forall n | n in DeadRows(cfg, rest, docker', now) ensures n in DeadRows(cfg, todo, docker, now) {
      var i :| 0 <= i < |rest| && (rest[i].name !in docker' || Expired(cfg, rest[i].startedAt, now)) && rest[i].name == n;
      assert n in NameSet(rest) && todo[i + 1] == rest[i];
    }
  }

  lemma {:induction false} RowStep(cfg: Config, todo: seq<RowRef>, alive: set<string>, snap: Snap, s: St, now: int,
                undated: set<string>, clock: Pc -> int, reply: (Pc, St) -> Reply)
    requires FaultFreeAfterRead(cfg, undated, reply) && forall pc :: clock(pc) == now
    requires todo != []
    ensures var row := todo[0];
            var gone := row.name !in s.docker || Expired(cfg, row.startedAt, now);
            Drive(cfg, Rows(Ctx(todo, now, alive, snap)), s, clock, reply) ==
            Drive(cfg, Rows(Ctx(todo[1..], now, if gone then alive else alive + {row.name}, snap)),
                  if gone then St(Exec(s.db, now, SetRunner(row.name, Finished)), s.docker - {row.name}) else s,
                  clock, reply)
  {
    var row, c := todo[0], Ctx(todo[1..], now, alive, snap);
    var goal := Drive(cfg, Rows(Ctx(todo, now, alive, snap)), s, clock, reply);
    if row.name !in s.docker {
      assert goal == Drive(cfg, Clear(row, c), s, clock, reply);
      assert s.docker - {row.name} == s.docker;
    } else if Expired(cfg, row.startedAt, now) {
      assert goal == Drive(cfg, Reap(row, c), s, clock, reply);
      assert goal == Drive(cfg, Reaped(row, c), St(s.db, s.docker - {row.name}), clock, reply);
    }
  }

  function RemovedBy(cfg: Config, cs: seq<Container>, known: set<string>, now: int): set<string> {
    set i | 0 <= i < |cs| && Removable(cfg, cs[i], known, now) :: cs[i].name
  }

  lemma {:induction false} OrphanLoop(cfg: Config, cs: seq<Container>, known: set<string>, snap: Snap, s: St, now: int,
                                      undated: set<string>, clock: Pc -> int, reply: (Pc, St) -> Reply)
    requires FaultFreeAfterRead(cfg, undated, reply)
    ensures Drive(cfg, Orphans(cs, known, now, snap), s, clock, reply) ==
            St(s.db, s.docker - RemovedBy(cfg, cs, known, now))
    decreases |cs|
  {
    if cs == [] {
      assert s.docker - {} == s.docker;
    } else {
      var s' := if Removable(cfg, cs[0], known, now) then St(s.db, s.docker - {cs[0].name}) else s;
      assert Drive(cfg, Orphans(cs, known, now, snap), s, clock, reply)
          == Drive(cfg, Orphans(cs[1..], known, now, snap), s', clock, reply);
      OrphanLoop(cfg, cs[1..], known, snap, s', now, undated, clock, reply);
      assert RemovedBy(cfg, cs, known, now) ==
             RemovedBy(cfg, cs[1..], known, now) + (if Removable(cfg, cs[0], known, now) then {cs[0].name} else {}) by {
        assert forall i :: 1 <= i < |cs| ==> cs[i] == cs[1..][i - 1];
      }
    }
  }

  /** A fault-free tick with nobody interleaved computes the closed form, whatever order
      the two queries answer in. */
  lemma {:induction false} TickIsReconciled(cfg: Config, s: St, undated: set<string>, now: int, clock: Pc -> int, reply: (Pc, St) -> Reply)
    requires FaultFree(cfg, undated, reply) && forall pc :: clock(pc) == now
    ensures Drive(cfg, Begin, s, clock, reply) == Reconciled(cfg, s, undated, now)
  {
    var rows, snap := reply(Begin, s).rows, Snap(true, now);
    assert Honest(cfg, Begin, s, reply(Begin, s));
    assert Drive(cfg, Begin, s, clock, reply) == Drive(cfg, Snapped(rows, snap), s, clock, reply);
    assert Drive(cfg, Begin, s, clock, reply) == Drive(cfg, Rows(Ctx(rows, now, {}, snap)), s, clock, reply);
    HonestNames(rows, s.db);
    RowLoop(cfg, rows, {}, snap, s, now, undated, clock, reply);
    var dead := Dead(cfg, s, now);
    assert DeadRows(cfg, rows, s.docker, now) == dead by {
      forall n | n in dead ensures n in DeadRows(cfg, rows, s.docker, now) {
        assert n in NameSet(rows);
      }
    }
    var known, mid := Active(s.db) - dead, St(FinishAll(s.db, dead, now), s.docker - dead);
    assert {} + (NameSet(rows) - dead) == known;
    OrphanPhase(cfg, known, snap, mid, undated, now, clock, reply);
  }

  lemma {:induction false} HonestNames(rows: seq<RowRef>, db: Db)
    requires HonestRows(rows, db)
    ensures NameSet(rows) == Active(db)
    ensures forall i :: 0 <= i < |rows| ==> rows[i].name in db.runners && rows[i].startedAt == db.runners[rows[i].name].startedAt
  {
    assert forall i :: 0 <= i < |rows| ==> RowNames(rows)[i] == rows[i].name && RowNames(rows)[i] in RowNames(rows);
    forall n | n in Active(db) ensures n in NameSet(rows) {
      assert n in RowNames(rows);
    }
  }

  lemma {:induction false} OrphanPhase(cfg: Config, known: set<string>, snap: Snap, s: St, undated: set<string>, now: int,
                    clock: Pc -> int, reply: (Pc, St) -> Reply)
    requires FaultFreeAfterRead(cfg, undated, reply) && forall pc :: clock(pc) == now
    ensures Drive(cfg, ListAll(known, snap), s, clock, reply) ==
            St(s.db, s.docker - Doomed(cfg, known, s.docker, undated, now))
  {
    var pc := ListAll(known, snap);
    var cs := reply(pc, s).cs;
    assert Honest(cfg, pc, s, reply(pc, s));
    assert Drive(cfg, pc, s, clock, reply) == Drive(cfg, Listed(cs, known, snap), s, clock, reply);
    assert Drive(cfg, pc, s, clock, reply) == Drive(cfg, Orphans(cs, known, now, snap), s, clock, reply);
    OrphanLoop(cfg, cs, known, snap, s, now, undated, clock, reply);
    assert forall i :: 0 <= i < |cs| ==> ContainerNames(cs)[i] == cs[i].name && ContainerNames(cs)[i] in ContainerNames(cs);
    var removed, doomed := RemovedBy(cfg, cs, known, now), Doomed(cfg, known, s.docker, undated, now);
    forall n | n in doomed ensures n in removed {
      assert n in Prefixed(cfg.prefix, s.docker);
      assert n in ContainerNames(cs);
    }
    assert removed == doomed;
  }

  /** When the active-row read fails, the tick finishes no row and treats every container of
      ours as unclaimed: it removes exactly those that are undated or at least `grace` old,
      whatever their rows say. */
  lemma {:induction false} FailedReadSweepsAll(cfg: Config, s: St, undated: set<string>, now: int, clock: Pc -> int, reply: (Pc, St) -> Reply)
    requires FaultFreeAfterRead(cfg, undated, reply) && reply(Begin, s).err && forall pc :: clock(pc) == now
    ensures var s' := Drive(cfg, Begin, s, clock, reply);
      && s' == St(s.db, s.docker - Doomed(cfg, {}, s.docker, undated, now))
      && (forall n :: n in Active(s.db) && n in s.docker ==>
            (n !in s'.docker <==> cfg.prefix <= n && (n in undated || now - s.docker[n] >= cfg.grace)))
  {
    var snap := Snap(false, now);
    assert Drive(cfg, Begin, s, clock, reply) == Drive(cfg, ListAll({}, snap), s, clock, reply);
    OrphanPhase(cfg, {}, snap, s, undated, now, clock, reply);
  }

  // ---------------- agreement and idempotence ----------------

  /** Rows and containers agree: every active row has a container and is within its lifetime;
      every container in our namespace is claimed, or dated and younger than grace. */
  ghost predicate Agrees(cfg: Config, s: St, undated: set<string>, now: int) {
    && (forall n :: n in Active(s.db) ==> n in s.docker && !Expired(cfg, s.db.runners[n].startedAt, now))
    && (forall n :: n in s.docker && cfg.prefix <= n ==>
          n in Active(s.db) || (n !in undated && now - s.docker[n] < cfg.grace))
  }

  /** The tick reaches agreement, touches nothing it should not, and is idempotent. */
  lemma {:induction false} TickAgrees(cfg: Config, s: St, undated: set<string>, now: int,
                   clock: Pc -> int, reply: (Pc, St) -> Reply, again: (Pc, St) -> Reply)
    requires FaultFree(cfg, undated, reply) && FaultFree(cfg, undated, again) && forall pc :: clock(pc) == now
    ensures var s' := Drive(cfg, Begin, s, clock, reply);
      && Agrees(cfg, s', undated, now)
      && Drive(cfg, Begin, s', clock, again) == s'
      && s'.db.jobs == s.db.jobs && s'.db.runners.Keys == s.db.runners.Keys
      && Active(s'.db) == Active(s.db) - Dead(cfg, s, now)
      && (forall n :: n in s'.docker ==> n in s.docker && s'.docker[n] == s.docker[n])
      && (forall n :: n in s.docker && !(cfg.prefix <= n) && n !in Active(s.db) ==> n in s'.docker)
  {
    TickIsReconciled(cfg, s, undated, now, clock, reply);
    var s' := Reconciled(cfg, s, undated, now);
    assert Active(s'.db) == Active(s.db) - Dead(cfg, s, now);
    AgreementIsStable(cfg, s', undated, now);
    TickIsReconciled(cfg, s', undated, now, clock, again);
  }

  /** A state changes under a fault-free tick exactly when rows and containers disagree. */
  lemma {:induction false} AgreementIsStable(cfg: Config, s: St, undated: set<string>, now: int)
    ensures Agrees(cfg, s, undated, now) <==> Reconciled(cfg, s, undated, now) == s
  {
    var dead := Dead(cfg, s, now);
    var doomed := Doomed(cfg, Active(s.db) - dead, s.docker - dead, undated, now);
    if Agrees(cfg, s, undated, now) {
      assert dead == {} && doomed == {};
      assert FinishAll(s.db, {}, now) == s.db;
      assert s.docker - {} == s.docker;
    } else if n :| n in dead {
      assert !s.db.runners[n].status.Finished?;
      assert Reconciled(cfg, s, undated, now).db.runners[n].status.Finished?;
    } else {
      assert Active(s.db) - dead == Active(s.db) && s.docker - dead == s.docker;
      var n :| n in s.docker && cfg.prefix <= n && n !in Active(s.db) && !(n !in undated && now - s.docker[n] < cfg.grace);
      assert n in doomed;
    }
  }

  // ---------------- row by row and container by container ----------------

  /** What becomes of each row and each container in a fault-free tick: an active row with a
      container stays as it is, container and all, up to its lifetime, and is finished and its
      container removed past it; one without a container is finished; a container no active row
      names goes exactly if it is ours and undated or at least `grace` old. */
  lemma {:induction false} TickVerdicts(cfg: Config, s: St, undated: set<string>, now: int, n: string,
                                        clock: Pc -> int, reply: (Pc, St) -> Reply)
    requires FaultFree(cfg, undated, reply) && forall pc :: clock(pc) == now
    ensures var s' := Drive(cfg, Begin, s, clock, reply);
      var active := n in s.db.runners && s.db.runners[n].status != Finished;
      && (active && n in s.docker && (cfg.maxLifetime <= 0 || now - s.db.runners[n].startedAt <= cfg.maxLifetime) ==>
            && n in s'.db.runners && s'.db.runners[n] == s.db.runners[n]
            && n in s'.docker && s'.docker[n] == s.docker[n])
      && (active && n in s.docker && cfg.maxLifetime > 0 && now - s.db.runners[n].startedAt > cfg.maxLifetime ==>
            && n in s'.db.runners && s'.db.runners[n].status == Finished && n !in s'.docker)
      && (active && n !in s.docker ==>
            n in s'.db.runners && s'.db.runners[n].status == Finished && n !in s'.docker)
      && (n in s.db.runners && s.db.runners[n].status == Finished ==>
            n in s'.db.runners && s'.db.runners[n] == s.db.runners[n])
      && (n in s.docker && !active ==>
            (n !in s'.docker <==> cfg.prefix <= n && (n in undated || now - s.docker[n] >= cfg.grace)))
  {
    TickIsReconciled(cfg, s, undated, now, clock, reply);
  }

  /** One active row under every combination of faults, each call with its own clock; no container
      is listed. A failed inspection, removal or write leaves what it would have changed. */
  lemma {:induction false} RowUnderFaults(cfg: Config, s: St, row: RowRef, clock: Pc -> int, reply: (Pc, St) -> Reply)
    requires !reply(Begin, s).err && reply(Begin, s).rows == [row] && row.name in s.db.runners
    requires forall known, snap, s': St :: reply(ListAll(known, snap), s').err
    ensures var snap := Snap(true, clock(Begin));
      var now := clock(Snapped([row], snap));
      var c, s', mid := Ctx([], now, {}, snap), Drive(cfg, Begin, s, clock, reply), s.(docker := s.docker - {row.name});
      s' == if reply(Rows(Ctx([row], now, {}, snap)), s).err then s
            else if row.name !in s.docker then
              if reply(Clear(row, c), s).err then s else Closed(s, row.name, clock(Clear(row, c)))
            else if cfg.maxLifetime <= 0 || now - row.startedAt <= cfg.maxLifetime || reply(Reap(row, c), s).err then s
            else if reply(Reaped(row, c), mid).err then mid
            else Closed(mid, row.name, clock(Reaped(row, c)))
  {
    var snap := Snap(true, clock(Begin));
    var now := clock(Snapped([row], snap));
    var c, s' := Ctx([], now, {}, snap), Drive(cfg, Begin, s, clock, reply);
    assert s' == Drive(cfg, Snapped([row], snap), s, clock, reply);
    var here := Rows(Ctx([row], now, {}, snap));
    assert s' == Drive(cfg, here, s, clock, reply);
    assert [row][1..] == [];
    if reply(here, s).err {
      RowsDone(cfg, s, c.(alive := {} + {row.name}), clock, reply);
    } else if row.name !in s.docker {
      ClearUnderFaults(cfg, s, row, c, clock, reply);
      assert s' == Drive(cfg, Clear(row, c), s, clock, reply);
    } else if cfg.maxLifetime > 0 && now - row.startedAt > cfg.maxLifetime {
      ReapUnderFaults(cfg, s, row, c, clock, reply);
      assert s' == Drive(cfg, Reap(row, c), s, clock, reply);
    } else {
      RowsDone(cfg, s, c.(alive := {} + {row.name}), clock, reply);
    }
  }

  /** A row loop with nothing left to do, and a listing that fails. */
  lemma {:induction false} RowsDone(cfg: Config, s: St, c: Ctx, clock: Pc -> int, reply: (Pc, St) -> Reply)
    requires c.todo == [] && reply(ListAll(c.alive, c.snap), s).err
    ensures Drive(cfg, Rows(c), s, clock, reply) == s
  {
    assert Drive(cfg, Rows(c), s, clock, reply) == Drive(cfg, ListAll(c.alive, c.snap), s, clock, reply);
    assert Drive(cfg, Rows(c), s, clock, reply) == Drive(cfg, Ended, s, clock, reply);
  }

  function Closed(s: St, name: string, at: int): St
    requires name in s.db.runners
  {
    var row := s.db.runners[name].(status := Finished, finishedAt := Some(at - at % 1_000_000_000));
    s.(db := s.db.(runners := s.db.runners[name := row]))
  }

  lemma {:induction false} ClearUnderFaults(cfg: Config, s: St, row: RowRef, c: Ctx, clock: Pc -> int, reply: (Pc, St) -> Reply)
    requires c.todo == [] && row.name in s.db.runners && forall known, snap, s': St :: reply(ListAll(known, snap), s').err
    ensures Drive(cfg, Clear(row, c), s, clock, reply) ==
            if reply(Clear(row, c), s).err then s else Closed(s, row.name, clock(Clear(row, c)))
  {
    var s' := if reply(Clear(row, c), s).err then s else Closed(s, row.name, clock(Clear(row, c)));
    assert Drive(cfg, Clear(row, c), s, clock, reply) == Drive(cfg, Rows(c), s', clock, reply);
    RowsDone(cfg, s', c, clock, reply);
  }

  lemma {:induction false} ReapUnderFaults(cfg: Config, s: St, row: RowRef, c: Ctx, clock: Pc -> int, reply: (Pc, St) -> Reply)
    requires c.todo == [] && row.name in s.db.runners && forall known, snap, s': St :: reply(ListAll(known, snap), s').err
    ensures var s' := s.(docker := s.docker - {row.name});
            Drive(cfg, Reap(row, c), s, clock, reply) ==
            if reply(Reap(row, c), s).err then s
            else if reply(Reaped(row, c), s').err then s'
            else Closed(s', row.name, clock(Reaped(row, c)))
  {
    if reply(Reap(row, c), s).err {
      RowsDone(cfg, s, c.(alive := c.alive + {row.name}), clock, reply);
    } else {
      var mid := s.(docker := s.docker - {row.name});
      var s' := if reply(Reaped(row, c), mid).err then mid else Closed(mid, row.name, clock(Reaped(row, c)));
      assert Drive(cfg, Reap(row, c), s, clock, reply) == Drive(cfg, Reaped(row, c), mid, clock, reply);
      assert Drive(cfg, Reap(row, c), s, clock, reply) == Drive(cfg, Rows(c), s', clock, reply);
      RowsDone(cfg, s', c, clock, reply);
    }
  }

  /** One listed container that no row claims: removed exactly if it is ours, undated or old by
      the clock of the listing, and the removal succeeds. */
  lemma {:induction false} OrphanUnderFaults(cfg: Config, s: St, c: Container, known: set<string>, snap: Snap,
                                             clock: Pc -> int, reply: (Pc, St) -> Reply)
    requires !reply(ListAll(known, snap), s).err && reply(ListAll(known, snap), s).cs == [c]
    ensures var now := clock(Listed([c], known, snap));
      var removed := && cfg.prefix <= c.name && c.name !in known
                     && (c.createdAt == None || now - c.createdAt.value >= cfg.grace)
                     && !reply(Orphans([c], known, now, snap), s).err;
      Drive(cfg, ListAll(known, snap), s, clock, reply) == if removed then St(s.db, s.docker - {c.name}) else s
  {
    var now := clock(Listed([c], known, snap));
    var s' := Drive(cfg, ListAll(known, snap), s, clock, reply);
    assert s' == Drive(cfg, Listed([c], known, snap), s, clock, reply);
    assert s' == Drive(cfg, Orphans([c], known, now, snap), s, clock, reply);
    assert [c][1..] == [];
    var removed := Removable(cfg, c, known, now) && !reply(Orphans([c], known, now, snap), s).err;
    var left := if removed then St(s.db, s.docker - {c.name}) else s;
    assert s' == Drive(cfg, Orphans([], known, now, snap), left, clock, reply);
    assert s' == Drive(cfg, Ended, left, clock, reply);
  }
}
