/** The docker-side reconciler: finish ghost rows, reap overdue runners, remove orphans.

    As for dispatch, `Step` is the machine of atomic sub-steps that the interleaved model
    uses, `Drive` runs it alone, and the imperative `Reconciler` is proved equal to it. */
module Reconcile {
  import opened Store

  /** prefix: this instance's container namespace. maxLifetime <= 0 disables reaping. */
  datatype Config = Config(prefix: string, maxLifetime: int, grace: int)

  datatype RowRef = RowRef(name: string, startedAt: int)

  /** createdAt is None when docker's stamp could not be parsed. */
  datatype Container = Container(name: string, createdAt: Option<int>)

  /** Whether the active-row query answered, and when it was read. */
  datatype Snap = Snap(ok: bool, at: int)

  datatype Ctx = Ctx(todo: seq<RowRef>, clock: int, alive: set<string>, snap: Snap)

  datatype Pc =
    | Begin
    | Snapped(rows: seq<RowRef>, snap: Snap)
    | Rows(c: Ctx)
    | Clear(row: RowRef, c: Ctx)
    | Reap(row: RowRef, c: Ctx)
    | Reaped(row: RowRef, c: Ctx)
    | ListAll(known: set<string>, snap: Snap)
    | Listed(cs: seq<Container>, known: set<string>, snap: Snap)
    | Orphans(cs: seq<Container>, known: set<string>, clock: int, snap: Snap)
    | Ended

  datatype Reply = Reply(err: bool, rows: seq<RowRef>, cs: seq<Container>)

  /** What the reconciler reads and writes: the tables, and docker's name -> creation time. */
  datatype St = St(db: Db, docker: map<string, int>)

  datatype Move = Move(next: Pc, stmt: Option<Stmt>, kill: Option<string>)

  function Go(next: Pc): Move {
    Move(next, None, None)
  }

  predicate Expired(cfg: Config, startedAt: int, now: int) {
    cfg.maxLifetime > 0 && now - startedAt > cfg.maxLifetime
  }

  /** The orphan rule for one listed container. */
  predicate Removable(cfg: Config, c: Container, known: set<string>, now: int) {
    cfg.prefix <= c.name && c.name !in known && (c.createdAt.Some? ==> now - c.createdAt.value >= cfg.grace)
  }

  function Step(cfg: Config, pc: Pc, s: St, now: int, r: Reply): Move {
    match pc
    case Begin =>
      if r.err then Go(ListAll({}, Snap(false, now))) else Go(Snapped(r.rows, Snap(true, now)))
    case Snapped(rows, snap) => Go(Rows(Ctx(rows, now, {}, snap)))
    case Rows(c) =>
      if c.todo == [] then Go(ListAll(c.alive, c.snap))
      else
        var row, rest := c.todo[0], c.(todo := c.todo[1..]);
        if r.err then Go(Rows(rest.(alive := c.alive + {row.name})))
        else if row.name !in s.docker then Go(Clear(row, rest))
        else if Expired(cfg, row.startedAt, c.clock) then Go(Reap(row, rest))
        else Go(Rows(rest.(alive := c.alive + {row.name})))
    case Clear(row, c) =>
      if r.err then Go(Rows(c)) else Move(Rows(c), Some(SetRunner(row.name, Finished)), None)
    case Reap(row, c) =>
      if r.err then Go(Rows(c.(alive := c.alive + {row.name}))) else Move(Reaped(row, c), None, Some(row.name))
    case Reaped(row, c) =>
      if r.err then Go(Rows(c)) else Move(Rows(c), Some(SetRunner(row.name, Finished)), None)
    case ListAll(known, snap) =>
      if r.err then Go(Ended) else Go(Listed(r.cs, known, snap))
    case Listed(cs, known, snap) => Go(Orphans(cs, known, now, snap))
    case Orphans(cs, known, clock, snap) =>
      if cs == [] then Go(Ended)
      else if Removable(cfg, cs[0], known, clock) && !r.err
      then Move(Orphans(cs[1..], known, clock, snap), None, Some(cs[0].name))
      else Go(Orphans(cs[1..], known, clock, snap))
    case Ended => Go(Ended)
  }

  function RowNames(rows: seq<RowRef>): seq<string> {
    seq(|rows|, i requires 0 <= i < |rows| => rows[i].name)
  }

  function ContainerNames(cs: seq<Container>): seq<string> {
    seq(|cs|, i requires 0 <= i < |cs| => cs[i].name)
  }

  ghost predicate HonestRows(rows: seq<RowRef>, db: Db) {
    && Lists(RowNames(rows), Active(db))
    && forall i :: 0 <= i < |rows| && rows[i].name in db.runners ==> rows[i].startedAt == db.runners[rows[i].name].startedAt
  }

  function Prefixed(prefix: string, docker: map<string, int>): set<string> {
    set n | n in docker && prefix <= n
  }

  ghost predicate HonestContainers(prefix: string, cs: seq<Container>, docker: map<string, int>) {
    && Lists(ContainerNames(cs), Prefixed(prefix, docker))
    && forall i :: 0 <= i < |cs| && cs[i].name in docker && cs[i].createdAt.Some? ==>
         cs[i].createdAt.value == docker[cs[i].name]
  }

  /** A query that answers, answers with the current state, in any order. */
  ghost predicate Honest(cfg: Config, pc: Pc, s: St, r: Reply) {
    && (pc.Begin? && !r.err ==> HonestRows(r.rows, s.db))
    && (pc.ListAll? && !r.err ==> HonestContainers(cfg.prefix, r.cs, s.docker))
  }

  function Apply(s: St, m: Move, now: int): St {
    St(ExecOpt(s.db, now, m.stmt), if m.kill.Some? then s.docker - {m.kill.value} else s.docker)
  }

  function Phase(pc: Pc): nat {
    match pc
    case Begin => 6
    case Snapped(_, _) => 5
    case ListAll(_, _) => 3
    case Listed(_, _, _) => 2
    case Orphans(_, _, _, _) => 1
    case Ended => 0
    case _ => 4
  }

  function Pending(pc: Pc): nat {
    match pc
    case Rows(c) => |c.todo|
    case Clear(_, c) => |c.todo|
    case Reap(_, c) => |c.todo|
    case Reaped(_, c) => |c.todo|
    case Orphans(cs, _, _, _) => |cs|
    case _ => 0
  }

  function Tail(pc: Pc): nat {
    match pc
    case Clear(_, _) => 1
    case Reap(_, _) => 2
    case Reaped(_, _) => 1
    case _ => 0
  }

  /** Runs the reconciler to the end of its tick with nobody interleaved. */
  function Drive(cfg: Config, pc: Pc, s: St, clock: Pc -> int, reply: (Pc, St) -> Reply): St
    decreases Phase(pc), Pending(pc), Tail(pc)
  {
    if pc.Ended? then s
    else
      var m := Step(cfg, pc, s, clock(pc), reply(pc, s));
      Drive(cfg, m.next, Apply(s, m, clock(pc)), clock, reply)
  }

  /** What the active-row query answers. */
  ghost function ActiveRows(db: Db): (rows: seq<RowRef>)
    ensures HonestRows(rows, db)
  {
    var names := ActiveInOrder(db);
    assert forall i :: 0 <= i < |names| ==> names[i] in names;
    var rows := seq(|names|, i requires 0 <= i < |names| => RowRef(names[i], db.runners[names[i]].startedAt));
    assert RowNames(rows) == names;
    rows
  }

  /** The environment `reply`, with the active-row query answered by the store itself. */
  ghost function FromStore(reply: (Pc, St) -> Reply): (Pc, St) -> Reply {
    (pc: Pc, s: St) => if pc.Begin? then reply(pc, s).(rows := ActiveRows(s.db)) else reply(pc, s)
  }

  /** Past its first sub-step a tick does not depend on how that one was answered. */
  lemma {:induction false} AfterBegin(cfg: Config, pc: Pc, s: St, clock: Pc -> int, reply: (Pc, St) -> Reply)
    requires !pc.Begin?
    ensures Drive(cfg, pc, s, clock, FromStore(reply)) == Drive(cfg, pc, s, clock, reply)
    decreases Phase(pc), Pending(pc), Tail(pc)
  {
    if pc.Ended? {
    } else {
      var m := Step(cfg, pc, s, clock(pc), reply(pc, s));
      AfterBegin(cfg, m.next, Apply(s, m, clock(pc)), clock, reply);
    }
  }

  class Docker {
    var containers: map<string, int>

    method Inspect(name: string) returns (found: bool)
      ensures found == (name in containers)
    {
      found := name in containers;
    }

    method ForceRemove(name: string)
      modifies this
      ensures containers == old(containers) - {name}
    {
      containers := containers - {name};
    }
  }

  class Reconciler {
    const cfg: Config
    const store: SQLite
    const docker: Docker

    constructor (cfg: Config, store: SQLite, docker: Docker)
      ensures this.cfg == cfg && this.store == store && this.docker == docker
    {
      this.cfg, this.store, this.docker := cfg, store, docker;
    }

    function State(): St
      reads this, store, docker
    {
      St(store.Value(), docker.containers)
    }

    method Reconcile(clock: Pc -> int, reply: (Pc, St) -> Reply)
      modifies store, docker
      ensures State() == Drive(cfg, Begin, old(State()), clock, FromStore(reply))
    {
      var known, snap := SweepGhostRunners(clock, reply);
      SweepOrphanContainers(known, snap, clock, reply);
    }

    method SweepGhostRunners(clock: Pc -> int, reply: (Pc, St) -> Reply)
      returns (alive: set<string>, snap: Snap)
      modifies store, docker
      ensures Drive(cfg, Begin, old(State()), clock, FromStore(reply)) ==
              Drive(cfg, ListAll(alive, snap), State(), clock, reply)
    {
      alive := {};
      ghost var goal := Drive(cfg, Begin, State(), clock, FromStore(reply));
      var err := reply(Begin, State()).err;
      snap := Snap(!err, clock(Begin));
      if err {
        AfterBegin(cfg, ListAll(alive, snap), State(), clock, reply);
        return;
      }
      var rows := ListActiveRunners();
      assert goal == Drive(cfg, Snapped(rows, snap), State(), clock, FromStore(reply));
      AfterBegin(cfg, Snapped(rows, snap), State(), clock, reply);
      var now := clock(Snapped(rows, snap));
      alive := SweepRows(rows, now, snap, clock, reply);
    }

    method ListActiveRunners() returns (rows: seq<RowRef>)
      ensures rows == ActiveRows(store.Value())
    {
      var names := store.ListActiveRunners();
      assert forall i :: 0 <= i < |names| ==> names[i] in names;
      rows := [];
      for i := 0 to |names|
        invariant |rows| == i && forall j :: 0 <= j < i ==> rows[j] == RowRef(names[j], store.runners[names[j]].startedAt)
      {
        rows := rows + [RowRef(names[i], store.runners[names[i]].startedAt)];
      }
    }

    method SweepRows(rows: seq<RowRef>, now: int, snap: Snap, clock: Pc -> int, reply: (Pc, St) -> Reply)
      returns (alive: set<string>)
      modifies store, docker
      ensures Drive(cfg, Rows(Ctx(rows, now, {}, snap)), old(State()), clock, reply) ==
              Drive(cfg, Rows(Ctx([], now, alive, snap)), State(), clock, reply)
    {
      alive := {};
      ghost var goal := Drive(cfg, Rows(Ctx(rows, now, {}, snap)), State(), clock, reply);
      assert rows[0..] == rows;
      var i := 0;
      while i < |rows|
        invariant 0 <= i <= |rows|
        invariant goal == Drive(cfg, Rows(Ctx(rows[i..], now, alive, snap)), State(), clock, reply)
      {
        assert rows[i..] == [rows[i]] + rows[i + 1..];
        alive := SweepRow(rows[i], rows[i + 1..], now, alive, snap, clock, reply);
        i := i + 1;
      }
    }

    /** The loop body for one active row; `rest` are the rows still to come. */
    method SweepRow(row: RowRef, rest: seq<RowRef>, now: int, alive: set<string>, snap: Snap,
                    clock: Pc -> int, reply: (Pc, St) -> Reply)
      returns (alive': set<string>)
      modifies store, docker
      ensures Drive(cfg, Rows(Ctx([row] + rest, now, alive, snap)), old(State()), clock, reply) ==
              Drive(cfg, Rows(Ctx(rest, now, alive', snap)), State(), clock, reply)
    {
      alive' := alive;
      var c, here := Ctx(rest, now, alive, snap), Rows(Ctx([row] + rest, now, alive, snap));
      assert ([row] + rest)[1..] == rest;
      ghost var goal := Drive(cfg, here, State(), clock, reply);
      if reply(here, State()).err {
        alive' := alive + {row.name};
        return;
      }
      var found := docker.Inspect(row.name);
      if !found {
        assert goal == Drive(cfg, Clear(row, c), State(), clock, reply);
        if !reply(Clear(row, c), State()).err {
          store.UpdateRunnerStatus(clock(Clear(row, c)), row.name, Finished);
        }
        return;
      }
      if cfg.maxLifetime > 0 && now - row.startedAt > cfg.maxLifetime {
        assert goal == Drive(cfg, Reap(row, c), State(), clock, reply);
        if reply(Reap(row, c), State()).err {
          alive' := alive + {row.name};
          return;
        }
        docker.ForceRemove(row.name);
        assert goal == Drive(cfg, Reaped(row, c), State(), clock, reply);
        if !reply(Reaped(row, c), State()).err {
          store.UpdateRunnerStatus(clock(Reaped(row, c)), row.name, Finished);
        }
        return;
      }
      alive' := alive + {row.name};
    }

    method SweepOrphanContainers(known: set<string>, snap: Snap, clock: Pc -> int, reply: (Pc, St) -> Reply)
      modifies docker
      ensures Drive(cfg, ListAll(known, snap), old(State()), clock, reply) == State()
    {
      ghost var goal := Drive(cfg, ListAll(known, snap), State(), clock, reply);
      var answer := reply(ListAll(known, snap), State());
      if answer.err {
        return;
      }
      var cs := answer.cs;
      var now := clock(Listed(cs, known, snap));
      assert goal == Drive(cfg, Listed(cs, known, snap), State(), clock, reply);
      var i := 0;
      while i < |cs|
        invariant 0 <= i <= |cs|
        invariant store.Value() == old(store.Value())
        invariant goal == Drive(cfg, Orphans(cs[i..], known, now, snap), State(), clock, reply)
      {
        ghost var here := Orphans(cs[i..], known, now, snap);
        assert cs[i..][1..] == cs[i + 1..];
        var failed := reply(Orphans(cs[i..], known, now, snap), State()).err;
        var c := cs[i];
        i := i + 1;
        if !(cfg.prefix <= c.name) {
          continue;
        }
        if c.name in known {
          continue;
        }
        if c.createdAt.Some? && now - c.createdAt.value < cfg.grace {
          continue;
        }
        if !failed {
          docker.ForceRemove(c.name);
        }
      }
    }
  }
}
