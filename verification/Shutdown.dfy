/** What the scheduler still does once its run context is cancelled. */
module Shutdown {
  import opened Store
  import opened System
  import Dispatch

  /** Dispatches begun in steps i..n. */
  function Begun(ls: seq<Label>, i: nat, n: nat): nat
    requires i <= n <= |ls|
    decreases n - i
  {
    if i == n then 0 else (if ls[i].Receive? then 1 else 0) + Begun(ls, i + 1, n)
  }

  /** Re-enqueues sent by timer callbacks in steps i..n. */
  function TimerSendCount(ls: seq<Label>, i: nat, n: nat): nat
    requires i <= n <= |ls|
    decreases n - i
  {
    if i == n then 0 else (if ls[i].TimerSends? then 1 else 0) + TimerSendCount(ls, i + 1, n)
  }

  lemma {:induction false} CancelledStep(cfg: Config, w: World, l: Label)
    requires Enabled(cfg, w, l) && w.cancelled
    ensures var w' := Next(cfg, w, l);
      && w'.cancelled
      && (w'.worker.Select? ==> w.worker.Select? && !l.Receive?)
      && |w'.firing| + (if l.TimerSends? then 1 else 0) == |w.firing|
  {
  }

  /** From any cancelled point of any run, the select may still pick the queue once if the
      worker stands at it, and never if the worker is inside a dispatch or has returned; and
      the only re-enqueues left are those of callbacks that had already passed their check. */
  lemma {:induction false} ShutdownBound(cfg: Config, ws: seq<World>, ls: seq<Label>, i: nat, n: nat)
    requires IsRun(cfg, ws, ls) && i <= n <= |ls| && ws[i].cancelled
    ensures Begun(ls, i, n) <= (if ws[i].worker.Select? then 1 else 0)
    ensures TimerSendCount(ls, i, n) <= |ws[i].firing|
    decreases n - i
  {
    if i == n {
    } else {
      assert StepAt(cfg, ws, ls, i);
      CancelledStep(cfg, ws[i], ls[i]);
      ShutdownBound(cfg, ws, ls, i + 1, n);
    }
  }

  /** Once the loop has returned it stays returned, with no re-enqueue timer pending. */
  lemma {:induction false} ReturnedIsFinal(cfg: Config, ws: seq<World>, ls: seq<Label>, i: nat, n: nat)
    requires IsRun(cfg, ws, ls) && i <= n <= |ls| && ws[i].worker.Returned?
    ensures ws[n].worker.Returned? && ws[n].timers == multiset{} && ws[n].cancelled
    decreases n
  {
    if i < n {
      ReturnedIsFinal(cfg, ws, ls, i, n - 1);
      assert StepAt(cfg, ws, ls, n - 1);
    } else {
      ReturnedClean(cfg, ws, ls, n);
    }
  }

  lemma {:induction false} ReturnedClean(cfg: Config, ws: seq<World>, ls: seq<Label>, n: nat)
    requires IsRun(cfg, ws, ls) && n <= |ls|
    ensures ws[n].worker.Returned? ==> ws[n].timers == multiset{} && ws[n].cancelled
    decreases n
  {
    if n == 0 {
    } else {
      ReturnedClean(cfg, ws, ls, n - 1);
      assert StepAt(cfg, ws, ls, n - 1);
    }
  }

  // ---------------- the worker loop itself ----------------

  /** A context once cancelled stays cancelled. */
  ghost predicate Sticky(rounds: seq<Dispatch.Round>) {
    && (forall i :: 0 <= i < |rounds| && rounds[i].cancelled ==> rounds[i].cancelledAfter)
    && (forall i, j :: 0 <= i < j < |rounds| && rounds[i].cancelledAfter ==> rounds[j].cancelled)
  }

  /** However its selects choose, the loop begins at most one dispatch after cancellation and
      then returns, and it returns only with its re-enqueue timers stopped. */
  lemma {:induction false} LoopShutdown(cfg: Dispatch.Config, l: Dispatch.Loop, rounds: seq<Dispatch.Round>)
    requires Sticky(rounds) && !l.returned
    ensures var l' := Dispatch.Session(cfg, l, rounds);
      && l.late <= l'.late <= l.late + 1 && (l'.late > l.late ==> l'.returned)
      && (l'.returned ==> l'.timers == multiset{} && exists r :: r in rounds && r.cancelledAfter)
    decreases |rounds|
  {
    if rounds == [] {
    } else {
      var l1 := Dispatch.Picked(cfg, Dispatch.Waited(l, rounds[0]), rounds[0]);
      assert rounds[0] in rounds;
      if l1.returned {
        assert Dispatch.Session(cfg, l1, rounds[1..]) == l1;
      } else {
        LoopShutdown(cfg, l1, rounds[1..]);
      }
    }
  }

  /** A select that picks the cancelled context stops the timers and returns, whatever is queued. */
  lemma {:induction false} DoneReturns(cfg: Dispatch.Config, l: Dispatch.Loop, rounds: seq<Dispatch.Round>)
    requires rounds != [] && !l.returned && rounds[0].pick == Dispatch.Done && rounds[0].cancelled
    ensures Dispatch.Session(cfg, l, rounds) == Dispatch.Waited(l, rounds[0]).(timers := multiset{}, returned := true)
  {
    var l1 := Dispatch.Picked(cfg, Dispatch.Waited(l, rounds[0]), rounds[0]);
    assert Dispatch.Session(cfg, l1, rounds[1..]) == l1;
  }

  /** Cancelled while a dispatch runs: the loop begins no other. */
  lemma {:induction false} CancelledMidDispatch(cfg: Dispatch.Config, l: Dispatch.Loop, rounds: seq<Dispatch.Round>)
    requires rounds != [] && !l.returned && rounds[0].pick.Job? && !rounds[0].cancelled && rounds[0].cancelledAfter
    requires Dispatch.Waited(l, rounds[0]).queue != []
    ensures Dispatch.Session(cfg, l, rounds) == Dispatch.Session(cfg, l, rounds[..1])
    ensures Dispatch.Session(cfg, l, rounds).returned && Dispatch.Session(cfg, l, rounds).late == l.late
  {
    var l1 := Dispatch.Picked(cfg, Dispatch.Waited(l, rounds[0]), rounds[0]);
    assert Dispatch.Session(cfg, l1, rounds[1..]) == l1;
    assert Dispatch.Session(cfg, l1, rounds[..1][1..]) == l1;
  }

  /** No callback that starts after cancellation, or after the timers were stopped, enqueues. */
  lemma {:induction false} StoppedTimersAreSilent(timers: multiset<JobId>, q: seq<JobId>, fired: seq<JobId>, cancelled: bool)
    requires cancelled || timers == multiset{}
    ensures Dispatch.FireAll(timers, q, fired, cancelled).1 == q
    decreases |fired|
  {
    if fired == [] {
    } else {
      StoppedTimersAreSilent(timers - multiset{fired[0]}, q, fired[1..], cancelled);
    }
  }
}
