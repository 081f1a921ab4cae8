/** GitHub's paged runner list, fetched to the end. */
module Pagination {
  import opened Store
  import opened GitHubSweep

  const PER_PAGE: nat := 100

  /** One response: an error, or a page and the total over all pages. */
  datatype Response = Failed | Page(total: int, runners: seq<RepoRunner>)

  type Server = nat -> Response

  /** Pages 1..n, one after another. */
  function Collected(serve: Server, n: nat): seq<RepoRunner> {
    if n == 0 then [] else Collected(serve, n - 1) + (if serve(n).Page? then serve(n).runners else [])
  }

  /** The loop does not ask for a page after page n. */
  predicate Ends(serve: Server, n: nat) {
    n >= 1 && (serve(n).Failed? || |Collected(serve, n)| >= serve(n).total || |serve(n).runners| < PER_PAGE)
  }

  predicate EndsFirst(serve: Server, n: nat) {
    Ends(serve, n) && forall k :: 0 <= k < n ==> !Ends(serve, k)
  }

  /** The server as a caller sees it whose context is cancelled after `deadline` requests. */
  function Until(serve: Server, deadline: nat): Server {
    (p: nat) => if p <= deadline then serve(p) else Failed
  }

  /** The request that ends the loop is the only one that fails, answers fewer than 100 runners,
      or brings what was collected up to the total. */
  lemma {:induction false} StopsAtPage(serve: Server, n: nat)
    ensures EndsFirst(serve, n) <==>
      && n >= 1
      && (serve(n) == Failed || |serve(n).runners| < 100 || |Collected(serve, n)| >= serve(n).total)
      && forall k :: 1 <= k < n ==> serve(k) != Failed && |serve(k).runners| >= 100 && |Collected(serve, k)| < serve(k).total
  {
    forall k: nat | 1 <= k ensures
      Ends(serve, k) <==> serve(k) == Failed || |serve(k).runners| < 100 || |Collected(serve, k)| >= serve(k).total
    {
    }
    assert EndsFirst(serve, n) <==> Ends(serve, n) && forall k :: 1 <= k < n ==> !Ends(serve, k);
  }

  /** Asks for pages 1, 2, ... and stops at the first that fails, is short, or completes the
      total. A server that goes on sending full pages below its own total is asked until the
      context is cancelled. */
  method ListRepoRunners(serve: Server, deadline: nat) returns (out: Option<seq<RepoRunner>>, requests: nat)
    ensures EndsFirst(Until(serve, deadline), requests) && requests <= deadline + 1
    ensures out == if Until(serve, deadline)(requests).Failed? then None else Some(Collected(Until(serve, deadline), requests))
  {
    var answer := Until(serve, deadline);
    var got := [];
    requests := 0;
    while true
      invariant requests <= deadline && got == Collected(answer, requests)
      invariant forall k :: 0 <= k <= requests ==> !Ends(answer, k)
      decreases deadline - requests
    {
      requests := requests + 1;
      var body := answer(requests);
      if body.Failed? {
        return None, requests;
      }
      got := got + body.runners;
      if |got| >= body.total || |body.runners| < PER_PAGE {
        return Some(got), requests;
      }
    }
  }

  function Min(a: nat, b: nat): nat {
    if a <= b then a else b
  }

  /** Serves a fixed roster in pages of 100, with its true size as the total. */
  ghost predicate Truthful(serve: Server, roster: seq<RepoRunner>) {
    forall p: nat :: p >= 1 ==>
      serve(p) == Page(|roster|, roster[Min((p - 1) * PER_PAGE, |roster|)..Min(p * PER_PAGE, |roster|)])
  }

  lemma {:induction false} CollectedPrefix(serve: Server, roster: seq<RepoRunner>, n: nat)
    requires Truthful(serve, roster)
    ensures Collected(serve, n) == roster[..Min(n * PER_PAGE, |roster|)]
  {
    if n == 0 {
    } else {
      CollectedPrefix(serve, roster, n - 1);
      assert serve(n) == Page(|roster|, roster[Min((n - 1) * PER_PAGE, |roster|)..Min(n * PER_PAGE, |roster|)]);
    }
  }

  /** ceil(n / 100), but at least one. */
  function PagesOf(n: nat): nat {
    if n == 0 then 1 else (n + PER_PAGE - 1) / PER_PAGE
  }

  /** Against such a server the loop stops after max(1, ceil(N / 100)) requests, no sooner and no
      later, with exactly the roster, in order, if its context lives that long; otherwise it
      fails at the first request after cancellation. */
  lemma {:induction false} FetchesExactly(serve: Server, roster: seq<RepoRunner>, deadline: nat, requests: nat)
    requires Truthful(serve, roster)
    ensures var answer, last := Until(serve, deadline), PagesOf(|roster|);
      && (EndsFirst(answer, requests) <==> requests == if last <= deadline then last else deadline + 1)
      && (EndsFirst(answer, requests) ==> if last <= deadline then answer(requests).Page? && Collected(answer, requests) == roster
                                          else answer(requests).Failed?)
  {
    var answer, last := Until(serve, deadline), PagesOf(|roster|);
    var stop := if last <= deadline then last else deadline + 1;
    forall k: nat | k <= stop ensures Ends(answer, k) <==> k == stop {
      EndsAt(serve, roster, k);
      SameBefore(serve, deadline, k);
    }
    assert EndsFirst(answer, stop);
    if EndsFirst(answer, requests) {
      FirstIsOne(answer, requests, stop);
    }
    CollectedPrefix(serve, roster, stop);
    SameBefore(serve, deadline, stop);
    assert roster[..|roster|] == roster;
    assert last <= deadline ==> serve(last).Page?;
  }

  lemma {:induction false} FirstIsOne(serve: Server, a: nat, b: nat)
    requires EndsFirst(serve, a) && EndsFirst(serve, b)
    ensures a == b
  {
  }

  lemma {:induction false} SameBefore(serve: Server, deadline: nat, n: nat)
    ensures n <= deadline ==> Collected(Until(serve, deadline), n) == Collected(serve, n)
  {
    if n == 0 {
    } else {
      SameBefore(serve, deadline, n - 1);
    }
  }

  lemma {:induction false} EndsAt(serve: Server, roster: seq<RepoRunner>, n: nat)
    requires Truthful(serve, roster)
    ensures Ends(serve, n) <==> n >= PagesOf(|roster|)
  {
    CollectedPrefix(serve, roster, n);
    if n >= 1 {
      assert serve(n) == Page(|roster|, roster[Min((n - 1) * PER_PAGE, |roster|)..Min(n * PER_PAGE, |roster|)]);
    }
  }

  /** What it returns is an answer the GitHub-side sweep takes as honest. */
  lemma {:induction false} FetchIsHonest(repo: string, serve: Server, listed: seq<RepoRunner>, deadline: nat, requests: nat, roster: Roster)
    requires Truthful(serve, listed) && EndsFirst(Until(serve, deadline), requests) && HonestRunners(repo, listed, roster)
    ensures Until(serve, deadline)(requests).Page? ==> HonestRunners(repo, Collected(Until(serve, deadline), requests), roster)
  {
    FetchesExactly(serve, listed, deadline, requests);
  }
}
