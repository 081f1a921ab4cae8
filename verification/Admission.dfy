/** The gates a workflow_job webhook passes before it touches the store. */
module Admission {
  import opened Store
  import Owners

  datatype Repository = Repository(fullName: string, isPrivate: bool, visibility: string)

  /** Configuration, and what the owner gate reads: the App owner, and the stored owner list,
      None when it cannot be read. Sets and prefixes are normalised at load. */
  datatype Gate = Gate(
    labels: set<string>, prefixes: seq<string>, allowPublic: bool, allowlist: set<string>,
    app: Owners.AppOwner, stored: Option<string>)

  function Normalize(s: string): string {
    Owners.Lower(Owners.Trim(s))
  }

  /** Some runner of this pool can carry the label. */
  predicate Served(g: Gate, tag: string) {
    var k := Normalize(tag);
    k == "self-hosted" || k in g.labels || exists i :: 0 <= i < |g.prefixes| && g.prefixes[i] != "" && g.prefixes[i] <= k
  }

  /** Every label must be served, not just one; an unconfigured pool serves everything. */
  predicate LabelsServed(g: Gate, labels: seq<string>) {
    g.labels == {} || forall i :: 0 <= i < |labels| ==> Served(g, labels[i])
  }

  /** The visibility field decides; if it says nothing known, the private flag does. */
  predicate IsPublic(repo: Repository) {
    var v := Normalize(repo.visibility);
    v == "public" || (v != "private" && v != "internal" && !repo.isPrivate)
  }

  predicate PublicAllowed(g: Gate, repo: Repository) {
    IsPublic(repo) ==> g.allowPublic || Normalize(repo.fullName) in g.allowlist
  }

  method HasDynamicLabelPrefix(tag: string, prefixes: seq<string>) returns (found: bool)
    ensures found <==> exists i :: 0 <= i < |prefixes| && prefixes[i] != "" && prefixes[i] <= tag
  {
    for i := 0 to |prefixes|
      invariant forall j :: 0 <= j < i ==> prefixes[j] == "" || !(prefixes[j] <= tag)
    {
      if prefixes[i] != "" && prefixes[i] <= tag {
        return true;
      }
    }
    found := false;
  }

  method LabelsMatch(runsOn: seq<string>, g: Gate) returns (ok: bool)
    ensures ok <==> LabelsServed(g, runsOn)
    ensures ok <==> g.labels == {} || forall i :: 0 <= i < |runsOn| ==>
      var k := Owners.Lower(Owners.Trim(runsOn[i]));
      k == "self-hosted" || k in g.labels || exists j :: 0 <= j < |g.prefixes| && g.prefixes[j] != "" && g.prefixes[j] <= k
  {
    if g.labels == {} {
      return true;
    }
    for i := 0 to |runsOn|
      invariant forall j :: 0 <= j < i ==> Served(g, runsOn[j])
    {
      var k := Normalize(runsOn[i]);
      if k == "self-hosted" {
        continue;
      }
      if k !in g.labels {
        var dynamic := HasDynamicLabelPrefix(k, g.prefixes);
        if !dynamic {
          return false;
        }
      }
    }
    ok := true;
  }

  method RepoIsPublic(repo: Repository) returns (isPublic: bool)
    ensures isPublic == IsPublic(repo)
    ensures var v := Owners.Lower(Owners.Trim(repo.visibility));
            isPublic <==> if v in {"public", "private", "internal"} then v == "public" else !repo.isPrivate
  {
    var v := Normalize(repo.visibility);
    if v == "public" {
      return true;
    }
    if v == "private" || v == "internal" {
      return false;
    }
    isPublic := !repo.isPrivate;
  }

  method PublicRepoAllowed(g: Gate, repo: Repository) returns (ok: bool)
    ensures ok == PublicAllowed(g, repo)
    ensures var v := Owners.Lower(Owners.Trim(repo.visibility));
            ok <==> || (if v in {"public", "private", "internal"} then v != "public" else repo.isPrivate)
                    || g.allowPublic || Owners.Lower(Owners.Trim(repo.fullName)) in g.allowlist
  {
    var isPublic := RepoIsPublic(repo);
    if !isPublic {
      return true;
    }
    if g.allowPublic {
      return true;
    }
    if g.allowlist == {} {
      return false;
    }
    ok := Normalize(repo.fullName) in g.allowlist;
  }
}
