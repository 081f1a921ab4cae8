/** The allowed-owner list: normalised when saved, joined into one stored string, split and
    matched when a webhook asks. Letters are folded as in ASCII. */
module Owners {
  import opened Store

  // ---------------- strings ----------------

  /** unicode.IsSpace */
  predicate IsSpace(c: char) {
    || c == ' ' || '\t' <= c <= '\r' || c == '\U{85}' || c == '\U{A0}' || c == '\U{1680}'
    || '\U{2000}' <= c <= '\U{200A}' || c == '\U{2028}' || c == '\U{2029}' || c == '\U{202F}'
    || c == '\U{205F}' || c == '\U{3000}'
  }

  function LowerChar(c: char): char {
    if 'A' <= c <= 'Z' then (c as int + 32) as char else c
  }

  function Lower(s: string): (t: string)
    ensures |t| == |s| && forall i :: 0 <= i < |s| ==> t[i] == LowerChar(s[i])
  {
    seq(|s|, i requires 0 <= i < |s| => LowerChar(s[i]))
  }

  /** Equal ignoring case. */
  predicate Same(a: string, b: string) {
    Lower(a) == Lower(b)
  }

  function TrimLeft(s: string): string {
    if s != "" && IsSpace(s[0]) then TrimLeft(s[1..]) else s
  }

  function TrimRight(s: string): string {
    if s != "" && IsSpace(s[|s| - 1]) then TrimRight(s[..|s| - 1]) else s
  }

  function Trim(s: string): string {
    TrimRight(TrimLeft(s))
  }

  /** strings.Split(s, ",") */
  function Split(s: string): (pieces: seq<string>)
    ensures |pieces| >= 1
  {
    if s == "" then [""]
    else
      var rest := Split(s[1..]);
      if s[0] == ',' then [""] + rest else Prepend(s[0], rest)
  }

  function Prepend(c: char, pieces: seq<string>): (r: seq<string>)
    requires |pieces| >= 1
    ensures |r| == |pieces|
  {
    [[c] + pieces[0]] + pieces[1..]
  }

  /** strings.Join(list, ",") */
  function Join(list: seq<string>): string {
    if list == [] then "" else if |list| == 1 then list[0] else list[0] + "," + Join(list[1..])
  }

  // ---------------- what the functions mean ----------------

  /** Trimmed, empties dropped. */
  function Cleaned(pieces: seq<string>): seq<string> {
    if pieces == [] then []
    else (if Trim(pieces[0]) == "" then [] else [Trim(pieces[0])]) + Cleaned(pieces[1..])
  }

  function Listed(stored: string): seq<string> {
    Cleaned(Split(stored))
  }

  predicate SpelledBefore(owners: seq<string>, e: string) {
    exists j :: 0 <= j < |owners| && Same(Trim(owners[j]), e)
  }

  /** Each owner's first spelling, trimmed, in order of first appearance. */
  function Normal(owners: seq<string>): seq<string> {
    if owners == [] then []
    else
      var before, e := owners[..|owners| - 1], Trim(owners[|owners| - 1]);
      if e == "" || SpelledBefore(before, e) then Normal(before) else Normal(before) + [e]
  }

  /** Trimmed, non-empty, and no two equal ignoring case. */
  ghost predicate Clean(owners: seq<string>) {
    && (forall i :: 0 <= i < |owners| ==> owners[i] != "" && Trim(owners[i]) == owners[i])
    && (forall i, j :: 0 <= i < j < |owners| ==> !Same(owners[i], owners[j]))
  }

  predicate CommaFree(s: string) {
    ',' !in s
  }

  // ---------------- trimming ----------------

  lemma {:induction false} TrimLeftStops(s: string)
    ensures TrimLeft(s) == "" || !IsSpace(TrimLeft(s)[0])
  {
    if s == "" {
    } else {
      TrimLeftStops(s[1..]);
    }
  }

  lemma {:induction false} TrimRightStops(s: string)
    ensures TrimRight(s) <= s
    ensures TrimRight(s) == "" || !IsSpace(TrimRight(s)[|TrimRight(s)| - 1])
  {
    if s == "" {
    } else {
      TrimRightStops(s[..|s| - 1]);
    }
  }

  lemma {:induction false} TrimTwice(s: string)
    ensures Trim(Trim(s)) == Trim(s)
  {
    TrimLeftStops(s);
    TrimRightStops(TrimLeft(s));
  }

  lemma {:induction false} TrimLeftCuts(s: string) returns (n: nat)
    ensures n <= |s| && s[n..] == TrimLeft(s) && forall i :: 0 <= i < n ==> IsSpace(s[i])
  {
    if s == "" || !IsSpace(s[0]) {
      n := 0;
    } else {
      var m := TrimLeftCuts(s[1..]);
      n := m + 1;
      assert forall i :: 1 <= i < n ==> s[i] == s[1..][i - 1];
    }
  }

  lemma {:induction false} TrimRightCuts(s: string)
    ensures TrimRight(s) <= s && forall i :: |TrimRight(s)| <= i < |s| ==> IsSpace(s[i])
  {
    if s == "" || !IsSpace(s[|s| - 1]) {
    } else {
      TrimRightCuts(s[..|s| - 1]);
    }
  }

  /** Trim cuts exactly the white space around s, white being the 25 code points of Unicode. */
  lemma {:induction false} TrimCuts(s: string) returns (from: nat, to: nat)
    ensures var white := (c: char) =>
        var n := c as int;
        9 <= n <= 13 || 0x2000 <= n <= 0x200A || n in {0x20, 0x85, 0xA0, 0x1680, 0x2028, 0x2029, 0x202F, 0x205F, 0x3000};
      && from <= to <= |s| && Trim(s) == s[from..to]
      && (forall i :: 0 <= i < from || to <= i < |s| ==> white(s[i]))
      && (from < to ==> !white(s[from]) && !white(s[to - 1]))
  {
    from := TrimLeftCuts(s);
    var t := TrimLeft(s);
    to := from + |TrimRight(t)|;
    TrimRightCuts(t);
    TrimLeftStops(s);
    TrimRightStops(t);
    assert forall i :: from <= i < |s| ==> s[i] == t[i - from];
  }

  /** Equal ignoring case: letter by letter the same, or 32 code points apart. */
  lemma {:induction false} SameMeans(a: string, b: string)
    ensures Same(a, b) <==>
      && |a| == |b|
      && forall i :: 0 <= i < |a| ==>
           var x, y := a[i] as int, b[i] as int;
           x == y || (65 <= x <= 90 && y == x + 32) || (65 <= y <= 90 && x == y + 32)
  {
    if Same(a, b) {
      assert |Lower(a)| == |Lower(b)|;
      assert forall i :: 0 <= i < |a| ==> Lower(a)[i] == Lower(b)[i];
    }
  }

  /** Trim drops a leading space, and a trailing one. */
  lemma {:induction false} TrimEnds(s: string, c: char)
    requires IsSpace(c)
    ensures Trim([c] + s) == Trim(s) && Trim(s + [c]) == Trim(s)
  {
    assert ([c] + s)[1..] == s;
    assert (s + [c])[..|s|] == s;
    TrimLeftSnoc(s, c);
  }

  lemma {:induction false} TrimLeftSnoc(s: string, c: char)
    requires IsSpace(c)
    ensures TrimRight(TrimLeft(s + [c])) == TrimRight(TrimLeft(s))
  {
    if s == "" {
      assert ("" + [c])[1..] == "";
    } else if IsSpace(s[0]) {
      assert (s + [c])[1..] == s[1..] + [c];
      TrimLeftSnoc(s[1..], c);
    } else {
      assert (s + [c])[..|s|] == s;
    }
  }

  // ---------------- splitting ----------------

  /** The pieces with one more character at the end of the last. */
  function Append(pieces: seq<string>, c: char): seq<string>
    requires pieces != []
  {
    Init(pieces) + [Last(pieces) + [c]]
  }

  lemma {:induction false} PrependAppend(b: char, pieces: seq<string>, c: char)
    requires pieces != []
    ensures Prepend(b, Append(pieces, c)) == Append(Prepend(b, pieces), c)
  {
    if |pieces| == 1 {
      assert [b] + (pieces[0] + [c]) == ([b] + pieces[0]) + [c];
    }
  }

  lemma {:induction false} EmptyAppend(pieces: seq<string>, c: char)
    requires pieces != []
    ensures [""] + Append(pieces, c) == Append([""] + pieces, c)
  {
  }

  lemma {:induction false} SplitSnoc(s: string, c: char)
    requires c != ','
    ensures Split(s + [c]) == Append(Split(s), c)
  {
    if s == "" {
      assert ("" + [c])[1..] == "" && [c] + "" == "" + [c] == [c];
    } else {
      assert (s + [c])[1..] == s[1..] + [c];
      SplitSnoc(s[1..], c);
      PrependAppend(s[0], Split(s[1..]), c);
      EmptyAppend(Split(s[1..]), c);
    }
  }

  lemma {:induction false} CleanedAppend(a: seq<string>, b: seq<string>)
    ensures Cleaned(a + b) == Cleaned(a) + Cleaned(b)
  {
    if a == [] {
      assert a + b == b;
    } else {
      assert (a + b)[1..] == a[1..] + b;
      CleanedAppend(a[1..], b);
    }
  }

  lemma {:induction false} CleanedOne(e: string)
    ensures Cleaned([e]) == if Trim(e) == "" then [] else [Trim(e)]
  {
    assert Cleaned([e][1..]) == [];
  }

  /** Leading and trailing space around a stored list is irrelevant. */
  lemma {:induction false} ListedSpace(s: string, c: char)
    requires IsSpace(c)
    ensures Listed([c] + s) == Listed(s) && Listed(s + [c]) == Listed(s)
  {
    var p := Split(s);
    assert ([c] + s)[1..] == s;
    TrimEnds(p[0], c);
    assert Prepend(c, p)[1..] == p[1..];
    SplitSnoc(s, c);
    TrimEnds(Last(p), c);
    assert Init(p) + [Last(p)] == p;
    CleanedAppend(Init(p), [Last(p)]);
    CleanedAppend(Init(p), [Last(p) + [c]]);
    CleanedOne(Last(p));
    CleanedOne(Last(p) + [c]);
  }

  lemma {:induction false} ListedTrimLeft(s: string)
    ensures Listed(TrimLeft(s)) == Listed(s)
  {
    if s == "" || !IsSpace(s[0]) {
    } else {
      ListedTrimLeft(s[1..]);
      ListedSpace(s[1..], s[0]);
      assert [s[0]] + s[1..] == s;
    }
  }

  lemma {:induction false} ListedTrimRight(s: string)
    ensures Listed(TrimRight(s)) == Listed(s)
  {
    if s == "" || !IsSpace(s[|s| - 1]) {
    } else {
      var t, c := s[..|s| - 1], s[|s| - 1];
      ListedTrimRight(t);
      ListedSpace(t, c);
      assert t + [c] == s;
    }
  }

  lemma {:induction false} SplitJoinTwo(a: string, b: string)
    ensures Split(a + "," + b) == Split(a) + Split(b)
  {
    if a == "" {
      assert ("" + "," + b)[1..] == b;
    } else {
      assert (a + "," + b)[1..] == a[1..] + "," + b;
      SplitJoinTwo(a[1..], b);
    }
  }

  function ListedAll(owners: seq<string>): seq<string> {
    if owners == [] then [] else Listed(owners[0]) + ListedAll(owners[1..])
  }

  /** Reading back a joined list reads back each entry in turn. */
  lemma {:induction false} ListedJoin(owners: seq<string>)
    ensures Listed(Join(owners)) == ListedAll(owners)
  {
    if owners == [] {
      CleanedOne("");
    } else if |owners| == 1 {
      assert owners[1..] == [];
      assert Listed(owners[0]) + [] == Listed(owners[0]);
    } else {
      SplitJoinTwo(owners[0], Join(owners[1..]));
      CleanedAppend(Split(owners[0]), Split(Join(owners[1..])));
      ListedJoin(owners[1..]);
    }
  }

  lemma {:induction false} SplitCommaFree(s: string)
    ensures CommaFree(s) ==> Split(s) == [s]
    ensures forall i :: 0 <= i < |Split(s)| ==> CommaFree(Split(s)[i])
  {
    if s == "" {
    } else {
      SplitCommaFree(s[1..]);
      assert [s[0]] + s[1..] == s;
      assert CommaFree(s) <==> s[0] != ',' && CommaFree(s[1..]);
    }
  }

  /** Split cuts s at its commas, all of them and nothing else: joined again it is s. */
  lemma {:induction false} SplitCuts(s: string)
    ensures Join(Split(s)) == s && forall i :: 0 <= i < |Split(s)| ==> ',' !in Split(s)[i]
  {
    SplitCommaFree(s);
    JoinSplit(s);
  }

  lemma {:induction false} JoinSplit(s: string)
    ensures Join(Split(s)) == s
  {
    if s == "" {
    } else {
      JoinSplit(s[1..]);
      JoinEmpty(Split(s[1..]));
      JoinPrepend(s[0], Split(s[1..]));
      assert [s[0]] + s[1..] == s;
    }
  }

  lemma {:induction false} JoinEmpty(pieces: seq<string>)
    requires pieces != []
    ensures Join([""] + pieces) == [','] + Join(pieces)
  {
    assert ([""] + pieces)[1..] == pieces;
    assert "" + "," == [','];
  }

  lemma {:induction false} JoinPrepend(c: char, pieces: seq<string>)
    requires pieces != []
    ensures Join(Prepend(c, pieces)) == [c] + Join(pieces)
  {
    var p := Prepend(c, pieces);
    assert p[1..] == pieces[1..];
    if |pieces| > 1 {
      assert ([c] + pieces[0]) + "," + Join(pieces[1..]) == [c] + (pieces[0] + "," + Join(pieces[1..]));
    }
  }

  lemma {:induction false} TrimParts(s: string)
    ensures forall c :: c in Trim(s) ==> c in s
  {
    TrimRightStops(TrimLeft(s));
    TrimLeftParts(s);
  }

  lemma {:induction false} TrimLeftParts(s: string)
    ensures forall c :: c in TrimLeft(s) ==> c in s
  {
    if s == "" || !IsSpace(s[0]) {
    } else {
      TrimLeftParts(s[1..]);
    }
  }

  /** Nothing read back from a stored list contains a comma. */
  lemma {:induction false} ListedCommaFree(pieces: seq<string>)
    requires forall i :: 0 <= i < |pieces| ==> CommaFree(pieces[i])
    ensures forall e :: e in Cleaned(pieces) ==> CommaFree(e)
  {
    if pieces == [] {
    } else {
      TrimParts(pieces[0]);
      ListedCommaFree(pieces[1..]);
    }
  }

  // ---------------- normalising ----------------

  /** Some entry is owner, ignoring case. */
  predicate Includes(entries: seq<string>, owner: string) {
    exists i :: 0 <= i < |entries| && Same(entries[i], owner)
  }

  lemma {:induction false} IncludesEither(a: seq<string>, b: seq<string>, owner: string)
    ensures Includes(a + b, owner) <==> Includes(a, owner) || Includes(b, owner)
  {
    if i :| 0 <= i < |a| && Same(a[i], owner) {
      assert Same((a + b)[i], owner);
    }
    if i :| 0 <= i < |b| && Same(b[i], owner) {
      assert Same((a + b)[|a| + i], owner);
    }
    if i :| 0 <= i < |a + b| && Same((a + b)[i], owner) {
      assert if i < |a| then Same(a[i], owner) else Same(b[i - |a|], owner);
    }
  }

  lemma {:induction false} NormalIsClean(owners: seq<string>)
    ensures Clean(Normal(owners))
    ensures forall o :: o in Normal(owners) ==> SpelledBefore(owners, o)
  {
    if owners == [] {
    } else {
      var before, e := owners[..|owners| - 1], Trim(owners[|owners| - 1]);
      NormalIsClean(before);
      TrimTwice(owners[|owners| - 1]);
      forall o | o in Normal(owners) ensures SpelledBefore(owners, o) {
        if o in Normal(before) {
          var j :| 0 <= j < |before| && Same(Trim(before[j]), o);
          assert owners[j] == before[j];
        } else {
          assert Same(Trim(owners[|owners| - 1]), o);
        }
      }
      if e != "" && !SpelledBefore(before, e) {
        var kept := Normal(before);
        forall i | 0 <= i < |kept| ensures !Same(kept[i], e) {
          assert kept[i] in kept;
          var j :| 0 <= j < |before| && Same(Trim(before[j]), kept[i]);
        }
      }
    }
  }

  lemma {:induction false} IncludesSame(entries: seq<string>, a: string, b: string)
    requires Includes(entries, a) && Same(a, b)
    ensures Includes(entries, b)
  {
  }

  /** Nobody is lost: every non-empty entry survives, trimmed, up to case. */
  lemma {:induction false} NormalCovers(owners: seq<string>, i: int)
    requires 0 <= i < |owners| && Trim(owners[i]) != ""
    ensures Includes(Normal(owners), Trim(owners[i]))
    decreases |owners|
  {
    var n := |owners| - 1;
    var before, e := owners[..n], Trim(owners[n]);
    IncludesEither(Normal(before), [e], Trim(owners[i]));
    if i < n {
      NormalCovers(before, i);
    } else if SpelledBefore(before, e) {
      var j :| 0 <= j < n && Same(Trim(before[j]), e);
      assert |Lower(Trim(before[j]))| == |Lower(e)|;
      NormalCovers(before, j);
      IncludesSame(Normal(before), Trim(before[j]), e);
    } else {
      assert Same([e][0], e);
    }
  }

  lemma {:induction false} CleanIsNormal(owners: seq<string>)
    requires Clean(owners)
    ensures Normal(owners) == owners
  {
    if owners == [] {
    } else {
      var n := |owners| - 1;
      var before := owners[..n];
      CleanIsNormal(before);
      forall j | 0 <= j < n ensures !Same(Trim(before[j]), owners[n]) {
        assert Trim(owners[j]) == owners[j] == before[j];
      }
      assert !SpelledBefore(before, Trim(owners[n]));
      assert Normal(owners) == Normal(before) + [owners[n]];
      assert before + [owners[n]] == owners;
    }
  }

  /** Normalising twice is normalising once. */
  lemma {:induction false} NormalTwice(owners: seq<string>, once: seq<string>)
    requires once == Normal(owners)
    ensures Normal(once) == once
  {
    NormalIsClean(owners);
    CleanIsNormal(once);
  }

  /** Entry i opens a new owner: it is not blank and no earlier entry spells it. */
  predicate FirstSpelling(owners: seq<string>, i: nat)
    requires i < |owners|
  {
    Trim(owners[i]) != "" && forall j :: 0 <= j < i ==> !Same(Trim(owners[j]), Trim(owners[i]))
  }

  /** out is the trimmed entries at idx: all first spellings, in their order. */
  ghost predicate Picks(owners: seq<string>, out: seq<string>, idx: seq<nat>) {
    && |idx| == |out|
    && (forall k :: 0 <= k < |idx| ==> idx[k] < |owners| && out[k] == Trim(owners[idx[k]]))
    && (forall k, m :: 0 <= k < m < |idx| ==> idx[k] < idx[m])
    && (forall i :: 0 <= i < |owners| ==> (i in idx <==> FirstSpelling(owners, i)))
  }

  /** The normal form lists the first spellings, trimmed, all of them and in their order. */
  lemma {:induction false} NormalFirst(owners: seq<string>) returns (idx: seq<nat>)
    ensures Picks(owners, Normal(owners), idx)
  {
    if owners == [] {
      idx := [];
    } else {
      var n := |owners| - 1;
      idx := NormalFirst(owners[..n]);
      PicksMore(owners, n, Normal(owners[..n]), idx);
      FirstOfPrefix(owners, n);
      if FirstSpelling(owners, n) {
        idx := idx + [n];
      }
    }
  }

  lemma {:induction false} PicksMore(owners: seq<string>, n: nat, out: seq<string>, idx: seq<nat>)
    requires |owners| == n + 1 && Picks(owners[..n], out, idx)
    ensures if FirstSpelling(owners, n) then Picks(owners, out + [Trim(owners[n])], idx + [n]) else Picks(owners, out, idx)
  {
    FirstOfPrefix(owners, n);
    assert forall k :: 0 <= k < |idx| ==> idx[k] in idx;
    forall i | 0 <= i < n ensures i in idx <==> FirstSpelling(owners, i) {
      assert FirstSpelling(owners, i) <==> FirstSpelling(owners[..n], i);
    }
  }

  lemma {:induction false} FirstOfPrefix(owners: seq<string>, n: nat)
    requires |owners| == n + 1
    ensures forall i :: 0 <= i < n ==> owners[..n][i] == owners[i] && (FirstSpelling(owners, i) <==> FirstSpelling(owners[..n], i))
    ensures FirstSpelling(owners, n) <==> Trim(owners[n]) != "" && !SpelledBefore(owners[..n], Trim(owners[n]))
  {
    var before := owners[..n];
    assert forall i :: 0 <= i < n ==> before[i] == owners[i];
  }

  // ---------------- round trip ----------------

  lemma {:induction false} ListedAllClean(owners: seq<string>)
    requires Clean(owners) && forall i :: 0 <= i < |owners| ==> CommaFree(owners[i])
    ensures ListedAll(owners) == owners
  {
    if owners == [] {
    } else {
      SplitCommaFree(owners[0]);
      CleanedOne(owners[0]);
      assert Listed(owners[0]) == [owners[0]];
      ListedAllClean(owners[1..]);
      assert [owners[0]] + owners[1..] == owners;
    }
  }

  /** The list read back from the store is the list that was saved exactly if no saved entry
      contains a comma. */
  lemma {:induction false} RoundTrip(owners: seq<string>)
    ensures Listed(Join(Normal(owners))) == Normal(owners) <==> forall o :: o in Normal(owners) ==> CommaFree(o)
  {
    var saved := Normal(owners);
    NormalIsClean(owners);
    ListedJoin(saved);
    if forall o :: o in saved ==> CommaFree(o) {
      ListedAllClean(saved);
    }
    SplitCommaFree(Join(saved));
    ListedCommaFree(Split(Join(saved)));
  }

  // ---------------- the owner gate ----------------

  function LowerAll(entries: seq<string>): seq<string> {
    if entries == [] then [] else [Lower(entries[0])] + LowerAll(entries[1..])
  }

  lemma {:induction false} LowerSpace(c: char)
    ensures IsSpace(LowerChar(c)) == IsSpace(c)
    ensures LowerChar(c) == ',' <==> c == ','
  {
  }

  lemma {:induction false} LowerSlices(s: string)
    requires s != ""
    ensures Lower(s)[1..] == Lower(s[1..]) && Lower(s)[..|s| - 1] == Lower(s[..|s| - 1])
  {
  }

  lemma {:induction false} LowerTrimLeft(s: string)
    ensures TrimLeft(Lower(s)) == Lower(TrimLeft(s))
  {
    if s == "" {
    } else {
      LowerSlices(s);
      LowerSpace(s[0]);
      LowerTrimLeft(s[1..]);
    }
  }

  lemma {:induction false} LowerTrimRight(s: string)
    ensures TrimRight(Lower(s)) == Lower(TrimRight(s))
  {
    if s == "" {
    } else {
      LowerSlices(s);
      LowerSpace(s[|s| - 1]);
      LowerTrimRight(s[..|s| - 1]);
    }
  }

  lemma {:induction false} LowerSplit(s: string)
    ensures Split(Lower(s)) == LowerAll(Split(s))
  {
    if s == "" {
      assert Lower("") == "";
      assert LowerAll([""]) == [Lower("")] + LowerAll([""][1..]);
    } else {
      LowerSlices(s);
      LowerSpace(s[0]);
      LowerSplit(s[1..]);
      var r := Split(s[1..]);
      assert Lower([s[0]] + r[0]) == [LowerChar(s[0])] + Lower(r[0]);
      assert LowerAll(r) == [Lower(r[0])] + LowerAll(r[1..]);
      assert Lower("") == "";
      if s[0] == ',' {
        assert ([""] + r)[1..] == r;
      } else {
        assert Prepend(s[0], r)[1..] == r[1..];
      }
    }
  }

  lemma {:induction false} LowerCleaned(pieces: seq<string>)
    ensures Cleaned(LowerAll(pieces)) == LowerAll(Cleaned(pieces))
  {
    if pieces == [] {
    } else {
      var p := pieces[0];
      LowerTrimLeft(p);
      LowerTrimRight(TrimLeft(p));
      LowerCleaned(pieces[1..]);
      assert LowerAll(pieces)[0] == Lower(p) && LowerAll(pieces)[1..] == LowerAll(pieces[1..]);
      var e, rest := Trim(p), Cleaned(pieces[1..]);
      assert Trim(Lower(p)) == Lower(e) && |Lower(e)| == |e|;
      assert ([e] + rest)[1..] == rest && [] + rest == rest;
      assert Cleaned(LowerAll(pieces)) == (if e == "" then [] else [Lower(e)]) + LowerAll(rest);
    }
  }

  lemma {:induction false} LowerListed(s: string)
    ensures Listed(Lower(s)) == LowerAll(Listed(s))
  {
    LowerSplit(s);
    LowerCleaned(Split(s));
  }

  lemma {:induction false} IncludesLower(entries: seq<string>, owner: string)
    ensures Includes(entries, owner) <==> Lower(owner) in LowerAll(entries)
  {
    if entries == [] {
    } else {
      IncludesLower(entries[1..], owner);
      if Includes(entries, owner) {
        var i :| 0 <= i < |entries| && Same(entries[i], owner);
        assert i > 0 ==> entries[1..][i - 1] == entries[i];
      }
      if Includes(entries[1..], owner) {
        var i :| 0 <= i < |entries[1..]| && Same(entries[1..][i], owner);
        assert entries[i + 1] == entries[1..][i];
      }
    }
  }

  /** Entries equal ignoring case admit the same owners. */
  lemma {:induction false} SameAdmits(a: string, b: string, owner: string)
    requires Same(a, b)
    ensures Includes(Listed(a), owner) <==> Includes(Listed(b), owner)
  {
    LowerListed(a);
    LowerListed(b);
    IncludesLower(Listed(a), owner);
    IncludesLower(Listed(b), owner);
  }

  predicate SomeAdmits(owners: seq<string>, owner: string) {
    exists i :: 0 <= i < |owners| && Includes(Listed(owners[i]), owner)
  }

  lemma {:induction false} ListedAllAdmits(owners: seq<string>, owner: string)
    ensures Includes(ListedAll(owners), owner) <==> SomeAdmits(owners, owner)
  {
    if owners == [] {
    } else {
      ListedAllAdmits(owners[1..], owner);
      IncludesEither(Listed(owners[0]), ListedAll(owners[1..]), owner);
      if i :| 0 <= i < |owners| && Includes(Listed(owners[i]), owner) {
        assert i > 0 ==> owners[1..][i - 1] == owners[i];
      }
      if i :| 0 <= i < |owners[1..]| && Includes(Listed(owners[1..][i]), owner) {
        assert owners[i + 1] == owners[1..][i];
      }
    }
  }

  lemma {:induction false} ListedTrim(s: string)
    ensures Listed(Trim(s)) == Listed(s)
  {
    ListedTrimLeft(s);
    ListedTrimRight(TrimLeft(s));
  }

  lemma {:induction false} EmptyAdmitsNobody(s: string, owner: string)
    requires Trim(s) == ""
    ensures !Includes(Listed(s), owner)
  {
    ListedTrim(s);
    CleanedOne("");
  }

  /** For every list of owners and every owner: the string that is stored for the list admits the owner exactly if
      some comma-separated piece of some original entry, trimmed, is that owner ignoring case. */
  lemma {:induction false} AdmitsExactly(owners: seq<string>, stored: string, owner: string)
    requires stored == Join(Normal(owners))
    ensures Includes(Listed(stored), owner) <==> SomeAdmits(owners, owner)
  {
    var saved := Normal(owners);
    ListedJoin(saved);
    ListedAllAdmits(saved, owner);
    NormalIsClean(owners);
    if i :| 0 <= i < |saved| && Includes(Listed(saved[i]), owner) {
      assert saved[i] in saved;
      var j :| 0 <= j < |owners| && Same(Trim(owners[j]), saved[i]);
      SameAdmits(Trim(owners[j]), saved[i], owner);
      ListedTrim(owners[j]);
    }
    if i :| 0 <= i < |owners| && Includes(Listed(owners[i]), owner) {
      if Trim(owners[i]) == "" {
        EmptyAdmitsNobody(owners[i], owner);
      } else {
        NormalCovers(owners, i);
        var k :| 0 <= k < |saved| && Same(saved[k], Trim(owners[i]));
        SameAdmits(saved[k], Trim(owners[i]), owner);
        ListedTrim(owners[i]);
      }
    }
  }

  /** So for entries without commas: exactly if it is some original entry, trimmed. */
  lemma {:induction false} AdmitsOriginals(owners: seq<string>, stored: string, owner: string)
    requires stored == Join(Normal(owners))
    requires owner != "" && forall i :: 0 <= i < |owners| ==> CommaFree(owners[i])
    ensures Includes(Listed(stored), owner) <==> SpelledBefore(owners, owner)
  {
    AdmitsExactly(owners, stored, owner);
    assert |Lower(owner)| != 0;
    forall i | 0 <= i < |owners| ensures Includes(Listed(owners[i]), owner) <==> Same(Trim(owners[i]), owner) {
      SplitCommaFree(owners[i]);
      CleanedOne(owners[i]);
      if Same(Trim(owners[i]), owner) {
        assert Same(Listed(owners[i])[0], owner);
      }
    }
  }

  // ---------------- the loops ----------------

  lemma {:induction false} CleanedFrom(out: seq<string>, pieces: seq<string>, i: nat)
    requires i < |pieces|
    ensures var e := Trim(pieces[i]);
            out + Cleaned(pieces[i..]) == (if e == "" then out else out + [e]) + Cleaned(pieces[i + 1..])
  {
    assert pieces[i..][0] == pieces[i] && pieces[i..][1..] == pieces[i + 1..];
    var e, rest := Trim(pieces[i]), Cleaned(pieces[i + 1..]);
    assert Cleaned(pieces[i..]) == (if e == "" then [] else [e]) + rest;
    assert out + ([e] + rest) == (out + [e]) + rest && [] + rest == rest;
  }

  method SplitOwners(s: string) returns (out: seq<string>)
    ensures out == Listed(s)
  {
    out := [];
    var pieces := Split(s);
    assert pieces[0..] == pieces;
    var i := 0;
    while i < |pieces|
      invariant 0 <= i <= |pieces|
      invariant out + Cleaned(pieces[i..]) == Cleaned(pieces)
    {
      CleanedFrom(out, pieces, i);
      var e := Trim(pieces[i]);
      if e != "" {
        out := out + [e];
      }
      i := i + 1;
    }
    assert pieces[i..] == [] && out + [] == out;
  }

  /** The keys a loop over owners has seen. */
  function SeenKeys(owners: seq<string>): set<string> {
    set j | 0 <= j < |owners| && Trim(owners[j]) != "" :: Lower(Trim(owners[j]))
  }

  lemma {:induction false} SeenIsSpelled(owners: seq<string>, e: string)
    requires e != ""
    ensures Lower(e) in SeenKeys(owners) <==> SpelledBefore(owners, e)
  {
    if j :| 0 <= j < |owners| && Same(Trim(owners[j]), e) {
      assert |Lower(Trim(owners[j]))| == |Lower(e)|;
    }
  }

  lemma {:induction false} SeenNext(owners: seq<string>, e: string)
    ensures SeenKeys(owners + [e]) == SeenKeys(owners) + (if Trim(e) == "" then {} else {Lower(Trim(e))})
  {
    var more := owners + [e];
    forall k | k in SeenKeys(owners) ensures k in SeenKeys(more) {
      var j :| 0 <= j < |owners| && Trim(owners[j]) != "" && Lower(Trim(owners[j])) == k;
      assert more[j] == owners[j];
    }
    assert more[|owners|] == e;
    assert Trim(e) != "" ==> Lower(Trim(e)) in SeenKeys(more);
  }

  /** One more entry: what it adds to the output and to the keys seen. */
  lemma {:induction false} NormalNext(owners: seq<string>, i: nat)
    requires i < |owners|
    ensures var seen, e := SeenKeys(owners[..i]), Trim(owners[i]);
      && SeenKeys(owners[..i + 1]) == (if e == "" || Lower(e) in seen then seen else seen + {Lower(e)})
      && Normal(owners[..i + 1]) == (if e == "" || Lower(e) in seen then Normal(owners[..i]) else Normal(owners[..i]) + [e])
  {
    var e := Trim(owners[i]);
    assert owners[..i + 1] == owners[..i] + [owners[i]];
    assert owners[..i + 1][..i] == owners[..i];
    SeenNext(owners[..i], owners[i]);
    if e != "" {
      SeenIsSpelled(owners[..i], e);
    }
  }

  method NormalizeOwners(owners: seq<string>) returns (out: seq<string>)
    ensures out == Normal(owners)
  {
    var seen: set<string> := {};
    out := [];
    var i := 0;
    while i < |owners|
      invariant 0 <= i <= |owners|
      invariant out == Normal(owners[..i]) && seen == SeenKeys(owners[..i])
    {
      NormalNext(owners, i);
      var e := Trim(owners[i]);
      i := i + 1;
      if e == "" {
        continue;
      }
      var k := Lower(e);
      if k in seen {
        continue;
      }
      seen := seen + {k};
      out := out + [e];
    }
    assert owners[..i] == owners;
  }

  /** The part of a full name before its first slash; empty if there is none. */
  function OwnerOf(fullName: string): string {
    if '/' in fullName then UpToSlash(fullName) else ""
  }

  function UpToSlash(s: string): string {
    if s == "" || s[0] == '/' then "" else [s[0]] + UpToSlash(s[1..])
  }

  /** owner, '/', and the rest. */
  lemma {:induction false} OwnerEndsAtSlash(fullName: string)
    ensures var owner := OwnerOf(fullName);
      && '/' !in owner
      && ('/' !in fullName ==> owner == "")
      && ('/' in fullName ==> |owner| < |fullName| && fullName[..|owner|] == owner && fullName[|owner|] == '/')
  {
    if fullName == "" || fullName[0] == '/' {
    } else {
      OwnerEndsAtSlash(fullName[1..]);
      assert '/' in fullName <==> '/' in fullName[1..];
    }
  }

  /** The owner is the App's, or listed; an unknown owner, or settings that cannot be read, deny. */
  predicate OwnerOk(fullName: string, appOwner: string, stored: Option<string>) {
    var owner := OwnerOf(fullName);
    owner != "" && ((appOwner != "" && Same(owner, appOwner)) || (stored.Some? && Includes(Listed(stored.value), owner)))
  }

  /** What is known of the App's owner: the login on file, "" while unresolved; whether there
      are App credentials to ask GitHub with; and GitHub's answer, None on any error. */
  datatype AppOwner = AppOwner(onFile: string, canAsk: bool, answer: Option<string>)

  /** The login on file or, failing that, a non-empty answer. */
  function Resolved(app: AppOwner): string {
    if app.onFile == "" && app.canAsk && app.answer.Some? then app.answer.value else app.onFile
  }

  /** `saved` is the login written back to the App configuration; whether that write succeeds
      does not matter to the verdict. stored is None when the owner list cannot be read. */
  method OwnerAllowed(fullName: string, app: AppOwner, stored: Option<string>) returns (allowed: bool, saved: Option<string>)
    ensures allowed == OwnerOk(fullName, Resolved(app), stored)
    ensures saved == if OwnerOf(fullName) != "" && app.onFile == "" && Resolved(app) != "" then Some(Resolved(app)) else None
    ensures var owner := OwnerOf(fullName);
            var login := if app.onFile != "" then app.onFile else if app.canAsk && app.answer.Some? then app.answer.value else "";
      && (allowed <==> owner != "" && ((login != "" && Same(owner, login)) || (stored.Some? && PieceIs(Split(stored.value), owner))))
      && (saved.Some? <==> owner != "" && app.onFile == "" && login != "") && (saved.Some? ==> saved.value == login)
  {
    if stored.Some? {
      CleanedPieces(Split(stored.value), OwnerOf(fullName));
    }
    saved := None;
    var owner := OwnerOf(fullName);
    if owner == "" {
      return false, saved;
    }
    var appOwner := app.onFile;
    if appOwner == "" && app.canAsk && app.answer.Some? {
      if app.answer.value != "" {
        appOwner := app.answer.value;
        saved := Some(appOwner);
      }
    }
    if appOwner != "" && Same(owner, appOwner) {
      return true, saved;
    }
    if stored.None? {
      return false, saved;
    }
    allowed := StoredAllows(stored.value, owner);
  }

  /** Some piece, trimmed, is not empty and is owner ignoring case. */
  predicate PieceIs(pieces: seq<string>, owner: string) {
    exists i :: 0 <= i < |pieces| && Trim(pieces[i]) != "" && Same(Trim(pieces[i]), owner)
  }

  lemma {:induction false} CleanedPieces(pieces: seq<string>, owner: string)
    ensures Includes(Cleaned(pieces), owner) <==> PieceIs(pieces, owner)
  {
    if pieces == [] {
    } else {
      var head, rest := if Trim(pieces[0]) == "" then [] else [Trim(pieces[0])], Cleaned(pieces[1..]);
      CleanedPieces(pieces[1..], owner);
      IncludesEither(head, rest, owner);
      if i :| 0 <= i < |pieces| && Trim(pieces[i]) != "" && Same(Trim(pieces[i]), owner) {
        assert if i == 0 then Same(head[0], owner) else pieces[1..][i - 1] == pieces[i];
      }
      if i :| 0 <= i < |pieces[1..]| && Trim(pieces[1..][i]) != "" && Same(Trim(pieces[1..][i]), owner) {
        assert pieces[i + 1] == pieces[1..][i];
      }
    }
  }

  method StoredAllows(stored: string, owner: string) returns (allowed: bool)
    ensures allowed <==> Includes(Listed(stored), owner)
  {
    var pieces := Split(stored);
    assert pieces[0..] == pieces;
    var i := 0;
    while i < |pieces|
      invariant 0 <= i <= |pieces|
      invariant Includes(Cleaned(pieces[i..]), owner) <==> Includes(Cleaned(pieces), owner)
    {
      var e := Trim(pieces[i]);
      CleanedFrom([], pieces, i);
      IncludesEither(if e == "" then [] else [e], Cleaned(pieces[i + 1..]), owner);
      if e != "" && Same(e, owner) {
        assert Same([e][0], owner);
        return true;
      }
      i := i + 1;
    }
    allowed := false;
  }
}
