/** `list --unique`: the shortest tail of each path that no other path shares. */
module Unique {
  import opened Bytes

  /** What is known of one repository here: its printed path and whether the primary root names it. */
  datatype Repo = Repo(rel: Bytes, underPrimary: bool)

  /** Where the tails of `rel` start, from the last component back to the whole path. */
  function StartsFrom(rel: Bytes, n: nat): (starts: seq<nat>)
    requires n <= |rel|
    ensures starts != [] && forall k :: 0 <= k < |starts| ==> starts[k] <= n
    decreases n
  {
    var i := LastIndexOf(rel[..n], SLASH);
    if i < 0 then [0] else [i + 1] + StartsFrom(rel, i)
  }

  /** Every tail that starts on a component boundary, shortest first. */
  function Tails(rel: Bytes): (tails: seq<Bytes>)
    ensures tails != []
  {
    var starts := StartsFrom(rel, |rel|);
    seq(|starts|, k requires 0 <= k < |starts| => rel[starts[k]..])
  }

  predicate StartsComponent(rel: Bytes, s: nat) {
    s <= |rel| && (s == 0 || rel[s - 1] == SLASH)
  }

  predicate IsTail(p: Bytes, rel: Bytes) {
    |p| <= |rel| && rel[|rel| - |p|..] == p && StartsComponent(rel, |rel| - |p|)
  }

  lemma {:induction false} StartsAreBoundaries(rel: Bytes, n: nat)
    requires n <= |rel|
    ensures forall s: nat :: s in StartsFrom(rel, n) <==> s <= n && StartsComponent(rel, s)
    ensures forall j, k :: 0 <= j < k < |StartsFrom(rel, n)| ==> StartsFrom(rel, n)[j] > StartsFrom(rel, n)[k]
    decreases n
  {
    var i := LastIndexOf(rel[..n], SLASH);
    assert forall k :: i < k < n ==> rel[..n][k] == rel[k];
    if i >= 0 {
      assert rel[..n][i] == rel[i];
      StartsAreBoundaries(rel, i);
    }
  }

  lemma {:induction false} TailAt(rel: Bytes, k: nat)
    requires k < |StartsFrom(rel, |rel|)|
    ensures IsTail(Tails(rel)[k], rel) && |Tails(rel)[k]| == |rel| - StartsFrom(rel, |rel|)[k]
  {
    StartsAreBoundaries(rel, |rel|);
    assert StartsFrom(rel, |rel|)[k] in StartsFrom(rel, |rel|);
  }

  lemma TailIsThere(p: Bytes, rel: Bytes)
    requires IsTail(p, rel)
    ensures p in Tails(rel)
  {
    var starts, s := StartsFrom(rel, |rel|), |rel| - |p|;
    StartsAreBoundaries(rel, |rel|);
    assert s in starts;
    var k :| 0 <= k < |starts| && starts[k] == s;
    assert Tails(rel)[k] == p;
  }

  /** Exactly the tails on component boundaries, each longer than the one before. */
  lemma TailsAreTheTails(rel: Bytes)
    ensures forall p :: p in Tails(rel) <==> IsTail(p, rel)
    ensures forall j, k :: 0 <= j < k < |Tails(rel)| ==> |Tails(rel)[j]| < |Tails(rel)[k]|
  {
    var tails := Tails(rel);
    StartsAreBoundaries(rel, |rel|);
    forall k | 0 <= k < |tails| ensures IsTail(tails[k], rel) && |tails[k]| == |rel| - StartsFrom(rel, |rel|)[k] {
      TailAt(rel, k);
    }
    forall p | IsTail(p, rel) ensures p in tails {
      TailIsThere(p, rel);
    }
  }

  // ---- Who shares what ----

  /** The distinct paths that have `p` as a tail. */
  ghost function Owners(repos: seq<Repo>, p: Bytes): set<Bytes> {
    set r | r in repos && IsTail(p, r.rel) :: r.rel
  }

  ghost predicate OnlyOwner(repos: seq<Repo>, p: Bytes, rel: Bytes) {
    IsTail(p, rel) && forall r :: r in repos && IsTail(p, r.rel) ==> r.rel == rel
  }

  function Copies(repos: seq<Repo>, rel: Bytes): nat {
    if repos == [] then 0
    else Copies(repos[..|repos| - 1], rel) + if repos[|repos| - 1].rel == rel then 1 else 0
  }

  /** What is printed for one repository: the shortest tail of its path that no other path has; nothing
      when every tail is shared, or when it is a copy that the primary root does not name. */
  ghost predicate Line(repos: seq<Repo>, r: Repo, line: Option<Bytes>) {
    match line
    case None =>
      (Copies(repos, r.rel) > 1 && !r.underPrimary) ||
      (forall p :: IsTail(p, r.rel) ==> !OnlyOwner(repos, p, r.rel))
    case Some(p) =>
      && (Copies(repos, r.rel) > 1 ==> r.underPrimary)
      && OnlyOwner(repos, p, r.rel)
      && (forall q :: IsTail(q, r.rel) && |q| < |p| ==> !OnlyOwner(repos, q, r.rel))
  }

  /** Two repositories with different paths never print the same line. */
  lemma LinesAreUnambiguous(repos: seq<Repo>, a: Repo, b: Repo, p: Bytes)
    requires a in repos && b in repos && Line(repos, a, Some(p)) && Line(repos, b, Some(p))
    ensures a.rel == b.rel
  {
  }

  lemma TailsOfOneLength(rel: Bytes, p: Bytes, q: Bytes)
    requires IsTail(p, rel) && IsTail(q, rel) && |p| == |q|
    ensures p == q
  {
  }

  /** What is printed for a repository is determined. */
  lemma LineIsDetermined(repos: seq<Repo>, r: Repo, a: Option<Bytes>, b: Option<Bytes>)
    requires Line(repos, r, a) && Line(repos, r, b)
    ensures a == b
  {
    if a.Some? && b.Some? {
      assert |a.value| == |b.value|;
      TailsOfOneLength(r.rel, a.value, b.value);
    }
  }

  // ---- The count maps ----

  function Get(m: map<Bytes, nat>, p: Bytes): nat {
    if p in m then m[p] else 0
  }

  ghost predicate CountsOwners(m: map<Bytes, nat>, repos: seq<Repo>) {
    forall p :: Get(m, p) == |Owners(repos, p)|
  }

  ghost predicate CountsCopies(m: map<Bytes, nat>, repos: seq<Repo>) {
    forall rel :: Get(m, rel) == Copies(repos, rel)
  }

  lemma {:induction false} CopiesMean(repos: seq<Repo>, rel: Bytes)
    ensures Copies(repos, rel) > 0 <==> exists r :: r in repos && r.rel == rel
  {
    if repos != [] {
      var front, last := repos[..|repos| - 1], repos[|repos| - 1];
      CopiesMean(front, rel);
      assert repos == front + [last];
    }
  }

  lemma OwnersOfMore(repos: seq<Repo>, r: Repo, p: Bytes)
    ensures Owners(repos + [r], p) == Owners(repos, p) + if IsTail(p, r.rel) then {r.rel} else {}
  {
    var more := repos + [r];
    assert forall x :: x in more <==> x in repos || x == r;
  }

  lemma {:induction false} OwnersCountMore(repos: seq<Repo>, r: Repo, p: Bytes)
    ensures |Owners(repos + [r], p)| ==
            |Owners(repos, p)| + if Copies(repos, r.rel) == 0 && IsTail(p, r.rel) then 1 else 0
  {
    OwnersOfMore(repos, r, p);
    CopiesMean(repos, r.rel);
    if Copies(repos, r.rel) == 0 {
      assert r.rel !in Owners(repos, p);
    } else {
      var x :| x in repos && x.rel == r.rel;
      assert IsTail(p, r.rel) ==> r.rel in Owners(repos, p);
      assert IsTail(p, r.rel) ==> Owners(repos, p) + {r.rel} == Owners(repos, p);
    }
  }

  lemma {:induction false} CopiesOfMore(repos: seq<Repo>, r: Repo, rel: Bytes)
    ensures Copies(repos + [r], rel) == Copies(repos, rel) + if r.rel == rel then 1 else 0
  {
    assert (repos + [r])[..|repos|] == repos;
  }

  lemma OneOwner(repos: seq<Repo>, r: Repo, p: Bytes)
    requires r in repos && IsTail(p, r.rel)
    ensures |Owners(repos, p)| == 1 <==> OnlyOwner(repos, p, r.rel)
  {
    assert r.rel in Owners(repos, p);
    if OnlyOwner(repos, p, r.rel) {
      assert Owners(repos, p) == {r.rel};
    }
    if |Owners(repos, p)| == 1 {
      var rest := Owners(repos, p) - {r.rel};
      assert |rest| == 0;
      forall x | x in repos && IsTail(p, x.rel) ensures x.rel == r.rel {
        assert x.rel in Owners(repos, p);
        assert x.rel !in rest;
      }
    }
  }

  /** Adds one to every tail of a path. */
  method CountTails(m: map<Bytes, nat>, rel: Bytes) returns (m': map<Bytes, nat>)
    ensures forall p :: Get(m', p) == Get(m, p) + if IsTail(p, rel) then 1 else 0
  {
    var tails := Tails(rel);
    TailsAreTheTails(rel);
    m' := m;
    for k := 0 to |tails|
      invariant forall p :: Get(m', p) == Get(m, p) + if p in tails[..k] then 1 else 0
    {
      assert tails[k] !in tails[..k];
      m' := m'[tails[k] := Get(m', tails[k]) + 1];
      assert tails[..k + 1] == tails[..k] + [tails[k]];
    }
    assert tails[..|tails|] == tails;
  }

  method Count(repos: seq<Repo>) returns (tailCounts: map<Bytes, nat>, copies: map<Bytes, nat>)
    ensures CountsOwners(tailCounts, repos) && CountsCopies(copies, repos)
  {
    tailCounts, copies := map[], map[];
    assert forall p :: Owners(repos[..0], p) == {};
    for i := 0 to |repos|
      invariant CountsOwners(tailCounts, repos[..i]) && CountsCopies(copies, repos[..i])
    {
      var r := repos[i];
      if Get(copies, r.rel) == 0 {
        tailCounts := CountTails(tailCounts, r.rel);
      }
      copies := copies[r.rel := Get(copies, r.rel) + 1];
      assert repos[..i + 1] == repos[..i] + [r];
      forall p ensures Get(tailCounts, p) == |Owners(repos[..i + 1], p)| {
        OwnersCountMore(repos[..i], r, p);
      }
      forall rel ensures Get(copies, rel) == Copies(repos[..i + 1], rel) {
        CopiesOfMore(repos[..i], r, rel);
      }
    }
    assert repos[..|repos|] == repos;
  }

  lemma {:induction false} ShortestAlone(repos: seq<Repo>, r: Repo, k: nat)
    requires r in repos && k < |Tails(r.rel)| && OnlyOwner(repos, Tails(r.rel)[k], r.rel)
    requires forall j :: 0 <= j < k ==> !OnlyOwner(repos, Tails(r.rel)[j], r.rel)
    requires Copies(repos, r.rel) > 1 ==> r.underPrimary
    ensures Line(repos, r, Some(Tails(r.rel)[k]))
  {
    var tails := Tails(r.rel);
    TailsAreTheTails(r.rel);
    forall q | IsTail(q, r.rel) && |q| < |tails[k]| ensures !OnlyOwner(repos, q, r.rel) {
      assert q in tails;
      var j :| 0 <= j < |tails| && tails[j] == q;
      assert j < k;
    }
  }

  lemma NoneAlone(repos: seq<Repo>, r: Repo)
    requires forall j :: 0 <= j < |Tails(r.rel)| ==> !OnlyOwner(repos, Tails(r.rel)[j], r.rel)
    ensures Line(repos, r, None)
  {
    TailsAreTheTails(r.rel);
    forall p | IsTail(p, r.rel) ensures !OnlyOwner(repos, p, r.rel) {
      assert p in Tails(r.rel);
    }
  }

  method LineFor(repos: seq<Repo>, r: Repo, tailCounts: map<Bytes, nat>, copies: map<Bytes, nat>)
    returns (line: Option<Bytes>)
    requires r in repos && CountsOwners(tailCounts, repos) && CountsCopies(copies, repos)
    ensures Line(repos, r, line)
  {
    if Get(copies, r.rel) > 1 && !r.underPrimary {
      return None;
    }
    var tails := Tails(r.rel);
    for k := 0 to |tails|
      invariant forall j :: 0 <= j < k ==> !OnlyOwner(repos, tails[j], r.rel)
    {
      TailAlone(repos, r, k);
      if Get(tailCounts, tails[k]) == 1 {
        ShortestAlone(repos, r, k);
        return Some(tails[k]);
      }
    }
    NoneAlone(repos, r);
    line := None;
  }

  lemma TailAlone(repos: seq<Repo>, r: Repo, k: nat)
    requires r in repos && k < |Tails(r.rel)|
    ensures |Owners(repos, Tails(r.rel)[k])| == 1 <==> OnlyOwner(repos, Tails(r.rel)[k], r.rel)
  {
    TailsAreTheTails(r.rel);
    assert Tails(r.rel)[k] in Tails(r.rel);
    OneOwner(repos, r, Tails(r.rel)[k]);
  }

  /** One line per repository that has one, in order. */
  ghost predicate Lines(repos: seq<Repo>, n: nat, out: seq<Bytes>)
    requires n <= |repos|
  {
    if n == 0 then out == []
    else
      var r, last := repos[n - 1], |out| - 1;
      || (Line(repos, r, None) && Lines(repos, n - 1, out))
      || (out != [] && Line(repos, r, Some(out[last])) && Lines(repos, n - 1, out[..last]))
  }

  method FormatUnique(repos: seq<Repo>) returns (out: seq<Bytes>)
    ensures Lines(repos, |repos|, out)
  {
    var tailCounts, copies := Count(repos);
    out := [];
    for i := 0 to |repos|
      invariant Lines(repos, i, out)
    {
      var line := LineFor(repos, repos[i], tailCounts, copies);
      if line.Some? {
        assert (out + [line.value])[..|out|] == out;
        out := out + [line.value];
      }
    }
  }
}
