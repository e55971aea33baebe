/** What a check says about two listings of one root: both sorted and compared, and the paths that only one
    of them has. */
module CheckReport {
  import opened Bytes

  // ---- Sorting ----

  predicate InOrder(s: seq<Bytes>) {
    |s| <= 1 || (Le(s[0], s[1]) && InOrder(s[1..]))
  }

  function Insert(p: Bytes, s: seq<Bytes>): seq<Bytes> {
    if s == [] then [p]
    else if Lt(s[0], p) then [s[0]] + Insert(p, s[1..])
    else [p] + s
  }

  function SortPaths(s: seq<Bytes>): seq<Bytes> {
    if s == [] then [] else Insert(s[0], SortPaths(s[1..]))
  }

  lemma {:induction false} InsertKeeps(p: Bytes, s: seq<Bytes>)
    ensures multiset(Insert(p, s)) == multiset(s) + multiset{p}
  {
    if s != [] {
      InsertKeeps(p, s[1..]);
      assert s == [s[0]] + s[1..];
    }
  }

  lemma {:induction false} InsertSorts(p: Bytes, s: seq<Bytes>)
    requires InOrder(s)
    ensures InOrder(Insert(p, s))
  {
    if s != [] {
      LtTotal(s[0], p);
      if Lt(s[0], p) {
        InsertSorts(p, s[1..]);
        var t := Insert(p, s[1..]);
        assert t[0] == p || t[0] == s[1];
        assert ([s[0]] + t)[1..] == t;
      } else {
        assert ([p] + s)[1..] == s;
      }
    }
  }

  lemma {:induction false} Sorting(s: seq<Bytes>)
    ensures InOrder(SortPaths(s)) && multiset(SortPaths(s)) == multiset(s)
  {
    if s != [] {
      Sorting(s[1..]);
      InsertKeeps(s[0], SortPaths(s[1..]));
      InsertSorts(s[0], SortPaths(s[1..]));
      assert s == [s[0]] + s[1..];
    }
  }

  lemma {:induction false} FirstIsLeast(s: seq<Bytes>, p: Bytes)
    requires InOrder(s) && p in s
    ensures Le(s[0], p)
  {
    if p != s[0] {
      assert p in s[1..];
      FirstIsLeast(s[1..], p);
      if s[0] != s[1] && s[1] != p {
        LtTransitive(s[0], s[1], p);
      }
    }
  }

  lemma LeBothWays(a: Bytes, b: Bytes)
    requires Le(a, b) && Le(b, a)
    ensures a == b
  {
    if a != b {
      LtTransitive(a, b, a);
      LtIrreflexive(a);
    }
  }

  lemma {:induction false} SameFirst(s: seq<Bytes>, t: seq<Bytes>)
    requires InOrder(s) && InOrder(t) && s != [] && multiset(s) == multiset(t)
    ensures t != [] && s[0] == t[0]
  {
    assert s[0] in multiset(s) && s[0] in multiset(t);
    assert t[0] in multiset(t) && t[0] in multiset(s);
    FirstIsLeast(s, t[0]);
    FirstIsLeast(t, s[0]);
    LeBothWays(s[0], t[0]);
  }

  lemma WithoutFirst(s: seq<Bytes>)
    requires s != []
    ensures multiset(s[1..]) == multiset(s) - multiset{s[0]}
  {
    assert s == [s[0]] + s[1..];
  }

  /** There is one way to put paths in order. */
  lemma {:induction false} OrderIsUnique(s: seq<Bytes>, t: seq<Bytes>)
    requires InOrder(s) && InOrder(t) && multiset(s) == multiset(t)
    ensures s == t
  {
    if s == [] {
      assert |t| == |multiset(t)|;
    } else {
      SameFirst(s, t);
      WithoutFirst(s);
      WithoutFirst(t);
      OrderIsUnique(s[1..], t[1..]);
      assert s == [s[0]] + s[1..] && t == [t[0]] + t[1..];
    }
  }

  /** Sorted listings are equal exactly when the listings hold the same paths equally often. */
  lemma {:induction false} SortedAreEqualIff(a: seq<Bytes>, b: seq<Bytes>)
    ensures SortPaths(a) == SortPaths(b) <==> multiset(a) == multiset(b)
  {
    Sorting(a);
    Sorting(b);
    if multiset(a) == multiset(b) {
      OrderIsUnique(SortPaths(a), SortPaths(b));
    }
  }

  // ---- The report ----

  /** What of `from` is not in `other`, in order. */
  ghost predicate OnlyIn(from: seq<Bytes>, other: seq<Bytes>, paths: seq<Bytes>) {
    InOrder(paths) && forall p :: multiset(paths)[p] == if p in other then 0 else multiset(from)[p]
  }

  lemma {:induction false} OneMoreInOrder(s: seq<Bytes>, p: Bytes)
    requires InOrder(s) && (s != [] ==> Le(s[|s| - 1], p))
    ensures InOrder(s + [p])
  {
    if |s| > 1 {
      OneMoreInOrder(s[1..], p);
      assert (s + [p])[1..] == s[1..] + [p];
    }
  }

  lemma {:induction false} InOrderMeans(s: seq<Bytes>, i: nat, j: nat)
    requires InOrder(s) && i <= j < |s|
    ensures Le(s[i], s[j])
  {
    if i > 0 {
      InOrderMeans(s[1..], i - 1, j - 1);
    } else {
      FirstIsLeast(s, s[j]);
    }
  }

  method Missing(from: seq<Bytes>, other: seq<Bytes>) returns (paths: seq<Bytes>)
    requires InOrder(from)
    ensures OnlyIn(from, other, paths)
  {
    paths := [];
    ghost var last: nat := 0;
    for i := 0 to |from|
      invariant InOrder(paths) && (paths != [] ==> last < i && paths[|paths| - 1] == from[last])
      invariant forall p :: multiset(paths)[p] == if p in other then 0 else multiset(from[..i])[p]
    {
      assert from[..i + 1] == from[..i] + [from[i]];
      if from[i] !in other {
        if paths != [] {
          InOrderMeans(from, last, i);
        }
        OneMoreInOrder(paths, from[i]);
        paths, last := paths + [from[i]], i;
      }
    }
    assert from[..|from|] == from;
  }

  lemma OnlyInSorted(from: seq<Bytes>, sorted: seq<Bytes>, other: seq<Bytes>, others: seq<Bytes>, paths: seq<Bytes>)
    requires multiset(sorted) == multiset(from) && multiset(others) == multiset(other) && OnlyIn(sorted, others, paths)
    ensures OnlyIn(from, other, paths)
  {
    forall p ensures p in other <==> p in others {
      assert p in other <==> p in multiset(other);
      assert p in others <==> p in multiset(others);
    }
  }

  /** Compares the index's answer with a fresh walk, and prints what either lists alone. */
  method ReportDiff(cached: seq<Bytes>, walked: seq<Bytes>) returns (differs: bool, gone: seq<Bytes>, found: seq<Bytes>)
    ensures differs <==> multiset(cached) != multiset(walked)
    ensures OnlyIn(cached, walked, gone) && OnlyIn(walked, cached, found)
  {
    var a, b := SortPaths(cached), SortPaths(walked);
    Sorting(cached);
    Sorting(walked);
    SortedAreEqualIff(cached, walked);
    gone, found := [], [];
    if a == b {
      NothingAlone(cached, walked);
      NothingAlone(walked, cached);
      return false, [], [];
    }
    differs := true;
    gone := Missing(a, b);
    found := Missing(b, a);
    OnlyInSorted(cached, a, walked, b, gone);
    OnlyInSorted(walked, b, cached, a, found);
  }

  lemma NothingAlone(a: seq<Bytes>, b: seq<Bytes>)
    requires multiset(a) == multiset(b)
    ensures OnlyIn(a, b, [])
  {
    forall p ensures p in b || multiset(a)[p] == 0 {
      assert p in b <==> p in multiset(b);
    }
  }

  /** Listings that name no path twice differ exactly when the report names some path. */
  lemma DifferencesAreAccountedFor(cached: seq<Bytes>, walked: seq<Bytes>, gone: seq<Bytes>, found: seq<Bytes>)
    requires OnlyIn(cached, walked, gone) && OnlyIn(walked, cached, found)
    requires forall p :: multiset(cached)[p] <= 1 && multiset(walked)[p] <= 1
    ensures multiset(cached) == multiset(walked) <==> gone == [] && found == []
  {
  }
}
