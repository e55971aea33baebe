/** Turning a walk's records into an index: sort, drop repeats, hang every entry off its parent. */
module IndexBuild {
  import opened Bytes
  import opened Paths
  import opened Walk
  import opened IndexFormat

  // ---- Sorting and dropping repeats ----

  predicate Sorted(s: seq<Record>) {
    |s| <= 1 || (Le(s[0].rel, s[1].rel) && Sorted(s[1..]))
  }

  predicate Strict(s: seq<Record>) {
    |s| <= 1 || (Lt(s[0].rel, s[1].rel) && Strict(s[1..]))
  }

  function Insert(r: Record, s: seq<Record>): seq<Record> {
    if s == [] then [r]
    else if Lt(s[0].rel, r.rel) then [s[0]] + Insert(r, s[1..])
    else [r] + s
  }

  function SortByPath(s: seq<Record>): seq<Record> {
    if s == [] then [] else Insert(s[0], SortByPath(s[1..]))
  }

  /** Keeps the first of every run of equal paths. */
  function Dedup(s: seq<Record>): seq<Record> {
    if s == [] then []
    else
      var rest := Dedup(s[1..]);
      if rest != [] && rest[0].rel == s[0].rel then [s[0]] + rest[1..] else [s[0]] + rest
  }

  lemma {:induction false} InsertKeeps(r: Record, s: seq<Record>)
    ensures multiset(Insert(r, s)) == multiset(s) + multiset{r}
  {
    if s != [] {
      InsertKeeps(r, s[1..]);
      assert s == [s[0]] + s[1..];
    }
  }

  lemma {:induction false} InsertSorts(r: Record, s: seq<Record>)
    requires Sorted(s)
    ensures Sorted(Insert(r, s))
  {
    if s != [] {
      LtTotal(s[0].rel, r.rel);
      if Lt(s[0].rel, r.rel) {
        InsertSorts(r, s[1..]);
        var t := Insert(r, s[1..]);
        assert t[0] == r || t[0] == s[1];
        assert ([s[0]] + t)[1..] == t;
      } else {
        assert ([r] + s)[1..] == s;
      }
    }
  }

  lemma {:induction false} SortingKeeps(s: seq<Record>)
    ensures multiset(SortByPath(s)) == multiset(s)
  {
    if s != [] {
      SortingKeeps(s[1..]);
      InsertKeeps(s[0], SortByPath(s[1..]));
      assert s == [s[0]] + s[1..];
    }
  }

  lemma {:induction false} Sorting(s: seq<Record>)
    ensures Sorted(SortByPath(s))
  {
    if s != [] {
      Sorting(s[1..]);
      InsertSorts(s[0], SortByPath(s[1..]));
    }
  }

  /** Dropping repeats keeps one record of every path, in order. */
  lemma {:induction false} Deduping(s: seq<Record>)
    requires Sorted(s)
    ensures Strict(Dedup(s)) && (forall x :: x in Dedup(s) ==> x in s)
    ensures s != [] ==> Dedup(s) != [] && Dedup(s)[0] == s[0]
  {
    if s != [] {
      Deduping(s[1..]);
      var rest := Dedup(s[1..]);
      var tail := if rest != [] && rest[0].rel == s[0].rel then rest[1..] else rest;
      assert Strict(tail) && ([s[0]] + tail)[1..] == tail;
      assert tail != [] ==> Lt(s[0].rel, tail[0].rel);
      assert forall x :: x in tail ==> x in rest;
      assert Dedup(s) == [s[0]] + tail;
    }
  }

  lemma {:induction false} DedupKeepsPaths(s: seq<Record>, path: Bytes)
    ensures (exists x :: x in s && x.rel == path) <==> (exists y :: y in Dedup(s) && y.rel == path)
  {
    if s != [] {
      DedupKeepsPaths(s[1..], path);
      var rest := Dedup(s[1..]);
      assert forall x :: x in s <==> x == s[0] || x in s[1..];
      assert forall x :: x in rest <==> rest != [] && (x == rest[0] || x in rest[1..]);
    }
  }

  function Canonical(records: seq<Record>): seq<Record> {
    Dedup(SortByPath(records))
  }

  ghost predicate HasPath(records: seq<Record>, path: Bytes) {
    exists r :: r in records && r.rel == path
  }

  lemma CanonicalPaths(records: seq<Record>)
    ensures Strict(Canonical(records))
    ensures forall r :: r in Canonical(records) ==> r in records
    ensures forall path :: HasPath(Canonical(records), path) <==> HasPath(records, path)
  {
    var s := SortByPath(records);
    Sorting(records);
    SortingKeeps(records);
    Deduping(s);
    assert forall r :: r in s <==> r in multiset(s);
    forall path ensures HasPath(Canonical(records), path) <==> HasPath(records, path) {
      DedupKeepsPaths(s, path);
    }
  }

  // ---- Order by position ----

  lemma {:induction false} StrictAt(s: seq<Record>, i: nat, j: nat)
    requires Strict(s) && i < j < |s|
    ensures Lt(s[i].rel, s[j].rel)
  {
    if i > 0 {
      StrictAt(s[1..], i - 1, j - 1);
    } else if j > 1 {
      StrictAt(s[1..], 0, j - 1);
      LtTransitive(s[0].rel, s[1].rel, s[j].rel);
    }
  }

  lemma {:induction false} PathsAreDistinct(s: seq<Record>, i: nat, j: nat)
    requires Strict(s) && i < |s| && j < |s| && s[i].rel == s[j].rel
    ensures i == j
  {
    LtIrreflexive(s[i].rel);
    if i < j {
      StrictAt(s, i, j);
    } else if j < i {
      StrictAt(s, j, i);
    }
  }

  lemma {:induction false} OrderIsPosition(s: seq<Record>, i: nat, j: nat)
    requires Strict(s) && i < |s| && j < |s| && Lt(s[i].rel, s[j].rel)
    ensures i < j
  {
    LtIrreflexive(s[i].rel);
    if j < i {
      StrictAt(s, j, i);
      LtTransitive(s[i].rel, s[j].rel, s[i].rel);
    }
  }

  /** Where a path is among records in order, if it is there. */
  method BinarySearch(s: seq<Record>, path: Bytes) returns (at: Option<nat>)
    requires Strict(s)
    ensures at.Some? ==> at.value < |s| && s[at.value].rel == path
    ensures at.None? ==> !HasPath(s, path)
  {
    var lo, hi := 0, |s|;
    while lo < hi
      invariant 0 <= lo <= hi <= |s|
      invariant forall k :: 0 <= k < lo ==> Lt(s[k].rel, path)
      invariant forall k :: hi <= k < |s| ==> Lt(path, s[k].rel)
    {
      var mid := (lo + hi) / 2;
      if s[mid].rel == path {
        return Some(mid);
      }
      if Lt(s[mid].rel, path) {
        forall k | 0 <= k <= mid ensures Lt(s[k].rel, path) {
          BeforeIt(s, k, mid, path);
        }
        lo := mid + 1;
      } else {
        LtTotal(s[mid].rel, path);
        forall k | mid <= k < |s| ensures Lt(path, s[k].rel) {
          AfterIt(s, mid, k, path);
        }
        hi := mid;
      }
    }
    LtIrreflexive(path);
    at := None;
  }

  lemma {:induction false} BeforeIt(s: seq<Record>, k: nat, mid: nat, path: Bytes)
    requires Strict(s) && k <= mid < |s| && Lt(s[mid].rel, path)
    ensures Lt(s[k].rel, path)
  {
    if k < mid {
      StrictAt(s, k, mid);
      LtTransitive(s[k].rel, s[mid].rel, path);
    }
  }

  lemma {:induction false} AfterIt(s: seq<Record>, mid: nat, k: nat, path: Bytes)
    requires Strict(s) && mid <= k < |s| && Lt(path, s[mid].rel)
    ensures Lt(path, s[k].rel)
  {
    if mid < k {
      StrictAt(s, mid, k);
      LtTransitive(path, s[mid].rel, s[k].rel);
    }
  }

  // ---- Linking ----

  /** The indices in 1..n that satisfy `p`, in order. */
  function Indices(p: nat -> bool, n: nat): seq<nat> {
    if n <= 1 then [] else if p(n - 1) then Indices(p, n - 1) + [n - 1] else Indices(p, n - 1)
  }

  lemma {:induction false} IndicesInOrder(p: nat -> bool, n: nat)
    ensures forall c :: c in Indices(p, n) <==> 1 <= c < n && p(c)
    ensures Distinct(Indices(p, n)) && (|Indices(p, n)| < n || n == 0)
  {
    if n > 1 {
      IndicesInOrder(p, n - 1);
    }
  }

  /** The entries before `n` whose path has `path` as its parent. */
  function ChildrenOf(s: seq<Record>, path: Bytes, n: nat): seq<nat> {
    Indices((c: nat) => c < |s| && ParentOf(s[c].rel) == path, n)
  }

  /** The entries once those before `n` have been linked to their parents. */
  function LinkedTo(s: seq<Record>, n: nat): (es: seq<IndexEntry>)
    requires n <= |s|
    ensures |es| == |s|
  {
    seq(|s|, a requires 0 <= a < |s| => IndexEntry(s[a].rel, s[a].mtime, ChildrenOf(s, s[a].rel, n)))
  }

  function Linked(s: seq<Record>): seq<IndexEntry> {
    LinkedTo(s, |s|)
  }

  ghost predicate ParentsListed(records: seq<Record>) {
    forall r :: r in records && r.rel != [] ==> HasPath(records, ParentOf(r.rel))
  }

  function AddChild(es: seq<IndexEntry>, at: nat, child: nat): (r: seq<IndexEntry>)
    requires at < |es|
    ensures |r| == |es|
  {
    es[at := es[at].(children := es[at].children + [child])]
  }

  /** One link: entry `i` joins its parent's children, and nothing else changes. */
  lemma {:induction false} LinkStep(s: seq<Record>, i: nat, at: nat)
    requires Strict(s) && 1 <= i < |s| && at < |s| && s[at].rel == ParentOf(s[i].rel)
    ensures LinkedTo(s, i + 1) == AddChild(LinkedTo(s, i), at, i)
  {
    var es := LinkedTo(s, i);
    forall a | 0 <= a < |s| && a != at ensures ChildrenOf(s, s[a].rel, i + 1) == ChildrenOf(s, s[a].rel, i) {
      if s[a].rel == s[at].rel {
        PathsAreDistinct(s, a, at);
        assert false;
      }
    }
  }

  lemma {:induction false} RootIsFirst(s: seq<Record>)
    requires Strict(s)
    ensures HasPath(s, []) <==> s != [] && s[0].rel == []
    ensures forall k :: 0 < k < |s| ==> s[k].rel != []
  {
    forall k | 0 < k < |s| ensures s[k].rel != [] {
      StrictAt(s, 0, k);
    }
  }

  /** The root's identity, as `stat` reports it. */
  datatype Identity = Identity(dev: nat, ino: nat)

  method LinkOne(s: seq<Record>, i: nat, entries: seq<IndexEntry>) returns (r: Option<seq<IndexEntry>>)
    requires Strict(s) && 1 <= i < |s| && entries == LinkedTo(s, i)
    ensures r.Some? <==> HasPath(s, ParentOf(s[i].rel)) && i < U32
    ensures r.Some? ==> r.value == LinkedTo(s, i + 1)
  {
    var at := BinarySearch(s, ParentOf(entries[i].rel));
    if at.None? || i >= U32 {
      return None;
    }
    ListedAt(s, at.value);
    LinkStep(s, i, at.value);
    r := Some(AddChild(entries, at.value, i));
  }

  /** Hangs every entry off its parent by binary search; fails on the first one without a parent, or
      whose number does not fit 32 bits. */
  method Link(s: seq<Record>) returns (r: Option<seq<IndexEntry>>)
    requires Strict(s) && s != [] && s[0].rel == []
    ensures r.Some? <==> ParentsListed(s) && |s| <= U32
    ensures r.Some? ==> r.value == Linked(s)
  {
    var entries := LinkedTo(s, 1);
    RootIsFirst(s);
    for i := 1 to |s|
      invariant entries == LinkedTo(s, i) && i <= U32
      invariant forall k :: 1 <= k < i ==> HasPath(s, ParentOf(s[k].rel))
    {
      var more := LinkOne(s, i, entries);
      if more.None? {
        ParentIsListed(s, i);
        return None;
      }
      entries := more.value;
    }
    AllLinked(s);
    r := Some(entries);
  }

  lemma ListedAt(s: seq<Record>, k: nat)
    requires k < |s|
    ensures HasPath(s, s[k].rel)
  {
    assert s[k] in s;
  }

  lemma ParentIsListed(s: seq<Record>, i: nat)
    requires i < |s| && s[i].rel != []
    ensures ParentsListed(s) ==> HasPath(s, ParentOf(s[i].rel))
  {
    assert s[i] in s;
  }

  lemma AllLinked(s: seq<Record>)
    requires s != [] && s[0].rel == [] && forall k :: 1 <= k < |s| ==> HasPath(s, ParentOf(s[k].rel))
    ensures ParentsListed(s)
  {
    forall r | r in s && r.rel != [] ensures HasPath(s, ParentOf(r.rel)) {
      var k :| 0 <= k < |s| && s[k] == r;
    }
  }

  /** What `Build` returns. */
  ghost function Built(root: Bytes, stat: Option<Identity>, exclude: seq<Bytes>, now: int,
                       records: seq<Record>): Option<Index>
  {
    if stat.Some? && HasPath(records, []) && ParentsListed(records) && |Canonical(records)| <= U32
    then Some(Index(root, stat.value.dev, stat.value.ino, now, exclude, Linked(Canonical(records))))
    else None
  }

  /** Assembles the index, or nothing when the root cannot be asked about or was not recorded. */
  method Build(root: Bytes, stat: Option<Identity>, exclude: seq<Bytes>, now: int, records: seq<Record>)
    returns (r: Option<Index>)
    ensures r == Built(root, stat, exclude, now, records)
  {
    CanonicalPaths(records);
    ParentsOfCanonical(records);
    var s := Canonical(records);
    RootIsFirst(s);
    if stat.None? || s == [] || s[0].rel != [] {
      return None;
    }
    var entries := Link(s);
    if entries.None? {
      return None;
    }
    r := Some(Index(root, stat.value.dev, stat.value.ino, now, exclude, entries.value));
  }

  lemma ParentsOfCanonical(records: seq<Record>)
    ensures ParentsListed(Canonical(records)) <==> ParentsListed(records)
  {
    CanonicalPaths(records);
    var s := Canonical(records);
    if ParentsListed(s) {
      forall r | r in records && r.rel != [] ensures HasPath(records, ParentOf(r.rel)) {
        assert HasPath(records, r.rel);
        var x :| x in s && x.rel == r.rel;
        assert HasPath(s, ParentOf(x.rel));
      }
    }
  }

  // ---- The edges form a tree ----

  lemma ChildrenOfParent(s: seq<Record>, path: Bytes)
    ensures forall c :: c in ChildrenOf(s, path, |s|) <==> 1 <= c < |s| && ParentOf(s[c].rel) == path
    ensures Distinct(ChildrenOf(s, path, |s|)) && |ChildrenOf(s, path, |s|)| <= |s|
  {
    IndicesInOrder((c: nat) => c < |s| && ParentOf(s[c].rel) == path, |s|);
  }

  lemma {:induction false} ParentComesFirst(s: seq<Record>, a: nat, c: nat)
    requires Strict(s) && a < |s| && c < |s| && s[c].rel != [] && ParentOf(s[c].rel) == s[a].rel
    ensures a < c
  {
    PrefixIsLess(s[a].rel, s[c].rel);
    OrderIsPosition(s, a, c);
  }

  /** Sorted paths give edges that only point forward and reach every entry but the root once. */
  lemma {:induction false} LinksFormATree(s: seq<Record>)
    requires Strict(s) && s != [] && s[0].rel == [] && ParentsListed(s)
    ensures ForwardEdges(Linked(s)) && ClaimedOnce(Linked(s)) && AllClaimed(Linked(s))
  {
    var es := Linked(s);
    RootIsFirst(s);
    forall i, j | IsEdge(es, i, j)
      ensures i < es[i].children[j] < |es| && ParentOf(s[es[i].children[j]].rel) == s[i].rel
    {
      ChildrenOfParent(s, s[i].rel);
      assert es[i].children[j] in ChildrenOf(s, s[i].rel, |s|);
      ParentComesFirst(s, i, es[i].children[j]);
    }
    forall i, j, i', j' | IsEdge(es, i, j) && IsEdge(es, i', j') && es[i].children[j] == es[i'].children[j']
      ensures i == i' && j == j'
    {
      PathsAreDistinct(s, i, i');
      ChildrenOfParent(s, s[i].rel);
    }
    forall c | 0 < c < |es| ensures IsClaimed(es, c) {
      EveryEntryHasAParent(s, c);
    }
  }

  lemma {:induction false} EveryEntryHasAParent(s: seq<Record>, c: nat)
    requires Strict(s) && s != [] && s[0].rel == [] && ParentsListed(s) && 0 < c < |s|
    ensures IsClaimed(Linked(s), c)
  {
    var es := Linked(s);
    RootIsFirst(s);
    assert s[c] in s;
    var p :| p in s && p.rel == ParentOf(s[c].rel);
    var i :| 0 <= i < |s| && s[i] == p;
    ChildrenOfParent(s, s[i].rel);
    var j :| 0 <= j < |es[i].children| && es[i].children[j] == c;
    assert IsEdge(es, i, j);
  }

  // ---- Records that make a well-formed index ----

  ghost predicate DirectoriesHoldTheRest(records: seq<Record>) {
    forall r, p :: r in records && p in records && r.rel != [] && p.rel == ParentOf(r.rel) ==> p.mtime.Some?
  }

  ghost predicate Encodable(records: seq<Record>) {
    forall r :: r in records ==> |r.rel| < U32 && IsSafeRel(r.rel) && (r.mtime.Some? ==> IsI64(r.mtime.value))
  }

  lemma BuiltIsWellFormed(root: Bytes, stat: Option<Identity>, exclude: seq<Bytes>, now: int, records: seq<Record>)
    requires Built(root, stat, exclude, now, records).Some?
    requires HeadFits(Built(root, stat, exclude, now, records).value)
    requires |exclude| < U32 && (forall k :: 0 <= k < |exclude| ==> |exclude[k]| < U32)
    requires |Canonical(records)| < U32 && Encodable(records) && DirectoriesHoldTheRest(records)
    ensures WellFormed(Built(root, stat, exclude, now, records).value)
  {
    var s := Canonical(records);
    CanonicalPaths(records);
    ParentsOfCanonical(records);
    RootIsFirst(s);
    LinksFormATree(s);
    forall k | 0 <= k < |s| ensures EntryFits(Linked(s)[k]) {
      EntryOfRecordFits(records, k);
    }
  }

  lemma EntryOfRecordFits(records: seq<Record>, k: nat)
    requires Encodable(records) && DirectoriesHoldTheRest(records) && k < |Canonical(records)| < U32
    ensures EntryFits(Linked(Canonical(records))[k])
  {
    var s := Canonical(records);
    CanonicalPaths(records);
    ChildrenOfParent(s, s[k].rel);
    var cs := Linked(s)[k].children;
    assert s[k] in records;
    if cs != [] {
      RootIsFirst(s);
      assert cs[0] in cs;
      assert ParentOf(s[cs[0]].rel) == s[k].rel && s[cs[0]] in records;
    }
  }
}
