/** What a walk lists where search bits are missing: `Seen` is the tree such a walk gets to see, and a walk that
    lost nothing lists exactly what the rules say of that. */
module Sight {
  import opened Bytes
  import opened Paths
  import opened FileTree
  import opened Walk
  import opened Counting
  import opened WalkRules
  import opened ShortWalks
  import opened RootWalk

  /** Without its search bit a directory shows only the entries whose type `readdir` reports, and links from it
      seem to lead nowhere, as anything more would cost a `stat`. */
  predicate Shows(search: bool, e: Entry) {
    search || e.typed
  }

  function SeenEntry(search: bool, e: Entry): Entry
    decreases e
  {
    Entry(e.name, e.typed, if e.node.Link? && !search then Link(Nowhere) else Seen(e.node))
  }

  function Seen(node: Node): (seen: Node)
    ensures seen.Dir? <==> node.Dir?
    decreases node
  {
    match node
    case Dir(mtime, read, search, intact, entries) => Dir(mtime, read, true, intact, SeenEntries(node, |entries|))
    case _ => node
  }

  function SeenEntries(dir: Node, n: nat): (seen: seq<Entry>)
    requires dir.Dir? && n <= |dir.entries|
    ensures |seen| <= n
    decreases dir, 0, n
  {
    if n == 0 then []
    else
      var e := dir.entries[n - 1];
      SeenEntries(dir, n - 1) + if Shows(dir.search, e) then [SeenEntry(dir.search, e)] else []
  }

  /** Where the `k`th entry is seen. */
  lemma {:induction false} SeenAt(dir: Node, n: nat, k: nat) returns (j: nat)
    requires dir.Dir? && k < n <= |dir.entries| && Shows(dir.search, dir.entries[k])
    ensures j < |SeenEntries(dir, n)|
    ensures SeenEntries(dir, n)[j] == SeenEntry(dir.search, dir.entries[k])
    decreases n
  {
    if k == n - 1 {
      j := |SeenEntries(dir, n - 1)|;
    } else {
      j := SeenAt(dir, n - 1, k);
    }
  }

  /** Where the `j`th seen entry comes from. */
  lemma {:induction false} SeenFrom(dir: Node, n: nat, j: nat) returns (k: nat)
    requires dir.Dir? && n <= |dir.entries| && j < |SeenEntries(dir, n)|
    ensures k < n && Shows(dir.search, dir.entries[k])
    ensures SeenEntries(dir, n)[j] == SeenEntry(dir.search, dir.entries[k])
    decreases n
  {
    if j < |SeenEntries(dir, n - 1)| {
      k := SeenFrom(dir, n - 1, j);
    } else {
      k := n - 1;
    }
  }

  lemma {:induction false} SeenNamesAreDistinct(dir: Node, n: nat)
    requires dir.Dir? && DistinctNames(dir.entries) && n <= |dir.entries|
    ensures DistinctNames(SeenEntries(dir, n))
    decreases n
  {
    if n > 0 {
      SeenNamesAreDistinct(dir, n - 1);
      var front := SeenEntries(dir, n - 1);
      forall j | 0 <= j < |front| ensures front[j].name != dir.entries[n - 1].name {
        var k := SeenFrom(dir, n - 1, j);
      }
    }
  }

  /** What is seen is a tree like any other, and can be searched. */
  lemma {:induction false} SeenIsSearchable(node: Node)
    requires WellFormed(node)
    ensures WellFormed(Seen(node)) && Searchable(Seen(node))
    decreases node
  {
    if node.Dir? {
      var n := |node.entries|;
      SeenNamesAreDistinct(node, n);
      forall j | 0 <= j < |Seen(node).entries|
        ensures WellFormed(Seen(node).entries[j].node) && Searchable(Seen(node).entries[j].node)
      {
        var k := SeenFrom(node, n, j);
        SeenIsSearchable(node.entries[k].node);
      }
    }
  }

  /** Seeing keeps whether `.git` is there, where it can be asked about. */
  lemma {:induction false} SeenGit(dir: Node)
    requires dir.Dir? && DistinctNames(dir.entries)
    ensures HasGit(Seen(dir).entries) == IsRepoDir(dir) == IsRepoDir(Seen(dir))
    ensures dir.search ==> HasGit(Seen(dir).entries) == HasGit(dir.entries)
  {
    var n := |dir.entries|;
    var i, seen := IndexOf(dir.entries, DOT_GIT), Seen(dir).entries;
    SeenNamesAreDistinct(dir, n);
    if i < n && Shows(dir.search, dir.entries[i]) {
      var j := SeenAt(dir, n, i);
      IndexOfEntry(seen, j);
    } else if IndexOf(seen, DOT_GIT) < |seen| {
      var k := SeenFrom(dir, n, IndexOf(seen, DOT_GIT));
      IndexOfEntry(dir.entries, k);
    }
  }

  // ---- The walk of what is seen ----

  /** No more is listed; and where nothing was lost the same, the reads too unless some repository's `.git` shows
      only once it is read. */
  predicate IsSeenAs(sum: Sum, seen: Sum, detect: Detect) {
    && sum.repos <= seen.repos && sum.records <= seen.records && sum.excluded <= seen.excluded
    && (!sum.incomplete ==>
        && sum.repos == seen.repos && sum.records == seen.records && sum.excluded == seen.excluded
        && (detect == OpenScan ==> sum.dirsRead == seen.dirsRead)
        && !seen.incomplete)
  }

  lemma SeenAdds(a: Sum, b: Sum, c: Sum, d: Sum, detect: Detect)
    requires IsSeenAs(a, c, detect) && IsSeenAs(b, d, detect)
    ensures IsSeenAs(a.Plus(b), c.Plus(d), detect)
  {
  }

  /** An entry that does not show gives nothing. */
  lemma {:induction false} HiddenAdds(ctx: Ctx, dir: Node, rel: Bytes, e: Entry, a: Sum, c: Sum)
    requires dir.Dir? && e in dir.entries && !Shows(dir.search, e) && IsSeenAs(a, c, ctx.detect)
    ensures IsSeenAs(a.Plus(TotalEntry(ctx, dir, rel, e)), c, ctx.detect)
  {
    var sum := TotalEntry(ctx, dir, rel, e);
    assert sum == Summary(EntryStep(ctx, dir, rel, e, Spare).out) == Summary(EMPTY_OUT);
    assert sum.repos == multiset{} && sum.records == multiset{};
  }

  lemma SeenPrefix(dir: Node, n: nat)
    requires dir.Dir? && 0 < n <= |dir.entries|
    ensures var all, m := Seen(dir).entries, |SeenEntries(dir, n - 1)|;
            if Shows(dir.search, dir.entries[n - 1])
            then |SeenEntries(dir, n)| == m + 1 <= |all| && all[m] == SeenEntry(dir.search, dir.entries[n - 1])
            else |SeenEntries(dir, n)| == m
    ensures |SeenEntries(dir, n - 1)| <= |SeenEntries(dir, n)| <= |Seen(dir).entries|
  {
    SeenGrows(dir, n, |dir.entries|);
  }

  lemma {:induction false} SeenGrows(dir: Node, n: nat, more: nat)
    requires dir.Dir? && n <= more <= |dir.entries|
    ensures SeenEntries(dir, n) <= SeenEntries(dir, more)
    decreases more
  {
    if n < more {
      SeenGrows(dir, n, more - 1);
    }
  }

  ghost predicate EntryIsSeen(ctx: Ctx, dir: Node, rel: Bytes, e: Entry)
    requires dir.Dir? && e in dir.entries && SeenEntry(dir.search, e) in Seen(dir).entries
  {
    IsSeenAs(TotalEntry(ctx, dir, rel, e), TotalEntry(ctx, Seen(dir), rel, SeenEntry(dir.search, e)), ctx.detect)
  }

  /** `e'` in `dir'` is how `e` in `dir` is seen. */
  ghost predicate IsSeenFrom(dir: Node, e: Entry, dir': Node, e': Entry)
    requires dir.Dir? && dir'.Dir?
  {
    && dir'.search && Shows(dir.search, e) && e'.name == e.name && e'.typed == e.typed
    && match e.node
       case Dir(_, read, search, _, entries) =>
         && e'.node.Dir? && e'.node.search && e'.node.read == read
         && (search ==> HasGit(e'.node.entries) == HasGit(entries))
       case Link(target) => e'.node == if dir.search then e.node else Link(Nowhere)
       case File => e'.node == File
  }

  /** An entry that is settled at once is settled alike, or lost. */
  lemma {:induction false} SettledAlike(ctx: Ctx, dir: Node, rel: Bytes, e: Entry, dir': Node, e': Entry)
    requires dir.Dir? && dir'.Dir? && IsSeenFrom(dir, e, dir', e') && !Enters(ctx, dir, rel, e)
    ensures var out := EntryStep(ctx, dir, rel, e, Spare).out;
            out == LOST_OUT || (!Enters(ctx, dir', rel, e') && EntryStep(ctx, dir', rel, e', Spare).out == out)
  {
  }

  /** One that is looked into is looked into, or it is a repository that shows at once. */
  lemma {:induction false} EnteredAlike(ctx: Ctx, dir: Node, rel: Bytes, e: Entry, dir': Node, e': Entry)
    requires dir.Dir? && dir'.Dir? && IsSeenFrom(dir, e, dir', e') && Enters(ctx, dir, rel, e)
    ensures e'.node.Dir?
    ensures Enters(ctx, dir', rel, e') ||
      (ctx.detect == StatFirst && HasGit(e'.node.entries) &&
       EntryStep(ctx, dir', rel, e', Spare).out == EmitOut(JoinRel(rel, e.name)))
  {
  }

  lemma {:induction false} SeenIsSeenFrom(dir: Node, e: Entry)
    requires dir.Dir? && Shows(dir.search, e) && (e.node.Dir? ==> DistinctNames(e.node.entries))
    ensures IsSeenFrom(dir, e, Seen(dir), SeenEntry(dir.search, e))
  {
    if e.node.Dir? {
      SeenGit(e.node);
    }
  }

  lemma {:induction false} SettledIsSeen(ctx: Ctx, dir: Node, rel: Bytes, e: Entry)
    requires dir.Dir? && e in dir.entries && Shows(dir.search, e) && (e.node.Dir? ==> DistinctNames(e.node.entries))
    requires SeenEntry(dir.search, e) in Seen(dir).entries
    requires !Enters(ctx, dir, rel, e)
    ensures EntryIsSeen(ctx, dir, rel, e)
  {
    SeenIsSeenFrom(dir, e);
    SettledAlike(ctx, dir, rel, e, Seen(dir), SeenEntry(dir.search, e));
    if EntryStep(ctx, dir, rel, e, Spare).out == LOST_OUT {
      LostIsSeenAs(TotalEntry(ctx, Seen(dir), rel, SeenEntry(dir.search, e)), ctx.detect);
    }
  }

  lemma LostIsSeenAs(seen: Sum, detect: Detect)
    ensures IsSeenAs(Summary(LOST_OUT), seen, detect)
  {
    var sum := Summary(LOST_OUT);
    assert sum.repos == multiset{} && sum.records == multiset{};
  }

  lemma {:induction false} EnteredIsSeen(ctx: Ctx, dir: Node, rel: Bytes, e: Entry)
    requires dir.Dir? && e in dir.entries && Shows(dir.search, e) && e.node.Dir? && DistinctNames(e.node.entries)
    requires SeenEntry(dir.search, e) in Seen(dir).entries && Enters(ctx, dir, rel, e)
    requires IsSeenAs(Total(ctx, e.node, JoinRel(rel, e.name)), Total(ctx, Seen(e.node), JoinRel(rel, e.name)),
                      ctx.detect)
    ensures EntryIsSeen(ctx, dir, rel, e)
  {
    var path, e' := JoinRel(rel, e.name), SeenEntry(dir.search, e);
    SeenIsSeenFrom(dir, e);
    EnteredAlike(ctx, dir, rel, e, Seen(dir), e');
    assert TotalEntry(ctx, dir, rel, e) == Total(ctx, e.node, path);
    if Enters(ctx, Seen(dir), rel, e') {
      assert TotalEntry(ctx, Seen(dir), rel, e') == Total(ctx, Seen(e.node), path);
    } else {
      ReadRepositoryIsSeen(ctx, e.node, path);
      assert TotalEntry(ctx, Seen(dir), rel, e') == Summary(EmitOut(path));
    }
  }

  lemma {:induction false} ReadRepositoryIsSeen(ctx: Ctx, dir: Node, path: Bytes)
    requires dir.Dir? && DistinctNames(dir.entries) && HasGit(Seen(dir).entries) && ctx.detect == StatFirst
    ensures IsSeenAs(Total(ctx, dir, path), Summary(EmitOut(path)), ctx.detect)
  {
    SeenGit(dir);
    if dir.intact {
      assert Total(ctx, dir, path) == Summary(EmitOut(path).(dirsRead := 1));
    } else {
      LostIsSeenAs(Summary(EmitOut(path)), ctx.detect);
    }
  }

  lemma {:induction false} EntriesAreSeen(ctx: Ctx, dir: Node, rel: Bytes, n: nat)
    requires dir.Dir? && WellFormed(dir) && n <= |dir.entries|
    ensures AreSeen(ctx, dir, rel, n, |SeenEntries(dir, n)|)
    decreases dir, n
  {
    if n == 0 {
      NoneAreSeen(ctx, dir, rel, n);
    } else {
      var k := n - 1;
      NextTotal(ctx, dir, rel, k);
      EntriesAreSeen(ctx, dir, rel, k);
      if Shows(dir.search, dir.entries[k]) {
        SeenPrefix(dir, n);
        OneEntryIsSeen(ctx, dir, rel, dir.entries[k]);
      }
      NextIsSeen(ctx, dir, rel, k);
    }
  }

  lemma {:induction false} NoneAreSeen(ctx: Ctx, dir: Node, rel: Bytes, n: nat)
    requires dir.Dir? && n == 0
    ensures AreSeen(ctx, dir, rel, n, |SeenEntries(dir, n)|)
  {
    var out := DirOut(rel, dir.mtime);
    assert TotalEntries(ctx, dir, rel, n) == Summary(out) == TotalEntries(ctx, Seen(dir), rel, n);
  }

  lemma {:induction false} NextIsSeen(ctx: Ctx, dir: Node, rel: Bytes, k: nat)
    requires dir.Dir? && k < |dir.entries| && AreSeen(ctx, dir, rel, k, |SeenEntries(dir, k)|)
    requires var e := dir.entries[k];
             Shows(dir.search, e) ==> SeenEntry(dir.search, e) in Seen(dir).entries && EntryIsSeen(ctx, dir, rel, e)
    ensures AreSeen(ctx, dir, rel, k + 1, |SeenEntries(dir, k + 1)|)
  {
    SeenPrefix(dir, k + 1);
    if Shows(dir.search, dir.entries[k]) {
      NextShows(ctx, dir, rel, k, |SeenEntries(dir, k)|);
    } else {
      NextIsHidden(ctx, dir, rel, k, |SeenEntries(dir, k)|);
    }
  }

  ghost predicate AreSeen(ctx: Ctx, dir: Node, rel: Bytes, n: nat, m: nat)
    requires dir.Dir? && n <= |dir.entries|
  {
    && m <= |Seen(dir).entries|
    && IsSeenAs(TotalEntries(ctx, dir, rel, n), TotalEntries(ctx, Seen(dir), rel, m), ctx.detect)
  }

  lemma NextTotal(ctx: Ctx, dir: Node, rel: Bytes, k: nat)
    requires dir.Dir? && k < |dir.entries|
    ensures TotalEntries(ctx, dir, rel, k + 1) ==
            TotalEntries(ctx, dir, rel, k).Plus(TotalEntry(ctx, dir, rel, dir.entries[k]))
  {
  }

  lemma {:induction false} NextIsHidden(ctx: Ctx, dir: Node, rel: Bytes, k: nat, m: nat)
    requires dir.Dir? && k < |dir.entries| && AreSeen(ctx, dir, rel, k, m) && !Shows(dir.search, dir.entries[k])
    ensures AreSeen(ctx, dir, rel, k + 1, m)
  {
    NextTotal(ctx, dir, rel, k);
    HiddenAdds(ctx, dir, rel, dir.entries[k], TotalEntries(ctx, dir, rel, k), TotalEntries(ctx, Seen(dir), rel, m));
  }

  lemma {:induction false} NextShows(ctx: Ctx, dir: Node, rel: Bytes, k: nat, m: nat)
    requires dir.Dir? && k < |dir.entries| && AreSeen(ctx, dir, rel, k, m)
    requires m < |Seen(dir).entries| && Seen(dir).entries[m] == SeenEntry(dir.search, dir.entries[k])
    requires EntryIsSeen(ctx, dir, rel, dir.entries[k])
    ensures AreSeen(ctx, dir, rel, k + 1, m + 1)
  {
    var e := dir.entries[k];
    NextTotal(ctx, dir, rel, k);
    NextTotal(ctx, Seen(dir), rel, m);
    SeenAdds(TotalEntries(ctx, dir, rel, k), TotalEntry(ctx, dir, rel, e), TotalEntries(ctx, Seen(dir), rel, m),
             TotalEntry(ctx, Seen(dir), rel, SeenEntry(dir.search, e)), ctx.detect);
  }

  lemma {:induction false} OneEntryIsSeen(ctx: Ctx, dir: Node, rel: Bytes, e: Entry)
    requires dir.Dir? && WellFormed(dir) && e in dir.entries
    requires SeenEntry(dir.search, e) in Seen(dir).entries && Shows(dir.search, e)
    ensures EntryIsSeen(ctx, dir, rel, e)
    decreases dir, 0
  {
    if Enters(ctx, dir, rel, e) {
      SubtreeIsSeen(ctx, e.node, JoinRel(rel, e.name));
      EnteredIsSeen(ctx, dir, rel, e);
    } else {
      SettledIsSeen(ctx, dir, rel, e);
    }
  }

  /** Whatever the permission bits, a walk lists no more than the walk of what is seen, and if it lost nothing it
      lists that. */
  lemma {:induction false} SubtreeIsSeen(ctx: Ctx, dir: Node, rel: Bytes)
    requires dir.Dir? && WellFormed(dir)
    ensures IsSeenAs(Total(ctx, dir, rel), Total(ctx, Seen(dir), rel), ctx.detect)
    decreases dir, |dir.entries| + 1
  {
    SeenGit(dir);
    if !dir.intact {
      LostIsSeenAs(Total(ctx, Seen(dir), rel), ctx.detect);
    } else if !IsRepoDir(dir) {
      EntriesAreSeen(ctx, dir, rel, |dir.entries|);
    }
  }

  function TimesPrinted(ctx: Ctx, root: Node, p: Bytes): nat
    requires root.Dir?
  {
    if p != [] && RoleOf(ctx, [], root, if p == DOT_PATH then [] else p) == Repository then 1 else 0
  }

  // ---- Never more than the rules ----

  lemma {:induction false} SumsBound(d: Entry -> nat, due: Entry -> nat, entries: seq<Entry>, n: nat)
    requires n <= |entries| && forall i :: 0 <= i < |entries| ==> d(entries[i]) <= due(entries[i])
    ensures SumOver(d, entries, n) <= SumOver(due, entries, n)
  {
    if n > 0 {
      SumsBound(d, due, entries, n - 1);
    }
  }

  lemma {:induction false} EntryIsBounded(ctx: Ctx, dir: Node, rel: Bytes, i: nat, r: Record)
    requires dir.Dir? && WellFormed(dir) && Searchable(dir) && !HasGit(dir.entries) && i < |dir.entries|
    ensures TotalEntry(ctx, dir, rel, dir.entries[i]).records[r] <= EntryDue(ctx, dir, rel, dir.entries[i], r)
    decreases dir, 0
  {
    var e := dir.entries[i];
    if Enters(ctx, dir, rel, e) {
      TotalIsBounded(ctx, e.node, JoinRel(rel, e.name), r);
      EnteredRole(ctx, dir, rel, i, r);
    } else if EntryStep(ctx, dir, rel, e, Spare).out.incomplete {
      assert EntryStep(ctx, dir, rel, e, Spare).out == LOST_OUT;
    } else {
      SettledIsRight(ctx, dir, rel, i, r);
    }
  }

  /** Whatever is lost on the way, no record appears that the rules do not owe, and none twice. */
  lemma {:induction false} TotalIsBounded(ctx: Ctx, dir: Node, rel: Bytes, r: Record)
    requires dir.Dir? && WellFormed(dir) && Searchable(dir)
    ensures Total(ctx, dir, rel).records[r] <= Owed(ctx, rel, dir, r)
    decreases dir, |dir.entries| + 1
  {
    assert IsRepoDir(dir) == HasGit(dir.entries);
    if !dir.intact {
      assert Summary(LOST_OUT).records == multiset{};
    } else if HasGit(dir.entries) {
      RepositoryOwesItself(ctx, dir, rel, r);
    } else {
      forall i | 0 <= i < |dir.entries|
        ensures TotalEntry(ctx, dir, rel, dir.entries[i]).records[r] <= EntryDue(ctx, dir, rel, dir.entries[i], r)
      {
        EntryIsBounded(ctx, dir, rel, i, r);
      }
      EntriesAreBounded(ctx, dir, rel, r);
    }
  }

  lemma {:induction false} EntriesAreBounded(ctx: Ctx, dir: Node, rel: Bytes, r: Record)
    requires dir.Dir? && WellFormed(dir) && !HasGit(dir.entries)
    requires forall i :: 0 <= i < |dir.entries| ==>
      TotalEntry(ctx, dir, rel, dir.entries[i]).records[r] <= EntryDue(ctx, dir, rel, dir.entries[i], r)
    ensures TotalEntries(ctx, dir, rel, |dir.entries|).records[r] <= Owed(ctx, rel, dir, r)
  {
    var d := (e: Entry) => if e in dir.entries then TotalEntry(ctx, dir, rel, e).records[r] else 0;
    var due := (e: Entry) => EntryDue(ctx, dir, rel, e, r);
    RecordsOfEntries(ctx, dir, rel, r, d);
    SumsBound(d, due, dir.entries, |dir.entries|);
    DuesSumUp(ctx, dir, rel, r, due);
  }

  /** So a walk records, and prints, at most what the rules say of what is seen, and exactly that if it lost
      nothing. */
  lemma {:induction false} WalkListsWhatIsSeen(ctx: Ctx, root: Node)
    requires root.Dir? && WellFormed(root)
    ensures var total := Total(ctx, root, []);
            && (forall r :: total.records[r] <= Owed(ctx, [], Seen(root), r))
            && (forall p :: total.repos[p] <= TimesPrinted(ctx, Seen(root), p))
            && (!total.incomplete ==>
                (forall r :: total.records[r] == Owed(ctx, [], Seen(root), r)) &&
                forall p :: total.repos[p] == TimesPrinted(ctx, Seen(root), p))
  {
    SubtreeIsSeen(ctx, root, []);
    SeenIsSearchable(root);
    SearchableTotalIs(ctx, Seen(root));
  }

  lemma {:induction false} SearchableTotalIs(ctx: Ctx, root: Node)
    requires root.Dir? && WellFormed(root) && Searchable(root)
    ensures var total := Total(ctx, root, []);
            && (forall r :: total.records[r] <= Owed(ctx, [], root, r))
            && (forall p :: total.repos[p] <= TimesPrinted(ctx, root, p))
            && (!total.incomplete ==>
                (forall r :: total.records[r] == Owed(ctx, [], root, r)) &&
                forall p :: total.repos[p] == TimesPrinted(ctx, root, p))
  {
    var total := Total(ctx, root, []);
    forall r ensures total.records[r] <= Owed(ctx, [], root, r)
      ensures !total.incomplete ==> total.records[r] == Owed(ctx, [], root, r)
    {
      TotalIsBounded(ctx, root, [], r);
      if !total.incomplete {
        SubtreeMatchesRules(ctx, root, [], r);
      }
    }
    PrintsItsRecords(ctx, root, total);
  }

  lemma {:induction false} PrintsItsRecords(ctx: Ctx, root: Node, total: Sum)
    requires root.Dir? && WellFormed(root) && total == Total(ctx, root, [])
    requires forall r :: total.records[r] <= Owed(ctx, [], root, r)
    requires !total.incomplete ==> forall r :: total.records[r] == Owed(ctx, [], root, r)
    ensures forall p :: total.repos[p] <= TimesPrinted(ctx, root, p)
    ensures !total.incomplete ==> forall p :: total.repos[p] == TimesPrinted(ctx, root, p)
  {
    WalksListTheirRecords(ctx, root, []);
    DotHasNoRole(ctx, root);
    forall p ensures total.repos[p] <= TimesPrinted(ctx, root, p)
      ensures !total.incomplete ==> total.repos[p] == TimesPrinted(ctx, root, p)
    {
      var own, dot := Record(if p == DOT_PATH then [] else p, None), Record(DOT_PATH, None);
      assert total.records[own] <= Owed(ctx, [], root, own) && total.records[dot] <= Owed(ctx, [], root, dot);
    }
  }

  /** So does every walk of a root that is opened and read, whatever the bits, the descriptors and the schedule. */
  lemma {:induction false} AnyWalkListsWhatIsSeen(ctx: Ctx, root: Root, walk: Out, lost: set<Bytes>, exhausted: bool)
    requires root.tree.Dir? && WellFormed(root.tree) && HonestWalk(ctx, root, walk, lost, exhausted)
    requires IsWalkable(root) && !IsNamed(root.name)
    ensures forall r :: multiset(walk.records)[r] <= Owed(ctx, [], Seen(root.tree), r)
    ensures forall p :: multiset(walk.repos)[p] <= TimesPrinted(ctx, Seen(root.tree), p)
    ensures !walk.incomplete ==>
      (forall r :: multiset(walk.records)[r] == Owed(ctx, [], Seen(root.tree), r)) &&
      forall p :: multiset(walk.repos)[p] == TimesPrinted(ctx, Seen(root.tree), p)
  {
    WalkListsWhatIsSeen(ctx, root.tree);
    if !root.tree.read {
      assert multiset(walk.records) == multiset{} && multiset(walk.repos) == multiset{};
    } else {
      var sum := Summary(walk);
      assert AtMost(sum, Total(ctx, root.tree, []));
    }
  }

  /** Where everything can be searched, all is seen. */
  lemma {:induction false} SearchableIsSeen(node: Node)
    requires Searchable(node)
    ensures Seen(node) == node
    decreases node
  {
    if node.Dir? {
      AllIsSeen(node, |node.entries|);
      assert node.entries[..|node.entries|] == node.entries;
    }
  }

  lemma {:induction false} AllIsSeen(dir: Node, n: nat)
    requires dir.Dir? && Searchable(dir) && n <= |dir.entries|
    ensures SeenEntries(dir, n) == dir.entries[..n]
    decreases dir, 0, n
  {
    if n > 0 {
      AllIsSeen(dir, n - 1);
      SearchableIsSeen(dir.entries[n - 1].node);
      assert dir.entries[..n] == dir.entries[..n - 1] + [dir.entries[n - 1]];
    }
  }
}
