/** What a walk's two counters count: the paths it read as directories, and the paths it pruned. */
module WalkCounts {
  import opened Bytes
  import opened Paths
  import opened FileTree
  import opened Walk
  import opened Counting
  import opened WalkRules
  import opened Entered

  /** A directory the rules look into, or a repository the walk has to read to know it for one: the root, or under
      open-scan one that is not named `*.git` and can be opened. */
  predicate IsRead(ctx: Ctx, root: Node, p: Bytes)
    requires root.Dir?
  {
    match RoleOf(ctx, [], root, p)
    case Nothing => false
    case Descended(_) => true
    case Repository => p == [] || (ctx.detect == OpenScan && !EndsWith(Basename(p), DOT_GIT) && IsOpenable(root, p))
  }

  predicate IsOpenable(root: Node, p: Bytes) {
    match Resolve(root, p)
    case Found(Dir(_, read, _, _, _)) => read
    case _ => false
  }

  /** A directory or link that an exclusion keeps from being looked at. */
  predicate IsPruned(ctx: Ctx, root: Node, p: Bytes)
    requires root.Dir?
  {
    && p != [] && p == JoinRel(ParentOf(p), Basename(p)) && IsExcluded(ctx, p)
    && match RoleOf(ctx, [], root, ParentOf(p))
       case Descended(dir) =>
         var i := IndexOf(dir.entries, Basename(p));
         i < |dir.entries| && !dir.entries[i].node.File?
       case _ => false
  }

  predicate IsCounted(ctx: Ctx, root: Node, q: Tally, p: Bytes)
    requires root.Dir?
  {
    match q
    case OfReads => IsRead(ctx, root, p)
    case OfPrunes => IsPruned(ctx, root, p)
    case _ => false
  }

  /** The counted paths at and below `rel`. */
  ghost predicate AreCounted(ctx: Ctx, root: Node, q: Tally, rel: Bytes, paths: set<Bytes>)
    requires root.Dir?
  {
    forall p :: p in paths <==> Below(rel, p) && IsCounted(ctx, root, q, p)
  }

  ghost predicate IsReached(ctx: Ctx, root: Node, rel: Bytes, dir: Node) {
    && root.Dir? && dir.Dir? && WellFormed(dir) && Searchable(dir) && !HasGit(dir.entries)
    && RoleOf(ctx, [], root, rel) == Descended(dir) && Resolve(root, rel) == Found(dir)
  }

  // ---- One entry ----

  /** Nothing is counted inside what is not looked into. */
  lemma {:induction false} NothingCountedInside(ctx: Ctx, root: Node, q: Tally, path: Bytes, p: Bytes)
    requires root.Dir? && !RoleOf(ctx, [], root, path).Descended? && Below(path, p) && p != path
    ensures !IsCounted(ctx, root, q, p)
  {
    EverythingIsBelowTheRoot(path);
    BelowIsLonger(path, p);
    NothingInside(ctx, [], root, path, p);
    if ParentOf(p) != path {
      NothingInside(ctx, [], root, path, ParentOf(p));
    }
  }

  lemma {:induction false} ChildIs(ctx: Ctx, root: Node, rel: Bytes, dir: Node, k: nat)
    requires IsReached(ctx, root, rel, dir) && k < |dir.entries|
    ensures var e, path := dir.entries[k], JoinRel(rel, dir.entries[k].name);
            && path != [] && ParentOf(path) == rel && Basename(path) == e.name && IndexOf(dir.entries, e.name) == k
            && RoleOf(ctx, [], root, path) == ChildRole(ctx, dir, path) && Resolve(root, path) == Found(e.node)
            && WellFormed(e.node) && Searchable(e.node)
  {
    JoinSplits(rel, dir.entries[k].name);
    IndexOfEntry(dir.entries, k);
  }

  /** An entry's own counts, when it is not looked into. */
  lemma {:induction false} SettledPrunes(ctx: Ctx, dir: Node, rel: Bytes, e: Entry)
    requires dir.Dir? && dir.search && e in dir.entries && (e.node.Dir? ==> HasGit(e.node.entries) == IsRepoDir(e.node))
    requires Enters(ctx, dir, rel, e) ==> HasGit(e.node.entries) && e.node.intact
    ensures TotalEntry(ctx, dir, rel, e).excluded ==
            if IsExcluded(ctx, JoinRel(rel, e.name)) && !e.node.File? then 1 else 0
  {
    if Enters(ctx, dir, rel, e) {
      assert TotalEntry(ctx, dir, rel, e) == Summary(EmitOut(JoinRel(rel, e.name)).(dirsRead := 1));
    } else {
      assert TotalEntry(ctx, dir, rel, e) == Summary(EntryStep(ctx, dir, rel, e, Spare).out);
    }
  }

  lemma {:induction false} SettledReads(ctx: Ctx, dir: Node, rel: Bytes, e: Entry)
    requires dir.Dir? && e in dir.entries && (e.node.Dir? ==> HasGit(e.node.entries) == IsRepoDir(e.node))
    requires Enters(ctx, dir, rel, e) ==> HasGit(e.node.entries) && e.node.intact
    ensures TotalEntry(ctx, dir, rel, e).dirsRead == if Enters(ctx, dir, rel, e) then 1 else 0
  {
    if Enters(ctx, dir, rel, e) {
      assert TotalEntry(ctx, dir, rel, e) == Summary(EmitOut(JoinRel(rel, e.name)).(dirsRead := 1));
    } else {
      assert TotalEntry(ctx, dir, rel, e) == Summary(EntryStep(ctx, dir, rel, e, Spare).out);
    }
  }

  /** An entry that is not looked into is counted itself or not at all. */
  lemma {:induction false} SettledCount(ctx: Ctx, root: Node, q: Tally, rel: Bytes, dir: Node, k: nat)
    requires IsReached(ctx, root, rel, dir) && k < |dir.entries| && (q.OfReads? || q.OfPrunes?)
    requires !TotalEntry(ctx, dir, rel, dir.entries[k]).incomplete
    requires !ChildRole(ctx, dir, JoinRel(rel, dir.entries[k].name)).Descended?
    ensures Count(TotalEntry(ctx, dir, rel, dir.entries[k]), q) ==
            if IsCounted(ctx, root, q, JoinRel(rel, dir.entries[k].name)) then 1 else 0
  {
    var e := dir.entries[k];
    ChildIs(ctx, root, rel, dir, k);
    SettledIsARepository(ctx, root, rel, dir, k);
    SettledPrunes(ctx, dir, rel, e);
    SettledReads(ctx, dir, rel, e);
  }

  /** What is entered all the same is a repository to be read. */
  lemma {:induction false} SettledIsARepository(ctx: Ctx, root: Node, rel: Bytes, dir: Node, k: nat)
    requires IsReached(ctx, root, rel, dir) && k < |dir.entries|
    requires !TotalEntry(ctx, dir, rel, dir.entries[k]).incomplete
    requires !ChildRole(ctx, dir, JoinRel(rel, dir.entries[k].name)).Descended?
    ensures var e, path := dir.entries[k], JoinRel(rel, dir.entries[k].name);
            && (e.node.Dir? ==> HasGit(e.node.entries) == IsRepoDir(e.node))
            && (Enters(ctx, dir, rel, e) ==> HasGit(e.node.entries) && e.node.intact)
            && (Enters(ctx, dir, rel, e) <==> IsRead(ctx, root, path))
            && (IsPruned(ctx, root, path) <==> IsExcluded(ctx, path) && !e.node.File?)
  {
    var e := dir.entries[k];
    ChildIs(ctx, root, rel, dir, k);
    JoinSplits(rel, e.name);
    if Enters(ctx, dir, rel, e) {
      assert TotalEntry(ctx, dir, rel, e) == Total(ctx, e.node, JoinRel(rel, e.name));
    }
  }

  lemma {:induction false} DescendedIsEntered(ctx: Ctx, dir: Node, rel: Bytes, e: Entry)
    requires dir.Dir? && dir.search && e in dir.entries && !TotalEntry(ctx, dir, rel, e).incomplete
    requires e.node.Dir? && !IsExcluded(ctx, JoinRel(rel, e.name)) && !EndsWith(e.name, DOT_GIT) &&
             !HasGit(e.node.entries)
    ensures TotalEntry(ctx, dir, rel, e) == Total(ctx, e.node, JoinRel(rel, e.name))
  {
    assert Decide(ctx, dir, rel, e) == Queue;
    assert Enters(ctx, dir, rel, e);
  }

  lemma {:induction false} EnteredChild(ctx: Ctx, root: Node, rel: Bytes, dir: Node, k: nat)
    requires IsReached(ctx, root, rel, dir) && k < |dir.entries|
    requires !TotalEntry(ctx, dir, rel, dir.entries[k]).incomplete
    requires ChildRole(ctx, dir, JoinRel(rel, dir.entries[k].name)).Descended?
    ensures var e, path := dir.entries[k], JoinRel(rel, dir.entries[k].name);
            && IsReached(ctx, root, path, e.node)
            && TotalEntry(ctx, dir, rel, e) == Total(ctx, e.node, path)
  {
    ChildIs(ctx, root, rel, dir, k);
    DescendedIsEntered(ctx, dir, rel, dir.entries[k]);
  }

  lemma {:induction false} EntryCount(ctx: Ctx, root: Node, q: Tally, rel: Bytes, dir: Node, k: nat)
    returns (paths: set<Bytes>)
    requires IsReached(ctx, root, rel, dir) && k < |dir.entries| && (q.OfReads? || q.OfPrunes?)
    requires !TotalEntry(ctx, dir, rel, dir.entries[k]).incomplete
    ensures AreCounted(ctx, root, q, JoinRel(rel, dir.entries[k].name), paths)
    ensures |paths| == Count(TotalEntry(ctx, dir, rel, dir.entries[k]), q)
    decreases dir, 0
  {
    var e, path := dir.entries[k], JoinRel(rel, dir.entries[k].name);
    ChildIs(ctx, root, rel, dir, k);
    if ChildRole(ctx, dir, path).Descended? {
      EnteredChild(ctx, root, rel, dir, k);
      paths := DirectoryCount(ctx, root, q, path, e.node);
    } else {
      SettledCount(ctx, root, q, rel, dir, k);
      BelowItself(path);
      forall p | Below(path, p) && p != path ensures !IsCounted(ctx, root, q, p) {
        NothingCountedInside(ctx, root, q, path, p);
      }
      paths := if IsCounted(ctx, root, q, path) then {path} else {};
    }
  }

  // ---- One directory ----

  /** The directory itself, or at or below one of its first `n` entries. */
  ghost predicate IsUpTo(dir: Node, rel: Bytes, n: nat, p: Bytes)
    requires dir.Dir? && n <= |dir.entries|
  {
    p == rel || UnderTheFirst(dir, rel, n, p)
  }

  ghost predicate AreCountedUpTo(ctx: Ctx, root: Node, q: Tally, rel: Bytes, dir: Node, n: nat, paths: set<Bytes>)
    requires root.Dir? && dir.Dir? && n <= |dir.entries|
  {
    forall p :: p in paths <==> IsUpTo(dir, rel, n, p) && IsCounted(ctx, root, q, p)
  }

  lemma {:induction false} OwnCount(ctx: Ctx, root: Node, q: Tally, rel: Bytes, dir: Node, n: nat)
    returns (paths: set<Bytes>)
    requires IsReached(ctx, root, rel, dir) && n == 0 && (q.OfReads? || q.OfPrunes?)
    ensures AreCountedUpTo(ctx, root, q, rel, dir, n, paths)
    ensures |paths| == Count(TotalEntries(ctx, dir, rel, n), q)
  {
    OwnTotal(ctx, dir, rel, n);
    paths := if q.OfReads? then {rel} else {};
    OnlyItself(ctx, root, q, rel, dir, n);
  }

  lemma {:induction false} OwnTotal(ctx: Ctx, dir: Node, rel: Bytes, n: nat)
    requires dir.Dir? && n == 0
    ensures TotalEntries(ctx, dir, rel, n).dirsRead == 1 && TotalEntries(ctx, dir, rel, n).excluded == 0
  {
    assert TotalEntries(ctx, dir, rel, n) == Summary(DirOut(rel, dir.mtime));
  }

  lemma {:induction false} OnlyItself(ctx: Ctx, root: Node, q: Tally, rel: Bytes, dir: Node, n: nat)
    requires IsReached(ctx, root, rel, dir) && n == 0 && (q.OfReads? || q.OfPrunes?)
    ensures forall p :: IsUpTo(dir, rel, n, p) && IsCounted(ctx, root, q, p) <==> p == rel && q.OfReads?
  {
    if IsPruned(ctx, root, rel) {
      PrunedHasNoRole(ctx, root, rel);
    }
  }

  lemma {:induction false} PrunedHasNoRole(ctx: Ctx, root: Node, p: Bytes)
    requires root.Dir? && IsPruned(ctx, root, p)
    ensures RoleOf(ctx, [], root, p) == Nothing
  {
  }

  lemma {:induction false} NextCount(ctx: Ctx, root: Node, q: Tally, rel: Bytes, dir: Node, k: nat,
                                     before: set<Bytes>, last: set<Bytes>)
    requires IsReached(ctx, root, rel, dir) && k < |dir.entries|
    requires AreCountedUpTo(ctx, root, q, rel, dir, k, before)
    requires AreCounted(ctx, root, q, JoinRel(rel, dir.entries[k].name), last)
    ensures AreCountedUpTo(ctx, root, q, rel, dir, k + 1, before + last)
    ensures |before + last| == |before| + |last|
  {
    var counted := (p: Bytes) => IsCounted(ctx, root, q, p);
    var a := (p: Bytes) => IsUpTo(dir, rel, k, p);
    var b := (p: Bytes) => Below(JoinRel(rel, dir.entries[k].name), p);
    UpToAndNextAreApart(dir, rel, k);
    UnionOfApart(counted, a, b, before, last);
  }

  lemma {:induction false} UpToAndNextAreApart(dir: Node, rel: Bytes, k: nat)
    requires dir.Dir? && DistinctNames(dir.entries) && k < |dir.entries|
    ensures forall p :: !(IsUpTo(dir, rel, k, p) && Below(JoinRel(rel, dir.entries[k].name), p))
    ensures forall p :: IsUpTo(dir, rel, k + 1, p) <==>
      IsUpTo(dir, rel, k, p) || Below(JoinRel(rel, dir.entries[k].name), p)
  {
    forall p ensures !(IsUpTo(dir, rel, k, p) && Below(JoinRel(rel, dir.entries[k].name), p)) {
      NotUnderItsOwnEntries(dir, rel, k);
      if UnderTheFirst(dir, rel, k, p) {
        FirstAndLastAreApart(dir, rel, k, p);
      }
    }
    forall p ensures IsUpTo(dir, rel, k + 1, p) <==>
      IsUpTo(dir, rel, k, p) || Below(JoinRel(rel, dir.entries[k].name), p)
    {
      OneMoreUnder(dir, rel, k, p);
    }
  }

  lemma {:induction false} EntriesCount(ctx: Ctx, root: Node, q: Tally, rel: Bytes, dir: Node, n: nat)
    returns (paths: set<Bytes>)
    requires IsReached(ctx, root, rel, dir) && n <= |dir.entries| && (q.OfReads? || q.OfPrunes?)
    requires !TotalEntries(ctx, dir, rel, n).incomplete
    ensures AreCountedUpTo(ctx, root, q, rel, dir, n, paths)
    ensures |paths| == Count(TotalEntries(ctx, dir, rel, n), q)
    decreases dir, n
  {
    if n == 0 {
      paths := OwnCount(ctx, root, q, rel, dir, n);
    } else {
      var k := n - 1;
      CountsStep(ctx, dir, rel, k, q);
      var before := EntriesCount(ctx, root, q, rel, dir, k);
      var last := EntryCount(ctx, root, q, rel, dir, k);
      paths := before + last;
      CountsJoin(ctx, root, q, rel, dir, k, before, last);
    }
  }

  lemma CountsJoin(ctx: Ctx, root: Node, q: Tally, rel: Bytes, dir: Node, k: nat, before: set<Bytes>, last: set<Bytes>)
    requires IsReached(ctx, root, rel, dir) && k < |dir.entries|
    requires AreCountedUpTo(ctx, root, q, rel, dir, k, before)
    requires |before| == Count(TotalEntries(ctx, dir, rel, k), q)
    requires AreCounted(ctx, root, q, JoinRel(rel, dir.entries[k].name), last)
    requires |last| == Count(TotalEntry(ctx, dir, rel, dir.entries[k]), q)
    ensures AreCountedUpTo(ctx, root, q, rel, dir, k + 1, before + last)
    ensures |before + last| == Count(TotalEntries(ctx, dir, rel, k + 1), q)
  {
    NextCount(ctx, root, q, rel, dir, k, before, last);
    CountsStep(ctx, dir, rel, k, q);
  }

  lemma CountsStep(ctx: Ctx, dir: Node, rel: Bytes, k: nat, q: Tally)
    requires dir.Dir? && k < |dir.entries|
    ensures Count(TotalEntries(ctx, dir, rel, k + 1), q) ==
            Count(TotalEntries(ctx, dir, rel, k), q) + Count(TotalEntry(ctx, dir, rel, dir.entries[k]), q)
    ensures TotalEntries(ctx, dir, rel, k + 1).incomplete <==>
            TotalEntries(ctx, dir, rel, k).incomplete || TotalEntry(ctx, dir, rel, dir.entries[k]).incomplete
  {
    CountPlus(TotalEntries(ctx, dir, rel, k), TotalEntry(ctx, dir, rel, dir.entries[k]), q);
  }

  lemma {:induction false} DirectoryCount(ctx: Ctx, root: Node, q: Tally, rel: Bytes, dir: Node)
    returns (paths: set<Bytes>)
    requires IsReached(ctx, root, rel, dir) && (q.OfReads? || q.OfPrunes?) && !Total(ctx, dir, rel).incomplete
    ensures AreCounted(ctx, root, q, rel, paths) && |paths| == Count(Total(ctx, dir, rel), q)
    decreases dir, |dir.entries| + 1
  {
    assert IsRepoDir(dir) == HasGit(dir.entries);
    paths := EntriesCount(ctx, root, q, rel, dir, |dir.entries|);
    forall p | IsCounted(ctx, root, q, p) ensures IsUpTo(dir, rel, |dir.entries|, p) <==> Below(rel, p) {
      CountedIsUnderAnEntry(ctx, root, q, rel, dir, p);
    }
  }

  /** Whatever is counted below a directory is below one of its entries. */
  lemma {:induction false} CountedIsUnderAnEntry(ctx: Ctx, root: Node, q: Tally, rel: Bytes, dir: Node, p: Bytes)
    requires IsReached(ctx, root, rel, dir) && IsCounted(ctx, root, q, p)
    ensures IsUpTo(dir, rel, |dir.entries|, p) <==> Below(rel, p)
  {
    BelowItself(rel);
    if UnderTheFirst(dir, rel, |dir.entries|, p) {
      var i: nat :| i < |dir.entries| && Below(JoinRel(rel, dir.entries[i].name), p);
      JoinSplits(rel, dir.entries[i].name);
      BelowTransitive(rel, JoinRel(rel, dir.entries[i].name), p);
    } else if Below(rel, p) && p != rel {
      var i := EntryAbove(ctx, root, q, rel, dir, p);
    }
  }

  lemma {:induction false} EntryAbove(ctx: Ctx, root: Node, q: Tally, rel: Bytes, dir: Node, p: Bytes)
    returns (i: nat)
    requires IsReached(ctx, root, rel, dir) && IsCounted(ctx, root, q, p) && Below(rel, p) && p != rel
    ensures i < |dir.entries| && Below(JoinRel(rel, dir.entries[i].name), p)
  {
    EverythingIsBelowTheRoot(rel);
    BelowIsLonger(rel, p);
    if ParentOf(p) == rel {
      i := IndexOf(dir.entries, Basename(p));
      BelowItself(p);
    } else {
      RolesRestrict(ctx, [], root, rel, ParentOf(p));
      i := OwedUnderAnEntry(ctx, dir, rel, ParentOf(p));
    }
  }

  // ---- A whole root ----

  /** A walk that lost nothing counts one read for every directory it looks into and every repository it has to
      read, and one exclusion for every directory and link pruned, wherever the schedule took it. */
  lemma {:induction false} CountersCountPaths(ctx: Ctx, root: Node) returns (read: set<Bytes>, pruned: set<Bytes>)
    requires root.Dir? && WellFormed(root) && Searchable(root) && !Total(ctx, root, []).incomplete
    ensures forall p :: p in read <==> IsRead(ctx, root, p)
    ensures forall p :: p in pruned <==> IsPruned(ctx, root, p)
    ensures Total(ctx, root, []).dirsRead == |read| && Total(ctx, root, []).excluded == |pruned|
  {
    forall p ensures Below([], p) {
      EverythingIsBelowTheRoot(p);
    }
    if HasGit(root.entries) {
      read, pruned := {[]}, {};
      RepositoryRootCounts(ctx, root);
    } else {
      read := DirectoryCount(ctx, root, OfReads, [], root);
      pruned := DirectoryCount(ctx, root, OfPrunes, [], root);
    }
  }

  lemma {:induction false} RepositoryRootCounts(ctx: Ctx, root: Node)
    requires root.Dir? && WellFormed(root) && Searchable(root) && HasGit(root.entries)
    requires !Total(ctx, root, []).incomplete
    ensures Total(ctx, root, []).dirsRead == 1 && Total(ctx, root, []).excluded == 0
    ensures forall p :: (IsRead(ctx, root, p) <==> p == []) && !IsPruned(ctx, root, p)
  {
    assert IsRepoDir(root);
    forall p ensures (IsRead(ctx, root, p) <==> p == []) && !IsPruned(ctx, root, p) {
      if p != [] {
        EverythingIsBelowTheRoot(p);
        NothingCountedInside(ctx, root, OfReads, [], p);
        NothingCountedInside(ctx, root, OfPrunes, [], p);
      }
    }
  }
}
