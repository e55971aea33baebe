/** What the two strategies' different `dirs_read` counts: on a tree that can be read, exactly the
    repositories open-scan opens to find their `.git`. */
module Entered {
  import opened Bytes
  import opened Paths
  import opened FileTree
  import opened Walk
  import opened Counting
  import opened WalkRules
  import opened Strategies

  /** What the rules find at a path below where a walk starts. */
  function NodeAt(ctx: Ctx, base: Bytes, top: Node, path: Bytes): Option<Node>
    requires top.Dir?
  {
    match RoleOf(ctx, base, top, ParentOf(path))
    case Descended(dir) =>
      var i := IndexOf(dir.entries, Basename(path));
      if i < |dir.entries| then Some(dir.entries[i].node) else None
    case _ => None
  }

  /** A repository below the start that is a directory and not one by its name. */
  predicate IsPlainRepository(ctx: Ctx, base: Bytes, top: Node, path: Bytes)
    requires top.Dir?
  {
    && path != base && path != [] && RoleOf(ctx, base, top, path) == Repository
    && NodeAt(ctx, base, top, path).Some? && NodeAt(ctx, base, top, path).value.Dir?
    && !EndsWith(Basename(path), DOT_GIT)
  }

  ghost predicate IsGood(dir: Node) {
    dir.Dir? && WellFormed(dir) && Searchable(dir) && Readable(dir)
  }

  /** The plain repositories at and below one entry. */
  ghost predicate AreThoseUnder(ctx: Ctx, dir: Node, rel: Bytes, e: Entry, paths: set<Bytes>)
    requires dir.Dir?
  {
    forall p :: p in paths <==> IsPlainRepository(ctx, rel, dir, p) && Below(JoinRel(rel, e.name), p)
  }

  /** A path below an entry that the walk goes on into is a plain repository of the entry's own walk. */
  lemma {:induction false} PlainBelowAChild(ctx: Ctx, dir: Node, rel: Bytes, i: nat, p: Bytes)
    requires IsGood(dir) && !HasGit(dir.entries) && i < |dir.entries| && dir.entries[i].node.Dir?
    requires var path := JoinRel(rel, dir.entries[i].name);
             && Below(path, p) && p != path && ChildRole(ctx, dir, path) == Descended(dir.entries[i].node)
    ensures IsPlainRepository(ctx, rel, dir, p) <==>
            IsPlainRepository(ctx, JoinRel(rel, dir.entries[i].name), dir.entries[i].node, p)
  {
    var e := dir.entries[i];
    var path := JoinRel(rel, e.name);
    JoinSplits(rel, e.name);
    RootOfWalk(ctx, rel, dir, e, i);
    BelowIsLonger(path, p);
    RolesRestrict(ctx, rel, dir, path, p);
    RolesRestrict(ctx, rel, dir, path, ParentOf(p));
    BelowIsLonger(rel, path);
    SameRoleSameKind(ctx, rel, dir, path, e.node, p);
  }

  lemma {:induction false} SameRoleSameKind(ctx: Ctx, base: Bytes, top: Node, base': Bytes, top': Node, p: Bytes)
    requires top.Dir? && top'.Dir? && p != base && p != base' && p != []
    requires RoleOf(ctx, base, top, p) == RoleOf(ctx, base', top', p)
    requires RoleOf(ctx, base, top, ParentOf(p)) == RoleOf(ctx, base', top', ParentOf(p))
    ensures IsPlainRepository(ctx, base, top, p) <==> IsPlainRepository(ctx, base', top', p)
  {
  }

  /** Nothing plain lies at or below an entry that is settled without being looked into. */
  lemma {:induction false} SettledEntry(ctx: Ctx, dir: Node, rel: Bytes, i: nat, p: Bytes)
    requires IsGood(dir) && !HasGit(dir.entries) && i < |dir.entries|
    requires !IsCandidate(ctx, dir, rel, dir.entries[i]) && Below(JoinRel(rel, dir.entries[i].name), p)
    ensures !IsPlainRepository(ctx, rel, dir, p)
  {
    var e := dir.entries[i];
    var path := JoinRel(rel, e.name);
    JoinSplits(rel, e.name);
    IndexOfEntry(dir.entries, i);
    RootOfWalk(ctx, rel, dir, e, i);
    if p != path {
      NothingInside(ctx, rel, dir, path, p);
    }
  }

  lemma {:induction false} RepositoryEntry(ctx: Ctx, dir: Node, rel: Bytes, i: nat, p: Bytes)
    requires IsGood(dir) && !HasGit(dir.entries) && i < |dir.entries|
    requires StatsAsRepository(ctx, dir, rel, dir.entries[i]) && Below(JoinRel(rel, dir.entries[i].name), p)
    ensures IsPlainRepository(ctx, rel, dir, p) <==> p == JoinRel(rel, dir.entries[i].name)
  {
    var e := dir.entries[i];
    var path := JoinRel(rel, e.name);
    JoinSplits(rel, e.name);
    IndexOfEntry(dir.entries, i);
    RootOfWalk(ctx, rel, dir, e, i);
    if p != path {
      NothingInside(ctx, rel, dir, path, p);
    }
  }

  lemma {:induction false} EntryGap(ctx: Ctx, dir: Node, rel: Bytes, i: nat) returns (paths: set<Bytes>)
    requires IsGood(dir) && !HasGit(dir.entries) && i < |dir.entries|
    ensures AreThoseUnder(ctx, dir, rel, dir.entries[i], paths)
    ensures |paths| == GapOfEntry(ctx, dir, rel, dir.entries[i], OfReads)
    decreases dir, 0
  {
    var e := dir.entries[i];
    var path := JoinRel(rel, e.name);
    assert Searchable(e.node) && Readable(e.node) && WellFormed(e.node);
    BelowItself(path);
    if StatsAsRepository(ctx, dir, rel, e) {
      paths := {path};
      forall p | Below(path, p) ensures IsPlainRepository(ctx, rel, dir, p) <==> p == path {
        RepositoryEntry(ctx, dir, rel, i, p);
      }
    } else if IsCandidate(ctx, dir, rel, e) {
      paths := EnteredEntryGap(ctx, dir, rel, i);
    } else {
      paths := {};
      forall p | Below(path, p) ensures !IsPlainRepository(ctx, rel, dir, p) {
        SettledEntry(ctx, dir, rel, i, p);
      }
    }
  }

  lemma {:induction false} BelowItself(path: Bytes)
    ensures Below(path, path)
  {
  }

  lemma {:induction false} EnteredEntryGap(ctx: Ctx, dir: Node, rel: Bytes, i: nat) returns (paths: set<Bytes>)
    requires IsGood(dir) && !HasGit(dir.entries) && i < |dir.entries|
    requires IsCandidate(ctx, dir, rel, dir.entries[i]) && !StatsAsRepository(ctx, dir, rel, dir.entries[i])
    requires IsGood(dir.entries[i].node)
    ensures AreThoseUnder(ctx, dir, rel, dir.entries[i], paths)
    ensures |paths| == GapOfEntry(ctx, dir, rel, dir.entries[i], OfReads)
    decreases dir.entries[i].node, |dir.entries[i].node.entries| + 2
  {
    var e := dir.entries[i];
    var path := JoinRel(rel, e.name);
    paths := PlainRepositories(ctx, e.node, path);
    JoinSplits(rel, e.name);
    IndexOfEntry(dir.entries, i);
    RootOfWalk(ctx, rel, dir, e, i);
    assert ChildRole(ctx, dir, path) == Descended(e.node);
    forall p ensures p in paths <==> IsPlainRepository(ctx, rel, dir, p) && Below(path, p) {
      if Below(path, p) && p != path {
        PlainBelowAChild(ctx, dir, rel, i, p);
      } else if IsPlainRepository(ctx, path, e.node, p) {
        RolesLieBelow(ctx, path, e.node, p);
      }
    }
  }

  ghost predicate UnderTheFirst(dir: Node, rel: Bytes, n: nat, p: Bytes)
    requires dir.Dir? && n <= |dir.entries|
  {
    exists i :: 0 <= i < n && Below(JoinRel(rel, dir.entries[i].name), p)
  }

  ghost predicate AreThoseUnderTheFirst(ctx: Ctx, dir: Node, rel: Bytes, n: nat, paths: set<Bytes>)
    requires dir.Dir? && n <= |dir.entries|
  {
    forall p :: p in paths <==> IsPlainRepository(ctx, rel, dir, p) && UnderTheFirst(dir, rel, n, p)
  }

  lemma {:induction false} EntriesGap(ctx: Ctx, dir: Node, rel: Bytes, n: nat) returns (paths: set<Bytes>)
    requires IsGood(dir) && !HasGit(dir.entries) && n <= |dir.entries|
    ensures AreThoseUnderTheFirst(ctx, dir, rel, n, paths)
    ensures |paths| == GapOfEntries(ctx, dir, rel, n, OfReads)
    decreases dir, n
  {
    if n == 0 {
      paths := NoneUnderNothing(ctx, dir, rel, n);
    } else {
      var k := n - 1;
      var before := EntriesGap(ctx, dir, rel, k);
      var last := EntryGap(ctx, dir, rel, k);
      paths := OneMoreEntryGap(ctx, dir, rel, k, before, last);
    }
  }

  lemma OneMoreEntryGap(ctx: Ctx, dir: Node, rel: Bytes, k: nat, before: set<Bytes>, last: set<Bytes>)
    returns (paths: set<Bytes>)
    requires IsGood(dir) && k < |dir.entries|
    requires AreThoseUnderTheFirst(ctx, dir, rel, k, before) && |before| == GapOfEntries(ctx, dir, rel, k, OfReads)
    requires AreThoseUnder(ctx, dir, rel, dir.entries[k], last)
    requires |last| == GapOfEntry(ctx, dir, rel, dir.entries[k], OfReads)
    ensures AreThoseUnderTheFirst(ctx, dir, rel, k + 1, paths)
    ensures |paths| == GapOfEntries(ctx, dir, rel, k + 1, OfReads)
  {
    paths := before + last;
    DisjointUnion(ctx, dir, rel, k, before, last);
    GapSteps(ctx, dir, rel, k);
  }

  lemma GapSteps(ctx: Ctx, dir: Node, rel: Bytes, k: nat)
    requires dir.Dir? && k < |dir.entries|
    ensures GapOfEntries(ctx, dir, rel, k + 1, OfReads) ==
            GapOfEntries(ctx, dir, rel, k, OfReads) + GapOfEntry(ctx, dir, rel, dir.entries[k], OfReads)
  {
  }

  lemma NoneUnderNothing(ctx: Ctx, dir: Node, rel: Bytes, n: nat) returns (paths: set<Bytes>)
    requires dir.Dir? && n == 0
    ensures AreThoseUnderTheFirst(ctx, dir, rel, n, paths) && |paths| == 0
  {
    paths := {};
  }

  /** Sets of paths told apart by where they lie. */
  lemma UnionOfApart(plain: Bytes -> bool, a: Bytes -> bool, b: Bytes -> bool, before: set<Bytes>, last: set<Bytes>)
    requires forall p :: p in before <==> plain(p) && a(p)
    requires forall p :: p in last <==> plain(p) && b(p)
    requires forall p :: !(a(p) && b(p))
    ensures forall p :: p in before + last <==> plain(p) && (a(p) || b(p))
    ensures |before + last| == |before| + |last|
  {
    assert before !! last;
  }

  lemma {:induction false} FirstAndLastAreApart(dir: Node, rel: Bytes, k: nat, p: Bytes)
    requires dir.Dir? && DistinctNames(dir.entries) && k < |dir.entries| && UnderTheFirst(dir, rel, k, p)
    ensures !Below(JoinRel(rel, dir.entries[k].name), p)
  {
    var i: nat :| i < k && Below(JoinRel(rel, dir.entries[i].name), p);
    EntriesAreApart(dir, rel, i, k, p);
  }

  lemma {:induction false} OneMoreUnder(dir: Node, rel: Bytes, k: nat, p: Bytes)
    requires dir.Dir? && k < |dir.entries|
    ensures UnderTheFirst(dir, rel, k + 1, p) <==>
            UnderTheFirst(dir, rel, k, p) || Below(JoinRel(rel, dir.entries[k].name), p)
  {
  }

  lemma DisjointUnion(ctx: Ctx, dir: Node, rel: Bytes, k: nat, before: set<Bytes>, last: set<Bytes>)
    requires IsGood(dir) && k < |dir.entries|
    requires AreThoseUnderTheFirst(ctx, dir, rel, k, before)
    requires AreThoseUnder(ctx, dir, rel, dir.entries[k], last)
    ensures AreThoseUnderTheFirst(ctx, dir, rel, k + 1, before + last)
    ensures |before + last| == |before| + |last|
  {
    ApartUnion(ctx, dir, rel, k, before, last);
    JoinedAreUnder(ctx, dir, rel, k, before + last);
  }

  /** Below one of the first `k` entries, or below the next. */
  ghost predicate UnderTheNext(dir: Node, rel: Bytes, k: nat, p: Bytes)
    requires dir.Dir? && k < |dir.entries|
  {
    UnderTheFirst(dir, rel, k, p) || Below(JoinRel(rel, dir.entries[k].name), p)
  }

  lemma ApartUnion(ctx: Ctx, dir: Node, rel: Bytes, k: nat, before: set<Bytes>, last: set<Bytes>)
    requires IsGood(dir) && k < |dir.entries|
    requires AreThoseUnderTheFirst(ctx, dir, rel, k, before)
    requires AreThoseUnder(ctx, dir, rel, dir.entries[k], last)
    ensures forall p :: p in before + last <==> IsPlainRepository(ctx, rel, dir, p) && UnderTheNext(dir, rel, k, p)
    ensures |before + last| == |before| + |last|
  {
    var a := (p: Bytes) => UnderTheFirst(dir, rel, k, p);
    var b := (p: Bytes) => Below(JoinRel(rel, dir.entries[k].name), p);
    forall p ensures !(a(p) && b(p)) {
      if a(p) {
        FirstAndLastAreApart(dir, rel, k, p);
      }
    }
    UnionOfApart((p: Bytes) => IsPlainRepository(ctx, rel, dir, p), a, b, before, last);
  }

  lemma JoinedAreUnder(ctx: Ctx, dir: Node, rel: Bytes, k: nat, all: set<Bytes>)
    requires dir.Dir? && k < |dir.entries|
    requires forall p :: p in all <==> IsPlainRepository(ctx, rel, dir, p) && UnderTheNext(dir, rel, k, p)
    ensures AreThoseUnderTheFirst(ctx, dir, rel, k + 1, all)
  {
    forall p ensures UnderTheFirst(dir, rel, k + 1, p) <==> UnderTheNext(dir, rel, k, p) {
      OneMoreUnder(dir, rel, k, p);
    }
  }

  /** The gap in reads is the number of plain repositories below the start. */
  lemma {:induction false} PlainRepositories(ctx: Ctx, dir: Node, rel: Bytes) returns (paths: set<Bytes>)
    requires IsGood(dir)
    ensures forall p :: p in paths <==> IsPlainRepository(ctx, rel, dir, p)
    ensures |paths| == GapOf(ctx, dir, rel, OfReads)
    decreases dir, |dir.entries| + 1
  {
    assert IsRepoDir(dir) == HasGit(dir.entries);
    if HasGit(dir.entries) {
      paths := {};
      forall p ensures !IsPlainRepository(ctx, rel, dir, p) {
        if IsPlainRepository(ctx, rel, dir, p) {
          RolesLieBelow(ctx, rel, dir, p);
          NothingInside(ctx, rel, dir, rel, p);
          assert false;
        }
      }
    } else {
      paths := EntriesGap(ctx, dir, rel, |dir.entries|);
      forall p | IsPlainRepository(ctx, rel, dir, p) ensures UnderTheFirst(dir, rel, |dir.entries|, p) {
        var i := OwedUnderAnEntry(ctx, dir, rel, p);
      }
    }
  }

  lemma {:induction false} PlainIsADirectory(ctx: Ctx, root: Node, p: Bytes)
    requires IsGood(root)
    ensures IsPlainRepository(ctx, [], root, p) <==>
      && p != [] && RoleOf(ctx, [], root, p) == Repository && !EndsWith(Basename(p), DOT_GIT)
      && Resolve(root, p).Found? && Resolve(root, p).node.Dir?
  {
    if p != [] && RoleOf(ctx, [], root, ParentOf(p)).Descended? {
      RolesResolve(ctx, root, ParentOf(p));
    }
  }

  /** On a tree that can be read and searched, open-scan reads just as many directories more than stat-first
      as the tree has repositories below the root that are directories and not named `*.git`. */
  lemma ReadsDifferByRepositories(ctx: Ctx, root: Node) returns (paths: set<Bytes>)
    requires IsGood(root)
    ensures forall p :: p in paths <==>
      && p != [] && RoleOf(ctx, [], root, p) == Repository && !EndsWith(Basename(p), DOT_GIT)
      && Resolve(root, p).Found? && Resolve(root, p).node.Dir?
    ensures Total(OpenScanOf(ctx), root, []).dirsRead == Total(StatFirstOf(ctx), root, []).dirsRead + |paths|
  {
    paths := PlainRepositories(ctx, root, []);
    StrategiesDifferByTheGap(ctx, root, [], OfReads);
    forall p ensures p in paths <==>
      && p != [] && RoleOf(ctx, [], root, p) == Repository && !EndsWith(Basename(p), DOT_GIT)
      && Resolve(root, p).Found? && Resolve(root, p).node.Dir?
    {
      PlainIsADirectory(ctx, root, p);
    }
  }
}
