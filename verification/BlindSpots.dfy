/** Trees on which an index says something else than a walk: what an mtime does not tell, and what a path
    does not open. */
module BlindSpots {
  import opened Bytes
  import opened Paths
  import opened FileTree
  import opened Walk
  import opened WalkRules
  import opened IndexFormat
  import opened IndexValidate
  import opened RootWalk
  import opened CachedListing
  import opened Completeness
  import PoolWalk

  // ---- A root over one entry ----

  function Over(name: Bytes, child: Node): Node {
    Dir(0, true, true, true, [Entry(name, true, child)])
  }

  predicate IsOrdinary(ctx: Ctx, name: Bytes) {
    IsName(name) && name != DOT_GIT && !IsExcluded(ctx, name)
  }

  /** An index of it that remembers the entry with this mtime, or as a repository. */
  function OverEntries(name: Bytes, mtime: Option<int>): seq<IndexEntry> {
    [IndexEntry([], Some(0), [1]), IndexEntry(name, mtime, [])]
  }

  lemma {:induction false} OnlyName(root: Node, name: Bytes, child: Node, other: Bytes)
    requires root == Over(name, child)
    ensures IndexOf(root.entries, other) == if other == name then 0 else 1
  {
  }

  lemma OverHasNoGit(root: Node, name: Bytes, child: Node)
    requires root == Over(name, child) && name != DOT_GIT
    ensures !HasGit(root.entries)
  {
    OnlyName(root, name, child, DOT_GIT);
  }

  /** What an entry says is below it: nothing. */
  lemma NothingBelowIt(ctx: Ctx, root: Node, name: Bytes, child: Node, path: Bytes)
    requires root == Over(name, child) && (child.Dir? ==> child.entries == [])
    ensures var role := ChildRole(ctx, root, name);
            role.Descended? && Basename(name) == name ==> ChildRole(ctx, role.dir, path) == Nothing
  {
    OnlyName(root, name, child, Basename(name));
  }

  lemma OnlyItself(ctx: Ctx, root: Node, name: Bytes, child: Node, path: Bytes)
    requires root == Over(name, child) && Basename(path) != name
    ensures ChildRole(ctx, root, path) == Nothing
  {
    OnlyName(root, name, child, Basename(path));
  }

  lemma {:induction false} OverRoles(ctx: Ctx, root: Node, name: Bytes, child: Node, rel: Bytes)
    requires root == Over(name, child) && IsOrdinary(ctx, name) && (child.Dir? ==> child.entries == [])
    ensures RoleOf(ctx, [], root, rel) ==
            if rel == [] then Descended(root) else if rel == name then ChildRole(ctx, root, name) else Nothing
    decreases |rel|
  {
    JoinSplits([], name);
    if rel == [] {
      OverHasNoGit(root, name, child);
    } else {
      OverRoles(ctx, root, name, child, ParentOf(rel));
      if ParentOf(rel) == name {
        NothingBelowIt(ctx, root, name, child, rel);
      } else if ParentOf(rel) == [] && Basename(rel) != name {
        OnlyItself(ctx, root, name, child, rel);
      }
    }
  }

  lemma OverEdges(name: Bytes, mtime: Option<int>, i: int, c: int)
    ensures IsChild(OverEntries(name, mtime), i, c) <==> i == 0 && c == 1
  {
    var es := OverEntries(name, mtime);
    assert IsEdge(es, 0, 0) && es[0].children[0] == 1;
  }

  lemma {:induction false} OverIsRemembered(ctx: Ctx, root: Node, name: Bytes, child: Node, mtime: Option<int>,
                                            ix: Index)
    requires root == Over(name, child) && IsOrdinary(ctx, name) && (child.Dir? ==> child.entries == [])
    requires ix.entries == OverEntries(name, mtime)
    requires RecordOf(ChildRole(ctx, root, name), name) == Some(Record(name, mtime))
    ensures Remembers(ctx, root, ix)
  {
    var es := ix.entries;
    assert es[0] == IndexEntry([], Some(0), [1]) && es[1] == IndexEntry(name, mtime, []);
    JoinSplits([], name);
    OverRoles(ctx, root, name, child, []);
    OverRoles(ctx, root, name, child, name);
    forall rel | RoleOf(ctx, [], root, rel) != Nothing ensures exists k :: 0 <= k < |es| && es[k].rel == rel {
      OverRoles(ctx, root, name, child, rel);
    }
    OverHasItsEdges(es, name, mtime);
    OverIsATree(name, mtime);
  }

  lemma OverHasItsEdges(es: seq<IndexEntry>, name: Bytes, mtime: Option<int>)
    requires es == OverEntries(name, mtime) && IsName(name)
    ensures forall i, c :: IsChild(es, i, c) <==> 0 <= i < |es| && 0 < c < |es| && es[i].rel == ParentOf(es[c].rel)
  {
    JoinSplits([], name);
    forall i, c ensures IsChild(es, i, c) <==> 0 <= i < |es| && 0 < c < |es| && es[i].rel == ParentOf(es[c].rel) {
      OverEdges(name, mtime, i, c);
    }
  }

  lemma OverIsATree(name: Bytes, mtime: Option<int>)
    ensures IsTree(OverEntries(name, mtime))
  {
    var es := OverEntries(name, mtime);
    assert IsEdge(es, 0, 0) && es[0].children[0] == 1;
    assert forall i, j :: IsEdge(es, i, j) ==> i == 0 && j == 0;
    assert IsClaimed(es, 1);
  }

  /** A believed root over one entry, which is consulted. */
  lemma {:induction false} OneChild(ix: Index, probes: seq<Probe>)
    requires |ix.entries| == |probes| == 2 && IsTree(ix.entries) && IsChild(ix.entries, 0, 1)
    requires Descends(ix, probes, 0)
    ensures Reached(ix, probes, 1) && Consulted(ix, probes, [0, 1])
    ensures StaleOf(ix, probes, [0, 1]) == if Hit(ix, probes, 1) then [] else [ix.entries[1].rel]
    ensures Hit(ix, probes, 1) ==> RecordAt(ix, probes, 1) in HitsOf(ix, probes, [0, 1])
  {
    OnlyParent(ix.entries, 0, 1);
    var one, both: seq<nat> := [0], [0, 1];
    assert one[..|one| - 1] == [] && both[..|both| - 1] == one;
    assert StaleOf(ix, probes, one) == [];
    assert StaleOf(ix, probes, both) == if Hit(ix, probes, 1) then [] else [ix.entries[1].rel];
    forall c: nat ensures c in both <==> c < |ix.entries| && Reached(ix, probes, c) {
      assert c in both <==> c == 0 || c == 1;
    }
  }

  // ---- A repository that cannot be opened by path ----

  /** What is remembered of that directory: empty, when it was last read. */
  const REMEMBERED := Dir(1, true, true, true, [])

  /** What it is now: a repository of mode 0111. */
  const SEARCH_ONLY := Dir(2, false, true, true, [Entry(DOT_GIT, true, File)])

  /** Only the root looks as it did. */
  lemma {:induction false} OnlyTheRootIsUnmoved(name: Bytes, written: int, rel: Bytes)
    requires Unmoved(Over(name, REMEMBERED), Over(name, SEARCH_ONLY), written, rel)
    ensures rel == []
    decreases |rel|
  {
    if rel != [] {
      OnlyTheRootIsUnmoved(name, written, ParentOf(rel));
    }
  }

  lemma RootHoldsTheSameName(name: Bytes)
    ensures SameEntries(Over(name, REMEMBERED).entries, Over(name, SEARCH_ONLY).entries)
  {
    var was, now := Over(name, REMEMBERED).entries, Over(name, SEARCH_ONLY).entries;
    forall x ensures SameUnder(x, was, now) {
      assert IndexOf(was, x) == if x == name then 0 else 1;
      assert IndexOf(now, x) == if x == name then 0 else 1;
    }
  }

  ghost predicate BecameUnreadable(v: Revisit, name: Bytes) {
    && v.gone == {} && v.ctx.detect == StatFirst && !EndsWith(v.rootName, DOT_GIT)
    && IsOrdinary(v.ctx, name) && !EndsWith(name, DOT_GIT)
    && v.was == Over(name, REMEMBERED) && v.now == Over(name, SEARCH_ONLY)
    && v.ix.entries == OverEntries(name, Some(1)) && !IsRacy(0, v.ix.written)
  }

  lemma OverIsSound(v: Revisit, name: Bytes)
    requires BecameUnreadable(v, name)
    ensures Sound(v)
  {
    ChildWasEntered(v.ctx, v.was, name);
    OverIsRemembered(v.ctx, v.was, name, REMEMBERED, Some(1), v.ix);
    OverIsWellFormed(v.was, v.now, name);
    forall rel | Unmoved(v.was, v.now, v.ix.written, rel)
      ensures SameEntries(DirAt(v.was, rel).value.entries, DirAt(v.now, rel).value.entries)
    {
      OnlyTheRootIsUnmoved(name, v.ix.written, rel);
      RootHoldsTheSameName(name);
    }
    FaithfulButNothing(v.was, v.now, v.ix.written);
  }

  lemma ChildWasEntered(ctx: Ctx, was: Node, name: Bytes)
    requires was == Over(name, REMEMBERED) && IsOrdinary(ctx, name) && !EndsWith(name, DOT_GIT)
    ensures ChildRole(ctx, was, name) == Descended(REMEMBERED)
  {
    JoinSplits([], name);
    OnlyName(was, name, REMEMBERED, name);
  }

  lemma {:induction false} OverIsWellFormed(was: Node, now: Node, name: Bytes)
    requires IsName(name) && was == Over(name, REMEMBERED) && now == Over(name, SEARCH_ONLY)
    ensures FileTree.WellFormed(now) && Searchable(was) && Searchable(now)
  {
    assert IsName(DOT_GIT);
  }

  lemma {:induction false} OverProbes(v: Revisit, name: Bytes)
    requires BecameUnreadable(v, name)
    ensures |Probes(v)| == 2 && Probes(v)[0] == StillDir(0) && Probes(v)[1] == StillDir(2)
    ensures Resolve(v.now, name) == Found(SEARCH_ONLY) && name != []
  {
    JoinSplits([], name);
  }

  lemma OverIsStale(v: Revisit, name: Bytes)
    requires BecameUnreadable(v, name) && IsTree(v.ix.entries)
    ensures Consulted(v.ix, Probes(v), [0, 1]) && StaleOf(v.ix, Probes(v), [0, 1]) == [name]
    ensures IsStale(v, 1)
  {
    OverEdges(name, Some(1), 0, 1);
    OverProbes(v, name);
    OneChild(v.ix, Probes(v));
  }

  lemma OverPasses(v: Revisit, name: Bytes)
    requires BecameUnreadable(v, name)
    ensures Passed(v, [0, 1]) && IsStale(v, 1) && UnreadableRepository(v.now, Rel(v, 1))
  {
    OverIsSound(v, name);
    OverIsStale(v, name);
    OverIsUnreadable(v, name);
  }

  lemma OverIsUnreadable(v: Revisit, name: Bytes)
    requires BecameUnreadable(v, name)
    ensures UnreadableRepository(v.now, Rel(v, 1))
  {
    OverProbes(v, name);
    assert HasGit(SEARCH_ONLY.entries);
  }

  lemma {:induction false} OverIsListed(ctx: Ctx, name: Bytes)
    requires ctx.detect == StatFirst && IsName(name) && !EndsWith(name, DOT_GIT) && !IsExcluded(ctx, name)
    ensures var total := Total(ctx, Over(name, SEARCH_ONLY), []);
            !total.incomplete && Record(name, None) in total.records
  {
    var root := Over(name, SEARCH_ONLY);
    assert name != DOT_GIT;
    assert IndexOf(root.entries, DOT_GIT) == 1;
    assert HasGit(SEARCH_ONLY.entries);
    var e := root.entries[0];
    assert EntryStep(ctx, root, [], e, Spare).out == EmitOut(name);
    assert TotalEntries(ctx, root, [], 1) == TotalEntries(ctx, root, [], 0).Plus(TotalEntry(ctx, root, [], e));
    assert EmitOut(name).records == [Record(name, None)];
  }

  /** A directory whose contents are remembered has become a repository that can be searched and not read.
      A stat-first walk asks its parent, lists it and is complete. The index hands it back to be re-walked by
      path, which is refused: its answer is short, whatever the descriptors and the schedule. */
  lemma IndexLosesWhatTheWalkLists(v: Revisit, name: Bytes, rest: Out, lost: set<Bytes>)
    requires BecameUnreadable(v, name)
    requires RewalkIsHonest(World(v), StaleOf(v.ix, Probes(v), [0, 1]), rest, lost, false)
    ensures Passed(v, [0, 1]) && PoolWalk.Reopenable(v.ctx, v.now, [])
    ensures !Total(v.ctx, v.now, []).incomplete && Record(name, None) in Total(v.ctx, v.now, []).records
    ensures rest.incomplete && multiset(AnswerOf(v, [0, 1], rest).repos)[name] == 0
  {
    OverPasses(v, name);
    PoolWalk.StatFirstIsReopenable(v.ctx, v.now, []);
    OverIsListed(v.ctx, name);
    AnswerIsCompleteIff(v, [0, 1], rest, lost);
    assert UnreadableRepository(v.now, Rel(v, 1));
    LostRepositoryIsMissing(v, [0, 1], rest, lost, 1);
  }

  // ---- Links ----

  /** The index of a tree in which only the root has a role. */
  lemma {:induction false} LoneRootIsRemembered(ctx: Ctx, was: Node, ix: Index)
    requires was.Dir? && !HasGit(was.entries) && ix.entries == [IndexEntry([], Some(was.mtime), [])]
    requires forall rel :: rel != [] ==> RoleOf(ctx, [], was, rel) == Nothing
    ensures Remembers(ctx, was, ix)
  {
    var es := ix.entries;
    assert forall i, j :: !IsEdge(es, i, j);
    assert RoleOf(ctx, [], was, []) == Descended(was);
    assert es[0].rel == [];
  }

  lemma {:induction false} LoneRootIsConsulted(ix: Index, probes: seq<Probe>)
    requires |ix.entries| == 1 && IsTree(ix.entries) && Descends(ix, probes, 0)
    ensures Consulted(ix, probes, [0]) && StaleOf(ix, probes, [0]) == [] &&
            HitsOf(ix, probes, [0]) == [RecordAt(ix, probes, 0)]
  {
    assert [0][..0] == [];
  }

  /** Why links are part of the hypothesis: a link whose target becomes a repository changes no mtime
      under the root, so every entry validates and the new repository is missed. */
  lemma LinkGainsAreMissed(v: Revisit, x: Bytes)
    requires v.was.Dir? && v.now.Dir? && v.was.search && v.was.mtime == v.now.mtime
    requires IsName(x) && !EndsWith(x, DOT_GIT) && !IsExcluded(v.ctx, x)
    requires v.was.entries == [Entry(x, true, Link(Directory(false)))]
    requires v.now.entries == [Entry(x, true, Link(Directory(true)))]
    requires v.ix.entries == [IndexEntry([], Some(v.was.mtime), [])] && !IsRacy(v.was.mtime, v.ix.written)
    ensures Remembers(v.ctx, v.was, v.ix) && Consulted(v.ix, Probes(v), [0])
    ensures StaleOf(v.ix, Probes(v), [0]) == [] && Record(x, None) !in HitsOf(v.ix, Probes(v), [0])
    ensures Owed(v.ctx, [], v.now, Record(x, None)) == 1
  {
    assert x != DOT_GIT;
    forall rel | rel != [] ensures RoleOf(v.ctx, [], v.was, rel) == Nothing {
      OnlyLinksHaveNoRoles(v.ctx, v.was, rel);
    }
    LoneRootIsRemembered(v.ctx, v.was, v.ix);
    LoneRootIsConsulted(v.ix, Probes(v));
    LoneLinkIsListed(v.ctx, v.now, x);
  }

  lemma LoneLinkIsListed(ctx: Ctx, root: Node, x: Bytes)
    requires root.Dir? && IsName(x) && !EndsWith(x, DOT_GIT) && !IsExcluded(ctx, x)
    requires root.entries == [Entry(x, true, Link(Directory(true)))]
    ensures Owed(ctx, [], root, Record(x, None)) == 1
  {
    JoinSplits([], x);
    assert x != DOT_GIT && ParentOf(x) == [] && Basename(x) == x;
    assert RoleOf(ctx, [], root, []) == Descended(root);
  }

  lemma {:induction false} OnlyLinksHaveNoRoles(ctx: Ctx, root: Node, rel: Bytes)
    requires root.Dir? && !HasGit(root.entries) && rel != []
    requires forall e :: e in root.entries ==> e.node == Link(Directory(false)) && !EndsWith(e.name, DOT_GIT)
    ensures RoleOf(ctx, [], root, rel) == Nothing
    decreases |rel|
  {
    var i := IndexOf(root.entries, Basename(rel));
    if ParentOf(rel) != [] {
      OnlyLinksHaveNoRoles(ctx, root, ParentOf(rel));
    } else if i < |root.entries| {
      assert root.entries[i] in root.entries;
    }
  }

  /** The other way round: a repository named `*.git` is probed by its name alone. When such a link's target
      is gone a walk skips it, and the entry is a hit all the same. */
  lemma LostLinksAreKept(v: Revisit, name: Bytes)
    requires LostItsTarget(v, name)
    ensures Remembers(v.ctx, v.was, v.ix) && Consulted(v.ix, Probes(v), [0, 1])
    ensures StaleOf(v.ix, Probes(v), [0, 1]) == [] && Record(name, None) in HitsOf(v.ix, Probes(v), [0, 1])
    ensures Owed(v.ctx, [], v.now, Record(name, None)) == 0
  {
    OnlyName(v.was, name, Link(Directory(false)), name);
    JoinSplits([], name);
    OverIsRemembered(v.ctx, v.was, name, Link(Directory(false)), None, v.ix);
    LostLinkIsNothing(v.ctx, v.now, name);
    LostLinkIsHit(v, name);
  }

  ghost predicate LostItsTarget(v: Revisit, name: Bytes) {
    && IsOrdinary(v.ctx, name) && EndsWith(name, DOT_GIT)
    && v.was == Over(name, Link(Directory(false))) && v.now == Over(name, Link(Nowhere))
    && v.ix.entries == OverEntries(name, None) && !IsRacy(0, v.ix.written)
  }

  lemma LostLinkIsHit(v: Revisit, name: Bytes)
    requires LostItsTarget(v, name) && IsTree(v.ix.entries)
    ensures Consulted(v.ix, Probes(v), [0, 1]) && StaleOf(v.ix, Probes(v), [0, 1]) == []
    ensures Record(name, None) in HitsOf(v.ix, Probes(v), [0, 1])
  {
    LostLinkProbes(v, name);
    OverEdges(name, None, 0, 1);
    OneChild(v.ix, Probes(v));
  }

  lemma LostLinkProbes(v: Revisit, name: Bytes)
    requires LostItsTarget(v, name)
    ensures |Probes(v)| == 2 && Probes(v)[0] == StillDir(0) && Probes(v)[1] == StillRepo
    ensures v.ix.entries[1] == IndexEntry(name, None, [])
  {
    JoinSplits([], name);
  }

  lemma {:induction false} LostLinkIsNothing(ctx: Ctx, now: Node, name: Bytes)
    requires IsOrdinary(ctx, name) && now == Over(name, Link(Nowhere))
    ensures RoleOf(ctx, [], now, name) == Nothing
  {
    JoinSplits([], name);
    OverRoles(ctx, now, name, Link(Nowhere), name);
    OnlyName(now, name, Link(Nowhere), name);
  }
}
