/** That an index is worth having: where nothing moved since it was written, and long enough before, the next
    run believes every entry and reads no directory. */
module CacheReuse {
  import opened Bytes
  import opened Paths
  import opened FileTree
  import opened Walk
  import opened WalkRules
  import opened IndexFormat
  import opened IndexBuild
  import opened IndexValidate
  import opened RootWalk
  import opened CachedListing
  import opened Cache
  import opened CacheEvents
  import opened CacheRuns
  import PoolWalk

  /** Every directory the rules descend into had been left alone for two seconds when the index was written. */
  ghost predicate Settled(ctx: Ctx, tree: Node, now: int)
    requires tree.Dir?
  {
    forall rel :: RoleOf(ctx, [], tree, rel).Descended? ==>
      RoleOf(ctx, [], tree, rel).dir.mtime <= now - 2_000_000_000
  }

  // ---- On the tree it was taken from ----

  /** A repository by the rules is one by its probe. */
  lemma {:induction false} RepositoriesProbe(ctx: Ctx, root: Node, rel: Bytes)
    requires root.Dir? && Searchable(root) && RoleOf(ctx, [], root, rel) == Repository
    ensures EndsWith(Basename(rel), DOT_GIT) || StatsGitAt(root, rel)
  {
    if rel == [] {
      assert HasGit(root.entries) && root.search;
    } else {
      RolesResolve(ctx, root, ParentOf(rel));
      var dir := RoleOf(ctx, [], root, ParentOf(rel)).dir;
      RoleBelow(ctx, root, dir, rel);
      ListedChild(ctx, dir, rel);
      var node := dir.entries[IndexOf(dir.entries, Basename(rel))].node;
      assert Resolve(root, rel) == Found(node);
    }
  }

  lemma {:induction false} ListedChild(ctx: Ctx, dir: Node, rel: Bytes)
    requires dir.Dir? && Searchable(dir) && ChildRole(ctx, dir, rel) == Repository
    ensures IndexOf(dir.entries, Basename(rel)) < |dir.entries| && dir.search
    ensures var node := dir.entries[IndexOf(dir.entries, Basename(rel))].node;
            EndsWith(Basename(rel), DOT_GIT) || (node.Dir? && node.search && HasGit(node.entries)) ||
            (node.Link? && node.target.Directory? && node.target.git)
  {
    assert Searchable(dir.entries[IndexOf(dir.entries, Basename(rel))].node);
  }

  ghost predicate IsUnchanged(v: Revisit) {
    && v.now == v.was && v.was.Dir? && Searchable(v.was) && Remembers(v.ctx, v.was, v.ix)
    && !EndsWith(v.rootName, DOT_GIT) && 0 <= v.ix.written <= I64_MAX
  }

  lemma RacyIsRecent(mtime: int, written: int)
    requires 0 <= written <= I64_MAX
    ensures IsRacy(mtime, written) <==> mtime > written - 2_000_000_000
  {
  }

  /** An unmoved entry is believed exactly unless it is a directory changed too recently. */
  lemma {:induction false} UnchangedEntryIsHitIff(v: Revisit, k: nat)
    requires IsUnchanged(v) && k < |v.ix.entries|
    ensures RoleNow(v, Rel(v, k)).Descended? ==>
      && Hit(v.ix, Probes(v), k) == Descends(v.ix, Probes(v), k)
      && (Hit(v.ix, Probes(v), k) <==> RoleNow(v, Rel(v, k)).dir.mtime <= v.ix.written - 2_000_000_000)
    ensures !RoleNow(v, Rel(v, k)).Descended? ==> Hit(v.ix, Probes(v), k)
  {
    var rel := Rel(v, k);
    assert RecordOf(RoleWas(v, rel), rel) == Some(Record(rel, v.ix.entries[k].mtime));
    assert Probes(v)[k] == ProbeOf(v.now, v.rootName, v.ix.entries[k]);
    if RoleNow(v, rel).Descended? {
      UnchangedDirectoryProbes(v.ctx, v.now, rel, v.rootName, v.ix.entries[k]);
      RacyIsRecent(RoleNow(v, rel).dir.mtime, v.ix.written);
    } else {
      UnchangedRepositoryProbes(v.ctx, v.now, rel, v.rootName, v.ix.entries[k]);
    }
  }

  lemma {:induction false} UnchangedDirectoryProbes(ctx: Ctx, root: Node, rel: Bytes, rootName: Bytes, e: IndexEntry)
    requires root.Dir? && Searchable(root) && RoleOf(ctx, [], root, rel).Descended? && e.rel == rel && e.mtime.Some?
    ensures ProbeOf(root, rootName, e) == StillDir(RoleOf(ctx, [], root, rel).dir.mtime)
  {
    RolesResolve(ctx, root, rel);
  }

  lemma {:induction false} UnchangedRepositoryProbes(ctx: Ctx, root: Node, rel: Bytes, rootName: Bytes, e: IndexEntry)
    requires root.Dir? && Searchable(root) && RoleOf(ctx, [], root, rel) == Repository && e.rel == rel && e.mtime.None?
    ensures ProbeOf(root, rootName, e).StillRepo?
  {
    RepositoriesProbe(ctx, root, rel);
  }

  /** Only directories have anything below them. */
  lemma ParentIsADirectory(v: Revisit, k: nat)
    requires IsUnchanged(v) && 0 < k < |v.ix.entries|
    ensures RoleNow(v, Rel(v, ParentIndex(v.ix.entries, k))).Descended?
  {
    var i := ParentIndex(v.ix.entries, k);
    assert IsChild(v.ix.entries, i, k);
    assert RecordOf(RoleWas(v, Rel(v, k)), Rel(v, k)) == Some(Record(Rel(v, k), v.ix.entries[k].mtime));
    assert Rel(v, k) == Rel(v, 0) ==> k == 0;
  }

  /** What is not descended into hides behind something handed back. */
  lemma {:induction false} SomethingIsHandedBack(v: Revisit, k: nat) returns (h: nat)
    requires IsUnchanged(v) && k < |v.ix.entries| && !Hit(v.ix, Probes(v), k)
    ensures IsStale(v, h)
    decreases k
  {
    if Consults(v, k) {
      return k;
    }
    h := HandedBackAbove(v, k);
  }

  lemma {:induction false} HandedBackAbove(v: Revisit, k: nat) returns (h: nat)
    requires IsUnchanged(v) && k < |v.ix.entries| && !Consults(v, k)
    ensures IsStale(v, h)
    decreases k
  {
    var i := ParentIndex(v.ix.entries, k);
    if Consults(v, i) {
      ParentIsADirectory(v, k);
      UnchangedEntryIsHitIff(v, i);
      h := i;
    } else {
      h := HandedBackAbove(v, i);
    }
  }

  /** On an unchanged tree nothing is handed back exactly when all of it had been left alone long enough. */
  lemma {:induction false} NothingIsStaleIff(v: Revisit)
    requires IsUnchanged(v)
    ensures (forall k :: !IsStale(v, k)) <==> Settled(v.ctx, v.was, v.ix.written)
  {
    if Settled(v.ctx, v.was, v.ix.written) {
      forall k ensures !IsStale(v, k) {
        if Consults(v, k) {
          UnchangedEntryIsHitIff(v, k);
        }
      }
    } else {
      var rel :| RoleOf(v.ctx, [], v.was, rel).Descended? &&
        RoleOf(v.ctx, [], v.was, rel).dir.mtime > v.ix.written - 2_000_000_000;
      var k: nat :| k < |v.ix.entries| && v.ix.entries[k].rel == rel;
      UnchangedEntryIsHitIff(v, k);
      var h := SomethingIsHandedBack(v, k);
    }
  }

  lemma {:induction false} NothingStale(ix: Index, probes: seq<Probe>, order: seq<nat>)
    requires |ix.entries| == |probes| && InRange(order, |probes|)
    requires forall j :: 0 <= j < |order| ==> Hit(ix, probes, order[j])
    ensures StaleOf(ix, probes, order) == []
    decreases |order|
  {
    if order != [] {
      NothingStale(ix, probes, order[..|order| - 1]);
    }
  }

  /** An answer that hands nothing back reads nothing. */
  lemma AnswerReadsNothing(ix: Index, scene: Scene, order: seq<nat>, rewalk: seq<Bytes> -> Out)
    requires Visits(ix, scene, order) && forall k: nat :: !HandsBack(ix, scene, k)
    ensures var answer := Answer(ix, scene, order, rewalk);
            answer.Some? && answer.value.dirsRead == 0 && answer.value.excluded == 0 && !answer.value.incomplete
  {
    var probes := ProbesOf(scene.tree, scene.name, ix.entries);
    forall j | 0 <= j < |order| ensures Hit(ix, probes, order[j]) {
      assert order[j] in order;
      assert !HandsBack(ix, scene, order[j]);
    }
    NothingStale(ix, probes, order);
  }

  // ---- What is stored is usable ----

  lemma {:induction false} DedupIsNoLonger(s: seq<Record>)
    ensures |Dedup(s)| <= |s|
  {
    if s != [] {
      DedupIsNoLonger(s[1..]);
    }
  }

  lemma CanonicalIsNoLonger(records: seq<Record>)
    ensures |Canonical(records)| <= |records|
  {
    SortingKeeps(records);
    assert |multiset(SortByPath(records))| == |multiset(records)|;
    DedupIsNoLonger(SortByPath(records));
  }

  lemma NamedListingHasParents(ctx: Ctx, name: Bytes, tree: Node, listing: Out)
    requires tree.Dir? && IsNamed(name) && IsRightFor(ctx, name, tree, listing)
    ensures HasPath(listing.records, []) && ParentsListed(listing.records)
  {
    var root := Record([], None);
    assert multiset(listing.records)[root] == 1;
    assert root in listing.records;
    forall r | r in listing.records ensures r == root {
      assert multiset(listing.records)[r] > 0;
    }
  }

  /** A right listing that fits the format makes an index. */
  lemma RightListingsBuild(env: Env, s: State, p: Pending, now: int)
    requires Sane(p.was) && IsRightFor(Rules(env, p.exclude), env.name, p.was, p.listing)
    requires |p.listing.records| <= U32
    ensures ToStore(env, s, p, now).Some?
  {
    var ctx := Rules(env, p.exclude);
    CanonicalIsNoLonger(p.listing.records);
    if IsNamed(env.name) {
      NamedListingHasParents(ctx, env.name, p.was, p.listing);
    } else {
      ListedParents(ctx, p.was, p.listing.records);
    }
  }

  /** A listing that was stored. */
  ghost predicate IsStored(env: Env, s: State, e: Event, p: Pending) {
    && e.Store? && e.writes && e.at < |s.pending| && s.pending[e.at] == p
    && !p.listing.incomplete && 0 < |p.listing.records| <= U32
  }

  /** What it left in the file. */
  ghost predicate IsItsIndex(env: Env, s: State, p: Pending, now: int, ix: Index) {
    && IsIndexOf(env, ix, p.was, p.listing)
    && ix.root == env.path && Identity(ix.dev, ix.ino) == s.id && ix.exclude == p.exclude && ix.written == now
    && 0 <= now <= I64_MAX
  }

  lemma StoredIsIndex(env: Env, s: State, e: Event, p: Pending)
    requires Inv(env, s) && Enabled(env, s, e) && IsStored(env, s, e, p)
    ensures var file := Apply(env, s, e).file;
            file.Some? && Parse(file.value).Some? && IsItsIndex(env, s, p, e.now, Parse(file.value).value)
  {
    assert PendingIsGood(env, s, p);
    assert p.listing != EMPTY_OUT;
    RightListingsBuild(env, s, p, e.now);
    StoredDecodes(env, s, p.was, p, e.now);
  }

  // ---- The next run ----

  ghost predicate IsLeftAlone(env: Env, s: State, p: Pending) {
    s.tree == p.was && p.was.Dir? && p.was.read
  }

  /** It hands nothing back, and it need not read a directory to answer. */
  ghost predicate ReadsNothing(ix: Index, scene: Scene, cached: Option<Out>) {
    && (forall k: nat :: !HandsBack(ix, scene, k))
    && cached.Some? && cached.value.dirsRead == 0 && cached.value.excluded == 0 && !cached.value.incomplete
  }

  lemma UnnamedHandsNothingBackIff(env: Env, ix: Index, p: Pending, scene: Scene, now: int)
    requires !IsNamed(env.name) && scene.name == env.name && scene.tree == p.was && ix.exclude == p.exclude
    requires IsIndexOf(env, ix, p.was, p.listing) && ix.written == now && 0 <= now <= I64_MAX
    ensures (forall k: nat :: !HandsBack(ix, scene, k)) <==> Settled(Rules(env, p.exclude), p.was, now)
  {
    var ctx := Rules(env, p.exclude);
    var v := Revisit(ctx, p.was, p.was, env.name, ix, {});
    RightForUnnamed(ctx, env.name, p.was, p.listing);
    BuiltRemembers(ctx, p.was, p.listing.records, ix);
    NothingIsStaleIff(v);
    assert forall k: nat :: IsStale(v, k) <==> HandsBack(ix, scene, k);
  }

  lemma NamedHandsNothingBack(env: Env, ix: Index, p: Pending, scene: Scene, order: seq<nat>, rewalk: seq<Bytes> -> Out)
    requires IsNamed(env.name) && scene.name == env.name && ix.exclude == p.exclude
    requires IsIndexOf(env, ix, p.was, p.listing) && Visits(ix, scene, order)
    ensures forall k: nat :: !HandsBack(ix, scene, k)
  {
    NamedRootIsRepeated(Rules(env, p.exclude), scene, p.was, p.listing, ix, order, rewalk);
    assert ProbesOf(scene.tree, scene.name, ix.entries)[0] == StillRepo;
  }

  lemma ReadsNothingIff(env: Env, ix: Index, p: Pending, scene: Scene, now: int, order: seq<nat>,
                        rewalk: seq<Bytes> -> Out)
    requires IsIndexOf(env, ix, p.was, p.listing) && ix.exclude == p.exclude && ix.written == now && 0 <= now <= I64_MAX
    requires scene.name == env.name && scene.tree == p.was && Visits(ix, scene, order)
    ensures ReadsNothing(ix, scene, Answer(ix, scene, order, rewalk)) <==>
            IsNamed(env.name) || Settled(Rules(env, p.exclude), p.was, now)
  {
    if IsNamed(env.name) {
      NamedHandsNothingBack(env, ix, p, scene, order, rewalk);
    } else {
      UnnamedHandsNothingBackIff(env, ix, p, scene, now);
    }
    if forall k: nat :: !HandsBack(ix, scene, k) {
      AnswerReadsNothing(ix, scene, order, rewalk);
    }
  }

  lemma RunReadsNothingIff(env: Env, s: State, run: Run, p: Pending, now: int, ix: Index)
    requires Inv(env, s) && Consistent(env, s, run) && s.file.Some? && Parse(s.file.value) == Some(ix)
    requires IsItsIndex(env, s, p, now, ix) && IsLeftAlone(env, s, p) && run.ctx.exclude == p.exclude
    ensures Usable(s.file, SceneOf(env, s), run.ctx.exclude) == Some(ix)
    ensures ReadsNothing(ix, SceneOf(env, s), run.cached) <==>
            IsNamed(env.name) || Settled(Rules(env, p.exclude), p.was, now)
  {
    var scene := SceneOf(env, s);
    assert OpenAt(scene.tree, []).Opened?;
    var order :| Visits(ix, scene, order) && run.cached == Answer(ix, scene, order, run.rewalk);
    ReadsNothingIff(env, ix, p, scene, now, order, run.rewalk);
  }

  /** In every history: a complete listing was stored, and some later run finds that file, and the root, its
      identity, its tree and the exclusions as they were. Then the file decodes and may be used; that run reads no
      directory, hands nothing back and answers with the listing, exactly when every directory the rules descend
      into had been left alone for two seconds when it was stored, or the root is a repository by its name. */
  lemma TheNextRunReadsNothing(env: Env, states: seq<State>, events: seq<Event>, k: nat, j: nat, p: Pending)
    requires ValidEnv(env) && IsHistory(env, states, events) && Fresh(env, states[0]) && k < j < |events|
    requires IsStored(env, states[k], events[k], p)
    requires (events[j].List? || events[j].Check?) && events[j].run.ctx.exclude == p.exclude
    requires states[j].file == states[k + 1].file && states[j].id == states[k].id && IsLeftAlone(env, states[j], p)
    ensures var s, run, rules := states[j], events[j].run, Rules(env, p.exclude);
            var ix := if s.file.Some? then Parse(s.file.value) else None;
            && ix.Some? && Usable(s.file, SceneOf(env, s), run.ctx.exclude) == ix
            && (ReadsNothing(ix.value, SceneOf(env, s), run.cached) <==>
                IsNamed(env.name) || Settled(rules, p.was, events[k].now))
            && (ReadsNothing(ix.value, SceneOf(env, s), run.cached) ==>
                IsRightFor(rules, env.name, s.tree, run.cached.value))
  {
    HistoriesKeepInv(env, states, events, k);
    HistoriesKeepInv(env, states, events, j);
    StoredIsIndex(env, states[k], events[k], p);
    var s, run := states[j], events[j].run;
    RunReadsNothingIff(env, s, run, p, events[k].now, Parse(s.file.value).value);
    if run.cached.Some? && !run.cached.value.incomplete {
      CachedAnswerIsRight(env, s, run);
    }
  }

  // ---- When there is an answer at all ----

  /** The root's own entry still holds: it is a repository by its name or its `.git`, or a directory with the
      time it had, left alone for two seconds when that was written. */
  predicate RootStillHolds(ix: Index, scene: Scene)
    requires ix.entries != [] && scene.tree.Dir?
  {
    match ix.entries[0].mtime
    case None => IsNamed(scene.name) || HasGit(scene.tree.entries)
    case Some(mtime) => scene.tree.mtime == mtime <= ix.written - 2_000_000_000
  }

  /** The file holds an index of this very root, under these exclusions. */
  ghost predicate HasIndex(s: State, scene: Scene, exclude: seq<Bytes>, ix: Index) {
    && s.file.Some? && Parse(s.file.value) == Some(ix)
    && ix.root == scene.path && ix.dev == scene.id.dev && ix.ino == scene.id.ino && ix.exclude == exclude
  }

  lemma OnlyRootIsEmpty(env: Env, ix: Index, was: Node, listing: Out, k: nat)
    requires IsIndexOf(env, ix, was, listing) && k < |ix.entries|
    ensures ix.entries[0].rel == [] && (ix.entries[k].rel == [] ==> k == 0)
  {
    var s := Canonical(listing.records);
    CanonicalPaths(listing.records);
    LinkedRecord(s, 0);
    LinkedRecord(s, k);
    if IsNamed(env.name) {
      NamedListingHasParents(Rules(env, ix.exclude), env.name, was, listing);
    } else {
      RightForUnnamed(Rules(env, ix.exclude), env.name, was, listing);
      ListedParents(Rules(env, ix.exclude), was, listing.records);
    }
    RootIsFirst(s);
  }

  lemma {:induction false} RootIsStaleIff(ix: Index, probes: seq<Probe>, order: seq<nat>)
    requires |ix.entries| == |probes| && InRange(order, |probes|)
    ensures [] in StaleOf(ix, probes, order) <==>
            exists j :: 0 <= j < |order| && ix.entries[order[j]].rel == [] && !Hit(ix, probes, order[j])
    decreases |order|
  {
    if order != [] {
      RootIsStaleIff(ix, probes, order[..|order| - 1]);
    }
  }

  lemma RootHoldsIff(ix: Index, scene: Scene)
    requires ix.entries != [] && ix.entries[0].rel == [] && scene.tree.Dir? && scene.tree.search
    requires 0 <= ix.written <= I64_MAX
    ensures Hit(ix, ProbesOf(scene.tree, scene.name, ix.entries), 0) <==> RootStillHolds(ix, scene)
  {
    RacyIsRecent(scene.tree.mtime, ix.written);
    assert ProbesOf(scene.tree, scene.name, ix.entries)[0] == ProbeOf(scene.tree, scene.name, ix.entries[0]);
  }

  lemma AnswersIffRootHolds(env: Env, ix: Index, was: Node, listing: Out, scene: Scene, order: seq<nat>,
                            rewalk: seq<Bytes> -> Out)
    requires IsIndexOf(env, ix, was, listing) && Visits(ix, scene, order) && scene.tree.Dir? && scene.tree.search
    requires 0 <= ix.written <= I64_MAX
    ensures Answer(ix, scene, order, rewalk).Some? <==> RootStillHolds(ix, scene)
  {
    var probes := ProbesOf(scene.tree, scene.name, ix.entries);
    OnlyRootIsEmpty(env, ix, was, listing, 0);
    RootHoldsIff(ix, scene);
    RootIsStaleIff(ix, probes, order);
    assert 0 in order;
    forall j | 0 <= j < |order| && ix.entries[order[j]].rel == [] ensures order[j] == 0 {
      OnlyRootIsEmpty(env, ix, was, listing, order[j]);
    }
  }

  lemma RunAnswersIff(env: Env, s: State, run: Run, ix: Index)
    requires Inv(env, s) && Consistent(env, s, run) && s.tree.read && HasIndex(s, SceneOf(env, s), run.ctx.exclude, ix)
    ensures ix.entries != [] && (run.cached.Some? <==> RootStillHolds(ix, SceneOf(env, s)))
  {
    var scene := SceneOf(env, s);
    assert OpenAt(scene.tree, []).Opened?;
    assert Usable(s.file, scene, run.ctx.exclude) == Some(ix);
    var was, listing :| IndexOfListing(env, s, ix, was, listing);
    var order :| Visits(ix, scene, order) && run.cached == Answer(ix, scene, order, run.rewalk);
    AnswersIffRootHolds(env, ix, was, listing, scene, order, run.rewalk);
  }

  predicate RootHolds(env: Env, s: State, ix: Index)
    requires s.tree.Dir?
  {
    ix.entries != [] && RootStillHolds(ix, SceneOf(env, s))
  }

  /** In every history, a run answers from the index exactly when it can open the root, the file decodes to an
      index of this root and these exclusions, and the root's own entry still holds; whatever else has moved. */
  lemma EveryRunAnswersIff(env: Env, states: seq<State>, events: seq<Event>, k: nat)
    requires ValidEnv(env) && IsHistory(env, states, events) && Fresh(env, states[0]) && k < |events|
    requires events[k].List? || events[k].Check?
    ensures var s, run := states[k], events[k].run;
            && s.tree.Dir?
            && (run.cached.Some? <==>
                s.tree.read && exists ix :: HasIndex(s, SceneOf(env, s), run.ctx.exclude, ix) && RootHolds(env, s, ix))
  {
    HistoriesKeepInv(env, states, events, k);
    var s, run := states[k], events[k].run;
    if s.tree.read && s.file.Some? && Parse(s.file.value).Some? {
      var ix := Parse(s.file.value).value;
      if HasIndex(s, SceneOf(env, s), run.ctx.exclude, ix) {
        RunAnswersIff(env, s, run, ix);
      }
    }
  }
}
