/** Whole histories. What is on disk is always worth nothing or the index of a complete listing, and what
    is listed from it is what a walk would have listed. */
module CacheRuns {
  import opened Bytes
  import opened Paths
  import opened FileTree
  import opened Walk
  import opened WalkRules
  import opened IndexFormat
  import opened IndexBuild
  import opened IndexValidate
  import opened RootWalk
  import opened ShortWalks
  import opened CachedListing
  import opened Completeness
  import opened Cache
  import opened CacheEvents
  import PoolWalk

  // ---- Listings are right ----

  lemma {:induction false} RolesIgnoreDetect(ctx: Ctx, d: Detect, root: Node, rel: Bytes)
    requires root.Dir?
    ensures RoleOf(ctx.(detect := d), [], root, rel) == RoleOf(ctx, [], root, rel)
    decreases |rel|
  {
    if rel != [] {
      RolesIgnoreDetect(ctx, d, root, ParentOf(rel));
    }
  }

  lemma TimesIgnoreDetect(ctx: Ctx, d: Detect, name: Bytes, root: Node)
    requires root.Dir?
    ensures forall r :: TimesOwed(ctx.(detect := d), name, root, r) == TimesOwed(ctx, name, root, r)
    ensures forall p :: TimesListed(ctx.(detect := d), name, root, p) == TimesListed(ctx, name, root, p)
  {
    forall r ensures TimesOwed(ctx.(detect := d), name, root, r) == TimesOwed(ctx, name, root, r) {
      RolesIgnoreDetect(ctx, d, root, r.rel);
    }
    forall p ensures TimesListed(ctx.(detect := d), name, root, p) == TimesListed(ctx, name, root, p) {
      RolesIgnoreDetect(ctx, d, root, if p == DOT_PATH then [] else p);
    }
  }

  lemma RightIgnoresDetect(ctx: Ctx, d: Detect, name: Bytes, root: Node, listing: Out)
    requires root.Dir?
    ensures IsRightFor(ctx.(detect := d), name, root, listing) <==> IsRightFor(ctx, name, root, listing)
  {
    TimesIgnoreDetect(ctx, d, name, root);
  }

  lemma ByTheRules(env: Env, ctx: Ctx, root: Node, listing: Out)
    requires root.Dir? && ctx.wildmatch == env.wildmatch
    ensures IsRightFor(Rules(env, ctx.exclude), env.name, root, listing) <==> IsRightFor(ctx, env.name, root, listing)
  {
    assert ctx == Rules(env, ctx.exclude).(detect := ctx.detect);
    RightIgnoresDetect(Rules(env, ctx.exclude), ctx.detect, env.name, root, listing);
  }

  lemma ByTheRulesSoFar(env: Env, ctx: Ctx, root: Node, listing: Out, lost: set<Bytes>)
    requires root.Dir? && ctx.wildmatch == env.wildmatch && IsRightButFor(ctx, env.name, root, listing, lost)
    ensures IsRightButFor(Rules(env, ctx.exclude), env.name, root, listing, lost)
  {
    assert ctx == Rules(env, ctx.exclude).(detect := ctx.detect);
    TimesIgnoreDetect(Rules(env, ctx.exclude), ctx.detect, env.name, root);
  }

  /** A complete walk gives the listing, unless the root has no read bit. */
  lemma WalkIsGood(env: Env, tree: Node, bits: bool, ctx: Ctx, walk: Out, lost: set<Bytes>, exhausted: bool)
    requires Sane(tree) && ctx.wildmatch == env.wildmatch && !walk.incomplete
    requires HonestWalk(ctx, Root(env.name, bits, tree), walk, lost, exhausted)
    ensures if bits then IsRightFor(Rules(env, ctx.exclude), env.name, tree, walk) else walk == EMPTY_OUT
  {
    CompleteWalkIsRight(ctx, Root(env.name, bits, tree), walk, lost, exhausted);
    ByTheRules(env, ctx, tree, walk);
  }

  lemma NoSeedsNoRewalk(w: PoolWalk.World, exhausted: bool)
    ensures RewalkIsHonest(w, [], EMPTY_OUT, {}, exhausted)
  {
    assert SeedJobs([]) == [];
    NoJobsNeedNoPool(w, SeedJobs([]), !exhausted && PoolWalk.AllForgive(w, SeedJobs([])));
    NothingIsRightSoFar(w, exhausted);
  }

  /** What the re-walk of a pass came to, and what it lost. */
  function RestOf(stale: seq<Bytes>, rewalk: seq<Bytes> -> Out): Out {
    if stale == [] then EMPTY_OUT else rewalk(stale)
  }

  function LostOf(stale: seq<Bytes>, lostBy: seq<Bytes> -> set<Bytes>): set<Bytes> {
    if stale == [] then {} else lostBy(stale)
  }

  lemma RestIsHonest(ctx: Ctx, tree: Node, stale: seq<Bytes>, rewalk: seq<Bytes> -> Out,
                     lostBy: seq<Bytes> -> set<Bytes>, exhausted: bool)
    requires HonestRewalk(ctx, tree, rewalk, lostBy, exhausted)
    ensures RewalkIsHonest(PoolWalk.World(ctx, tree), stale, RestOf(stale, rewalk), LostOf(stale, lostBy), exhausted)
  {
    NoSeedsNoRewalk(PoolWalk.World(ctx, tree), exhausted);
    assert RewalkIsHonest(PoolWalk.World(ctx, tree), stale, rewalk(stale), lostBy(stale), exhausted);
  }

  lemma PassIsSound(env: Env, p: Pass)
    requires HonestPass(env, p) && !IsNamed(env.name)
    ensures Sound(Revisit(p.ctx, p.from, p.scene.tree, env.name, p.ix, p.gone))
  {
    ByTheRules(env, p.ctx, p.from, p.listing);
    RightForUnnamed(p.ctx, env.name, p.from, p.listing);
    BuiltRemembers(p.ctx, p.from, p.listing.records, p.ix);
  }

  function RevisitOf(env: Env, p: Pass): Revisit {
    Revisit(p.ctx, p.from, p.scene.tree, env.name, p.ix, p.gone)
  }

  /** The paths a pass hands back to be walked again. */
  function StaleIn(p: Pass, order: seq<nat>): seq<Bytes>
    requires InRange(order, |p.ix.entries|)
  {
    StaleOf(p.ix, ProbesOf(p.scene.tree, p.scene.name, p.ix.entries), order)
  }

  /** A pass that gave an answer in some order, with what its re-walk came to. */
  lemma {:induction false} PassedIn(env: Env, p: Pass, answer: Out, order: seq<nat>)
    requires HonestPass(env, p) && !IsNamed(env.name)
    requires Visits(p.ix, p.scene, order) && Some(answer) == Answer(p.ix, p.scene, order, p.rewalk)
    ensures var v, stale := RevisitOf(env, p), StaleIn(p, order);
            && Passed(v, order) && answer == AnswerOf(v, order, RestOf(stale, p.rewalk))
            && RewalkIsHonest(World(v), StaleOf(v.ix, Probes(v), order), RestOf(stale, p.rewalk),
                              LostOf(stale, p.lostBy), p.exhausted)
  {
    PassIsSound(env, p);
    RestIsHonest(p.ctx, p.scene.tree, StaleIn(p, order), p.rewalk, p.lostBy, p.exhausted);
  }

  lemma Passing(env: Env, p: Pass, answer: Out) returns (v: Revisit, order: seq<nat>, rest: Out, lost: set<Bytes>)
    requires HonestPass(env, p) && PassAnswers(p, Some(answer)) && !IsNamed(env.name)
    ensures v == RevisitOf(env, p) && Passed(v, order) && answer == AnswerOf(v, order, rest)
    ensures RewalkIsHonest(World(v), StaleOf(v.ix, Probes(v), order), rest, lost, p.exhausted)
  {
    order :| Visits(p.ix, p.scene, order) && Some(answer) == Answer(p.ix, p.scene, order, p.rewalk);
    v, rest, lost := RevisitOf(env, p), RestOf(StaleIn(p, order), p.rewalk), LostOf(StaleIn(p, order), p.lostBy);
    PassedIn(env, p, answer, order);
  }

  lemma NamedPassIs(env: Env, p: Pass, answer: Out)
    requires HonestPass(env, p) && PassAnswers(p, Some(answer)) && IsNamed(env.name)
    ensures answer == EmitOut([])
  {
    var order :| Visits(p.ix, p.scene, order) && Some(answer) == Answer(p.ix, p.scene, order, p.rewalk);
    NamedRootIsRepeated(Rules(env, p.ix.exclude), p.scene, p.from, p.listing, p.ix, order, p.rewalk);
  }

  /** A complete answer from an index is the listing of the tree it was used on, read bit or not, however slowly
      it came about. */
  lemma PassIsRight(env: Env, p: Pass, answer: Out)
    requires HonestPass(env, p) && PassAnswers(p, Some(answer)) && !answer.incomplete
    ensures IsRightFor(Rules(env, p.ctx.exclude), env.name, p.scene.tree, answer)
  {
    if IsNamed(env.name) {
      NamedPassIs(env, p, answer);
      RightForNamed(Rules(env, p.ctx.exclude), env.name, p.scene.tree);
    } else {
      var v, order, rest, lost := Passing(env, p, answer);
      CachedListingIsFresh(v, order, rest, lost, p.exhausted);
      RightForUnnamed(p.ctx, env.name, p.scene.tree, answer);
      ByTheRules(env, p.ctx, p.scene.tree, answer);
    }
  }

  /** The pass a run made over the file, at one moment. */
  lemma PassOfRun(env: Env, s: State, run: Run) returns (p: Pass)
    requires Inv(env, s) && Consistent(env, s, run) && run.cached.Some?
    ensures HonestPass(env, p) && PassAnswers(p, run.cached)
    ensures p.ctx == run.ctx && p.scene == SceneOf(env, s)
    ensures p.exhausted == run.exhausted && p.rewalk == run.rewalk && p.lostBy == run.lostBy
    ensures Usable(s.file, SceneOf(env, s), run.ctx.exclude) == Some(p.ix)
  {
    var scene := SceneOf(env, s);
    var ix := Usable(s.file, scene, run.ctx.exclude).value;
    var was, listing :| IndexOfListing(env, s, ix, was, listing);
    FaithfulButNothing(was, s.tree, ix.written);
    p := Pass(run.ctx, ix, was, listing, scene, {}, run.rewalk, run.lostBy, run.exhausted);
  }

  /** A complete answer from the index gives the listing, read bit or not. */
  lemma CachedAnswerIsRight(env: Env, s: State, run: Run)
    requires Inv(env, s) && Consistent(env, s, run) && run.cached.Some? && !run.cached.value.incomplete
    ensures IsRightFor(Rules(env, run.ctx.exclude), env.name, s.tree, run.cached.value)
  {
    var p := PassOfRun(env, s, run);
    PassIsRight(env, p, run.cached.value);
  }

  // ---- When an answer is complete ----

  /** An entry the pass over this index gives back to the walker. */
  ghost predicate HandsBack(ix: Index, scene: Scene, k: nat) {
    var probes := ProbesOf(scene.tree, scene.name, ix.entries);
    IsTree(ix.entries) && k < |ix.entries| && Reached(ix, probes, k) && !Hit(ix, probes, k)
  }

  ghost predicate SomeUnreadable(ix: Index, scene: Scene) {
    exists k: nat :: HandsBack(ix, scene, k) && UnreadableRepository(scene.tree, ix.entries[k].rel)
  }

  /** This run's index hands back a repository that cannot be read. */
  ghost predicate HandsBackUnreadable(env: Env, s: State, exclude: seq<Bytes>) {
    var ix := Usable(s.file, SceneOf(env, s), exclude);
    ix.Some? && SomeUnreadable(ix.value, SceneOf(env, s))
  }

  lemma StaleIsHandedBack(v: Revisit, scene: Scene)
    requires scene.tree == v.now && scene.name == v.rootName
    ensures SomeUnreadable(v.ix, scene) <==> exists k :: IsStale(v, k) && UnreadableRepository(v.now, Rel(v, k))
  {
    assert forall k: nat :: IsStale(v, k) <==> HandsBack(v.ix, scene, k);
    if k: nat :| IsStale(v, k) && UnreadableRepository(v.now, Rel(v, k)) {
      assert HandsBack(v.ix, scene, k) && UnreadableRepository(scene.tree, v.ix.entries[k].rel);
    }
    if k: nat :| HandsBack(v.ix, scene, k) && UnreadableRepository(scene.tree, v.ix.entries[k].rel) {
      assert IsStale(v, k) && UnreadableRepository(v.now, Rel(v, k));
    }
  }

  /** Over a root a walk covers completely, with descriptors to spare, the index's answer is complete, and is
      the listing, exactly when it hands back no repository that cannot be read. */
  lemma CachedAnswerIsRightIff(env: Env, s: State, run: Run)
    requires Inv(env, s) && Consistent(env, s, run) && run.cached.Some? && !IsNamed(env.name) && !run.exhausted
    requires !Total(run.ctx, s.tree, []).incomplete && PoolWalk.Reopenable(run.ctx, s.tree, [])
    ensures !run.cached.value.incomplete <==> !HandsBackUnreadable(env, s, run.ctx.exclude)
    ensures IsRightFor(Rules(env, run.ctx.exclude), env.name, s.tree, run.cached.value) <==>
            !HandsBackUnreadable(env, s, run.ctx.exclude)
  {
    var p := PassOfRun(env, s, run);
    var v, order, rest, lost := Passing(env, p, run.cached.value);
    AnswerIsRightIff(v, order, rest, lost);
    StaleIsHandedBack(v, SceneOf(env, s));
    RightForUnnamed(run.ctx, env.name, s.tree, run.cached.value);
    ByTheRules(env, run.ctx, s.tree, run.cached.value);
  }

  /** On a tree that can be read an answer from the index is always the listing. */
  lemma ReadableAnswerIsRight(env: Env, s: State, run: Run)
    requires Inv(env, s) && Consistent(env, s, run) && run.cached.Some? && !run.exhausted && Readable(s.tree)
    ensures !run.cached.value.incomplete
    ensures IsRightFor(Rules(env, run.ctx.exclude), env.name, s.tree, run.cached.value)
  {
    var p := PassOfRun(env, s, run);
    if IsNamed(env.name) {
      NamedPassIs(env, p, run.cached.value);
    } else {
      var v, order, rest, lost := Passing(env, p, run.cached.value);
      ReadableAnswersAreComplete(v, order, rest, lost);
    }
    CachedAnswerIsRight(env, s, run);
  }

  /** So is a walk of it, when the root has a read bit. */
  lemma ReadableWalkIsRight(env: Env, s: State, run: Run)
    requires Inv(env, s) && Consistent(env, s, run) && !run.exhausted && Readable(s.tree) && s.bits
    ensures !run.walk.incomplete && IsRightFor(Rules(env, run.ctx.exclude), env.name, s.tree, run.walk)
  {
    ReadableWalksAreComplete(run.ctx, s.tree, []);
    PoolWalk.ReadableIsReopenable(run.ctx, s.tree, []);
    assert run.walk.incomplete == Summary(run.walk).incomplete;
    WalkIsGood(env, s.tree, s.bits, run.ctx, run.walk, run.lost, run.exhausted);
  }

  // ---- What is stored decodes to what was stored ----

  /** The rules only speak of paths a walk can build. */
  lemma {:induction false} RolesAreOnWalkPaths(ctx: Ctx, root: Node, rel: Bytes)
    requires Sane(root) && RoleOf(ctx, [], root, rel) != Nothing
    ensures IsWalkPath(rel)
    decreases |rel|
  {
    if rel != [] {
      RolesAreOnWalkPaths(ctx, root, ParentOf(rel));
      RolesResolve(ctx, root, ParentOf(rel));
      PoolWalk.ResolvedIsPart(root, ParentOf(rel));
      var dir := RoleOf(ctx, [], root, ParentOf(rel)).dir;
      assert IsName(dir.entries[IndexOf(dir.entries, Basename(rel))].name);
    }
  }

  lemma {:induction false} ListedRecordIsOwed(ctx: Ctx, name: Bytes, root: Node, listing: Out, r: Record)
    requires Sane(root) && IsRightFor(ctx, name, root, listing) && r in listing.records
    ensures if IsNamed(name) then r == Record([], None) else RecordOf(RoleOf(ctx, [], root, r.rel), r.rel) == Some(r)
  {
    assert multiset(listing.records)[r] > 0;
  }

  lemma RecordsAreSafe(ctx: Ctx, name: Bytes, root: Node, listing: Out)
    requires Sane(root) && IsRightFor(ctx, name, root, listing)
    ensures forall r :: r in listing.records ==> IsSafeRel(r.rel)
  {
    forall r | r in listing.records ensures IsSafeRel(r.rel) {
      ListedRecordIsOwed(ctx, name, root, listing, r);
      if !IsNamed(name) {
        RolesAreOnWalkPaths(ctx, root, r.rel);
      }
      SafeMeansWalkable(r.rel);
    }
  }

  lemma ListingsMakeTrees(ctx: Ctx, name: Bytes, root: Node, listing: Out)
    requires Sane(root) && IsRightFor(ctx, name, root, listing)
    ensures DirectoriesHoldTheRest(listing.records)
  {
    forall r, p | r in listing.records && p in listing.records && r.rel != [] && p.rel == ParentOf(r.rel)
      ensures p.mtime.Some?
    {
      ListedRecordIsOwed(ctx, name, root, listing, r);
      ListedRecordIsOwed(ctx, name, root, listing, p);
    }
  }

  lemma ListingsHavePathsOnce(ctx: Ctx, name: Bytes, root: Node, listing: Out)
    requires Sane(root) && IsRightFor(ctx, name, root, listing)
    ensures forall r, r' :: r in listing.records && r' in listing.records && r.rel == r'.rel ==> r == r'
  {
    forall r, r' | r in listing.records && r' in listing.records && r.rel == r'.rel ensures r == r' {
      ListedRecordIsOwed(ctx, name, root, listing, r);
      ListedRecordIsOwed(ctx, name, root, listing, r');
    }
  }

  lemma FittingListingsEncode(records: seq<Record>, ix: Index)
    requires ix.entries == Linked(Canonical(records)) && Fits(ix)
    requires forall r, r' :: r in records && r' in records && r.rel == r'.rel ==> r == r'
    requires forall r :: r in records ==> IsSafeRel(r.rel)
    ensures Encodable(records)
  {
    var s := Canonical(records);
    CanonicalPaths(records);
    forall r | r in records ensures |r.rel| < U32 && (r.mtime.Some? ==> IsI64(r.mtime.value)) {
      assert HasPath(records, r.rel);
      var x :| x in s && x.rel == r.rel;
      assert x == r;
      var k :| 0 <= k < |s| && s[k] == r;
      LinkedRecord(s, k);
    }
  }

  lemma StoredDecodes(env: Env, s: State, was: Node, p: Pending, now: int)
    requires Sane(was) && IsRightFor(Rules(env, p.exclude), env.name, was, p.listing)
    requires ToStore(env, s, p, now).Some? && Fits(ToStore(env, s, p, now).value)
    ensures Parse(Enc(ToStore(env, s, p, now).value)) == ToStore(env, s, p, now)
  {
    var records := p.listing.records;
    var ix := ToStore(env, s, p, now).value;
    ListingsMakeTrees(Rules(env, p.exclude), env.name, was, p.listing);
    RecordsAreSafe(Rules(env, p.exclude), env.name, was, p.listing);
    ListingsHavePathsOnce(Rules(env, p.exclude), env.name, was, p.listing);
    FittingListingsEncode(records, ix);
    BuiltIsWellFormed(env.path, Some(s.id), p.exclude, now, records);
    ParsingInvertsEncoding(Enc(ix), ix);
  }

  // ---- Every step ----

  lemma ChangeKeepsInv(env: Env, s: State, e: Event)
    requires Inv(env, s) && Enabled(env, s, e) && e.Change?
    ensures Inv(env, Apply(env, s, e))
  {
    var s' := Apply(env, s, e);
    if !IsWorthless(env, s.file) {
      var ix := Parse(s.file.value).value;
      var was, listing :| IndexOfListing(env, s, ix, was, listing);
      if Identity(ix.dev, ix.ino) == s.id {
        forall m | e.stamp(m) ensures IsRacy(m, ix.written) {
          StampsAreRacy(m, ix.written, e.now, env.granularity);
        }
        ChangeKeepsStored(was, s.tree, e.tree, ix.written, e.stamp);
      }
      assert IndexOfListing(env, s', ix, was, listing);
    }
    forall i | 0 <= i < |s.pending| ensures PendingIsGood(env, s', s.pending[i]) {
      ChangeKeepsPending(s.pending[i].was, s.tree, e.tree, e.stamp);
    }
  }

  lemma ReplaceKeepsInv(env: Env, s: State, e: Event)
    requires Inv(env, s) && Enabled(env, s, e) && e.Replace?
    ensures Inv(env, Apply(env, s, e))
  {
    var s' := Apply(env, s, e);
    if !IsWorthless(env, s.file) {
      var ix := Parse(s.file.value).value;
      var was, listing :| IndexOfListing(env, s, ix, was, listing);
      assert IndexOfListing(env, s', ix, was, listing);
    }
    forall i | 0 <= i < |s.pending| ensures PendingIsGood(env, s', s.pending[i]) {
      AnotherRootShowsOtherTimes(s.pending[i].was, e.tree);
    }
  }

  lemma AnotherRootShowsOtherTimes(was: Node, tree: Node)
    requires was.Dir? && tree.Dir? && was.mtime != tree.mtime
    ensures FaithfulSoFar(was, tree)
  {
    forall rel ensures !SameTimes(was, tree, rel) {
      if SameTimes(was, tree, rel) {
        TimesStartAtTheRoot(was, tree, rel);
        assert false;
      }
    }
  }

  /** Whatever a run puts up for storing is good. */
  lemma RunOutputIsGood(env: Env, s: State, run: Run)
    requires Inv(env, s) && Consistent(env, s, run)
    ensures PendingIsGood(env, s, Pending(run.ctx.exclude, s.tree, Output(run)))
    ensures PendingIsGood(env, s, Pending(run.ctx.exclude, s.tree, run.walk))
  {
    FaithfulToItself(s.tree);
    if !run.walk.incomplete {
      WalkIsGood(env, s.tree, s.bits, run.ctx, run.walk, run.lost, run.exhausted);
    }
    if run.cached.Some? && !run.cached.value.incomplete {
      CachedAnswerIsRight(env, s, run);
    }
  }

  lemma OneMorePending(env: Env, s: State, p: Pending)
    requires Inv(env, s) && PendingIsGood(env, s, p)
    ensures Inv(env, s.(pending := s.pending + [p]))
  {
    var s' := s.(pending := s.pending + [p]);
    if !IsWorthless(env, s.file) {
      var ix := Parse(s.file.value).value;
      var was, listing :| IndexOfListing(env, s, ix, was, listing);
      assert IndexOfListing(env, s', ix, was, listing);
    }
    forall i | 0 <= i < |s'.pending| ensures PendingIsGood(env, s', s'.pending[i]) {
      if i < |s.pending| {
        assert PendingIsGood(env, s, s.pending[i]);
      }
    }
  }

  lemma ListKeepsInv(env: Env, s: State, e: Event)
    requires Inv(env, s) && Enabled(env, s, e) && (e.List? || e.Check?)
    ensures Inv(env, Apply(env, s, e))
  {
    RunOutputIsGood(env, s, e.run);
    OneMorePending(env, s, Pending(e.run.ctx.exclude, s.tree, if e.List? then Output(e.run) else e.run.walk));
  }

  lemma GatherKeepsInv(env: Env, s: State, e: Event)
    requires Inv(env, s) && Enabled(env, s, e) && e.Gather?
    ensures Inv(env, Apply(env, s, e))
  {
    if !e.walk.incomplete {
      WalkIsGood(env, e.was, e.bits, e.ctx, e.walk, e.lost, e.exhausted);
    }
    OneMorePending(env, s, Pending(e.ctx.exclude, e.was, e.walk));
  }

  lemma RevalidateKeepsInv(env: Env, s: State, e: Event)
    requires Inv(env, s) && Enabled(env, s, e) && e.Revalidate?
    ensures Inv(env, Apply(env, s, e))
  {
    if !e.answer.incomplete {
      PassIsRight(env, e.pass, e.answer);
    }
    OneMorePending(env, s, Pending(e.pass.ctx.exclude, e.pass.scene.tree, e.answer));
  }

  lemma StoreKeepsFile(env: Env, s: State, at: nat, now: int, s': State)
    requires Inv(env, s) && at < |s.pending| && !s.pending[at].listing.incomplete && s.now <= now
    requires ToStore(env, s, s.pending[at], now).Some? && Fits(ToStore(env, s, s.pending[at], now).value)
    requires s'.tree == s.tree && s'.id == s.id && s'.seen == s.seen && s'.now == now
    requires s'.file == Some(Enc(ToStore(env, s, s.pending[at], now).value))
    ensures FileIsGood(env, s')
  {
    var p := s.pending[at];
    var ix := ToStore(env, s, p, now).value;
    assert PendingIsGood(env, s, p);
    assert p.listing != EMPTY_OUT;
    StoredDecodes(env, s, p.was, p, now);
    FaithfulOnceWritten(p.was, s.tree, now);
    assert IndexOfListing(env, s', ix, p.was, p.listing);
  }

  lemma StoreKeepsInv(env: Env, s: State, e: Event)
    requires Inv(env, s) && Enabled(env, s, e) && e.Store?
    ensures Inv(env, Apply(env, s, e))
  {
    var s' := Apply(env, s, e);
    var p := s.pending[e.at];
    if p.listing.incomplete || !e.writes || ToStore(env, s, p, e.now).None? {
      if !IsWorthless(env, s.file) {
        var ix := Parse(s.file.value).value;
        var was, listing :| IndexOfListing(env, s, ix, was, listing);
        assert IndexOfListing(env, s', ix, was, listing);
      }
    } else {
      StoreKeepsFile(env, s, e.at, e.now, s');
    }
    forall i | 0 <= i < |s'.pending| ensures PendingIsGood(env, s', s'.pending[i]) {
      var j := if i < e.at then i else i + 1;
      assert s'.pending[i] == s.pending[j] && PendingIsGood(env, s, s.pending[j]);
    }
  }

  lemma StepKeepsInv(env: Env, s: State, e: Event)
    requires Inv(env, s) && Enabled(env, s, e)
    ensures Inv(env, Apply(env, s, e))
  {
    match e
    case Change(_, _, _, _) => ChangeKeepsInv(env, s, e);
    case Replace(_, _, _, _) => ReplaceKeepsInv(env, s, e);
    case List(_) => ListKeepsInv(env, s, e);
    case Check(_) => ListKeepsInv(env, s, e);
    case Gather(_, _, _, _, _, _) => GatherKeepsInv(env, s, e);
    case Revalidate(_, _) => RevalidateKeepsInv(env, s, e);
    case Store(_, _, _) => StoreKeepsInv(env, s, e);
    case Damage(_) =>
  }

  // ---- Every history ----

  ghost predicate IsHistory(env: Env, states: seq<State>, events: seq<Event>) {
    && |states| == |events| + 1
    && forall k :: 0 <= k < |events| ==>
         states[k].tree.Dir? && Enabled(env, states[k], events[k]) && states[k + 1] == Apply(env, states[k], events[k])
  }

  /** Nothing usable on disk and nobody on the way to storing anything. */
  ghost predicate Fresh(env: Env, s: State) {
    Sane(s.tree) && s.id in s.seen && 0 <= s.now && s.pending == [] && IsWorthless(env, s.file)
  }

  lemma {:induction false} HistoriesKeepInv(env: Env, states: seq<State>, events: seq<Event>, k: nat)
    requires ValidEnv(env) && IsHistory(env, states, events) && Fresh(env, states[0]) && k < |states|
    ensures Inv(env, states[k])
    decreases k
  {
    if k > 0 {
      HistoriesKeepInv(env, states, events, k - 1);
      StepKeepsInv(env, states[k - 1], events[k - 1]);
    }
  }

  /** In every history the file is absent, undecodable, another root's, or the index of a complete listing. */
  lemma TheFileIsAlwaysGood(env: Env, states: seq<State>, events: seq<Event>, k: nat)
    requires ValidEnv(env) && IsHistory(env, states, events) && Fresh(env, states[0]) && k < |states|
    ensures states[k].file.None? || Parse(states[k].file.value).None? ||
            Parse(states[k].file.value).value.root != env.path ||
            exists was, listing :: IndexOfListing(env, states[k], Parse(states[k].file.value).value, was, listing)
  {
    HistoriesKeepInv(env, states, events, k);
  }

  /** In every history, a listing that does not say it is short is exactly what the rules define for the
      tree at that moment, whether it came from the index or from a walk; except that a walk of a root with
      no read bit is empty, which is right only when nothing is listed. */
  lemma EveryListingIsRight(env: Env, states: seq<State>, events: seq<Event>, k: nat)
    requires ValidEnv(env) && IsHistory(env, states, events) && Fresh(env, states[0]) && k < |events|
    requires events[k].List? && !Output(events[k].run).incomplete
    ensures states[k].tree.Dir?
    ensures var s, run, rules := states[k], events[k].run, Rules(env, events[k].run.ctx.exclude);
            var looked := s.bits || run.cached.Some?;
            && (looked ==> IsRightFor(rules, env.name, s.tree, Output(run)))
            && (!looked ==> Output(run) == EMPTY_OUT)
            && (PrintsWhatIsListed(rules, env.name, s.tree, Output(run).repos) <==>
                looked || NothingIsListed(rules, env.name, s.tree))
  {
    HistoriesKeepInv(env, states, events, k);
    var s, run := states[k], events[k].run;
    if run.cached.Some? {
      CachedAnswerIsRight(env, s, run);
    } else {
      WalkIsGood(env, s.tree, s.bits, run.ctx, run.walk, run.lost, run.exhausted);
      if !s.bits {
        NothingPrinted(Rules(env, run.ctx.exclude), env.name, s.tree, run.walk.repos);
      }
    }
  }

  /** In every history, the index answers as a complete walk would have, exactly unless it hands back for
      re-walking a repository that cannot be read. */
  lemma TheIndexAnswersAsAWalk(env: Env, states: seq<State>, events: seq<Event>, k: nat)
    requires ValidEnv(env) && IsHistory(env, states, events) && Fresh(env, states[0]) && k < |events|
    requires (events[k].List? || events[k].Check?) && events[k].run.cached.Some? && !events[k].run.exhausted
    requires states[k].tree.Dir? && !IsNamed(env.name) && !Total(events[k].run.ctx, states[k].tree, []).incomplete
    requires PoolWalk.Reopenable(events[k].run.ctx, states[k].tree, [])
    ensures var s, run := states[k], events[k].run;
            && (!run.cached.value.incomplete <==> !HandsBackUnreadable(env, s, run.ctx.exclude))
            && (IsRightFor(Rules(env, run.ctx.exclude), env.name, s.tree, run.cached.value) <==>
                !HandsBackUnreadable(env, s, run.ctx.exclude))
  {
    HistoriesKeepInv(env, states, events, k);
    CachedAnswerIsRightIff(env, states[k], events[k].run);
  }

  /** In every history, on a tree that can be read, the index's answer is the fresh walk's. */
  lemma TheIndexEqualsTheWalk(env: Env, states: seq<State>, events: seq<Event>, k: nat)
    requires ValidEnv(env) && IsHistory(env, states, events) && Fresh(env, states[0]) && k < |events|
    requires (events[k].List? || events[k].Check?) && events[k].run.cached.Some? && !events[k].run.exhausted
    requires Readable(states[k].tree) && states[k].bits
    ensures var cached, walk := events[k].run.cached.value, events[k].run.walk;
            && !cached.incomplete && !walk.incomplete
            && multiset(cached.repos) == multiset(walk.repos) && multiset(cached.records) == multiset(walk.records)
  {
    HistoriesKeepInv(env, states, events, k);
    var s, run := states[k], events[k].run;
    ReadableAnswerIsRight(env, s, run);
    ReadableWalkIsRight(env, s, run);
    OnlyOneIsRight(Rules(env, run.ctx.exclude), env.name, s.tree, run.cached.value, run.walk);
  }

  /** In every history, a check of two complete listings finds a difference exactly when the root has no read
      bit and something to list. */
  lemma ChecksNeverDiffer(env: Env, states: seq<State>, events: seq<Event>, k: nat)
    requires ValidEnv(env) && IsHistory(env, states, events) && Fresh(env, states[0]) && k < |events|
    requires events[k].Check? && events[k].run.cached.Some?
    requires !events[k].run.cached.value.incomplete && !events[k].run.walk.incomplete
    ensures states[k].tree.Dir?
    ensures var s, cached, walk := states[k], events[k].run.cached.value, events[k].run.walk;
            && (multiset(cached.repos) == multiset(walk.repos) <==>
                s.bits || NothingIsListed(Rules(env, events[k].run.ctx.exclude), env.name, s.tree))
            && (s.bits ==> multiset(cached.records) == multiset(walk.records))
  {
    HistoriesKeepInv(env, states, events, k);
    var s, run := states[k], events[k].run;
    var rules := Rules(env, run.ctx.exclude);
    CachedAnswerIsRight(env, s, run);
    WalkIsGood(env, s.tree, s.bits, run.ctx, run.walk, run.lost, run.exhausted);
    if s.bits {
      OnlyOneIsRight(rules, env.name, s.tree, run.cached.value, run.walk);
    } else {
      EmptyAgreesWithNothing(rules, env.name, s.tree, run.cached.value.repos);
    }
  }

  lemma EmptyAgreesWithNothing(ctx: Ctx, name: Bytes, tree: Node, repos: seq<Bytes>)
    requires tree.Dir? && PrintsWhatIsListed(ctx, name, tree, repos)
    ensures multiset(repos) == multiset([]) <==> NothingIsListed(ctx, name, tree)
  {
    if NothingIsListed(ctx, name, tree) {
      forall p ensures multiset(repos)[p] == 0 {}
    } else {
      var p :| TimesListed(ctx, name, tree, p) != 0;
      assert multiset(repos)[p] != 0;
    }
  }
}
