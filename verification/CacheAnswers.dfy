/** What comes from the index in every history: an answer that is short is right but for what it lost, and
    a tree that is left alone is answered for without reading a directory. */
module CacheAnswers {
  import opened Bytes
  import opened Paths
  import opened FileTree
  import opened Walk
  import opened Counting
  import opened WalkRules
  import opened IndexFormat
  import opened IndexBuild
  import opened IndexValidate
  import opened RootWalk
  import opened ShortWalks
  import opened CachedListing
  import opened Cache
  import opened CacheEvents
  import opened CacheRuns
  import PoolWalk

  // ---- Short answers ----

  /** An entry the pass believes. */
  ghost predicate Believes(ix: Index, scene: Scene, k: nat) {
    var probes := ProbesOf(scene.tree, scene.name, ix.entries);
    IsTree(ix.entries) && k < |ix.entries| && Reached(ix, probes, k) && Hit(ix, probes, k)
  }

  /** Its record is listed once, and printed once if it is a repository's. */
  ghost predicate IsListedOnce(listing: Out, e: IndexEntry) {
    && multiset(listing.records)[Record(e.rel, e.mtime)] == 1
    && (e.mtime == None ==> multiset(listing.repos)[Printed(e.rel)] == 1)
  }

  /** What the re-walk of these paths reads and prunes is counted, all of it when nothing was lost. */
  ghost predicate CountsRewalk(w: PoolWalk.World, stale: seq<Bytes>, answer: Out) {
    var jobs := multiset(SeedJobs(stale));
    && IsDue(answer.dirsRead, PoolWalk.OwedBy(w, jobs, OfReads), answer.incomplete)
    && IsDue(answer.excluded, PoolWalk.OwedBy(w, jobs, OfPrunes), answer.incomplete)
  }

  /** An answer that is right but for what the re-walk of the stale paths lost. */
  ghost predicate IsRightBeside(env: Env, w: PoolWalk.World, answer: Out, stale: seq<Bytes>, lost: set<Bytes>,
                                exhausted: bool)
    requires w.root.Dir?
  {
    && IsRightButFor(Rules(env, w.ctx.exclude), env.name, w.root, answer, lost)
    && (forall path :: path in lost ==> IsPlaced(w, SeedJobs(stale), exhausted, path))
    && CountsRewalk(w, stale, answer)
  }

  ghost predicate IsAnsweredIn(p: Pass, answer: Out, order: seq<nat>) {
    Visits(p.ix, p.scene, order) && Some(answer) == Answer(p.ix, p.scene, order, p.rewalk)
  }

  /** Whatever order the pass takes. */
  lemma PassIsRightSoFar(env: Env, p: Pass, answer: Out, order: seq<nat>)
    requires HonestPass(env, p) && IsAnsweredIn(p, answer, order)
    ensures var stale := StaleIn(p, order);
            IsRightBeside(env, PoolWalk.World(p.ctx, p.scene.tree), answer, stale, LostOf(stale, p.lostBy), p.exhausted)
  {
    if IsNamed(env.name) {
      NamedRootIsRepeated(Rules(env, p.ix.exclude), p.scene, p.from, p.listing, p.ix, order, p.rewalk);
      RightForNamed(Rules(env, p.ctx.exclude), env.name, p.scene.tree);
      RightIsRightButFor(Rules(env, p.ctx.exclude), env.name, p.scene.tree, answer);
      assert multiset(SeedJobs(StaleIn(p, order))) == multiset{};
    } else {
      UnnamedPassIsRightSoFar(env, p, answer, order);
    }
  }

  lemma UnnamedPassIsRightSoFar(env: Env, p: Pass, answer: Out, order: seq<nat>)
    requires HonestPass(env, p) && IsAnsweredIn(p, answer, order) && !IsNamed(env.name)
    ensures var stale := StaleIn(p, order);
            IsRightBeside(env, PoolWalk.World(p.ctx, p.scene.tree), answer, stale, LostOf(stale, p.lostBy), p.exhausted)
  {
    var v, stale := RevisitOf(env, p), StaleIn(p, order);
    var rest, lost := RestOf(stale, p.rewalk), LostOf(stale, p.lostBy);
    PassedIn(env, p, answer, order);
    RevisitIsRightSoFar(v, order, rest, lost, p.exhausted);
    ByTheRulesSoFar(env, p.ctx, p.scene.tree, answer, lost);
  }

  lemma {:induction false} RevisitIsRightSoFar(v: Revisit, order: seq<nat>, rest: Out, lost: set<Bytes>,
                                               exhausted: bool)
    requires Passed(v, order) && !IsNamed(v.rootName)
    requires RewalkIsHonest(World(v), StaleOf(v.ix, Probes(v), order), rest, lost, exhausted)
    ensures IsRightButFor(v.ctx, v.rootName, v.now, AnswerOf(v, order, rest), lost)
    ensures CountsRewalk(World(v), StaleOf(v.ix, Probes(v), order), AnswerOf(v, order, rest))
    ensures forall path :: path in lost ==>
      IsPlaced(World(v), SeedJobs(StaleOf(v.ix, Probes(v), order)), exhausted, path)
  {
    CachedListingIsRightSoFar(v, order, rest, lost, exhausted);
    RightButForUnnamed(v.ctx, v.rootName, v.now, AnswerOf(v, order, rest), lost);
    RestIsCounted(World(v), StaleOf(v.ix, Probes(v), order), rest, exhausted, AnswerOf(v, order, rest));
  }

  lemma RestIsCounted(w: PoolWalk.World, stale: seq<Bytes>, rest: Out, exhausted: bool, answer: Out)
    requires PoolWalk.Determined(w, multiset(SeedJobs(stale)), Summary(rest),
                                 !exhausted && PoolWalk.AllForgive(w, SeedJobs(stale)))
    requires answer.dirsRead == rest.dirsRead && answer.excluded == rest.excluded
    requires answer.incomplete == rest.incomplete
    ensures CountsRewalk(w, stale, answer)
  {
    assert Count(Summary(rest), OfReads) == answer.dirsRead && Count(Summary(rest), OfPrunes) == answer.excluded;
  }

  lemma BelievedAreListed(env: Env, p: Pass, answer: Out, k: nat)
    requires HonestPass(env, p) && PassAnswers(p, Some(answer)) && Believes(p.ix, p.scene, k)
    ensures IsListedOnce(answer, p.ix.entries[k])
  {
    if IsNamed(env.name) {
      NamedRootIsListed(env, p, answer);
    } else {
      UnnamedAreListed(env, p, answer, k);
    }
  }

  lemma NamedRootIsListed(env: Env, p: Pass, answer: Out)
    requires HonestPass(env, p) && PassAnswers(p, Some(answer)) && IsNamed(env.name)
    ensures p.ix.entries == [IndexEntry([], None, [])] && IsListedOnce(answer, IndexEntry([], None, []))
  {
    var order :| Visits(p.ix, p.scene, order) && Some(answer) == Answer(p.ix, p.scene, order, p.rewalk);
    NamedRootIsRepeated(Rules(env, p.ix.exclude), p.scene, p.from, p.listing, p.ix, order, p.rewalk);
    EmittedOnce(IndexEntry([], None, []));
  }

  lemma EmittedOnce(e: IndexEntry)
    requires e.mtime == None
    ensures IsListedOnce(EmitOut(e.rel), e)
  {
    var out := EmitOut(e.rel);
    assert out.records == [Record(e.rel, None)] && out.repos == [Printed(e.rel)];
  }

  lemma UnnamedAreListed(env: Env, p: Pass, answer: Out, k: nat)
    requires HonestPass(env, p) && PassAnswers(p, Some(answer)) && Believes(p.ix, p.scene, k) && !IsNamed(env.name)
    ensures IsListedOnce(answer, p.ix.entries[k])
  {
    var v, order, rest, lost := Passing(env, p, answer);
    BelievedEntriesAreListed(v, order, rest, lost, p.exhausted, k);
  }

  // ---- Every history ----

  ghost predicate IsAnswerIn(env: Env, s: State, run: Run, ix: Index, order: seq<nat>) {
    Visits(ix, SceneOf(env, s), order) && run.cached == Answer(ix, SceneOf(env, s), order, run.rewalk)
  }

  ghost predicate IsRightInOrder(env: Env, s: State, run: Run, ix: Index, order: seq<nat>)
    requires s.tree.Dir? && run.cached.Some? && InRange(order, |ix.entries|)
  {
    var stale := StaleOf(ix, ProbesOf(s.tree, env.name, ix.entries), order);
    IsRightBeside(env, PoolWalk.World(run.ctx, s.tree), run.cached.value, stale, LostOf(stale, run.lostBy),
                  run.exhausted)
  }

  /** What this run's index may be relied on for. */
  ghost predicate AnswersSoFar(env: Env, s: State, run: Run, ix: Index)
    requires s.tree.Dir? && run.cached.Some?
  {
    && (exists order :: IsAnswerIn(env, s, run, ix, order))
    && (forall order :: IsAnswerIn(env, s, run, ix, order) ==> IsRightInOrder(env, s, run, ix, order))
    && (forall e: nat :: Believes(ix, SceneOf(env, s), e) ==> IsListedOnce(run.cached.value, ix.entries[e]))
  }

  lemma RunAnswersSoFar(env: Env, s: State, run: Run) returns (ix: Index)
    requires Inv(env, s) && Consistent(env, s, run) && run.cached.Some?
    ensures Usable(s.file, SceneOf(env, s), run.ctx.exclude) == Some(ix) && AnswersSoFar(env, s, run, ix)
  {
    var p := PassOfRun(env, s, run);
    ix := p.ix;
    forall e: nat | Believes(p.ix, SceneOf(env, s), e) ensures IsListedOnce(run.cached.value, p.ix.entries[e]) {
      BelievedAreListed(env, p, run.cached.value, e);
    }
    forall order | IsAnswerIn(env, s, run, p.ix, order) ensures IsRightInOrder(env, s, run, p.ix, order) {
      OrderIsRight(env, s, run, p, order);
    }
    var order :| Visits(p.ix, p.scene, order) && run.cached == Answer(p.ix, p.scene, order, p.rewalk);
    assert IsAnswerIn(env, s, run, p.ix, order);
  }

  lemma OrderIsRight(env: Env, s: State, run: Run, p: Pass, order: seq<nat>)
    requires HonestPass(env, p) && s.tree.Dir? && run.cached.Some?
    requires p.ctx == run.ctx && p.scene == SceneOf(env, s)
    requires p.exhausted == run.exhausted && p.rewalk == run.rewalk && p.lostBy == run.lostBy
    requires IsAnswerIn(env, s, run, p.ix, order)
    ensures IsRightInOrder(env, s, run, p.ix, order)
  {
    PassIsRightSoFar(env, p, run.cached.value, order);
  }

  /** In every history, whatever an answer from the index lost: each entry it believed is listed once; each path
      that is not at or below something the re-walk of a stale entry lost is listed and printed exactly as often
      as the rules say; nothing else is; and it says that it is short exactly when something was lost. */
  lemma EveryAnswerIsRightSoFar(env: Env, states: seq<State>, events: seq<Event>, k: nat)
    requires ValidEnv(env) && IsHistory(env, states, events) && Fresh(env, states[0]) && k < |events|
    requires (events[k].List? || events[k].Check?) && events[k].run.cached.Some?
    ensures var s, run := states[k], events[k].run;
            var ix := Usable(s.file, SceneOf(env, s), run.ctx.exclude);
            s.tree.Dir? && ix.Some? && AnswersSoFar(env, s, run, ix.value)
  {
    HistoriesKeepInv(env, states, events, k);
    var ix := RunAnswersSoFar(env, states[k], events[k].run);
  }

  // ---- Short walks ----

  /** So are walks, in every history; of a root with no read bit they are empty. */
  lemma EveryWalkIsRightSoFar(env: Env, states: seq<State>, events: seq<Event>, k: nat)
    requires ValidEnv(env) && IsHistory(env, states, events) && Fresh(env, states[0]) && k < |events|
    requires events[k].List? || events[k].Check?
    ensures states[k].tree.Dir?
    ensures var s, run := states[k], events[k].run;
            if s.bits then IsRightButFor(Rules(env, run.ctx.exclude), env.name, s.tree, run.walk, run.lost)
            else run.walk == EMPTY_OUT
  {
    HistoriesKeepInv(env, states, events, k);
    var s, run := states[k], events[k].run;
    if s.bits {
      WalkIsRightButFor(run.ctx, RootOf(env, s), run.walk, run.lost, run.exhausted);
      ByTheRulesSoFar(env, run.ctx, s.tree, run.walk, run.lost);
    }
  }

  /** What the rules have printed. */
  predicate IsToBePrinted(ctx: Ctx, name: Bytes, tree: Node, p: Bytes)
    requires tree.Dir?
  {
    if IsNamed(name) then p == DOT_PATH else RoleOf(ctx, [], tree, Unprinted(p)) == Repository
  }

  lemma OnlyRepositoriesArePrinted(ctx: Ctx, name: Bytes, tree: Node, listing: Out, lost: set<Bytes>, p: Bytes)
    requires tree.Dir? && IsRightButFor(ctx, name, tree, listing, lost) && p in listing.repos
    ensures multiset(listing.repos)[p] == 1 && IsToBePrinted(ctx, name, tree, p)
  {
    assert multiset(listing.repos)[p] > 0;
    assert IsDue(multiset(listing.repos)[p], TimesListed(ctx, name, tree, p), Covered(lost, Unprinted(p)));
  }

  /** In every history, whatever was lost on the way, a listing prints repositories and nothing else, each once. */
  lemma ListingsPrintRepositories(env: Env, states: seq<State>, events: seq<Event>, k: nat, p: Bytes)
    requires ValidEnv(env) && IsHistory(env, states, events) && Fresh(env, states[0]) && k < |events|
    requires events[k].List? && p in Output(events[k].run).repos
    ensures states[k].tree.Dir? && multiset(Output(events[k].run).repos)[p] == 1
    ensures IsToBePrinted(Rules(env, events[k].run.ctx.exclude), env.name, states[k].tree, p)
  {
    var s, run := states[k], events[k].run;
    HistoriesKeepInv(env, states, events, k);
    if run.cached.Some? {
      AnswersPrintRepositories(env, s, run, p);
    } else {
      EveryWalkIsRightSoFar(env, states, events, k);
      OnlyRepositoriesArePrinted(Rules(env, run.ctx.exclude), env.name, s.tree, run.walk, run.lost, p);
    }
  }

  lemma AnswersPrintRepositories(env: Env, s: State, run: Run, p: Bytes)
    requires Inv(env, s) && Consistent(env, s, run) && run.cached.Some? && p in run.cached.value.repos
    ensures multiset(run.cached.value.repos)[p] == 1
    ensures IsToBePrinted(Rules(env, run.ctx.exclude), env.name, s.tree, p)
  {
    var ix := RunAnswersSoFar(env, s, run);
    var order :| IsAnswerIn(env, s, run, ix, order);
    var stale := StaleOf(ix, ProbesOf(s.tree, env.name, ix.entries), order);
    OnlyRepositoriesArePrinted(Rules(env, run.ctx.exclude), env.name, s.tree, run.cached.value,
                               LostOf(stale, run.lostBy), p);
  }
}
