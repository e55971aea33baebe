/** A whole root, and a re-walk of paths below one, as a run meets them: the checks made before anything
    is opened, the calling thread's own reading, and the pool's outputs merged into it. */
module RootWalk {
  import opened Bytes
  import opened Paths
  import opened FileTree
  import opened Walk
  import opened Counting
  import opened PoolWalk
  import opened ShortWalks
  import opened DirectoryReader

  /** What the root's path leads to, following links; its last component; and whether any of its three
      read bits is set, which is not the same as this process being able to read it. */
  datatype Root = Root(name: Bytes, bits: bool, tree: Node)

  predicate IsWalkable(root: Root) {
    root.tree.Dir? && root.bits
  }

  predicate IsNamed(name: Bytes) {
    EndsWith(name, DOT_GIT)
  }

  /** What the root's own reading and the pool come to; the pool is not started for nothing. */
  function WithPool(step: Step, pool: seq<Job> -> Out): Out {
    if step.jobs == [] then step.out else Merge(step.out, pool(step.jobs))
  }

  /** A run's listing of a root. `pool` is what the pool makes of the jobs the root's reading queued, and
      `unopened` is opening the root finding no descriptor. */
  function RootOut(ctx: Ctx, root: Root, unopened: bool, budget: seq<Budget>, pool: seq<Job> -> Out): Out
    requires root.tree.Dir? ==> |budget| == |root.tree.entries|
  {
    if !IsWalkable(root) then EMPTY_OUT
    else if IsNamed(root.name) then EmitOut([])
    else if unopened || !root.tree.read then LOST_OUT
    else
      WithPool(ReadDir(ctx, root.tree, [], budget), pool)
  }

  method WalkRoot(ctx: Ctx, root: Root, unopened: bool, budget: seq<Budget>, pool: seq<Job> -> Out) returns (out: Out)
    requires root.tree.Dir? ==>
      WellFormed(root.tree) && DirectoryReader.Fits(root.tree) && |budget| == |root.tree.entries|
    ensures out == RootOut(ctx, root, unopened, budget, pool)
  {
    if !IsWalkable(root) {
      return EMPTY_OUT;
    }
    if IsNamed(root.name) {
      return EmitOut([]);
    }
    if unopened || !root.tree.read {
      return LOST_OUT;
    }
    var walker := new Walker(ctx);
    var queue := walker.ReadDir(root.tree, [], budget, []);
    out := walker.out;
    StartsEmpty(ReadDir(ctx, root.tree, [], budget));
    if queue != [] {
      out := Merge(out, pool(queue));
    }
  }

  lemma StartsEmpty(step: Step)
    ensures Merge(EMPTY_OUT, step.out) == step.out && [] + step.jobs == step.jobs
  {
  }

  /** The paths such a run warns about; `poolLost` is what the pool warns about for the jobs queued. */
  function RootLosses(ctx: Ctx, root: Root, unopened: bool, budget: seq<Budget>, poolLost: seq<Job> -> set<Bytes>):
    set<Bytes>
    requires root.tree.Dir? ==> |budget| == |root.tree.entries|
  {
    if !IsWalkable(root) || IsNamed(root.name) then {}
    else if unopened || !root.tree.read then {[]}
    else ReadLosses(ctx, root.tree, [], budget) + PoolLosses(ReadDir(ctx, root.tree, [], budget).jobs, poolLost)
  }

  function PoolLosses(jobs: seq<Job>, poolLost: seq<Job> -> set<Bytes>): set<Bytes> {
    if jobs == [] then {} else poolLost(jobs)
  }

  // ---- What such a walk may be relied on for ----

  /** A whole walk on the pool, some worker having left, with its merged output and the paths it warned about.
      Unless `exhausted`, re-opening always found a descriptor. */
  ghost predicate PoolRan(w: World, jobs: seq<Job>, threads: nat, states: seq<Walking>, moves: seq<Move>, i: nat,
                          out: Out, lost: set<Bytes>, exhausted: bool)
  {
    && IsWalk(w, states, moves) && states[0] == Start(jobs, threads)
    && i < |states[|moves|].pool.workers| && states[|moves|].pool.workers[i].pc.Left?
    && (exhausted || NeverExhausted(moves))
    && out == Merged(states[|moves|].outs) && lost == LossesUpTo(w, states, moves, |moves|)
  }

  ghost predicate PoolGives(w: World, jobs: seq<Job>, out: Out, lost: set<Bytes>, exhausted: bool) {
    exists threads, states, moves, i :: PoolRan(w, jobs, threads, states, moves, i, out, lost, exhausted)
  }

  predicate TotalOrShort(sum: Sum, total: Sum, exact: bool) {
    AtMost(sum, total) && (exact || !sum.incomplete ==> sum == total)
  }

  /** What seeds may be relied on for where everything can be searched. */
  ghost predicate RightSoFar(w: World, seeds: seq<Job>, out: Out, lost: set<Bytes>, exhausted: bool) {
    WellFormed(w.root) && Searchable(w.root) ==> IsShortOf(w, seeds, out, lost, exhausted)
  }

  /** A walk of a root gives the tree's total, or says that it is short and is right so far; and it gives the
      total outright unless descriptors ran out or something is hidden behind a path. A root that is not
      walkable, named `*.git` or unreadable is settled without looking inside. */
  ghost predicate HonestWalk(ctx: Ctx, root: Root, walk: Out, lost: set<Bytes>, exhausted: bool) {
    if !(root.tree.Dir? && root.bits) then walk == EMPTY_OUT && lost == {}
    else if IsNamed(root.name) then walk == EmitOut([]) && lost == {}
    else if !root.tree.read then walk == LOST_OUT && lost == {[]}
    else
      && TotalOrShort(Summary(walk), Total(ctx, root.tree, []), !exhausted && Reopenable(ctx, root.tree, []))
      && RightSoFar(World(ctx, root.tree), RootSeed(), walk, lost, exhausted)
  }

  /** Every run's listing of a root is such a walk. */
  lemma WalksAreHonest(ctx: Ctx, root: Root, unopened: bool, exhausted: bool, budget: seq<Budget>,
                       pool: seq<Job> -> Out, poolLost: seq<Job> -> set<Bytes>)
    requires root.tree.Dir? ==> WellFormed(root.tree) && |budget| == |root.tree.entries|
    requires root.tree.Dir? ==>
      var jobs := ReadDir(ctx, root.tree, [], budget).jobs;
      jobs != [] ==> PoolGives(World(ctx, root.tree), jobs, pool(jobs), poolLost(jobs), exhausted)
    requires unopened ==> exhausted
    ensures HonestWalk(ctx, root, RootOut(ctx, root, unopened, budget, pool),
                       RootLosses(ctx, root, unopened, budget, poolLost), exhausted)
  {
    if IsWalkable(root) && !IsNamed(root.name) {
      if unopened || !root.tree.read {
        UnopenedIsHonest(ctx, root, exhausted);
      } else {
        RootReadingIsHonest(World(ctx, root.tree), exhausted, budget, pool, poolLost);
      }
    }
  }

  lemma UnopenedIsHonest(ctx: Ctx, root: Root, exhausted: bool)
    requires IsWalkable(root) && !IsNamed(root.name) && (exhausted || !root.tree.read)
    ensures HonestWalk(ctx, root, LOST_OUT, {[]}, exhausted)
  {
    UnopenedIsRightSoFar(World(ctx, root.tree));
    assert Summary(LOST_OUT).repos == multiset{} && Summary(LOST_OUT).records == multiset{};
  }

  lemma RootReadingIsHonest(w: World, exhausted: bool, budget: seq<Budget>, pool: seq<Job> -> Out,
                            poolLost: seq<Job> -> set<Bytes>)
    requires w.root.Dir? && WellFormed(w.root) && |budget| == |w.root.entries|
    requires var jobs := ReadDir(w.ctx, w.root, [], budget).jobs;
             jobs != [] ==> PoolGives(w, jobs, pool(jobs), poolLost(jobs), exhausted)
    ensures var step := ReadDir(w.ctx, w.root, [], budget);
            var out, lost := WithPool(step, pool),
              ReadLosses(w.ctx, w.root, [], budget) + PoolLosses(step.jobs, poolLost);
            && TotalOrShort(Summary(out), Total(w.ctx, w.root, []), !exhausted && Reopenable(w.ctx, w.root, []))
            && RightSoFar(w, RootSeed(), out, lost, exhausted)
  {
    var jobs := ReadDir(w.ctx, w.root, [], budget).jobs;
    var rest := if jobs == [] then EMPTY_OUT else pool(jobs);
    var lost := PoolLosses(jobs, poolLost);
    RootJobsAreSound(w, budget, jobs);
    PoolOrNothing(w, jobs, rest, lost, exhausted);
    RootTotal(w, budget, rest, !exhausted && Reopenable(w.ctx, w.root, []));
    if Searchable(w.root) {
      RootIsRightSoFar(w, budget, rest, lost, exhausted);
    }
    WithRest(ReadDir(w.ctx, w.root, [], budget), pool, rest);
  }

  lemma WithRest(step: Step, pool: seq<Job> -> Out, rest: Out)
    requires rest == if step.jobs == [] then EMPTY_OUT else pool(step.jobs)
    ensures WithPool(step, pool) == Merge(step.out, rest)
  {
  }

  lemma UnopenedIsRightSoFar(w: World)
    ensures IsShortOf(w, RootSeed(), LOST_OUT, {[]}, true)
  {
    assert RootSeed() == SeedJobs([[]]);
    UnopenedRewalk(w, [[]], {[]});
  }

  lemma PoolOrNothing(w: World, jobs: seq<Job>, rest: Out, lost: set<Bytes>, exhausted: bool)
    requires WellFormed(w.root) && AllSound(w, jobs)
    requires if jobs == [] then rest == EMPTY_OUT && lost == {} else PoolGives(w, jobs, rest, lost, exhausted)
    ensures Determined(w, multiset(jobs), Summary(rest), !exhausted && AllForgive(w, jobs))
    ensures RightSoFar(w, jobs, rest, lost, exhausted)
  {
    if jobs == [] {
      NoJobsNeedNoPool(w, jobs, !exhausted && AllForgive(w, jobs));
      NothingIsRightSoFar(w, exhausted);
    } else {
      PoolIsDetermined(w, jobs, rest, lost, exhausted);
      if Searchable(w.root) {
        PoolIsRightSoFar(w, jobs, rest, lost, exhausted);
      }
    }
  }

  lemma PoolIsDetermined(w: World, jobs: seq<Job>, out: Out, lost: set<Bytes>, exhausted: bool)
    requires WellFormed(w.root) && AllSound(w, jobs) && PoolGives(w, jobs, out, lost, exhausted)
    ensures Determined(w, multiset(jobs), Summary(out), !exhausted && AllForgive(w, jobs))
  {
    var threads, states, moves, i :| PoolRan(w, jobs, threads, states, moves, i, out, lost, exhausted);
    MergedOutputIsDetermined(w, jobs, threads, states, moves, i);
  }

  lemma PoolIsRightSoFar(w: World, jobs: seq<Job>, out: Out, lost: set<Bytes>, exhausted: bool)
    requires WellFormed(w.root) && Searchable(w.root) && AllSound(w, jobs) && PoolGives(w, jobs, out, lost, exhausted)
    ensures IsShortOf(w, jobs, out, lost, exhausted)
  {
    var threads, states, moves, i :| PoolRan(w, jobs, threads, states, moves, i, out, lost, exhausted);
    WalksAreRightSoFar(w, jobs, threads, states, moves, i);
  }

  lemma NoJobsNeedNoPool(w: World, jobs: seq<Job>, exact: bool)
    requires jobs == []
    ensures Determined(w, multiset(jobs), Summary(EMPTY_OUT), exact)
  {
    assert multiset(jobs) == multiset{};
  }

  // ---- Re-walks ----

  /** One job per path; there is no descriptor to inherit. */
  function SeedJobs(rels: seq<Bytes>): seq<Job> {
    seq(|rels|, k requires 0 <= k < |rels| => Job(None, rels[k]))
  }

  lemma {:induction false} JobsOfSeeds(rels: seq<Bytes>, job: Job)
    ensures job in multiset(SeedJobs(rels)) <==> job.fd == None && job.rel in rels
  {
    var jobs := SeedJobs(rels);
    assert job in multiset(jobs) <==> job in jobs;
    if job.fd == None && job.rel in rels {
      var k :| 0 <= k < |rels| && rels[k] == job.rel;
      assert jobs[k] == job;
    }
  }

  /** A re-walk of paths below a root that could be opened a moment ago. */
  function RewalkOut(rels: seq<Bytes>, unopened: bool, pool: seq<Job> -> Out): Out {
    if rels == [] then EMPTY_OUT
    else if unopened then LOST_OUT
    else pool(SeedJobs(rels))
  }

  /** What a re-walk warns about: everything, when the root itself finds no descriptor. */
  function RewalkLosses(rels: seq<Bytes>, unopened: bool, poolLost: seq<Job> -> set<Bytes>): set<Bytes> {
    if rels == [] then {}
    else if unopened then set rel | rel in rels
    else poolLost(SeedJobs(rels))
  }

  lemma NothingIsRightSoFar(w: World, exhausted: bool)
    ensures IsShortOf(w, [], EMPTY_OUT, {}, exhausted)
  {
    var none: seq<Job> := [];
    assert multiset(none) == multiset{};
    WalkRules.SilentListsItsRecords(EMPTY_OUT);
  }

  lemma UnopenedRewalk(w: World, rels: seq<Bytes>, lost: set<Bytes>)
    requires rels != [] && forall rel :: rel in lost <==> rel in rels
    ensures IsShortOf(w, SeedJobs(rels), LOST_OUT, lost, true)
  {
    var jobs := SeedJobs(rels);
    assert rels[0] in lost;
    forall p | p in lost ensures IsPlaced(w, jobs, true, p) {
      var k :| 0 <= k < |rels| && rels[k] == p;
      assert Below(jobs[k].rel, p);
    }
    WalkRules.SilentListsItsRecords(LOST_OUT);
    forall r: Record ensures IsDue(multiset(LOST_OUT.records)[r], RulesBy(w, jobs, r), Covered(lost, r.rel)) {
      if !Covered(lost, r.rel) {
        UncoveredOweNothing(w, rels, lost, r);
      }
    }
  }

  lemma UncoveredOweNothing(w: World, rels: seq<Bytes>, lost: set<Bytes>, r: Record)
    requires (forall rel :: rel in rels ==> rel in lost) && !Covered(lost, r.rel)
    ensures RulesBy(w, SeedJobs(rels), r) == 0
  {
    forall job | job in multiset(SeedJobs(rels)) ensures RulesFor(w, r)(job) == 0 {
      JobsOfSeeds(rels, job);
      OwesBelowItself(w, job, r);
    }
    NoJobCounts(RulesFor(w, r), multiset(SeedJobs(rels)));
  }

  /** A re-walk gives what the paths' subtrees hold, or says that it is short and is right so far; and it gives
      exactly what they hold unless descriptors ran out or something below those paths is hidden. */
  ghost predicate HonestRewalk(ctx: Ctx, tree: Node, rewalk: seq<Bytes> -> Out, lostBy: seq<Bytes> -> set<Bytes>,
                               exhausted: bool)
  {
    forall stale :: RewalkIsHonest(World(ctx, tree), stale, rewalk(stale), lostBy(stale), exhausted)
  }

  ghost predicate RewalkIsHonest(w: World, stale: seq<Bytes>, out: Out, lost: set<Bytes>, exhausted: bool) {
    && Determined(w, multiset(SeedJobs(stale)), Summary(out), !exhausted && AllForgive(w, SeedJobs(stale)))
    && RightSoFar(w, SeedJobs(stale), out, lost, exhausted)
  }

  /** Every run's re-walk is such a walk. `unopened` is the root finding no descriptor. */
  lemma RewalksAreHonest(w: World, rels: seq<Bytes>, unopened: bool, exhausted: bool, pool: seq<Job> -> Out,
                         poolLost: seq<Job> -> set<Bytes>)
    requires WellFormed(w.root) && (unopened ==> exhausted)
    requires var jobs := SeedJobs(rels);
             rels != [] && !unopened ==> PoolGives(w, jobs, pool(jobs), poolLost(jobs), exhausted)
    ensures RewalkIsHonest(w, rels, RewalkOut(rels, unopened, pool), RewalkLosses(rels, unopened, poolLost), exhausted)
  {
    if rels == [] || !unopened {
      PoolOrNothing(w, SeedJobs(rels), RewalkOut(rels, unopened, pool), RewalkLosses(rels, unopened, poolLost),
                    exhausted);
    } else {
      UnopenedRewalk(w, rels, RewalkLosses(rels, unopened, poolLost));
    }
  }
}
