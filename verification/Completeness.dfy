/** When an answer from the index is complete, given that a full walk of the tree would be: a re-walk opens
    its paths where a walk asks their parents, so it can fall short of a walk that does not. */
module Completeness {
  import opened Bytes
  import opened Paths
  import opened FileTree
  import opened Walk
  import opened Counting
  import opened WalkRules
  import opened IndexFormat
  import opened IndexValidate
  import opened RootWalk
  import opened ShortWalks
  import opened CachedListing
  import PoolWalk

  // ---- What a complete walk says about the directories it descends into ----

  /** A complete walk has read every directory the rules descend into, and lost nothing in it. */
  lemma {:induction false} WalkReaches(ctx: Ctx, root: Node, rel: Bytes)
    requires root.Dir? && FileTree.WellFormed(root) && Searchable(root) && !Total(ctx, root, []).incomplete
    requires RoleOf(ctx, [], root, rel).Descended?
    ensures var d := RoleOf(ctx, [], root, rel).dir;
            && !Total(ctx, d, rel).incomplete && (rel != [] ==> d.read)
            && (PoolWalk.Reopenable(ctx, root, []) ==> PoolWalk.Reopenable(ctx, d, rel))
    decreases |rel|
  {
    if rel != [] {
      var q := ParentOf(rel);
      WalkReaches(ctx, root, q);
      RolesResolve(ctx, root, q);
      PoolWalk.ResolvedIsPart(root, q);
      DescendedHasNoGit(ctx, [], root, q);
      var dir := RoleOf(ctx, [], root, q).dir;
      ChildIsReached(ctx, dir, q, IndexOf(dir.entries, Basename(rel)));
    }
  }

  /** One level of it. */
  lemma {:induction false} ChildIsReached(ctx: Ctx, dir: Node, rel: Bytes, i: nat)
    requires dir.Dir? && FileTree.WellFormed(dir) && Searchable(dir) && !HasGit(dir.entries)
    requires !Total(ctx, dir, rel).incomplete && i < |dir.entries|
    requires ChildRole(ctx, dir, JoinRel(rel, dir.entries[i].name)) == Descended(dir.entries[i].node)
    ensures var e := dir.entries[i];
            && e.node.Dir? && e.node.read && !Total(ctx, e.node, JoinRel(rel, e.name)).incomplete
            && (PoolWalk.Reopenable(ctx, dir, rel) ==> PoolWalk.Reopenable(ctx, e.node, JoinRel(rel, e.name)))
  {
    var e := dir.entries[i];
    JoinSplits(rel, e.name);
    IndexOfEntry(dir.entries, i);
    assert !IsRepoDir(dir);
    CompleteEntries(ctx, dir, rel);
    KeptEntryIsEntered(ctx, dir, rel, e);
  }

  /** An ordinary directory that was not lost was opened. */
  lemma {:induction false} KeptEntryIsEntered(ctx: Ctx, dir: Node, rel: Bytes, e: Entry)
    requires dir.Dir? && dir.search && e in dir.entries && !TotalEntry(ctx, dir, rel, e).incomplete
    requires e.node.Dir? && !IsExcluded(ctx, JoinRel(rel, e.name)) && !EndsWith(e.name, DOT_GIT) &&
             !HasGit(e.node.entries)
    ensures Enters(ctx, dir, rel, e) && TotalEntry(ctx, dir, rel, e) == Total(ctx, e.node, JoinRel(rel, e.name))
  {
    assert Decide(ctx, dir, rel, e) == Queue;
  }

  // ---- Which stale entries a re-walk loses ----

  /** A repository at `rel` that cannot be read to its end. */
  predicate UnreadableRepository(root: Node, rel: Bytes) {
    match Resolve(root, rel)
    case Found(Dir(_, read, _, intact, entries)) => HasGit(entries) && !(read && intact)
    case _ => false
  }

  /** What a full walk does not lose, the re-walk of a stale entry loses only if it is such a repository. */
  lemma {:induction false} StaleEntryIsLostIff(v: Revisit, k: nat)
    requires Sound(v) && Consults(v, k) && !Hit(v.ix, Probes(v), k) && k != 0
    requires !Total(v.ctx, v.now, []).incomplete
    ensures Rewalked(v, Rel(v, k)).incomplete <==> UnreadableRepository(v.now, Rel(v, k))
    ensures PoolWalk.Reopenable(v.ctx, v.now, []) ==> PoolWalk.Forgives(World(v), Job(None, Rel(v, k)))
  {
    StaleEntryRole(v, k);
    if DirAt(v.now, Rel(v, k)).Some? {
      StaleDirectoryIsLostIff(v.ctx, v.now, Rel(v, k));
    }
  }

  lemma {:induction false} StaleDirectoryIsLostIff(ctx: Ctx, root: Node, rel: Bytes)
    requires root.Dir? && FileTree.WellFormed(root) && Searchable(root) && !Total(ctx, root, []).incomplete
    requires rel != [] && DirAt(root, rel).Some?
    requires var now := DirAt(root, rel).value;
             RoleOf(ctx, [], root, rel) == if HasGit(now.entries) then Repository else Descended(now)
    ensures PoolWalk.OwedSum(PoolWalk.World(ctx, root), Job(None, rel)).incomplete <==> UnreadableRepository(root, rel)
    ensures PoolWalk.Reopenable(ctx, root, []) ==> PoolWalk.Forgives(PoolWalk.World(ctx, root), Job(None, rel))
  {
    PoolWalk.ResolvedIsPart(root, rel);
    var now := DirAt(root, rel).value;
    if HasGit(now.entries) {
      assert IsRepoDir(now);
    } else {
      WalkReaches(ctx, root, rel);
    }
  }

  /** The re-walk's jobs lose something exactly when one of its paths is an unreadable repository. */
  lemma {:induction false} RewalkLosesIff(v: Revisit, order: seq<nat>)
    requires Passed(v, order) && !Total(v.ctx, v.now, []).incomplete
    ensures PoolWalk.Loses(World(v), multiset(SeedJobs(StaleOf(v.ix, Probes(v), order)))) <==>
            exists k :: IsStale(v, k) && UnreadableRepository(v.now, Rel(v, k))
  {
    var stale := StaleOf(v.ix, Probes(v), order);
    var jobs := multiset(SeedJobs(stale));
    if k: nat :| IsStale(v, k) && UnreadableRepository(v.now, Rel(v, k)) {
      StaleIsInOrder(v, order, k);
      StaleEntryIsLostIff(v, k);
      JobsOfSeeds(stale, Job(None, Rel(v, k)));
    }
    if job :| job in jobs && PoolWalk.OwedSum(World(v), job).incomplete {
      JobsOfSeeds(stale, job);
      var k := StaleJobIs(v, order, job.rel);
      StaleEntryIsLostIff(v, k);
    }
  }

  lemma {:induction false} RewalkForgives(v: Revisit, order: seq<nat>)
    requires Passed(v, order) && !Total(v.ctx, v.now, []).incomplete && PoolWalk.Reopenable(v.ctx, v.now, [])
    ensures PoolWalk.AllForgive(World(v), SeedJobs(StaleOf(v.ix, Probes(v), order)))
  {
    var stale := StaleOf(v.ix, Probes(v), order);
    forall j | 0 <= j < |stale| ensures PoolWalk.Forgives(World(v), SeedJobs(stale)[j]) {
      var k := StaleJobIs(v, order, stale[j]);
      StaleEntryIsLostIff(v, k);
    }
  }

  /** Where a full walk is complete, and descriptors last, the index's answer is complete exactly when no
      entry it hands back for re-walking is a repository that cannot be read. */
  lemma {:induction false} AnswerIsCompleteIff(v: Revisit, order: seq<nat>, rest: Out, lost: set<Bytes>)
    requires Passed(v, order) && !Total(v.ctx, v.now, []).incomplete && PoolWalk.Reopenable(v.ctx, v.now, [])
    requires RewalkIsHonest(World(v), StaleOf(v.ix, Probes(v), order), rest, lost, false)
    ensures !rest.incomplete <==> forall k :: IsStale(v, k) ==> !UnreadableRepository(v.now, Rel(v, k))
  {
    RewalkForgives(v, order);
    RewalkLosesIff(v, order);
  }

  /** In particular on a tree that can be read. */
  lemma {:induction false} ReadableAnswersAreComplete(v: Revisit, order: seq<nat>, rest: Out, lost: set<Bytes>)
    requires Passed(v, order) && Readable(v.now)
    requires RewalkIsHonest(World(v), StaleOf(v.ix, Probes(v), order), rest, lost, false)
    ensures !rest.incomplete
  {
    ReadableWalksAreComplete(v.ctx, v.now, []);
    PoolWalk.ReadableIsReopenable(v.ctx, v.now, []);
    AnswerIsCompleteIff(v, order, rest, lost);
    forall k | IsStale(v, k) ensures !UnreadableRepository(v.now, Rel(v, k)) {
      NothingIsUnreadable(v.now, Rel(v, k));
    }
  }

  lemma {:induction false} NothingIsUnreadable(root: Node, rel: Bytes)
    requires FileTree.WellFormed(root) && Readable(root)
    ensures !UnreadableRepository(root, rel)
  {
    if Resolve(root, rel).Found? {
      PoolWalk.ResolvedIsPart(root, rel);
    }
  }

  // ---- What is lost is missing from the answer ----

  lemma LostRewalkIsEmpty(v: Revisit, k: nat)
    requires IsStale(v, k) && UnreadableRepository(v.now, Rel(v, k))
    ensures Rewalked(v, Rel(v, k)).records == multiset{}
  {
  }

  /** No re-walk records the path of one that is lost. */
  lemma {:induction false} NobodyElseRecordsIt(v: Revisit, k: nat, j: nat)
    requires Sound(v) && !Total(v.ctx, v.now, []).incomplete && k != 0 && j != 0
    requires IsStale(v, k) && UnreadableRepository(v.now, Rel(v, k)) && IsStale(v, j)
    ensures Rewalked(v, Rel(v, j)).records[Record(Rel(v, k), None)] == 0
  {
    StaleEntryIsLostIff(v, j);
    if UnreadableRepository(v.now, Rel(v, j)) {
      LostRewalkIsEmpty(v, j);
    } else {
      if Below(Rel(v, j), Rel(v, k)) {
        OneEntrySettles(v, j, k, Rel(v, k));
        assert false;
      }
      StaleEntryKeepsToItself(v, j, Record(Rel(v, k), None));
    }
  }

  ghost function OwedForStale(v: Revisit, order: seq<nat>, q: Tally): nat
    requires InRange(order, |v.ix.entries|)
  {
    PoolWalk.OwedBy(World(v), multiset(SeedJobs(StaleOf(v.ix, Probes(v), order))), q)
  }

  lemma {:induction false} LostRepositoryIsNotRecorded(v: Revisit, order: seq<nat>, rest: Out, lost: set<Bytes>,
                                                       k: nat)
    requires Passed(v, order) && !Total(v.ctx, v.now, []).incomplete && PoolWalk.Reopenable(v.ctx, v.now, [])
    requires RewalkIsHonest(World(v), StaleOf(v.ix, Probes(v), order), rest, lost, false)
    requires IsStale(v, k) && UnreadableRepository(v.now, Rel(v, k))
    ensures multiset(HitsOf(v.ix, Probes(v), order) + rest.records)[Record(Rel(v, k), None)] == 0
  {
    var r := Record(Rel(v, k), None);
    NoRewalkOwesIt(v, order, k);
    RewalkRecords(v, order, rest, lost, r);
    NoHitRecordsIt(v, order, k);
    NeitherHas(HitsOf(v.ix, Probes(v), order), rest.records, r);
  }

  lemma {:induction false} RewalkRecords(v: Revisit, order: seq<nat>, rest: Out, lost: set<Bytes>, r: Record)
    requires Passed(v, order) && !Total(v.ctx, v.now, []).incomplete && PoolWalk.Reopenable(v.ctx, v.now, [])
    requires RewalkIsHonest(World(v), StaleOf(v.ix, Probes(v), order), rest, lost, false)
    ensures multiset(rest.records)[r] == OwedForStale(v, order, OfRecord(r))
  {
    RewalkForgives(v, order);
    ExactRecords(World(v), multiset(SeedJobs(StaleOf(v.ix, Probes(v), order))), rest, r);
  }

  lemma {:induction false} ExactRecords(w: PoolWalk.World, jobs: multiset<Job>, rest: Out, r: Record)
    requires PoolWalk.Determined(w, jobs, Summary(rest), true)
    ensures multiset(rest.records)[r] == PoolWalk.OwedBy(w, jobs, OfRecord(r))
  {
    assert Count(Summary(rest), OfRecord(r)) == PoolWalk.OwedBy(w, jobs, OfRecord(r));
  }

  lemma NeitherHas(a: seq<Record>, b: seq<Record>, r: Record)
    requires multiset(a)[r] == 0 && multiset(b)[r] == 0
    ensures multiset(a + b)[r] == 0
  {
  }

  lemma {:induction false} NoRewalkOwesIt(v: Revisit, order: seq<nat>, k: nat)
    requires Passed(v, order) && !Total(v.ctx, v.now, []).incomplete
    requires IsStale(v, k) && UnreadableRepository(v.now, Rel(v, k))
    ensures OwedForStale(v, order, OfRecord(Record(Rel(v, k), None))) == 0
  {
    var q, jobs := OfRecord(Record(Rel(v, k), None)), multiset(SeedJobs(StaleOf(v.ix, Probes(v), order)));
    forall job | job in jobs ensures Counted(World(v), q)(job) == 0 {
      NoJobOwesIt(v, order, k, job);
    }
    NoJobCounts(Counted(World(v), q), jobs);
    OwedIsCounted(World(v), jobs, Record(Rel(v, k), None));
  }

  lemma {:induction false} NoJobOwesIt(v: Revisit, order: seq<nat>, k: nat, job: Job)
    requires Passed(v, order) && !Total(v.ctx, v.now, []).incomplete
    requires IsStale(v, k) && UnreadableRepository(v.now, Rel(v, k))
    requires job in multiset(SeedJobs(StaleOf(v.ix, Probes(v), order)))
    ensures Counted(World(v), OfRecord(Record(Rel(v, k), None)))(job) == 0
  {
    StaleIsInOrder(v, order, k);
    JobsOfSeeds(StaleOf(v.ix, Probes(v), order), job);
    var j := StaleJobIs(v, order, job.rel);
    NobodyElseRecordsIt(v, k, j);
  }

  function Counted(w: PoolWalk.World, q: Tally): Job -> nat {
    job => Count(PoolWalk.OwedSum(w, job), q)
  }

  lemma {:induction false} OwedIsCounted(w: PoolWalk.World, jobs: multiset<Job>, r: Record)
    ensures PoolWalk.OwedBy(w, jobs, OfRecord(r)) == JobSum(Counted(w, OfRecord(r)), jobs)
    decreases |jobs|
  {
    if jobs != multiset{} {
      OwedIsCounted(w, jobs - multiset{PoolWalk.Pick(jobs)}, r);
    }
  }

  lemma {:induction false} NoHitRecordsIt(v: Revisit, order: seq<nat>, k: nat)
    requires Passed(v, order) && IsStale(v, k)
    ensures multiset(HitsOf(v.ix, Probes(v), order))[Record(Rel(v, k), None)] == 0
  {
    var r := Record(Rel(v, k), None);
    forall j | 0 <= j < |order| && Hit(v.ix, Probes(v), order[j]) ensures RecordAt(v.ix, Probes(v), order[j]) != r {
      DifferentPaths(v, order[j], k);
    }
    NotAmongHits(v.ix, Probes(v), order, r);
  }

  lemma {:induction false} LostRepositoryIsMissing(v: Revisit, order: seq<nat>, rest: Out, lost: set<Bytes>, k: nat)
    requires Passed(v, order) && !Total(v.ctx, v.now, []).incomplete && PoolWalk.Reopenable(v.ctx, v.now, [])
    requires RewalkIsHonest(World(v), StaleOf(v.ix, Probes(v), order), rest, lost, false)
    requires IsStale(v, k) && UnreadableRepository(v.now, Rel(v, k))
    ensures multiset(AnswerOf(v, order, rest).repos)[Rel(v, k)] == 0 && Listed(v.ctx, v.now, Rel(v, k)) == 1
  {
    var rel, records := Rel(v, k), HitsOf(v.ix, Probes(v), order) + rest.records;
    LostRepositoryIsNotRecorded(v, order, rest, lost, k);
    StaleIsInOrder(v, order, k);
    StaleEntryRole(v, k);
    DotHasNoRole(v.ctx, v.now);
    RepoPathsCount(records, rest.dirsRead, rest.excluded, rest.incomplete);
    assert Summary(AnswerOf(v, order, rest)).repos[rel] == 0;
  }

  /** The promise that the index lists what a walk would list. Over a tree that a walk covers completely, with
      descriptors to spare, it holds, down to every record, exactly when no entry handed back for re-walking
      is a repository that cannot be read; otherwise such a repository is missing. */
  lemma {:induction false} AnswerIsRightIff(v: Revisit, order: seq<nat>, rest: Out, lost: set<Bytes>)
    requires Passed(v, order) && !Total(v.ctx, v.now, []).incomplete && PoolWalk.Reopenable(v.ctx, v.now, [])
    requires RewalkIsHonest(World(v), StaleOf(v.ix, Probes(v), order), rest, lost, false)
    ensures IsTheListing(v.ctx, v.now, AnswerOf(v, order, rest)) <==>
            forall k :: IsStale(v, k) ==> !UnreadableRepository(v.now, Rel(v, k))
    ensures IsTheListing(v.ctx, v.now, AnswerOf(v, order, rest)) <==> !rest.incomplete
  {
    AnswerIsCompleteIff(v, order, rest, lost);
    if rest.incomplete {
      var k :| IsStale(v, k) && UnreadableRepository(v.now, Rel(v, k));
      LostRepositoryIsMissing(v, order, rest, lost, k);
    } else {
      CachedListingIsFresh(v, order, rest, lost, false);
    }
  }
}
