/** When a walk's result depends on the descriptor budget: every walk gives the tree's total exactly when
    no directory it enters holds an unreadable child that only its parent's `.git` probe would list. */
module Reopening {
  import opened Bytes
  import opened Paths
  import opened FileTree
  import opened Walk
  import opened Counting
  import opened PoolWalk
  import Pool

  // ---- Walks come to an end ----

  /** The directories still to be run, at most. */
  ghost function WorkLeft(w: World, s: Walking): nat {
    OwedBy(w, Pool.LiveJobs(s.pool), OfJobs)
  }

  ghost predicate IsIdling(m: Move) {
    m.Schedule? && (m.a.Park? || m.a.Wake?)
  }

  /** Progress: every move but parking and waking leaves less work, or as much and a worker nearer to its
      next job or to leaving. So a walk has only finitely many such moves. */
  lemma MovesMakeProgress(w: World, s: Walking, seeds: multiset<Job>, m: Move)
    requires WellFormed(w.root) && Inv(w, s, seeds, false) && Can(w, s, m) && !IsIdling(m)
    ensures var s' := Do(w, s, m);
            || WorkLeft(w, s') < WorkLeft(w, s)
            || (WorkLeft(w, s') == WorkLeft(w, s) && Pool.Ranks(s'.pool.workers) < Pool.Ranks(s.pool.workers))
  {
    match m
    case Schedule(a) =>
      Pool.StepKeepsInv(s.pool, a);
      Pool.StepsMakeProgress(s.pool, a);
    case Read(me, exhausted, budget) =>
      var job := s.pool.workers[me].pc.job;
      var step := RunJob(w.ctx, w.root, job, exhausted, budget);
      Pool.StepKeepsInv(s.pool, Pool.RunJob(me, step.jobs));
      HeldJobIsLive(s.pool, me);
      JobPaysUp(w, job, exhausted, budget, OfJobs, false);
      var rest := Pool.LiveJobs(s.pool) - multiset{job};
      assert Pool.LiveJobs(s.pool) == rest + multiset{job};
      OwedByOneMore(w, rest, job, OfJobs);
      OwedByMore(w, rest, multiset(step.jobs), OfJobs);
  }

  ghost predicate AllSpent(budget: seq<Budget>) {
    forall k :: 0 <= k < |budget| ==> budget[k] == Spent
  }

  /** Every child is queued by path, and descriptors suffice for re-opening. */
  ghost predicate ByPathOnly(m: Move) {
    m.Read? ==> AllSpent(m.budget) && !m.exhausted
  }

  /** Only the first worker has anything to do. */
  ghost predicate Alone(s: Walking) {
    && 0 < |s.pool.workers| == |s.outs|
    && !s.pool.workers[0].pc.Parked? && !s.pool.workers[0].pc.Left?
    && !s.pool.workers[0].pc.Unwinding? && !s.pool.workers[0].pc.Dead?
    && (forall i :: 0 < i < |s.pool.workers| ==> s.pool.workers[i] == Pool.Worker(Pool.Seeking, []))
  }

  /** A move of the first worker that leaves it alone, or ends it. */
  ghost predicate GoesOnAlone(w: World, s: Walking, m: Move) {
    && Can(w, s, m) && !IsIdling(m) && ByPathOnly(m)
    && (Alone(Do(w, s, m)) || Do(w, s, m).pool.workers[0].pc.Left?)
  }

  /** What the first worker does next on its own. */
  lemma NextAlone(w: World, s: Walking) returns (m: Move)
    requires Pool.Inv(s.pool) && Alone(s)
    requires s.pool.workers[0].pc.Holding? ==> Sound(w, s.pool.workers[0].pc.job)
    ensures GoesOnAlone(w, s, m)
  {
    if s.pool.workers[0].pc.Holding? {
      m := ReadAlone(w, s);
    } else {
      m := ScheduleAlone(w, s);
    }
  }

  lemma ScheduleAlone(w: World, s: Walking) returns (m: Move)
    requires Pool.Inv(s.pool) && Alone(s) && !s.pool.workers[0].pc.Holding?
    ensures GoesOnAlone(w, s, m)
  {
    var a := NextAction(s.pool);
    m := Schedule(a);
  }

  lemma ReadAlone(w: World, s: Walking) returns (m: Move)
    requires Alone(s) && s.pool.workers[0].pc.Holding? && Sound(w, s.pool.workers[0].pc.job)
    ensures GoesOnAlone(w, s, m)
  {
    var dir := ResolvedDir(w.root, s.pool.workers[0].pc.job);
    var n := if dir.Some? then |dir.value.entries| else 0;
    m := Read(0, false, seq(n, _ => Spent));
  }

  lemma NextAction(s: Pool.State<Job>) returns (a: Pool.Action<Job>)
    requires Pool.Inv(s) && 0 < |s.workers| &&
             (forall i :: 0 < i < |s.workers| ==> s.workers[i] == Pool.Worker(Pool.Seeking, []))
    requires s.workers[0].pc.Seeking? || s.workers[0].pc.Counting? || s.workers[0].pc.Pushing?
    ensures Pool.Enabled(s, a) && !a.RunJob? && !a.Panic? && !a.Park? && !a.Wake? && a.me == 0
    ensures var s' := Pool.Apply(s, a);
            && |s'.workers| == |s.workers|
            && (forall i :: 0 < i < |s'.workers| ==> s'.workers[i] == s.workers[i])
            && !s'.workers[0].pc.Parked? && !s'.workers[0].pc.Unwinding? && !s'.workers[0].pc.Dead?
  {
    if s.workers[0].pc.Seeking? {
      if s.workers[0].local != [] {
        a := Pool.Pop(0);
      } else if s.injector != [] {
        a := Pool.StealSeeds(0, 1);
      } else {
        Pool.CountIsZeroWhenQuiet(s);
        a := Pool.Leave(0);
      }
    } else {
      a := Pool.NextOf(s, 0);
    }
  }

  ghost predicate AllByPath(moves: seq<Move>) {
    forall k :: 0 <= k < |moves| ==> ByPathOnly(moves[k])
  }

  lemma ConsWalk(w: World, s: Walking, m: Move, states: seq<Walking>, moves: seq<Move>)
    requires Can(w, s, m) && IsWalk(w, states, moves) && states[0] == Do(w, s, m)
    requires ByPathOnly(m) && AllByPath(moves)
    ensures IsWalk(w, [s] + states, [m] + moves) && AllByPath([m] + moves)
    ensures ([s] + states)[|[m] + moves|] == states[|moves|]
  {
    var states', moves' := [s] + states, [m] + moves;
    forall k | 0 <= k < |moves'|
      ensures Can(w, states'[k], moves'[k]) && states'[k + 1] == Do(w, states'[k], moves'[k])
    {
      if k > 0 {
        assert Can(w, states[k - 1], moves[k - 1]);
      }
    }
  }

  ghost predicate FirstHasLeft(s: Walking) {
    0 < |s.pool.workers| && s.pool.workers[0].pc.Left?
  }

  /** From any moment the first worker can finish the walk on its own, queueing every child by path. */
  lemma {:induction false} FinishAlone(w: World, s: Walking, seeds: multiset<Job>)
    returns (states: seq<Walking>, moves: seq<Move>)
    requires WellFormed(w.root) && Inv(w, s, seeds, false) && Alone(s)
    ensures IsWalk(w, states, moves) && states[0] == s && AllByPath(moves) && FirstHasLeft(states[|moves|])
    decreases WorkLeft(w, s), Pool.Ranks(s.pool.workers)
  {
    var m := StepAlone(w, s, seeds);
    var s' := Do(w, s, m);
    if Alone(s') {
      states, moves := FinishAlone(w, s', seeds);
    } else {
      states, moves := [s'], [];
    }
    ConsWalk(w, s, m, states, moves);
    states, moves := [s] + states, [m] + moves;
  }

  lemma StepAlone(w: World, s: Walking, seeds: multiset<Job>) returns (m: Move)
    requires WellFormed(w.root) && Inv(w, s, seeds, false) && Alone(s)
    ensures Can(w, s, m) && ByPathOnly(m) && Inv(w, Do(w, s, m), seeds, false)
    ensures Alone(Do(w, s, m)) || FirstHasLeft(Do(w, s, m))
    ensures var s' := Do(w, s, m);
            || WorkLeft(w, s') < WorkLeft(w, s)
            || (WorkLeft(w, s') == WorkLeft(w, s) && Pool.Ranks(s'.pool.workers) < Pool.Ranks(s.pool.workers))
  {
    if s.pool.workers[0].pc.Holding? {
      HeldJobIsLive(s.pool, 0);
    }
    m := NextAlone(w, s);
    MovesMakeProgress(w, s, seeds, m);
    MoveKeepsInv(w, s, seeds, false, m);
  }

  // ---- What is hidden behind a path ----

  /** An entry of a directory, and the directory's path. */
  datatype Spot = Spot(dir: Node, rel: Bytes, e: Entry)

  function PathOf(h: Spot): Bytes {
    JoinRel(h.rel, h.e.name)
  }

  /** An unreadable child, to be opened by the rules of its directory's walk. */
  predicate IsHidden(w: World, h: Spot) {
    && h.dir.Dir? && DistinctNames(h.dir.entries) && h.e in h.dir.entries
    && Resolve(w.root, h.rel) == Found(h.dir) && Hides(w.ctx, h.dir, h.rel, h.e)
  }

  lemma HiddenIsRefused(w: World, h: Spot)
    requires IsHidden(w, h)
    ensures OpenAt(w.root, PathOf(h)) == Refused && PathOf(h) != []
  {
    var i :| 0 <= i < |h.dir.entries| && h.dir.entries[i] == h.e;
    ResolveChild(w.root, h.rel, h.dir, i);
    JoinSplits(h.rel, h.e.name);
  }

  function Listed(path: Bytes): Record {
    Record(path, None)
  }

  /** Past the budget an entry is queued by path, or settled without being that repository. */
  lemma {:induction false} EntryIsBlind(w: World, dir: Node, rel: Bytes, e: Entry, h: Spot)
    requires dir.Dir? && DistinctNames(dir.entries) && e in dir.entries && Resolve(w.root, rel) == Found(dir)
    requires IsHidden(w, h)
    ensures var step := EntryStep(w.ctx, dir, rel, e, Spent);
            Listed(PathOf(h)) !in step.out.records
  {
    if JoinRel(rel, e.name) == PathOf(h) {
      SameSpot(dir, rel, e, h.rel, h.e.name);
      SameName(dir, e, h.e);
    }
  }

  lemma SameSpot(dir: Node, rel: Bytes, e: Entry, rel': Bytes, name: Bytes)
    requires dir.Dir? && DistinctNames(dir.entries) && e in dir.entries && IsName(name)
    requires JoinRel(rel, e.name) == JoinRel(rel', name)
    ensures rel == rel' && e.name == name
  {
    JoinSplits(rel, e.name);
    JoinSplits(rel', name);
  }

  lemma SameName(dir: Node, a: Entry, b: Entry)
    requires dir.Dir? && DistinctNames(dir.entries) && a in dir.entries && b in dir.entries && a.name == b.name
    ensures a == b
  {
    var i :| 0 <= i < |dir.entries| && dir.entries[i] == a;
    var j :| 0 <= j < |dir.entries| && dir.entries[j] == b;
    IndexOfEntry(dir.entries, i);
    IndexOfEntry(dir.entries, j);
  }

  /** What no entry's step lists or queues, the directory's steps do not. */
  lemma {:induction false} StepsNeverList(r: Record, ctx: Ctx, dir: Node, rel: Bytes, budget: seq<Budget>, n: nat)
    requires dir.Dir? && n <= |dir.entries| == |budget| && r != Record(rel, Some(dir.mtime))
    requires forall k :: 0 <= k < n ==> r !in EntryStep(ctx, dir, rel, dir.entries[k], budget[k]).out.records
    ensures r !in EntrySteps(ctx, dir, rel, budget, n).out.records
    decreases n
  {
    if n > 0 {
      StepsNeverList(r, ctx, dir, rel, budget, n - 1);
    }
  }

  lemma {:induction false} StepsQueueByPath(ctx: Ctx, dir: Node, rel: Bytes, budget: seq<Budget>, n: nat)
    requires dir.Dir? && n <= |dir.entries| == |budget| && AllSpent(budget)
    ensures forall job :: job in EntrySteps(ctx, dir, rel, budget, n).jobs ==> job.fd == None
    decreases n
  {
    if n > 0 {
      StepsQueueByPath(ctx, dir, rel, budget, n - 1);
      assert forall job :: job in EntryStep(ctx, dir, rel, dir.entries[n - 1], Spent).jobs ==> job.fd == None;
    }
  }

  lemma {:induction false} DirectoryIsBlind(w: World, dir: Node, rel: Bytes, budget: seq<Budget>, h: Spot)
    requires dir.Dir? && DistinctNames(dir.entries) && Resolve(w.root, rel) == Found(dir) && rel != PathOf(h)
    requires |dir.entries| == |budget| && AllSpent(budget) && IsHidden(w, h)
    ensures var step := ReadDir(w.ctx, dir, rel, budget);
            Listed(PathOf(h)) !in step.out.records && forall job :: job in step.jobs ==> job.fd == None
  {
    forall k | 0 <= k < |budget|
      ensures Listed(PathOf(h)) !in EntryStep(w.ctx, dir, rel, dir.entries[k], budget[k]).out.records
    {
      EntryIsBlind(w, dir, rel, dir.entries[k], h);
    }
    StepsNeverList(Listed(PathOf(h)), w.ctx, dir, rel, budget, |dir.entries|);
    StepsQueueByPath(w.ctx, dir, rel, budget, |dir.entries|);
  }

  lemma JobIsBlind(w: World, job: Job, budget: seq<Budget>, h: Spot)
    requires WellFormed(w.root) && job.fd == None && AllSpent(budget) && IsHidden(w, h)
    requires ResolvedDir(w.root, job).Some? ==> |budget| == |ResolvedDir(w.root, job).value.entries|
    ensures var step := RunJob(w.ctx, w.root, job, false, budget);
            Listed(PathOf(h)) !in step.out.records && forall j :: j in step.jobs ==> j.fd == None
  {
    HiddenIsRefused(w, h);
    if ResolvedDir(w.root, job).Some? {
      ResolvedIsPart(w.root, job.rel);
      DirectoryIsBlind(w, ResolvedDir(w.root, job).value, job.rel, budget, h);
    }
  }

  // ---- A whole walk by path ----

  ghost predicate Blind(s: Walking, h: Spot) {
    && (forall job :: job in Pool.LiveJobs(s.pool) ==> job.fd == None)
    && (forall i :: 0 <= i < |s.outs| ==> Listed(PathOf(h)) !in s.outs[i].records)
  }

  lemma MoveStaysBlind(w: World, s: Walking, m: Move, h: Spot)
    requires WellFormed(w.root) && Pool.Inv(s.pool) && Can(w, s, m) && ByPathOnly(m) && IsHidden(w, h) && Blind(s, h)
    ensures Blind(Do(w, s, m), h)
  {
    match m
    case Schedule(a) => Pool.StepKeepsInv(s.pool, a);
    case Read(me, exhausted, budget) =>
      HeldJobIsLive(s.pool, me);
      ReadStaysBlind(w, s, me, budget, s.pool.workers[me].pc.job, h);
  }

  lemma ReadStaysBlind(w: World, s: Walking, me: nat, budget: seq<Budget>, job: Job, h: Spot)
    requires WellFormed(w.root) && Pool.Inv(s.pool) && Can(w, s, Read(me, false, budget)) && AllSpent(budget)
    requires IsHidden(w, h) && Blind(s, h) && job == s.pool.workers[me].pc.job && job.fd == None
    ensures Blind(Do(w, s, Read(me, false, budget)), h)
  {
    JobIsBlind(w, job, budget, h);
    var step := RunJob(w.ctx, w.root, job, false, budget);
    Pool.StepKeepsInv(s.pool, Pool.RunJob(me, step.jobs));
    var s' := Do(w, s, Read(me, false, budget));
    forall j | j in Pool.LiveJobs(s'.pool) ensures j.fd == None {
      assert j in Pool.LiveJobs(s.pool) || j in multiset(step.jobs);
    }
    assert s'.outs == s.outs[me := Merge(s.outs[me], step.out)];
  }

  lemma PoolInvHolds(w: World, seeds: seq<Job>, threads: nat, states: seq<Walking>, moves: seq<Move>, k: nat)
    requires WellFormed(w.root) && AllSound(w, seeds)
    requires IsWalk(w, states, moves) && states[0] == Start(seeds, threads) && k <= |moves|
    ensures Pool.Inv(states[k].pool)
  {
    WalkKeepsInv(w, seeds, threads, states, moves, false, k);
  }

  lemma StartIsBlind(seeds: seq<Job>, threads: nat, h: Spot)
    requires forall j :: j in seeds ==> j.fd == None
    ensures Blind(Start(seeds, threads), h)
  {
    Pool.InitInv(seeds, threads);
    assert forall j :: j in multiset(seeds) ==> j in seeds;
  }

  lemma BlindStep(w: World, seeds: seq<Job>, threads: nat, states: seq<Walking>, moves: seq<Move>, h: Spot, k: nat)
    requires WellFormed(w.root) && AllSound(w, seeds)
    requires IsWalk(w, states, moves) && states[0] == Start(seeds, threads) && k < |moves|
    requires AllByPath(moves) && IsHidden(w, h) && Blind(states[k], h)
    ensures Blind(states[k + 1], h)
  {
    PoolInvHolds(w, seeds, threads, states, moves, k);
    WalkMoves(w, states, moves, k);
    assert ByPathOnly(moves[k]);
    MoveStaysBlind(w, states[k], moves[k], h);
  }

  lemma {:induction false} AlwaysHolds(P: Walking -> bool, states: seq<Walking>, k: nat)
    requires k < |states| && P(states[0])
    requires forall j :: 0 <= j < |states| - 1 && P(states[j]) ==> P(states[j + 1])
    ensures P(states[k])
  {
    if k > 0 {
      AlwaysHolds(P, states, k - 1);
      assert P(states[k - 1 + 1]);
    }
  }

  lemma WalkStaysBlind(w: World, seeds: seq<Job>, threads: nat, states: seq<Walking>, moves: seq<Move>, h: Spot, k: nat)
    requires WellFormed(w.root) && AllSound(w, seeds) && (forall j :: j in seeds ==> j.fd == None)
    requires IsWalk(w, states, moves) && states[0] == Start(seeds, threads) && k <= |moves|
    requires AllByPath(moves) && IsHidden(w, h)
    ensures Blind(states[k], h)
  {
    StartIsBlind(seeds, threads, h);
    forall j | 0 <= j < |moves| && Blind(states[j], h) ensures Blind(states[j + 1], h) {
      BlindStep(w, seeds, threads, states, moves, h, j);
    }
    AlwaysHolds(s => Blind(s, h), states, k);
  }

  lemma {:induction false} BlindOutputsMerge(outs: seq<Out>, h: Spot)
    requires forall i :: 0 <= i < |outs| ==> Listed(PathOf(h)) !in outs[i].records
    ensures Listed(PathOf(h)) !in Merged(outs).records
  {
    if outs != [] {
      BlindOutputsMerge(outs[..|outs| - 1], h);
    }
  }

  /** Seeds queued by path have a walk that ends, never runs out of descriptors, and never lists what is
      hidden behind a path. */
  lemma BlindWalk(w: World, seeds: seq<Job>, threads: nat, h: Spot) returns (states: seq<Walking>, moves: seq<Move>)
    requires WellFormed(w.root) && AllSound(w, seeds) && (forall j :: j in seeds ==> j.fd == None)
    requires threads > 0 && IsHidden(w, h)
    ensures IsWalk(w, states, moves) && states[0] == Start(seeds, threads) && NeverExhausted(moves)
    ensures FirstHasLeft(states[|moves|]) && Listed(PathOf(h)) !in Merged(states[|moves|].outs).records
  {
    StartInv(w, seeds, threads, false);
    states, moves := FinishAlone(w, Start(seeds, threads), multiset(seeds));
    WalkStaysBlind(w, seeds, threads, states, moves, h, |moves|);
    BlindOutputsMerge(states[|moves|].outs, h);
  }

  // ---- What is hidden is owed ----

  lemma {:induction false} TotalHasItsEntries(ctx: Ctx, dir: Node, rel: Bytes, e: Entry, r: Record)
    requires dir.Dir? && dir.intact && !IsRepoDir(dir) && e in dir.entries
    ensures Total(ctx, dir, rel).records[r] >= TotalEntry(ctx, dir, rel, e).records[r]
  {
    var d := (x: Entry) => if x in dir.entries then Count(TotalEntry(ctx, dir, rel, x), OfRecord(r)) else 0;
    CountEntries(ctx, dir, rel, d, OfRecord(r));
    var i :| 0 <= i < |dir.entries| && dir.entries[i] == e;
    SumOfAtLeast(d, dir.entries, i, |dir.entries|);
  }

  /** Where the condition fails there is a hidden repository, and the tree's total lists it. */
  lemma {:induction false} HiddenIsOwed(w: World, dir: Node, rel: Bytes) returns (h: Spot)
    requires dir.Dir? && WellFormed(dir) && Resolve(w.root, rel) == Found(dir) && !Reopenable(w.ctx, dir, rel)
    ensures IsHidden(w, h) && Total(w.ctx, dir, rel).records[Listed(PathOf(h))] > 0
    decreases dir
  {
    var e :| e in dir.entries &&
             (Hides(w.ctx, dir, rel, e) ||
              (Enters(w.ctx, dir, rel, e) && !Reopenable(w.ctx, e.node, JoinRel(rel, e.name))));
    if Hides(w.ctx, dir, rel, e) {
      h := Spot(dir, rel, e);
      HiddenEntryIsOwed(w.ctx, dir, rel, e);
    } else {
      QueuedWhere(w, dir, rel, e);
      h := HiddenIsOwed(w, e.node, JoinRel(rel, e.name));
    }
    TotalHasItsEntries(w.ctx, dir, rel, e, Listed(PathOf(h)));
  }

  lemma {:induction false} HiddenEntryIsOwed(ctx: Ctx, dir: Node, rel: Bytes, e: Entry)
    requires dir.Dir? && e in dir.entries && Hides(ctx, dir, rel, e)
    ensures TotalEntry(ctx, dir, rel, e).records[Listed(JoinRel(rel, e.name))] > 0
  {
    assert EntryStep(ctx, dir, rel, e, Spare).out == EmitOut(JoinRel(rel, e.name));
    assert EmitOut(JoinRel(rel, e.name)).records == [Listed(JoinRel(rel, e.name))];
  }

  // ---- The exact condition ----

  /** A walk of the root from start to end: the root's own reading, then the pool's. Re-opening never runs
      out of descriptors. */
  datatype Run = Run(budget: seq<Budget>, threads: nat, states: seq<Walking>, moves: seq<Move>, last: nat)

  ghost predicate IsWholeWalk(w: World, r: Run)
    requires w.root.Dir?
  {
    && |r.budget| == |w.root.entries| && IsWalk(w, r.states, r.moves)
    && r.states[0] == Start(ReadDir(w.ctx, w.root, [], r.budget).jobs, r.threads) && NeverExhausted(r.moves)
    && r.last < |r.states[|r.moves|].pool.workers| && r.states[|r.moves|].pool.workers[r.last].pc.Left?
  }

  ghost function Result(w: World, r: Run): Sum
    requires w.root.Dir? && IsWholeWalk(w, r)
  {
    Summary(Merge(ReadDir(w.ctx, w.root, [], r.budget).out, Merged(r.states[|r.moves|].outs)))
  }

  /** What the tree hides, some walk with any number of threads loses: its merged output lacks a repository
      the total lists, and says that it is incomplete. */
  lemma HiddenRepositoriesCanBeLost(w: World, threads: nat, h: Spot) returns (r: Run)
    requires w.root.Dir? && WellFormed(w.root) && threads > 0 && IsHidden(w, h)
    requires Listed(PathOf(h)) in Total(w.ctx, w.root, []).records
    ensures IsWholeWalk(w, r) && r.threads == threads
    ensures Listed(PathOf(h)) !in Result(w, r).records && Result(w, r).incomplete
  {
    var budget: seq<Budget> := seq(|w.root.entries|, _ => Spent);
    var seeds := ReadDir(w.ctx, w.root, [], budget).jobs;
    QueuedJobsAreSound(w, w.root, [], budget);
    HiddenIsRefused(w, h);
    DirectoryIsBlind(w, w.root, [], budget, h);
    var states, moves := BlindWalk(w, seeds, threads, h);
    r := Run(budget, threads, states, moves, 0);
    WalkingARoot(w, budget, threads, states, moves, 0);
  }

  /** The walk of a root does not depend on the descriptor budget, the threads or the schedule, so long as
      re-opening finds descriptors, if and only if nothing is hidden behind a path. */
  lemma WalksAreExactIff(w: World, threads: nat)
    requires w.root.Dir? && WellFormed(w.root) && threads > 0
    ensures Reopenable(w.ctx, w.root, []) <==>
            forall r :: IsWholeWalk(w, r) && r.threads == threads ==> Result(w, r) == Total(w.ctx, w.root, [])
  {
    if Reopenable(w.ctx, w.root, []) {
      forall r | IsWholeWalk(w, r) ensures Result(w, r) == Total(w.ctx, w.root, []) {
        WalkingARoot(w, r.budget, r.threads, r.states, r.moves, r.last);
      }
    } else {
      var h := HiddenIsOwed(w, w.root, []);
      var r := HiddenRepositoriesCanBeLost(w, threads, h);
    }
  }

  lemma {:induction false} OwedByAtLeast(w: World, jobs: multiset<Job>, job: Job, q: Tally)
    requires job in jobs
    ensures OwedBy(w, jobs, q) >= Owed(w, job, q)
  {
    assert jobs == (jobs - multiset{job}) + multiset{job};
    OwedByOneMore(w, jobs - multiset{job}, job, q);
  }

  lemma HiddenSeedIsOwed(w: World, job: Job) returns (h: Spot)
    requires WellFormed(w.root) && Sound(w, job) && !Forgives(w, job)
    ensures IsHidden(w, h) && Owed(w, job, OfRecord(Listed(PathOf(h)))) > 0
  {
    var dir := ResolvedDir(w.root, job).value;
    ResolvedIsPart(w.root, job.rel);
    h := HiddenIsOwed(w, dir, job.rel);
    assert OwedSum(w, job) == Total(w.ctx, dir, job.rel);
  }

  lemma HiddenSeedsAreOwed(w: World, seeds: seq<Job>) returns (h: Spot)
    requires WellFormed(w.root) && AllSound(w, seeds) && !AllForgive(w, seeds)
    ensures IsHidden(w, h) && OwedBy(w, multiset(seeds), OfRecord(Listed(PathOf(h)))) > 0
  {
    var k :| 0 <= k < |seeds| && !Forgives(w, seeds[k]);
    h := HiddenSeedIsOwed(w, seeds[k]);
    assert seeds[k] in multiset(seeds);
    OwedByAtLeast(w, multiset(seeds), seeds[k], OfRecord(Listed(PathOf(h))));
  }

  ghost predicate IsSeededWalk(w: World, seeds: seq<Job>, r: Run) {
    && IsWalk(w, r.states, r.moves) && r.states[0] == Start(seeds, r.threads) && NeverExhausted(r.moves)
    && r.last < |r.states[|r.moves|].pool.workers| && r.states[|r.moves|].pool.workers[r.last].pc.Left?
  }

  lemma SomeRewalkFallsShort(w: World, seeds: seq<Job>, threads: nat) returns (r: Run)
    requires WellFormed(w.root) && threads > 0 && (forall job :: job in seeds ==> job.fd == None)
    requires AllSound(w, seeds) && !AllForgive(w, seeds)
    ensures IsSeededWalk(w, seeds, r) && r.threads == threads
    ensures !Determined(w, multiset(seeds), Summary(Merged(r.states[|r.moves|].outs)), true)
  {
    var h := HiddenSeedsAreOwed(w, seeds);
    var states, moves := BlindWalk(w, seeds, threads, h);
    r := Run([], threads, states, moves, 0);
    var q := OfRecord(Listed(PathOf(h)));
    assert Count(Summary(Merged(states[|moves|].outs)), q) == 0;
    assert !q.OfJobs?;
  }

  /** The same for a re-walk of paths, as the index asks for. */
  lemma RewalksAreExactIff(w: World, seeds: seq<Job>, threads: nat)
    requires WellFormed(w.root) && threads > 0 && (forall job :: job in seeds ==> job.fd == None)
    ensures AllSound(w, seeds)
    ensures AllForgive(w, seeds) <==>
            forall r :: IsSeededWalk(w, seeds, r) && r.threads == threads ==>
              Determined(w, multiset(seeds), Summary(Merged(r.states[|r.moves|].outs)), true)
  {
    if AllForgive(w, seeds) {
      forall r | IsSeededWalk(w, seeds, r)
        ensures Determined(w, multiset(seeds), Summary(Merged(r.states[|r.moves|].outs)), true)
      {
        MergedOutputIsDetermined(w, seeds, r.threads, r.states, r.moves, r.last);
      }
    } else {
      var r := SomeRewalkFallsShort(w, seeds, threads);
    }
  }

  /** A root over one repository of mode 0111. */
  function SearchOnly(name: Bytes): Node {
    Dir(0, true, true, true, [Entry(name, true, Dir(0, false, true, true, [Entry(DOT_GIT, true, File)]))])
  }

  lemma SearchOnlyIsHidden(w: World, name: Bytes)
    requires w.ctx.detect == OpenScan && IsName(name) && !EndsWith(name, DOT_GIT) && !IsExcluded(w.ctx, name)
    requires w.root == SearchOnly(name)
    ensures WellFormed(w.root) && Searchable(w.root) && !IsRepoDir(w.root) && !Reopenable(w.ctx, w.root, [])
    ensures IsHidden(w, Spot(w.root, [], w.root.entries[0])) && PathOf(Spot(w.root, [], w.root.entries[0])) == name
  {
    var e := w.root.entries[0];
    assert HasGit(e.node.entries);
    assert e in w.root.entries && Hides(w.ctx, w.root, [], e);
    assert IndexOf(w.root.entries, DOT_GIT) == 1;
  }

  /** Open-scan has the total list that repository, and can lose it: some walk of the root, re-opening
      without trouble, ends without it and incomplete. */
  lemma OpenScanLosesPastTheBudget(w: World, name: Bytes, threads: nat) returns (r: Run)
    requires w.ctx.detect == OpenScan && IsName(name) && !EndsWith(name, DOT_GIT) && !IsExcluded(w.ctx, name)
    requires w.root == SearchOnly(name) && threads > 0
    ensures IsWholeWalk(w, r) && r.threads == threads && Listed(name) in Total(w.ctx, w.root, []).records
    ensures Listed(name) !in Result(w, r).records && Result(w, r).incomplete
  {
    SearchOnlyIsHidden(w, name);
    var e := w.root.entries[0];
    HiddenEntryIsOwed(w.ctx, w.root, [], e);
    TotalHasItsEntries(w.ctx, w.root, [], e, Listed(name));
    r := HiddenRepositoriesCanBeLost(w, threads, Spot(w.root, [], e));
  }
}
