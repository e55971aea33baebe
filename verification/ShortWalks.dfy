/** What a walk lists that loses something on the way: nothing the rules do not, and everything the rules do
    that is not at or below a path where a loss was noted. */
module ShortWalks {
  import opened Bytes
  import opened Paths
  import opened FileTree
  import opened Walk
  import opened Counting
  import opened WalkRules
  import opened PoolWalk
  import Pool

  // ---- Where losses are noted ----

  function EntryLosses(ctx: Ctx, dir: Node, rel: Bytes, e: Entry, budget: Budget): set<Bytes>
    requires dir.Dir?
  {
    if EntryStep(ctx, dir, rel, e, budget).out.incomplete then {JoinRel(rel, e.name)} else {}
  }

  function StepLosses(ctx: Ctx, dir: Node, rel: Bytes, budget: seq<Budget>, n: nat): set<Bytes>
    requires dir.Dir? && n <= |dir.entries| == |budget|
  {
    if n == 0 then {}
    else StepLosses(ctx, dir, rel, budget, n - 1) + EntryLosses(ctx, dir, rel, dir.entries[n - 1], budget[n - 1])
  }

  function ReadLosses(ctx: Ctx, dir: Node, rel: Bytes, budget: seq<Budget>): set<Bytes>
    requires dir.Dir? && |dir.entries| == |budget|
  {
    if !dir.intact then {rel}
    else if IsRepoDir(dir) then {}
    else StepLosses(ctx, dir, rel, budget, |dir.entries|)
  }

  /** The paths a job warns about. */
  function JobLosses(w: World, job: Job, exhausted: bool, budget: seq<Budget>): set<Bytes>
    requires job.fd.Some? ==> job.fd.value.Dir?
    requires ResolvedDir(w.root, job).Some? ==> |budget| == |ResolvedDir(w.root, job).value.entries|
  {
    match job.fd
    case Some(dir) => ReadLosses(w.ctx, dir, job.rel, budget)
    case None =>
      if exhausted then {job.rel}
      else match OpenAt(w.root, job.rel)
        case Opened(dir) => ReadLosses(w.ctx, dir, job.rel, budget)
        case Refused => {job.rel}
        case Gone => {}
  }

  predicate Covered(lost: set<Bytes>, rel: Bytes) {
    exists p :: p in lost && Below(p, rel)
  }

  lemma {:induction false} StepLossesShow(ctx: Ctx, dir: Node, rel: Bytes, budget: seq<Budget>, n: nat)
    requires dir.Dir? && n <= |dir.entries| == |budget|
    ensures EntrySteps(ctx, dir, rel, budget, n).out.incomplete <==> StepLosses(ctx, dir, rel, budget, n) != {}
    decreases n
  {
    if n > 0 {
      StepLossesShow(ctx, dir, rel, budget, n - 1);
    }
  }

  /** A job's output says that it is short exactly when the job warns about some path. */
  lemma JobLossesShow(w: World, job: Job, exhausted: bool, budget: seq<Budget>)
    requires job.fd.Some? ==> job.fd.value.Dir?
    requires ResolvedDir(w.root, job).Some? ==> |budget| == |ResolvedDir(w.root, job).value.entries|
    ensures RunJob(w.ctx, w.root, job, exhausted, budget).out.incomplete <==> JobLosses(w, job, exhausted, budget) != {}
  {
    var dir := ResolvedDir(w.root, job);
    if dir.Some? {
      StepLossesShow(w.ctx, dir.value, job.rel, budget, |budget|);
    }
  }

  lemma {:induction false} StepLossesAre(ctx: Ctx, dir: Node, rel: Bytes, budget: seq<Budget>, n: nat, p: Bytes)
    requires dir.Dir? && n <= |dir.entries| == |budget|
    ensures p in StepLosses(ctx, dir, rel, budget, n) <==>
            exists i :: 0 <= i < n && p in EntryLosses(ctx, dir, rel, dir.entries[i], budget[i])
    decreases n
  {
    if n > 0 {
      StepLossesAre(ctx, dir, rel, budget, n - 1, p);
    }
  }

  // ---- What jobs stand for by the rules ----

  /** How often `r` is owed at and below a job's path, whatever the permission bits. */
  function RulesOf(w: World, job: Job, r: Record): nat {
    var found := if job.fd.Some? then Found(job.fd.value) else Resolve(w.root, job.rel);
    match found
    case Found(node) => if node.Dir? then WalkRules.Owed(w.ctx, job.rel, node, r) else 0
    case _ => 0
  }

  ghost function JobSum(f: Job -> nat, jobs: multiset<Job>): nat {
    if jobs == multiset{} then 0 else JobSum(f, jobs - multiset{Pick(jobs)}) + f(Pick(jobs))
  }

  lemma {:induction false} OneMoreJob(f: Job -> nat, jobs: multiset<Job>, job: Job)
    ensures JobSum(f, jobs + multiset{job}) == JobSum(f, jobs) + f(job)
    decreases |jobs|
  {
    var more := jobs + multiset{job};
    assert job in more;
    var pick := Pick(more);
    if pick == job {
      assert more - multiset{pick} == jobs;
    } else {
      var rest := jobs - multiset{pick};
      assert more - multiset{pick} == rest + multiset{job};
      assert jobs == rest + multiset{pick};
      OneMoreJob(f, rest, job);
      OneMoreJob(f, rest, pick);
    }
  }

  lemma {:induction false} MoreJobs(f: Job -> nat, jobs: multiset<Job>, more: multiset<Job>)
    ensures JobSum(f, jobs + more) == JobSum(f, jobs) + JobSum(f, more)
    decreases |more|
  {
    if more == multiset{} {
      assert jobs + more == jobs;
    } else {
      var job :| job in more;
      var rest := more - multiset{job};
      assert more == rest + multiset{job};
      assert jobs + more == (jobs + rest) + multiset{job};
      MoreJobs(f, jobs, rest);
      OneMoreJob(f, jobs + rest, job);
      OneMoreJob(f, rest, job);
    }
  }

  lemma {:induction false} NoJobCounts(f: Job -> nat, jobs: multiset<Job>)
    requires forall job :: job in jobs ==> f(job) == 0
    ensures JobSum(f, jobs) == 0
    decreases |jobs|
  {
    if jobs != multiset{} {
      NoJobCounts(f, jobs - multiset{Pick(jobs)});
    }
  }

  /** What a step has listed of `r`, and what the jobs it queued still stand for. */
  ghost function Pays(f: Job -> nat, r: Record, step: Step): nat {
    multiset(step.out.records)[r] + JobSum(f, multiset(step.jobs))
  }

  lemma PaysTogether(f: Job -> nat, r: Record, a: Step, b: Step)
    ensures Pays(f, r, Together(a, b)) == Pays(f, r, a) + Pays(f, r, b)
  {
    assert multiset(a.jobs + b.jobs) == multiset(a.jobs) + multiset(b.jobs);
    MoreJobs(f, multiset(a.jobs), multiset(b.jobs));
  }

  lemma PaysForOneJob(f: Job -> nat, r: Record, job: Job)
    ensures Pays(f, r, Step(EMPTY_OUT, [job])) == f(job)
  {
    assert multiset([job]) == multiset{} + multiset{job};
    OneMoreJob(f, multiset{}, job);
  }

  lemma PaysOutright(f: Job -> nat, r: Record, out: Out)
    ensures Pays(f, r, Step(out, [])) == multiset(out.records)[r]
  {
    assert multiset(Step(out, []).jobs) == multiset{};
  }

  // ---- One entry ----

  /** What the rules owe at and below one entry. */
  function EntryDue(ctx: Ctx, dir: Node, rel: Bytes, e: Entry, r: Record): nat
    requires dir.Dir?
  {
    if Below(JoinRel(rel, e.name), r.rel) then WalkRules.Owed(ctx, rel, dir, r) else 0
  }

  ghost predicate IsLaidOut(w: World, dir: Node, rel: Bytes) {
    && dir.Dir? && WellFormed(dir) && Searchable(dir) && !HasGit(dir.entries)
    && Resolve(w.root, rel) == Found(dir)
  }

  lemma {:induction false} EntryIsRight(w: World, f: Job -> nat, dir: Node, rel: Bytes, i: nat, b: Budget, r: Record)
    requires IsLaidOut(w, dir, rel) && i < |dir.entries| && (forall job :: f(job) == RulesOf(w, job, r))
    ensures var e, step := dir.entries[i], EntryStep(w.ctx, dir, rel, dir.entries[i], b);
            && Pays(f, r, step) <= EntryDue(w.ctx, dir, rel, e, r)
            && (!Covered(EntryLosses(w.ctx, dir, rel, e, b), r.rel) ==>
                Pays(f, r, step) == EntryDue(w.ctx, dir, rel, e, r))
  {
    var e := dir.entries[i];
    var path, step := JoinRel(rel, e.name), EntryStep(w.ctx, dir, rel, e, b);
    if step.jobs != [] {
      QueuedIsRight(w, f, dir, rel, i, b, r);
    } else {
      PaysOutright(f, r, step.out);
      if step.out.incomplete {
        assert step.out == LOST_OUT;
        assert path in EntryLosses(w.ctx, dir, rel, e, b);
      } else {
        assert step == EntryStep(w.ctx, dir, rel, e, Spare) && !Enters(w.ctx, dir, rel, e);
        SettledIsRight(w.ctx, dir, rel, i, r);
      }
    }
  }

  lemma {:induction false} SettledIsRight(ctx: Ctx, dir: Node, rel: Bytes, i: nat, r: Record)
    requires dir.Dir? && WellFormed(dir) && Searchable(dir) && !HasGit(dir.entries)
    requires i < |dir.entries| && !Enters(ctx, dir, rel, dir.entries[i])
    requires !EntryStep(ctx, dir, rel, dir.entries[i], Spare).out.incomplete
    ensures multiset(EntryStep(ctx, dir, rel, dir.entries[i], Spare).out.records)[r] ==
            EntryDue(ctx, dir, rel, dir.entries[i], r)
  {
    var path := JoinRel(rel, dir.entries[i].name);
    LeafRole(ctx, dir, rel, i);
    RootOfWalk(ctx, rel, dir, dir.entries[i], i);
    if Below(path, r.rel) && r.rel != path {
      NothingInside(ctx, rel, dir, path, r.rel);
    }
  }

  lemma {:induction false} QueuedIsRight(w: World, f: Job -> nat, dir: Node, rel: Bytes, i: nat, b: Budget, r: Record)
    requires IsLaidOut(w, dir, rel) && i < |dir.entries| && (forall job :: f(job) == RulesOf(w, job, r))
    requires EntryStep(w.ctx, dir, rel, dir.entries[i], b).jobs != []
    ensures Pays(f, r, EntryStep(w.ctx, dir, rel, dir.entries[i], b)) == EntryDue(w.ctx, dir, rel, dir.entries[i], r)
  {
    var e, step := dir.entries[i], EntryStep(w.ctx, dir, rel, dir.entries[i], b);
    assert step == Step(EMPTY_OUT, [step.jobs[0]]);
    PaysForOneJob(f, r, step.jobs[0]);
    QueuedWhere(w, dir, rel, e);
    EnteredRole(w.ctx, dir, rel, i, r);
  }

  // ---- One directory ----

  /** Entry by entry: never more than is due, and exactly that where nothing was lost on the way to `r`. */
  lemma {:induction false} EntriesAreRight(f: Step -> nat, d: Entry -> nat, ctx: Ctx, dir: Node, rel: Bytes,
                                           budget: seq<Budget>, exact: bool, n: nat)
    requires dir.Dir? && n <= |dir.entries| == |budget|
    requires forall i :: 0 <= i < |budget| ==>
      f(EntryStep(ctx, dir, rel, dir.entries[i], budget[i])) <= d(dir.entries[i])
    requires exact ==> forall i :: 0 <= i < |budget| ==>
      f(EntryStep(ctx, dir, rel, dir.entries[i], budget[i])) == d(dir.entries[i])
    ensures SumOfSteps(f, ctx, dir, rel, budget, n) <= SumOver(d, dir.entries, n)
    ensures exact ==> SumOfSteps(f, ctx, dir, rel, budget, n) == SumOver(d, dir.entries, n)
    decreases n
  {
    if n > 0 {
      EntriesAreRight(f, d, ctx, dir, rel, budget, exact, n - 1);
    }
  }

  lemma DuesSumUp(ctx: Ctx, dir: Node, rel: Bytes, r: Record, d: Entry -> nat)
    requires dir.Dir? && DistinctNames(dir.entries) && !HasGit(dir.entries)
    requires forall e :: d(e) == EntryDue(ctx, dir, rel, e, r)
    ensures (if r == Record(rel, Some(dir.mtime)) then 1 else 0) + SumOver(d, dir.entries, |dir.entries|) ==
            WalkRules.Owed(ctx, rel, dir, r)
  {
    forall i | 0 <= i < |dir.entries| ensures EntryOwes(ctx, dir, rel, dir.entries[i], r, d(dir.entries[i])) {}
    if r.rel == rel {
      OwnRecordIsNotBelow(ctx, dir, rel, r, d);
    } else {
      EntriesSumUp(ctx, dir, rel, r, d);
    }
  }

  lemma {:induction false} OrdinaryDirectoryIsRight(w: World, f: Job -> nat, dir: Node, rel: Bytes, budget: seq<Budget>,
                                                    r: Record)
    requires IsLaidOut(w, dir, rel) && |budget| == |dir.entries| && (forall job :: f(job) == RulesOf(w, job, r))
    ensures var steps, due := EntrySteps(w.ctx, dir, rel, budget, |budget|), WalkRules.Owed(w.ctx, rel, dir, r);
            && Pays(f, r, steps) <= due
            && (!Covered(StepLosses(w.ctx, dir, rel, budget, |budget|), r.rel) ==> Pays(f, r, steps) == due)
  {
    var g := (step: Step) => Pays(f, r, step);
    var d := (e: Entry) => EntryDue(w.ctx, dir, rel, e, r);
    var exact := !Covered(StepLosses(w.ctx, dir, rel, budget, |budget|), r.rel);
    forall i | 0 <= i < |budget|
      ensures g(EntryStep(w.ctx, dir, rel, dir.entries[i], budget[i])) <= d(dir.entries[i])
      ensures exact ==> g(EntryStep(w.ctx, dir, rel, dir.entries[i], budget[i])) == d(dir.entries[i])
    {
      EntryIsRight(w, f, dir, rel, i, budget[i], r);
      EntryIsCovered(w.ctx, dir, rel, budget, i, r.rel);
    }
    EntriesAreRight(g, d, w.ctx, dir, rel, budget, exact, |budget|);
    AddUp(f, g, w.ctx, dir, rel, budget, r);
    DuesSumUp(w.ctx, dir, rel, r, d);
  }

  lemma {:induction false} EntryIsCovered(ctx: Ctx, dir: Node, rel: Bytes, budget: seq<Budget>, i: nat, rel': Bytes)
    requires dir.Dir? && i < |dir.entries| == |budget|
    ensures Covered(EntryLosses(ctx, dir, rel, dir.entries[i], budget[i]), rel') ==>
            Covered(StepLosses(ctx, dir, rel, budget, |budget|), rel')
  {
    if Covered(EntryLosses(ctx, dir, rel, dir.entries[i], budget[i]), rel') {
      var p :| p in EntryLosses(ctx, dir, rel, dir.entries[i], budget[i]) && Below(p, rel');
      StepLossesAre(ctx, dir, rel, budget, |budget|, p);
    }
  }

  lemma {:induction false} AddUp(f: Job -> nat, g: Step -> nat, ctx: Ctx, dir: Node, rel: Bytes, budget: seq<Budget>,
                                 r: Record)
    requires dir.Dir? && |budget| == |dir.entries| && (forall step :: g(step) == Pays(f, r, step))
    ensures Pays(f, r, EntrySteps(ctx, dir, rel, budget, |budget|)) ==
            (if r == Record(rel, Some(dir.mtime)) then 1 else 0) + SumOfSteps(g, ctx, dir, rel, budget, |budget|)
  {
    forall a, b ensures g(Together(a, b)) == g(a) + g(b) {
      PaysTogether(f, r, a, b);
    }
    StepsAdd(g, ctx, dir, rel, budget, |budget|);
    PaysOutright(f, r, DirOut(rel, dir.mtime));
    assert DirOut(rel, dir.mtime).records == [Record(rel, Some(dir.mtime))];
  }

  /** Reading a directory. */
  lemma {:induction false} DirectoryIsRight(w: World, f: Job -> nat, dir: Node, rel: Bytes, budget: seq<Budget>,
                                            r: Record)
    requires dir.Dir? && WellFormed(dir) && Searchable(dir) && Resolve(w.root, rel) == Found(dir)
    requires |budget| == |dir.entries| && (forall job :: f(job) == RulesOf(w, job, r))
    ensures var step, due := ReadDir(w.ctx, dir, rel, budget), WalkRules.Owed(w.ctx, rel, dir, r);
            && Pays(f, r, step) <= due
            && (!Covered(ReadLosses(w.ctx, dir, rel, budget), r.rel) ==> Pays(f, r, step) == due)
  {
    assert IsRepoDir(dir) == HasGit(dir.entries);
    if !dir.intact {
      PaysOutright(f, r, LOST_OUT);
      OnlyBelowIsOwed(w.ctx, dir, rel, r);
      assert rel in ReadLosses(w.ctx, dir, rel, budget);
    } else if IsRepoDir(dir) {
      var out := EmitOut(rel).(dirsRead := 1);
      PaysOutright(f, r, out);
      assert out.records == [Record(rel, None)];
      RepositoryOwesItself(w.ctx, dir, rel, r);
    } else {
      OrdinaryDirectoryIsRight(w, f, dir, rel, budget, r);
    }
  }

  lemma {:induction false} OnlyBelowIsOwed(ctx: Ctx, dir: Node, rel: Bytes, r: Record)
    requires dir.Dir?
    ensures WalkRules.Owed(ctx, rel, dir, r) != 0 ==> Below(rel, r.rel)
  {
    if WalkRules.Owed(ctx, rel, dir, r) != 0 {
      RolesLieBelow(ctx, rel, dir, r.rel);
    }
  }

  lemma OwesBelowItself(w: World, job: Job, r: Record)
    ensures RulesOf(w, job, r) != 0 ==> Below(job.rel, r.rel)
  {
    var found := if job.fd.Some? then Found(job.fd.value) else Resolve(w.root, job.rel);
    if found.Found? && found.node.Dir? {
      OnlyBelowIsOwed(w.ctx, found.node, job.rel, r);
    }
  }

  // ---- One job ----

  /** Running a job: what it lists and what it queues are what it stood for, but for what is at or below a
      path it warns about; and never more. */
  lemma {:induction false} JobIsRight(w: World, f: Job -> nat, job: Job, exhausted: bool, budget: seq<Budget>,
                                      r: Record)
    requires WellFormed(w.root) && Searchable(w.root) && Sound(w, job) && (forall j :: f(j) == RulesOf(w, j, r))
    requires ResolvedDir(w.root, job).Some? ==> |budget| == |ResolvedDir(w.root, job).value.entries|
    ensures var step := RunJob(w.ctx, w.root, job, exhausted, budget);
            && Pays(f, r, step) <= f(job)
            && (!Covered(JobLosses(w, job, exhausted, budget), r.rel) ==> Pays(f, r, step) == f(job))
  {
    if ResolvedDir(w.root, job).Some? && !(job.fd.None? && exhausted) {
      var dir := ResolvedDir(w.root, job).value;
      ResolvedIsPart(w.root, job.rel);
      DirectoryIsRight(w, f, dir, job.rel, budget, r);
    } else {
      PaysOutright(f, r, RunJob(w.ctx, w.root, job, exhausted, budget).out);
      UnreadJobIsRight(w, job, exhausted, budget, r);
    }
  }

  lemma UnreadJobIsRight(w: World, job: Job, exhausted: bool, budget: seq<Budget>, r: Record)
    requires job.fd.None? && (exhausted || ResolvedDir(w.root, job).None?)
    requires ResolvedDir(w.root, job).Some? ==> |budget| == |ResolvedDir(w.root, job).value.entries|
    ensures !Covered(JobLosses(w, job, exhausted, budget), r.rel) ==> RulesOf(w, job, r) == 0
  {
    if JobLosses(w, job, exhausted, budget) == {} {
      assert !exhausted && OpenAt(w.root, job.rel).Gone?;
    } else {
      assert job.rel in JobLosses(w, job, exhausted, budget);
      OwesBelowItself(w, job, r);
    }
  }

  /** A directory that is there and cannot be read to its end. */
  predicate IsUnreadable(root: Node, p: Bytes) {
    match Resolve(root, p)
    case Found(Dir(_, read, _, intact, _)) => !(read && intact)
    case _ => false
  }

  /** Jobs lose what is below them, and without running out of descriptors only what cannot be read. */
  lemma {:induction false} LossesArePlaced(w: World, job: Job, exhausted: bool, budget: seq<Budget>, p: Bytes)
    requires WellFormed(w.root) && Searchable(w.root) && Sound(w, job)
    requires ResolvedDir(w.root, job).Some? ==> |budget| == |ResolvedDir(w.root, job).value.entries|
    requires p in JobLosses(w, job, exhausted, budget)
    ensures Below(job.rel, p) && (!exhausted ==> IsUnreadable(w.root, p))
  {
    if (job.fd.None? && exhausted) || ResolvedDir(w.root, job).None? {
      if !exhausted {
        RefusedIsUnreadable(w.root, job.rel);
      }
    } else {
      ResolvedIsPart(w.root, job.rel);
      ReadLossesArePlaced(w, ResolvedDir(w.root, job).value, job.rel, budget, p);
    }
  }

  lemma {:induction false} ReadLossesArePlaced(w: World, dir: Node, rel: Bytes, budget: seq<Budget>, p: Bytes)
    requires dir.Dir? && WellFormed(dir) && Searchable(dir) && Resolve(w.root, rel) == Found(dir)
    requires |budget| == |dir.entries| && p in ReadLosses(w.ctx, dir, rel, budget)
    ensures Below(rel, p) && IsUnreadable(w.root, p)
  {
    if dir.intact {
      StepLossesAre(w.ctx, dir, rel, budget, |budget|, p);
      var i :| 0 <= i < |budget| && p in EntryLosses(w.ctx, dir, rel, dir.entries[i], budget[i]);
      EntryLossIsPlaced(w, dir, rel, i, budget[i]);
    }
  }

  lemma {:induction false} RefusedIsUnreadable(root: Node, rel: Bytes)
    requires Searchable(root) && WellFormed(root) && OpenAt(root, rel).Refused?
    ensures IsUnreadable(root, rel)
    decreases |rel|
  {
    if Resolve(root, rel).Denied? {
      NeverDenied(root, rel);
      assert false;
    }
  }

  lemma {:induction false} NeverDenied(root: Node, rel: Bytes)
    requires Searchable(root) && WellFormed(root)
    ensures !Resolve(root, rel).Denied?
    decreases |rel|
  {
    if rel != [] {
      NeverDenied(root, ParentOf(rel));
      if Resolve(root, ParentOf(rel)).Found? {
        ResolvedIsPart(root, ParentOf(rel));
      }
    }
  }

  lemma {:induction false} EntryLossIsPlaced(w: World, dir: Node, rel: Bytes, i: nat, b: Budget)
    requires dir.Dir? && WellFormed(dir) && Searchable(dir) && Resolve(w.root, rel) == Found(dir) && i < |dir.entries|
    requires EntryStep(w.ctx, dir, rel, dir.entries[i], b).out.incomplete
    ensures var p := JoinRel(rel, dir.entries[i].name); Below(rel, p) && IsUnreadable(w.root, p)
  {
    var e := dir.entries[i];
    QueuedWhere(w, dir, rel, e);
    JoinSplits(rel, e.name);
    assert Decide(w.ctx, dir, rel, e) == Queue;
  }

  // ---- Whole walks ----

  function MoveLosses(w: World, s: Walking, m: Move): set<Bytes>
    requires m.Read? ==> m.me < |s.pool.workers| && s.pool.workers[m.me].pc.Holding?
    requires m.Read? ==> var job := s.pool.workers[m.me].pc.job;
                         && (job.fd.Some? ==> job.fd.value.Dir?)
                         && (ResolvedDir(w.root, job).Some? ==> |m.budget| == |ResolvedDir(w.root, job).value.entries|)
  {
    match m
    case Schedule(_) => {}
    case Read(me, exhausted, budget) => JobLosses(w, s.pool.workers[me].pc.job, exhausted, budget)
  }

  /** The paths warned about by the time of the `k`th state. */
  ghost function LossesUpTo(w: World, states: seq<Walking>, moves: seq<Move>, k: nat): set<Bytes>
    requires IsWalk(w, states, moves) && k <= |moves|
  {
    if k == 0 then {}
    else
      assert Can(w, states[k - 1], moves[k - 1]);
      LossesUpTo(w, states, moves, k - 1) + MoveLosses(w, states[k - 1], moves[k - 1])
  }

  /** Listed so far, and still stood for. */
  ghost function Standing(f: Job -> nat, r: Record, s: Walking): nat {
    multiset(Merged(s.outs).records)[r] + JobSum(f, Pool.LiveJobs(s.pool))
  }

  /** Between two states: no more stands for `r`, and as much where nothing was lost on the way to it. */
  ghost predicate Keeps(f: Job -> nat, r: Record, s: Walking, s': Walking, lost: set<Bytes>) {
    Standing(f, r, s') <= Standing(f, r, s) && (!Covered(lost, r.rel) ==> Standing(f, r, s') == Standing(f, r, s))
  }

  lemma {:induction false} MergedGrows(outs: seq<Out>, i: nat, out: Out, r: Record)
    requires i < |outs|
    ensures multiset(Merged(outs[i := Merge(outs[i], out)]).records)[r] ==
            multiset(Merged(outs).records)[r] + multiset(out.records)[r]
  {
    OneOutGrows(outs, i, out, OfRecord(r));
  }

  lemma ReadKeeps(w: World, f: Job -> nat, r: Record, s: Walking, m: Move)
    requires WellFormed(w.root) && Searchable(w.root) && (forall j :: f(j) == RulesOf(w, j, r))
    requires Pool.Inv(s.pool) && Can(w, s, m) && m.Read? && Sound(w, s.pool.workers[m.me].pc.job)
    ensures Keeps(f, r, s, Do(w, s, m), MoveLosses(w, s, m))
  {
    var job := s.pool.workers[m.me].pc.job;
    var step := RunJob(w.ctx, w.root, job, m.exhausted, m.budget);
    JobIsRight(w, f, job, m.exhausted, m.budget, r);
    Pool.StepKeepsInv(s.pool, Pool.RunJob(m.me, step.jobs));
    HeldJobIsLive(s.pool, m.me);
    MergedGrows(s.outs, m.me, step.out, r);
    JobsExchanged(f, Pool.LiveJobs(s.pool), job, multiset(step.jobs));
  }

  lemma {:induction false} JobsExchanged(f: Job -> nat, jobs: multiset<Job>, job: Job, more: multiset<Job>)
    requires job in jobs
    ensures JobSum(f, jobs - multiset{job} + more) + f(job) == JobSum(f, jobs) + JobSum(f, more)
  {
    var rest := jobs - multiset{job};
    assert jobs == rest + multiset{job};
    OneMoreJob(f, rest, job);
    MoreJobs(f, rest, more);
  }

  lemma ScheduleKeeps(w: World, f: Job -> nat, r: Record, s: Walking, m: Move)
    requires Pool.Inv(s.pool) && Can(w, s, m) && m.Schedule?
    ensures Keeps(f, r, s, Do(w, s, m), {})
  {
    Pool.StepKeepsInv(s.pool, m.a);
  }

  lemma MoveKeeps(w: World, f: Job -> nat, r: Record, s: Walking, m: Move, seeds: multiset<Job>)
    requires WellFormed(w.root) && Searchable(w.root) && (forall j :: f(j) == RulesOf(w, j, r))
    requires Inv(w, s, seeds, false) && Can(w, s, m)
    ensures Keeps(f, r, s, Do(w, s, m), MoveLosses(w, s, m))
  {
    if m.Read? {
      HeldJobIsLive(s.pool, m.me);
      ReadKeeps(w, f, r, s, m);
    } else {
      ScheduleKeeps(w, f, r, s, m);
    }
  }

  lemma KeepsAlong(f: Job -> nat, r: Record, a: Walking, b: Walking, c: Walking, lost: set<Bytes>, more: set<Bytes>)
    requires Keeps(f, r, a, b, lost) && Keeps(f, r, b, c, more)
    ensures Keeps(f, r, a, c, lost + more)
  {
    if !Covered(lost + more, r.rel) {
      assert forall p :: p in lost || p in more ==> p in lost + more;
    }
  }

  /** The state a walk is in when it makes its `k`th move. */
  ghost predicate IsAtMove(w: World, seeds: seq<Job>, s: Walking, m: Move, s': Walking) {
    Inv(w, s, multiset(seeds), false) && Can(w, s, m) && s' == Do(w, s, m)
  }

  lemma MovesOfWalks(w: World, seeds: seq<Job>, threads: nat, states: seq<Walking>, moves: seq<Move>, k: nat)
    requires WellFormed(w.root) && AllSound(w, seeds)
    requires IsWalk(w, states, moves) && states[0] == Start(seeds, threads) && k < |moves|
    ensures IsAtMove(w, seeds, states[k], moves[k], states[k + 1])
  {
    WalkKeepsInv(w, seeds, threads, states, moves, false, k);
    WalkMoves(w, states, moves, k);
  }

  lemma MoreLosses(w: World, states: seq<Walking>, moves: seq<Move>, k: nat)
    requires IsWalk(w, states, moves) && k < |moves|
    ensures Can(w, states[k], moves[k])
    ensures LossesUpTo(w, states, moves, k + 1) == LossesUpTo(w, states, moves, k) + MoveLosses(w, states[k], moves[k])
  {
  }

  lemma {:induction false} WalkKeeps(w: World, f: Job -> nat, r: Record, seeds: seq<Job>, threads: nat,
                                     states: seq<Walking>, moves: seq<Move>, k: nat)
    requires WellFormed(w.root) && Searchable(w.root) && AllSound(w, seeds) && (forall j :: f(j) == RulesOf(w, j, r))
    requires IsWalk(w, states, moves) && states[0] == Start(seeds, threads) && k <= |moves|
    ensures Keeps(f, r, states[0], states[k], LossesUpTo(w, states, moves, k))
    decreases k
  {
    if k > 0 {
      var j := k - 1;
      WalkKeeps(w, f, r, seeds, threads, states, moves, j);
      MovesOfWalks(w, seeds, threads, states, moves, j);
      MoreLosses(w, states, moves, j);
      MoveKeeps(w, f, r, states[j], moves[j], multiset(seeds));
      KeepsAlong(f, r, states[0], states[j], states[k], LossesUpTo(w, states, moves, j),
                 MoveLosses(w, states[j], moves[j]));
    }
  }

  /** Outputs say that they are short exactly when some path was warned about. */
  lemma {:induction false} ShortnessShows(w: World, seeds: seq<Job>, threads: nat, states: seq<Walking>,
                                          moves: seq<Move>,
                                          k: nat)
    requires WellFormed(w.root) && AllSound(w, seeds)
    requires IsWalk(w, states, moves) && states[0] == Start(seeds, threads) && k <= |moves|
    ensures Merged(states[k].outs).incomplete <==> LossesUpTo(w, states, moves, k) != {}
    decreases k
  {
    if k == 0 {
      NothingMerged(states[0].outs, OfReads);
    } else {
      var j := k - 1;
      ShortnessShows(w, seeds, threads, states, moves, j);
      MovesOfWalks(w, seeds, threads, states, moves, j);
      MoreLosses(w, states, moves, j);
      MoveShows(w, states[j], moves[j]);
    }
  }

  lemma MoveShows(w: World, s: Walking, m: Move)
    requires Can(w, s, m)
    ensures Merged(Do(w, s, m).outs).incomplete <==> Merged(s.outs).incomplete || MoveLosses(w, s, m) != {}
  {
    if m.Read? {
      var job := s.pool.workers[m.me].pc.job;
      JobLossesShow(w, job, m.exhausted, m.budget);
      OneOutGrows(s.outs, m.me, RunJob(w.ctx, w.root, job, m.exhausted, m.budget).out, OfReads);
    }
  }

  /** Below one of the seeds. */
  ghost predicate IsSeeded(seeds: seq<Job>, p: Bytes) {
    exists k :: 0 <= k < |seeds| && Below(seeds[k].rel, p)
  }

  ghost predicate AllSeeded(seeds: seq<Job>, s: Walking) {
    forall job :: job in Pool.LiveJobs(s.pool) ==> IsSeeded(seeds, job.rel)
  }

  lemma {:induction false} SeededBelow(seeds: seq<Job>, p: Bytes, q: Bytes)
    requires IsSeeded(seeds, p) && Below(p, q)
    ensures IsSeeded(seeds, q)
  {
    var k :| 0 <= k < |seeds| && Below(seeds[k].rel, p);
    BelowTransitive(seeds[k].rel, p, q);
  }

  /** A directory queues jobs below itself. */
  lemma {:induction false} QueuedBelow(w: World, dir: Node, rel: Bytes, budget: seq<Budget>)
    requires dir.Dir? && WellFormed(dir) && |dir.entries| == |budget|
    ensures forall job :: job in ReadDir(w.ctx, dir, rel, budget).jobs ==> Below(rel, job.rel)
  {
    forall e, b, job | e in dir.entries && job in EntryStep(w.ctx, dir, rel, e, b).jobs ensures Below(rel, job.rel) {
      JoinSplits(rel, e.name);
    }
    StepsQueueOnly((job: Job) => Below(rel, job.rel), w.ctx, dir, rel, budget, |dir.entries|);
  }

  lemma MoveStaysSeeded(w: World, seeds: seq<Job>, s: Walking, m: Move)
    requires WellFormed(w.root) && Inv(w, s, multiset(seeds), false) && Can(w, s, m) && AllSeeded(seeds, s)
    ensures AllSeeded(seeds, Do(w, s, m))
  {
    if m.Read? {
      HeldJobIsLive(s.pool, m.me);
      var job := s.pool.workers[m.me].pc.job;
      var step := RunJob(w.ctx, w.root, job, m.exhausted, m.budget);
      Pool.StepKeepsInv(s.pool, Pool.RunJob(m.me, step.jobs));
      JobQueuesBelow(w, job, m.exhausted, m.budget);
      forall j | j in Pool.LiveJobs(Do(w, s, m).pool) ensures IsSeeded(seeds, j.rel) {
        assert j in Pool.LiveJobs(s.pool) || j in multiset(step.jobs);
        if j !in Pool.LiveJobs(s.pool) {
          SeededBelow(seeds, job.rel, j.rel);
        }
      }
    } else {
      Pool.StepKeepsInv(s.pool, m.a);
    }
  }

  lemma JobQueuesBelow(w: World, job: Job, exhausted: bool, budget: seq<Budget>)
    requires WellFormed(w.root) && Sound(w, job)
    requires ResolvedDir(w.root, job).Some? ==> |budget| == |ResolvedDir(w.root, job).value.entries|
    ensures forall j :: j in RunJob(w.ctx, w.root, job, exhausted, budget).jobs ==> Below(job.rel, j.rel)
  {
    if ResolvedDir(w.root, job).Some? {
      ResolvedIsPart(w.root, job.rel);
      QueuedBelow(w, ResolvedDir(w.root, job).value, job.rel, budget);
    }
  }

  lemma {:induction false} WalkStaysSeeded(w: World, seeds: seq<Job>, threads: nat, states: seq<Walking>,
                                           moves: seq<Move>,
                                           k: nat)
    requires WellFormed(w.root) && AllSound(w, seeds)
    requires IsWalk(w, states, moves) && states[0] == Start(seeds, threads) && k <= |moves|
    ensures AllSeeded(seeds, states[k])
    decreases k
  {
    if k == 0 {
      Pool.InitInv(seeds, threads);
      forall job | job in Pool.LiveJobs(states[0].pool) ensures IsSeeded(seeds, job.rel) {
        assert job in multiset(seeds);
        assert job in seeds;
        assert Below(job.rel, job.rel);
      }
    } else {
      WalkStaysSeeded(w, seeds, threads, states, moves, k - 1);
      MovesOfWalks(w, seeds, threads, states, moves, k - 1);
      MoveStaysSeeded(w, seeds, states[k - 1], moves[k - 1]);
    }
  }

  /** Where a loss may be: below a seed, and unless descriptors ran out, at a directory that cannot be read. */
  ghost predicate IsPlaced(w: World, seeds: seq<Job>, exhausted: bool, p: Bytes) {
    IsSeeded(seeds, p) && (!exhausted ==> IsUnreadable(w.root, p))
  }

  lemma MoveLossesArePlaced(w: World, seeds: seq<Job>, s: Walking, m: Move, p: Bytes)
    requires WellFormed(w.root) && Searchable(w.root)
    requires Inv(w, s, multiset(seeds), false) && Can(w, s, m) && AllSeeded(seeds, s) && p in MoveLosses(w, s, m)
    ensures IsPlaced(w, seeds, m.Read? && m.exhausted, p)
  {
    HeldJobIsLive(s.pool, m.me);
    var job := s.pool.workers[m.me].pc.job;
    LossesArePlaced(w, job, m.exhausted, m.budget, p);
    SeededBelow(seeds, job.rel, p);
  }

  lemma {:induction false} WalkLossesArePlaced(w: World, seeds: seq<Job>, threads: nat, states: seq<Walking>,
                                               moves: seq<Move>, k: nat, p: Bytes)
    requires WellFormed(w.root) && Searchable(w.root) && AllSound(w, seeds)
    requires IsWalk(w, states, moves) && states[0] == Start(seeds, threads) && k <= |moves|
    requires p in LossesUpTo(w, states, moves, k)
    ensures IsPlaced(w, seeds, !NeverExhausted(moves), p)
    decreases k
  {
    var j := k - 1;
    MoreLosses(w, states, moves, j);
    if p in LossesUpTo(w, states, moves, j) {
      WalkLossesArePlaced(w, seeds, threads, states, moves, j, p);
    } else {
      MovesOfWalks(w, seeds, threads, states, moves, j);
      WalkStaysSeeded(w, seeds, threads, states, moves, j);
      MoveLossesArePlaced(w, seeds, states[j], moves[j], p);
    }
  }

  // ---- What is printed ----

  lemma {:induction false} EntryStepListsItsRecords(ctx: Ctx, dir: Node, rel: Bytes, e: Entry, b: Budget)
    requires dir.Dir?
    ensures ListsItsRecords(Summary(EntryStep(ctx, dir, rel, e, b).out))
  {
    EmitListsItsRecord(JoinRel(rel, e.name));
    var out := EntryStep(ctx, dir, rel, e, b).out;
    if out != EmitOut(JoinRel(rel, e.name)) {
      SilentListsItsRecords(out);
    }
  }

  lemma MergeListsItsRecords(a: Out, b: Out)
    requires ListsItsRecords(Summary(a)) && ListsItsRecords(Summary(b))
    ensures ListsItsRecords(Summary(Merge(a, b)))
  {
    SummaryMerges(a, b);
    PlusListsItsRecords(Summary(a), Summary(b));
  }

  lemma DirListsItsRecord(rel: Bytes, mtime: int)
    ensures ListsItsRecords(Summary(DirOut(rel, mtime)))
  {
    var s := Summary(DirOut(rel, mtime));
    assert s.repos == multiset{} && s.records == multiset{Record(rel, Some(mtime))};
  }

  lemma {:induction false} StepsListTheirRecords(ctx: Ctx, dir: Node, rel: Bytes, budget: seq<Budget>, n: nat)
    requires dir.Dir? && n <= |dir.entries| == |budget|
    ensures ListsItsRecords(Summary(EntrySteps(ctx, dir, rel, budget, n).out))
    decreases n
  {
    if n == 0 {
      DirListsItsRecord(rel, dir.mtime);
    } else {
      var last := EntryStep(ctx, dir, rel, dir.entries[n - 1], budget[n - 1]);
      StepsListTheirRecords(ctx, dir, rel, budget, n - 1);
      EntryStepListsItsRecords(ctx, dir, rel, dir.entries[n - 1], budget[n - 1]);
      MergeListsItsRecords(EntrySteps(ctx, dir, rel, budget, n - 1).out, last.out);
    }
  }

  lemma ReadingListsItsRecords(ctx: Ctx, dir: Node, rel: Bytes, budget: seq<Budget>)
    requires dir.Dir? && |dir.entries| == |budget|
    ensures ListsItsRecords(Summary(ReadDir(ctx, dir, rel, budget).out))
  {
    if !dir.intact {
      SilentListsItsRecords(LOST_OUT);
    } else if IsRepoDir(dir) {
      EmitListsItsRecord(rel);
    } else {
      StepsListTheirRecords(ctx, dir, rel, budget, |budget|);
    }
  }

  lemma JobListsItsRecords(w: World, job: Job, exhausted: bool, budget: seq<Budget>)
    requires job.fd.Some? ==> job.fd.value.Dir?
    requires ResolvedDir(w.root, job).Some? ==> |budget| == |ResolvedDir(w.root, job).value.entries|
    ensures ListsItsRecords(Summary(RunJob(w.ctx, w.root, job, exhausted, budget).out))
  {
    SilentListsItsRecords(LOST_OUT);
    SilentListsItsRecords(EMPTY_OUT);
    if ResolvedDir(w.root, job).Some? {
      ReadingListsItsRecords(w.ctx, ResolvedDir(w.root, job).value, job.rel, budget);
    }
  }

  ghost predicate AllListTheirRecords(outs: seq<Out>) {
    forall i :: 0 <= i < |outs| ==> ListsItsRecords(Summary(outs[i]))
  }

  lemma {:induction false} MergedListsItsRecords(outs: seq<Out>)
    requires AllListTheirRecords(outs)
    ensures ListsItsRecords(Summary(Merged(outs)))
  {
    if outs == [] {
      SilentListsItsRecords(EMPTY_OUT);
    } else {
      MergedListsItsRecords(outs[..|outs| - 1]);
      MergeListsItsRecords(Merged(outs[..|outs| - 1]), outs[|outs| - 1]);
    }
  }

  lemma MoveListsItsRecords(w: World, s: Walking, m: Move)
    requires Can(w, s, m) && AllListTheirRecords(s.outs)
    ensures AllListTheirRecords(Do(w, s, m).outs)
  {
    if m.Read? {
      var job := s.pool.workers[m.me].pc.job;
      JobListsItsRecords(w, job, m.exhausted, m.budget);
      MergeListsItsRecords(s.outs[m.me], RunJob(w.ctx, w.root, job, m.exhausted, m.budget).out);
    }
  }

  lemma {:induction false} WalkListsItsRecords(w: World, seeds: seq<Job>, threads: nat, states: seq<Walking>,
                                               moves: seq<Move>, k: nat)
    requires IsWalk(w, states, moves) && states[0] == Start(seeds, threads) && k <= |moves|
    ensures AllListTheirRecords(states[k].outs)
    decreases k
  {
    if k == 0 {
      SilentListsItsRecords(EMPTY_OUT);
    } else {
      WalkListsItsRecords(w, seeds, threads, states, moves, k - 1);
      WalkMoves(w, states, moves, k - 1);
      MoveListsItsRecords(w, states[k - 1], moves[k - 1]);
    }
  }

  // ---- Short, but right ----

  function RulesFor(w: World, r: Record): Job -> nat {
    job => RulesOf(w, job, r)
  }

  ghost function RulesBy(w: World, seeds: seq<Job>, r: Record): nat {
    JobSum(RulesFor(w, r), multiset(seeds))
  }

  /** Never more than is due, and all of it where nothing was lost on the way. */
  predicate IsDue(listed: nat, due: nat, covered: bool) {
    listed <= due && (!covered ==> listed == due)
  }

  /** What a walk of these seeds may be relied on for, whatever it lost: it says that it is short exactly when
      it warned about some path; it lists no record the rules do not owe, and every one that is not at or
      below such a path; and it prints what it records. */
  ghost predicate IsShortOf(w: World, seeds: seq<Job>, out: Out, lost: set<Bytes>, exhausted: bool) {
    && (out.incomplete <==> lost != {})
    && (forall p :: p in lost ==> IsPlaced(w, seeds, exhausted, p))
    && ListsItsRecords(Summary(out))
    && forall r: Record :: IsDue(multiset(out.records)[r], RulesBy(w, seeds, r), Covered(lost, r.rel))
  }

  /** Every walk on the pool is right as far as it goes, exhausted or not, on any schedule. */
  lemma {:induction false} WalksAreRightSoFar(w: World, seeds: seq<Job>, threads: nat, states: seq<Walking>,
                                              moves: seq<Move>, i: nat)
    requires WellFormed(w.root) && Searchable(w.root) && AllSound(w, seeds)
    requires IsWalk(w, states, moves) && states[0] == Start(seeds, threads)
    requires i < |states[|moves|].pool.workers| && states[|moves|].pool.workers[i].pc.Left?
    ensures IsShortOf(w, seeds, Merged(states[|moves|].outs), LossesUpTo(w, states, moves, |moves|),
                      !NeverExhausted(moves))
  {
    var n := |moves|;
    var out, lost := Merged(states[n].outs), LossesUpTo(w, states, moves, n);
    ShortnessShows(w, seeds, threads, states, moves, n);
    WalkListsItsRecords(w, seeds, threads, states, moves, n);
    MergedListsItsRecords(states[n].outs);
    forall p | p in lost ensures IsPlaced(w, seeds, !NeverExhausted(moves), p) {
      WalkLossesArePlaced(w, seeds, threads, states, moves, n, p);
    }
    forall r: Record ensures IsDue(multiset(out.records)[r], RulesBy(w, seeds, r), Covered(lost, r.rel)) {
      RecordIsDue(w, seeds, threads, states, moves, i, r);
    }
  }

  lemma {:induction false} RecordIsDue(w: World, seeds: seq<Job>, threads: nat, states: seq<Walking>, moves: seq<Move>,
                                       i: nat, r: Record)
    requires WellFormed(w.root) && Searchable(w.root) && AllSound(w, seeds)
    requires IsWalk(w, states, moves) && states[0] == Start(seeds, threads)
    requires i < |states[|moves|].pool.workers| && states[|moves|].pool.workers[i].pc.Left?
    ensures IsDue(multiset(Merged(states[|moves|].outs).records)[r], RulesBy(w, seeds, r),
                  Covered(LossesUpTo(w, states, moves, |moves|), r.rel))
  {
    var f := RulesFor(w, r);
    WalkKeeps(w, f, r, seeds, threads, states, moves, |moves|);
    WalkKeepsInv(w, seeds, threads, states, moves, false, |moves|);
    StartStands(f, r, seeds, threads);
    NothingStands(f, r, states[|moves|]);
  }

  lemma StartStands(f: Job -> nat, r: Record, seeds: seq<Job>, threads: nat)
    ensures Standing(f, r, Start(seeds, threads)) == JobSum(f, multiset(seeds))
  {
    Pool.InitInv(seeds, threads);
    NothingMerged(Start(seeds, threads).outs, OfRecord(r));
  }

  lemma NothingStands(f: Job -> nat, r: Record, s: Walking)
    requires Pool.Inv(s.pool) && Pool.NobodyLeftEarly(s.pool)
    requires exists i :: 0 <= i < |s.pool.workers| && s.pool.workers[i].pc.Left?
    ensures Standing(f, r, s) == multiset(Merged(s.outs).records)[r]
  {
    Pool.CountIsZeroWhenQuiet(s.pool);
    Pool.QuietOwnsNothing(s.pool.workers);
    assert Pool.LiveJobs(s.pool) == multiset{};
  }

  // ---- A whole root ----

  /** The root itself, as a seed. */
  function RootSeed(): seq<Job> {
    [Job(None, [])]
  }

  lemma RootOwes(w: World, r: Record)
    requires w.root.Dir?
    ensures RulesBy(w, RootSeed(), r) == WalkRules.Owed(w.ctx, [], w.root, r)
  {
    assert multiset(RootSeed()) == multiset{} + multiset{Job(None, [])};
    OneMoreJob(RulesFor(w, r), multiset{}, Job(None, []));
  }

  /** The calling thread's own reading, and what the pool made of the rest. */
  lemma RootIsRightSoFar(w: World, budget: seq<Budget>, rest: Out, lost: set<Bytes>, exhausted: bool)
    requires w.root.Dir? && WellFormed(w.root) && Searchable(w.root) && |budget| == |w.root.entries|
    requires IsShortOf(w, ReadDir(w.ctx, w.root, [], budget).jobs, rest, lost, exhausted)
    ensures IsShortOf(w, RootSeed(), Merge(ReadDir(w.ctx, w.root, [], budget).out, rest),
                      ReadLosses(w.ctx, w.root, [], budget) + lost, exhausted)
  {
    RootLossesArePlaced(w, budget, exhausted);
    RootShows(w, budget);
    ReadingListsItsRecords(w.ctx, w.root, [], budget);
    RootJoins(w, ReadDir(w.ctx, w.root, [], budget), ReadLosses(w.ctx, w.root, [], budget), budget, rest, lost,
              exhausted);
  }

  lemma RootShows(w: World, budget: seq<Budget>)
    requires w.root.Dir? && |budget| == |w.root.entries|
    ensures ReadDir(w.ctx, w.root, [], budget).out.incomplete <==> ReadLosses(w.ctx, w.root, [], budget) != {}
  {
    StepLossesShow(w.ctx, w.root, [], budget, |budget|);
  }

  lemma RootLossesArePlaced(w: World, budget: seq<Budget>, exhausted: bool)
    requires w.root.Dir? && WellFormed(w.root) && Searchable(w.root) && |budget| == |w.root.entries|
    ensures forall p :: p in ReadLosses(w.ctx, w.root, [], budget) ==> IsPlaced(w, RootSeed(), exhausted, p)
  {
    forall p | p in ReadLosses(w.ctx, w.root, [], budget) ensures IsPlaced(w, RootSeed(), exhausted, p) {
      EverythingIsBelowTheRoot(p);
      assert Below(RootSeed()[0].rel, p);
      LossesArePlaced(w, Job(Some(w.root), []), false, budget, p);
    }
  }

  lemma RootJoins(w: World, step: Step, own: set<Bytes>, budget: seq<Budget>, rest: Out, lost: set<Bytes>,
                  exhausted: bool)
    requires w.root.Dir? && WellFormed(w.root) && Searchable(w.root) && |budget| == |w.root.entries|
    requires step == ReadDir(w.ctx, w.root, [], budget) && own == ReadLosses(w.ctx, w.root, [], budget)
    requires IsShortOf(w, step.jobs, rest, lost, exhausted) && (step.out.incomplete <==> own != {})
    requires ListsItsRecords(Summary(step.out)) && (forall p :: p in own ==> IsPlaced(w, RootSeed(), exhausted, p))
    ensures IsShortOf(w, RootSeed(), Merge(step.out, rest), own + lost, exhausted)
  {
    MergeListsItsRecords(step.out, rest);
    forall p | p in lost ensures IsPlaced(w, RootSeed(), exhausted, p) {
      EverythingIsBelowTheRoot(p);
      assert Below(RootSeed()[0].rel, p);
    }
    forall r: Record
      ensures IsDue(multiset(Merge(step.out, rest).records)[r], RulesBy(w, RootSeed(), r), Covered(own + lost, r.rel))
    {
      RootRecordIsDue(w, budget, rest, lost, r);
    }
  }

  lemma RootRecordIsDue(w: World, budget: seq<Budget>, rest: Out, lost: set<Bytes>, r: Record)
    requires w.root.Dir? && WellFormed(w.root) && Searchable(w.root) && |budget| == |w.root.entries|
    requires IsDue(multiset(rest.records)[r], RulesBy(w, ReadDir(w.ctx, w.root, [], budget).jobs, r),
                   Covered(lost, r.rel))
    ensures IsDue(multiset(Merge(ReadDir(w.ctx, w.root, [], budget).out, rest).records)[r], RulesBy(w, RootSeed(), r),
                  Covered(ReadLosses(w.ctx, w.root, [], budget) + lost, r.rel))
  {
    var step, own := ReadDir(w.ctx, w.root, [], budget), ReadLosses(w.ctx, w.root, [], budget);
    DirectoryIsRight(w, RulesFor(w, r), w.root, [], budget, r);
    RootOwes(w, r);
    assert forall p :: p in own || p in lost ==> p in own + lost;
    assert multiset(Merge(step.out, rest).records) == multiset(step.out.records) + multiset(rest.records);
  }
}
