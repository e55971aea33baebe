/** A walk on the pool: whatever the number of threads, the interleaving, the batches stolen and the
    descriptor budget's answers, the merged output is the one the tree determines. */
module PoolWalk {
  import opened Bytes
  import opened Paths
  import opened FileTree
  import opened Walk
  import opened Counting
  import Pool

  datatype World = World(ctx: Ctx, root: Node)

  datatype Walking = Walking(pool: Pool.State<Job>, outs: seq<Out>)

  /** A scheduling step, or running the job a worker holds. */
  datatype Move =
    | Schedule(a: Pool.Action<Job>)
    | Read(me: nat, exhausted: bool, budget: seq<Budget>)

  ghost predicate Can(w: World, s: Walking, m: Move) {
    match m
    case Schedule(a) => Pool.Enabled(s.pool, a) && !a.RunJob? && !a.Panic?
    case Read(me, exhausted, budget) =>
      && me < |s.pool.workers| && me < |s.outs|
      && s.pool.workers[me].pc.Holding?
      && var job := s.pool.workers[me].pc.job;
         && (job.fd.Some? ==> job.fd.value.Dir?)
         && (ResolvedDir(w.root, job).Some? ==> |budget| == |ResolvedDir(w.root, job).value.entries|)
  }

  ghost function Do(w: World, s: Walking, m: Move): Walking
    requires Can(w, s, m)
  {
    match m
    case Schedule(a) => s.(pool := Pool.Apply(s.pool, a))
    case Read(me, exhausted, budget) =>
      var step := RunJob(w.ctx, w.root, s.pool.workers[me].pc.job, exhausted, budget);
      Walking(Pool.Apply(s.pool, Pool.RunJob(me, step.jobs)), s.outs[me := Merge(s.outs[me], step.out)])
  }

  // ---- What is still owed ----

  /** The same count, taken from an output as the worker holds it. */
  function CountOut(out: Out, q: Tally): nat {
    Count(Summary(out), q)
  }

  lemma CountOutMerges(a: Out, b: Out, q: Tally)
    ensures CountOut(Merge(a, b), q) == CountOut(a, q) + CountOut(b, q)
  {
    SummaryMerges(a, b);
    CountPlus(Summary(a), Summary(b), q);
  }

  function DirCount(node: Node): nat
    decreases node, 0
  {
    if node.Dir? then 1 + DirCountBelow(node, |node.entries|) else 0
  }

  function DirCountBelow(dir: Node, n: nat): nat
    requires dir.Dir? && n <= |dir.entries|
    decreases dir, 0, n
  {
    if n == 0 then 0 else DirCountBelow(dir, n - 1) + DirCount(dir.entries[n - 1].node)
  }

  /** What a queued job will have produced once its subtree is walked. */
  function OwedSum(w: World, job: Job): Sum {
    match job.fd
    case Some(dir) => if dir.Dir? then Total(w.ctx, dir, job.rel) else ZERO
    case None =>
      match OpenAt(w.root, job.rel)
      case Opened(dir) => Total(w.ctx, dir, job.rel)
      case Refused => Summary(LOST_OUT)
      case Gone => ZERO
  }

  function OwedDirs(w: World, job: Job): nat {
    match job.fd
    case Some(dir) => DirCount(dir)
    case None =>
      match OpenAt(w.root, job.rel)
      case Opened(dir) => DirCount(dir)
      case _ => 1
  }

  function Owed(w: World, job: Job, q: Tally): nat {
    if q.OfJobs? then OwedDirs(w, job) else Count(OwedSum(w, job), q)
  }

  ghost function OwedBy(w: World, jobs: multiset<Job>, q: Tally): nat {
    if jobs == multiset{} then 0
    else OwedBy(w, jobs - multiset{Pick(jobs)}, q) + Owed(w, Pick(jobs), q)
  }

  ghost function Pick(jobs: multiset<Job>): (job: Job)
    requires jobs != multiset{}
    ensures job in jobs
  {
    var job :| job in jobs;
    job
  }

  ghost predicate Loses(w: World, jobs: multiset<Job>) {
    exists job :: job in jobs && OwedSum(w, job).incomplete
  }

  lemma {:induction false} OwedByOneMore(w: World, jobs: multiset<Job>, job: Job, q: Tally)
    ensures OwedBy(w, jobs + multiset{job}, q) == OwedBy(w, jobs, q) + Owed(w, job, q)
    decreases |jobs|
  {
    var more := jobs + multiset{job};
    assert job in more;
    var pick := Pick(more);
    if pick == job {
      assert more - multiset{pick} == jobs;
    } else {
      var rest := jobs - multiset{pick};
      assert more - multiset{pick} == rest + multiset{job};
      assert jobs == rest + multiset{pick};
      OwedByOneMore(w, rest, job, q);
      OwedByOneMore(w, rest, pick, q);
    }
  }

  lemma {:induction false} OwedByMore(w: World, jobs: multiset<Job>, more: multiset<Job>, q: Tally)
    ensures OwedBy(w, jobs + more, q) == OwedBy(w, jobs, q) + OwedBy(w, more, q)
    decreases |more|
  {
    if more == multiset{} {
      assert jobs + more == jobs;
    } else {
      var job :| job in more;
      var rest := more - multiset{job};
      assert more == rest + multiset{job};
      assert jobs + more == (jobs + rest) + multiset{job};
      OwedByMore(w, jobs, rest, q);
      OwedByOneMore(w, jobs + rest, job, q);
      OwedByOneMore(w, rest, job, q);
    }
  }

  // ---- Settling accounts ----

  /** What was paid settles what was due: never more, and equal counts unless something was noted as lost.
      With `exact`, equal in any case and lost exactly when it was due to be. Jobs are only bounded. */
  predicate Settles(q: Tally, exact: bool, paid: nat, lost: bool, due: nat, dueLost: bool) {
    && paid <= due
    && (!q.OfJobs? && (exact || !lost) ==> paid == due)
    && (dueLost ==> lost)
    && (exact && lost ==> dueLost)
  }

  /** A child to be opened that cannot be read, though its `.git` stats. Opened by its parent it is listed
      all the same; queued by path it is lost. */
  predicate Hides(ctx: Ctx, dir: Node, rel: Bytes, e: Entry)
    requires dir.Dir?
  {
    Decide(ctx, dir, rel, e) == Queue && dir.search && !e.node.read && StatsGit(e.node)
  }

  /** No directory the walk enters holds such a child: a descriptor and a path lead to the same answers. */
  ghost predicate Reopenable(ctx: Ctx, dir: Node, rel: Bytes)
    requires dir.Dir?
    decreases dir
  {
    dir.intact && !IsRepoDir(dir) ==>
      forall e :: e in dir.entries ==>
        && !Hides(ctx, dir, rel, e)
        && (Enters(ctx, dir, rel, e) ==> Reopenable(ctx, e.node, JoinRel(rel, e.name)))
  }

  /** Stat-first never hides anything: it has settled every `.git` that stats. */
  lemma {:induction false} StatFirstIsReopenable(ctx: Ctx, dir: Node, rel: Bytes)
    requires dir.Dir? && ctx.detect == StatFirst
    ensures Reopenable(ctx, dir, rel)
    decreases dir
  {
    forall e | e in dir.entries && Enters(ctx, dir, rel, e) ensures Reopenable(ctx, e.node, JoinRel(rel, e.name)) {
      StatFirstIsReopenable(ctx, e.node, JoinRel(rel, e.name));
    }
  }

  lemma {:induction false} ReadableIsReopenable(ctx: Ctx, dir: Node, rel: Bytes)
    requires dir.Dir? && Readable(dir)
    ensures Reopenable(ctx, dir, rel)
    decreases dir
  {
    forall e | e in dir.entries ensures !Hides(ctx, dir, rel, e) {
      assert Readable(e.node);
    }
    forall e | e in dir.entries && Enters(ctx, dir, rel, e) ensures Reopenable(ctx, e.node, JoinRel(rel, e.name)) {
      ReadableIsReopenable(ctx, e.node, JoinRel(rel, e.name));
    }
  }

  /** Produced by a step, or still owed by the jobs it queued. */
  ghost function Paid(w: World, step: Step, q: Tally): nat {
    CountOut(step.out, q) + OwedBy(w, multiset(step.jobs), q)
  }

  ghost predicate Lost(w: World, step: Step) {
    step.out.incomplete || Loses(w, multiset(step.jobs))
  }

  lemma PaidTogether(w: World, a: Step, b: Step, q: Tally)
    ensures var ab := Together(a, b);
            Paid(w, ab, q) == Paid(w, a, q) + Paid(w, b, q) && (Lost(w, ab) <==> Lost(w, a) || Lost(w, b))
  {
    CountOutMerges(a.out, b.out, q);
    assert multiset(a.jobs + b.jobs) == multiset(a.jobs) + multiset(b.jobs);
    OwedByMore(w, multiset(a.jobs), multiset(b.jobs), q);
    LosesTogether(w, multiset(a.jobs), multiset(b.jobs));
  }

  lemma LosesTogether(w: World, a: multiset<Job>, b: multiset<Job>)
    ensures Loses(w, a + b) <==> Loses(w, a) || Loses(w, b)
  {
    assert forall job :: job in a + b <==> job in a || job in b;
  }

  /** A step that queued nothing. */
  lemma PaidOutright(w: World, out: Out, q: Tally)
    ensures Paid(w, Step(out, []), q) == Count(Summary(out), q) && Lost(w, Step(out, [])) == out.incomplete
  {
    assert multiset(Step(out, []).jobs) == multiset{};
  }

  /** A step that only queued one job. */
  lemma PaidByOneJob(w: World, out: Out, job: Job, q: Tally)
    requires out == EMPTY_OUT
    ensures Paid(w, Step(out, [job]), q) == Owed(w, job, q)
    ensures Lost(w, Step(out, [job])) == OwedSum(w, job).incomplete
  {
    assert multiset([job]) == multiset{} + multiset{job};
    OwedByOneMore(w, multiset{}, job, q);
    assert job in multiset([job]);
  }

  // ---- One entry ----

  function DueForEntry(w: World, dir: Node, rel: Bytes, e: Entry, q: Tally): nat
    requires dir.Dir? && e in dir.entries
  {
    if q.OfJobs? then DirCount(e.node) else Count(TotalEntry(w.ctx, dir, rel, e), q)
  }

  lemma {:induction false} ChildPaysUp(w: World, dir: Node, rel: Bytes, e: Entry, budget: Budget, q: Tally, exact: bool)
    requires dir.Dir? && WellFormed(dir) && e in dir.entries && Resolve(w.root, rel) == Found(dir)
    requires exact ==> !Hides(w.ctx, dir, rel, e)
    ensures var step := EntryStep(w.ctx, dir, rel, e, budget);
            Settles(q, exact, Paid(w, step, q), Lost(w, step), DueForEntry(w, dir, rel, e, q),
                    TotalEntry(w.ctx, dir, rel, e).incomplete)
  {
    var step := EntryStep(w.ctx, dir, rel, e, budget);
    if step.jobs == [] {
      PaidOutright(w, step.out, q);
      NotQueued(w.ctx, dir, rel, e, budget);
    } else {
      assert step.out == EMPTY_OUT && step.jobs == [step.jobs[0]];
      PaidByOneJob(w, step.out, step.jobs[0], q);
      QueuedWhere(w, dir, rel, e);
      QueuedJobOwes(w, dir, rel, e, step.jobs[0], q, exact);
    }
  }

  lemma {:induction false} NotQueued(ctx: Ctx, dir: Node, rel: Bytes, e: Entry, budget: Budget)
    requires dir.Dir? && e in dir.entries && EntryStep(ctx, dir, rel, e, budget).jobs == []
    ensures Summary(EntryStep(ctx, dir, rel, e, budget).out) == TotalEntry(ctx, dir, rel, e)
  {
  }

  lemma {:induction false} QueuedWhere(w: World, dir: Node, rel: Bytes, e: Entry)
    requires dir.Dir? && WellFormed(dir) && e in dir.entries && Resolve(w.root, rel) == Found(dir)
    ensures Resolve(w.root, JoinRel(rel, e.name)) == if dir.search then Found(e.node) else Denied
  {
    var i :| 0 <= i < |dir.entries| && dir.entries[i] == e;
    ResolveChild(w.root, rel, dir, i);
  }

  lemma {:induction false} QueuedJobOwes(w: World, dir: Node, rel: Bytes, e: Entry, job: Job, q: Tally, exact: bool)
    requires dir.Dir? && WellFormed(dir) && e in dir.entries
    requires Decide(w.ctx, dir, rel, e) == Queue && job.rel == JoinRel(rel, e.name)
    requires job.fd == None || (job.fd == Some(e.node) && dir.search && e.node.read)
    requires Resolve(w.root, job.rel) == if dir.search then Found(e.node) else Denied
    requires exact ==> !Hides(w.ctx, dir, rel, e)
    ensures Settles(q, exact, Owed(w, job, q), OwedSum(w, job).incomplete, DueForEntry(w, dir, rel, e, q),
                    TotalEntry(w.ctx, dir, rel, e).incomplete)
  {
    if dir.search && e.node.read {
      assert Enters(w.ctx, dir, rel, e);
    } else {
      assert OpenAt(w.root, job.rel) == Refused;
    }
  }

  // ---- One directory ----

  ghost function SumOfSteps(f: Step -> nat, ctx: Ctx, dir: Node, rel: Bytes, budget: seq<Budget>, n: nat): nat
    requires dir.Dir? && n <= |dir.entries| == |budget|
  {
    if n == 0 then 0
    else SumOfSteps(f, ctx, dir, rel, budget, n - 1) + f(EntryStep(ctx, dir, rel, dir.entries[n - 1], budget[n - 1]))
  }

  /** Whatever adds up over two steps adds up over a directory's entries. */
  lemma {:induction false} StepsAdd(f: Step -> nat, ctx: Ctx, dir: Node, rel: Bytes, budget: seq<Budget>, n: nat)
    requires dir.Dir? && n <= |dir.entries| == |budget|
    requires forall a, b {:trigger f(Together(a, b))} :: f(Together(a, b)) == f(a) + f(b)
    ensures f(EntrySteps(ctx, dir, rel, budget, n)) ==
            f(Step(DirOut(rel, dir.mtime), [])) + SumOfSteps(f, ctx, dir, rel, budget, n)
    decreases n
  {
    if n != 0 {
      StepsAdd(f, ctx, dir, rel, budget, n - 1);
    }
  }

  ghost predicate AnyOfSteps(f: Step -> bool, ctx: Ctx, dir: Node, rel: Bytes, budget: seq<Budget>, n: nat)
    requires dir.Dir? && n <= |dir.entries| == |budget|
  {
    n != 0 && (AnyOfSteps(f, ctx, dir, rel, budget, n - 1) ||
               f(EntryStep(ctx, dir, rel, dir.entries[n - 1], budget[n - 1])))
  }

  lemma {:induction false} StepsAny(f: Step -> bool, ctx: Ctx, dir: Node, rel: Bytes, budget: seq<Budget>, n: nat)
    requires dir.Dir? && n <= |dir.entries| == |budget|
    requires forall a, b {:trigger f(Together(a, b))} :: f(Together(a, b)) == (f(a) || f(b))
    ensures f(EntrySteps(ctx, dir, rel, budget, n)) ==
            (f(Step(DirOut(rel, dir.mtime), [])) || AnyOfSteps(f, ctx, dir, rel, budget, n))
    decreases n
  {
    if n != 0 {
      StepsAny(f, ctx, dir, rel, budget, n - 1);
    }
  }

  lemma {:induction false} DirCountsAdd(d: Entry -> nat, dir: Node, n: nat)
    requires dir.Dir? && n <= |dir.entries|
    requires forall e :: e in dir.entries ==> d(e) == DirCount(e.node)
    ensures DirCountBelow(dir, n) == SumOver(d, dir.entries, n)
    decreases n
  {
    if n != 0 {
      DirCountsAdd(d, dir, n - 1);
    }
  }

  /** What each entry pays against what it is due, as four functions. */
  datatype Account = Account(paid: Step -> nat, lost: Step -> bool, due: Entry -> nat, dueLost: Entry -> bool)

  ghost predicate ChildSettles(acc: Account, ctx: Ctx, dir: Node, rel: Bytes, e: Entry, budget: Budget, q: Tally,
                               exact: bool)
    requires dir.Dir?
  {
    var step := EntryStep(ctx, dir, rel, e, budget);
    Settles(q, exact, acc.paid(step), acc.lost(step), acc.due(e), acc.dueLost(e))
  }

  lemma {:induction false} ChildrenSettle(acc: Account, ctx: Ctx, dir: Node, rel: Bytes, budget: seq<Budget>, n: nat,
                                          q: Tally, exact: bool)
    requires dir.Dir? && n <= |dir.entries| == |budget|
    requires forall i :: 0 <= i < |budget| ==> ChildSettles(acc, ctx, dir, rel, dir.entries[i], budget[i], q, exact)
    ensures Settles(q, exact, SumOfSteps(acc.paid, ctx, dir, rel, budget, n),
                    AnyOfSteps(acc.lost, ctx, dir, rel, budget, n),
                    SumOver(acc.due, dir.entries, n), AnyOver(acc.dueLost, dir.entries, n))
    decreases n
  {
    if n != 0 {
      ChildrenSettle(acc, ctx, dir, rel, budget, n - 1, q, exact);
      assert ChildSettles(acc, ctx, dir, rel, dir.entries[n - 1], budget[n - 1], q, exact);
    }
  }

  ghost function AccountOf(w: World, dir: Node, rel: Bytes, q: Tally): Account
    requires dir.Dir?
  {
    Account(step => Paid(w, step, q), step => Lost(w, step),
            e => if e in dir.entries then DueForEntry(w, dir, rel, e, q) else 0,
            e => e in dir.entries && TotalEntry(w.ctx, dir, rel, e).incomplete)
  }

  lemma {:induction false} EachChildSettles(acc: Account, w: World, dir: Node, rel: Bytes, budget: seq<Budget>,
                                            q: Tally, exact: bool)
    requires dir.Dir? && WellFormed(dir) && Resolve(w.root, rel) == Found(dir) && |budget| == |dir.entries|
    requires (exact ==> forall e :: e in dir.entries ==> !Hides(w.ctx, dir, rel, e)) && acc == AccountOf(w, dir, rel, q)
    ensures forall i :: 0 <= i < |budget| ==> ChildSettles(acc, w.ctx, dir, rel, dir.entries[i], budget[i], q, exact)
  {
    forall i | 0 <= i < |budget| ensures ChildSettles(acc, w.ctx, dir, rel, dir.entries[i], budget[i], q, exact) {
      ChildPaysUp(w, dir, rel, dir.entries[i], budget[i], q, exact);
    }
  }

  lemma PaidAdds(w: World, f: Step -> nat, q: Tally)
    requires forall step :: f(step) == Paid(w, step, q)
    ensures forall a, b {:trigger f(Together(a, b))} :: f(Together(a, b)) == f(a) + f(b)
  {
    forall a, b ensures f(Together(a, b)) == f(a) + f(b) {
      PaidTogether(w, a, b, q);
    }
  }

  lemma LostAdds(w: World, f: Step -> bool)
    requires forall step :: f(step) == Lost(w, step)
    ensures forall a, b {:trigger f(Together(a, b))} :: f(Together(a, b)) == (f(a) || f(b))
  {
    forall a, b ensures f(Together(a, b)) == (f(a) || f(b)) {
      PaidTogether(w, a, b, OfReads);
    }
  }

  /** Reading the directory itself: paid for on the spot, and one job of those it was counted for. */
  lemma OwnReading(w: World, dir: Node, rel: Bytes, q: Tally)
    requires dir.Dir?
    ensures var here := Step(DirOut(rel, dir.mtime), []);
            Paid(w, here, q) == Count(Summary(here.out), q) && !Lost(w, here)
  {
    PaidOutright(w, DirOut(rel, dir.mtime), q);
  }

  lemma {:induction false} StepsPayTheirSum(acc: Account, w: World, dir: Node, rel: Bytes, budget: seq<Budget>,
                                            q: Tally)
    requires dir.Dir? && |budget| == |dir.entries| && acc == AccountOf(w, dir, rel, q)
    ensures var steps := EntrySteps(w.ctx, dir, rel, budget, |dir.entries|);
            && Paid(w, steps, q) == Count(Summary(DirOut(rel, dir.mtime)), q) +
                                    SumOfSteps(acc.paid, w.ctx, dir, rel, budget, |dir.entries|)
            && Lost(w, steps) == AnyOfSteps(acc.lost, w.ctx, dir, rel, budget, |dir.entries|)
  {
    PaidAdds(w, acc.paid, q);
    LostAdds(w, acc.lost);
    StepsAdd(acc.paid, w.ctx, dir, rel, budget, |dir.entries|);
    StepsAny(acc.lost, w.ctx, dir, rel, budget, |dir.entries|);
    OwnReading(w, dir, rel, q);
  }

  function DueForDir(w: World, dir: Node, rel: Bytes, q: Tally): nat
    requires dir.Dir?
  {
    if q.OfJobs? then DirCount(dir) else Count(Total(w.ctx, dir, rel), q)
  }

  lemma {:induction false} TotalsAreDue(acc: Account, w: World, dir: Node, rel: Bytes, q: Tally)
    requires dir.Dir? && dir.intact && !IsRepoDir(dir) && acc == AccountOf(w, dir, rel, q)
    ensures DueForDir(w, dir, rel, q) == (if q.OfJobs? then 1 else Count(Summary(DirOut(rel, dir.mtime)), q)) +
                                         SumOver(acc.due, dir.entries, |dir.entries|)
    ensures Total(w.ctx, dir, rel).incomplete == AnyOver(acc.dueLost, dir.entries, |dir.entries|)
  {
    if q.OfJobs? {
      DirCountsAdd(acc.due, dir, |dir.entries|);
    } else {
      CountEntries(w.ctx, dir, rel, acc.due, q);
    }
    IncompleteEntries(w.ctx, dir, rel, acc.dueLost);
  }

  /** Reading a directory produces its own share and queues exactly the rest; and it is one of the
      directories the tree was said to hold. */
  lemma {:induction false} DirectoryPaysUp(w: World, dir: Node, rel: Bytes, budget: seq<Budget>, q: Tally, exact: bool)
    requires dir.Dir? && WellFormed(dir) && Resolve(w.root, rel) == Found(dir) && |budget| == |dir.entries|
    requires exact ==> Reopenable(w.ctx, dir, rel)
    ensures var step := ReadDir(w.ctx, dir, rel, budget);
            Settles(q, exact, Paid(w, step, q) + (if q.OfJobs? then 1 else 0), Lost(w, step),
                    DueForDir(w, dir, rel, q), Total(w.ctx, dir, rel).incomplete)
  {
    if !dir.intact || IsRepoDir(dir) {
      PaidOutright(w, ReadDir(w.ctx, dir, rel, budget).out, q);
    } else {
      var acc := AccountOf(w, dir, rel, q);
      EachChildSettles(acc, w, dir, rel, budget, q, exact);
      OrdinaryDirectoryPaysUp(acc, w, dir, rel, budget, q, exact);
    }
  }

  lemma {:induction false} OrdinaryDirectoryPaysUp(acc: Account, w: World, dir: Node, rel: Bytes, budget: seq<Budget>,
                                                   q: Tally, exact: bool)
    requires dir.Dir? && dir.intact && !IsRepoDir(dir) && |budget| == |dir.entries| && acc == AccountOf(w, dir, rel, q)
    requires forall i :: 0 <= i < |budget| ==> ChildSettles(acc, w.ctx, dir, rel, dir.entries[i], budget[i], q, exact)
    ensures var step := ReadDir(w.ctx, dir, rel, budget);
            Settles(q, exact, Paid(w, step, q) + (if q.OfJobs? then 1 else 0), Lost(w, step),
                    DueForDir(w, dir, rel, q), Total(w.ctx, dir, rel).incomplete)
  {
    ChildrenSettle(acc, w.ctx, dir, rel, budget, |dir.entries|, q, exact);
    StepsPayTheirSum(acc, w, dir, rel, budget, q);
    TotalsAreDue(acc, w, dir, rel, q);
  }

  // ---- Running any job ----

  /** A descriptor always refers to the directory its path names. */
  ghost predicate Sound(w: World, job: Job) {
    job.fd.Some? ==> job.fd.value.Dir? && Resolve(w.root, job.rel) == Found(job.fd.value)
  }

  /** The directory a job ends up reading, if any, is one that paths serve as well as descriptors. */
  ghost predicate Forgives(w: World, job: Job)
    requires job.fd.Some? ==> job.fd.value.Dir?
  {
    var dir := ResolvedDir(w.root, job);
    dir.Some? ==> Reopenable(w.ctx, dir.value, job.rel)
  }

  lemma {:induction false} ResolvedIsPart(root: Node, rel: Bytes)
    requires WellFormed(root) && Resolve(root, rel).Found?
    ensures WellFormed(Resolve(root, rel).node)
    ensures Readable(root) ==> Readable(Resolve(root, rel).node)
    ensures Searchable(root) ==> Searchable(Resolve(root, rel).node)
    decreases |rel|
  {
    if rel != [] {
      ResolvedIsPart(root, ParentOf(rel));
    }
  }

  lemma UnreadJobPaysUp(w: World, job: Job, exhausted: bool, budget: seq<Budget>, q: Tally, exact: bool)
    requires job.fd == None && (exhausted || ResolvedDir(w.root, job) == None) && (exact ==> !exhausted)
    requires ResolvedDir(w.root, job).Some? ==> |budget| == |ResolvedDir(w.root, job).value.entries|
    ensures var step := RunJob(w.ctx, w.root, job, exhausted, budget);
            Settles(q, exact, Paid(w, step, q) + (if q.OfJobs? then 1 else 0), Lost(w, step),
                    Owed(w, job, q), OwedSum(w, job).incomplete)
  {
    PaidOutright(w, RunJob(w.ctx, w.root, job, exhausted, budget).out, q);
  }

  lemma JobPaysUp(w: World, job: Job, exhausted: bool, budget: seq<Budget>, q: Tally, exact: bool)
    requires WellFormed(w.root) && Sound(w, job)
    requires ResolvedDir(w.root, job).Some? ==> |budget| == |ResolvedDir(w.root, job).value.entries|
    requires exact ==> Forgives(w, job) && !exhausted
    ensures var step := RunJob(w.ctx, w.root, job, exhausted, budget);
            Settles(q, exact, Paid(w, step, q) + (if q.OfJobs? then 1 else 0), Lost(w, step),
                    Owed(w, job, q), OwedSum(w, job).incomplete)
  {
    var step := RunJob(w.ctx, w.root, job, exhausted, budget);
    if (job.fd == None && exhausted) || ResolvedDir(w.root, job) == None {
      UnreadJobPaysUp(w, job, exhausted, budget, q, exact);
    } else {
      var dir := ResolvedDir(w.root, job).value;
      ResolvedIsPart(w.root, job.rel);
      DirectoryPaysUp(w, dir, job.rel, budget, q, exact);
    }
  }

  lemma {:induction false} StepsQueueOnly(R: Job -> bool, ctx: Ctx, dir: Node, rel: Bytes, budget: seq<Budget>, n: nat)
    requires dir.Dir? && n <= |dir.entries| == |budget|
    requires forall e, b, job :: e in dir.entries && job in EntryStep(ctx, dir, rel, e, b).jobs ==> R(job)
    ensures forall job :: job in EntrySteps(ctx, dir, rel, budget, n).jobs ==> R(job)
    decreases n
  {
    if n != 0 {
      StepsQueueOnly(R, ctx, dir, rel, budget, n - 1);
      assert forall job :: job in EntryStep(ctx, dir, rel, dir.entries[n - 1], budget[n - 1]).jobs ==> R(job);
    }
  }

  lemma {:induction false} QueuedJobIsSound(w: World, dir: Node, rel: Bytes, e: Entry, b: Budget, job: Job)
    requires dir.Dir? && WellFormed(dir) && e in dir.entries && Resolve(w.root, rel) == Found(dir)
    requires job in EntryStep(w.ctx, dir, rel, e, b).jobs
    ensures Sound(w, job)
  {
    QueuedWhere(w, dir, rel, e);
  }

  lemma {:induction false} QueuedJobsAreSound(w: World, dir: Node, rel: Bytes, budget: seq<Budget>)
    requires dir.Dir? && WellFormed(dir) && Resolve(w.root, rel) == Found(dir) && |dir.entries| == |budget|
    ensures forall job :: job in ReadDir(w.ctx, dir, rel, budget).jobs ==> Sound(w, job)
  {
    forall e, b, job | e in dir.entries && job in EntryStep(w.ctx, dir, rel, e, b).jobs ensures Sound(w, job) {
      QueuedJobIsSound(w, dir, rel, e, b, job);
    }
    StepsQueueOnly(job => Sound(w, job), w.ctx, dir, rel, budget, |dir.entries|);
  }

  lemma JobQueuesSoundJobs(w: World, job: Job, exhausted: bool, budget: seq<Budget>)
    requires WellFormed(w.root) && Sound(w, job)
    requires ResolvedDir(w.root, job).Some? ==> |budget| == |ResolvedDir(w.root, job).value.entries|
    ensures var jobs := RunJob(w.ctx, w.root, job, exhausted, budget).jobs;
            forall k :: 0 <= k < |jobs| ==> Sound(w, jobs[k])
  {
    if ResolvedDir(w.root, job).Some? {
      var dir := ResolvedDir(w.root, job).value;
      ResolvedIsPart(w.root, job.rel);
      QueuedJobsAreSound(w, dir, job.rel, budget);
    }
  }

  lemma {:induction false} QueuedJobForgives(w: World, dir: Node, rel: Bytes, e: Entry, b: Budget, job: Job)
    requires dir.Dir? && WellFormed(dir) && e in dir.entries && Resolve(w.root, rel) == Found(dir)
    requires dir.intact && !IsRepoDir(dir) && Reopenable(w.ctx, dir, rel)
    requires job in EntryStep(w.ctx, dir, rel, e, b).jobs
    ensures (job.fd.Some? ==> job.fd.value.Dir?) && Forgives(w, job)
  {
    QueuedWhere(w, dir, rel, e);
    if ResolvedDir(w.root, job).Some? {
      assert Enters(w.ctx, dir, rel, e);
    }
  }

  lemma {:induction false} JobQueuesForgivingJobs(w: World, job: Job, exhausted: bool, budget: seq<Budget>)
    requires WellFormed(w.root) && Sound(w, job) && Forgives(w, job)
    requires ResolvedDir(w.root, job).Some? ==> |budget| == |ResolvedDir(w.root, job).value.entries|
    ensures forall j :: j in RunJob(w.ctx, w.root, job, exhausted, budget).jobs ==> Sound(w, j) && Forgives(w, j)
  {
    var jobs := RunJob(w.ctx, w.root, job, exhausted, budget).jobs;
    if jobs != [] {
      var dir := ResolvedDir(w.root, job).value;
      ResolvedIsPart(w.root, job.rel);
      DirectoryQueuesForgivingJobs(w, dir, job.rel, budget);
    }
  }

  lemma {:induction false} DirectoryQueuesForgivingJobs(w: World, dir: Node, rel: Bytes, budget: seq<Budget>)
    requires dir.Dir? && WellFormed(dir) && Resolve(w.root, rel) == Found(dir) && |dir.entries| == |budget|
    requires Reopenable(w.ctx, dir, rel)
    ensures forall j :: j in ReadDir(w.ctx, dir, rel, budget).jobs ==> Sound(w, j) && Forgives(w, j)
  {
    if dir.intact && !IsRepoDir(dir) {
      forall e, b, j | e in dir.entries && j in EntryStep(w.ctx, dir, rel, e, b).jobs
        ensures Sound(w, j) && Forgives(w, j)
      {
        QueuedJobIsSound(w, dir, rel, e, b, j);
        QueuedJobForgives(w, dir, rel, e, b, j);
      }
      StepsQueueOnly(j => Sound(w, j) && Forgives(w, j), w.ctx, dir, rel, budget, |dir.entries|);
    }
  }

  // ---- Whole walks ----

  /** The outputs of every worker, folded together as the caller does. */
  function Merged(outs: seq<Out>): Out {
    if outs == [] then EMPTY_OUT else Merge(Merged(outs[..|outs| - 1]), outs[|outs| - 1])
  }

  lemma {:induction false} OneOutGrows(outs: seq<Out>, i: nat, out: Out, q: Tally)
    requires i < |outs|
    ensures var outs' := outs[i := Merge(outs[i], out)];
            && CountOut(Merged(outs'), q) == CountOut(Merged(outs), q) + CountOut(out, q)
            && (Merged(outs').incomplete <==> Merged(outs).incomplete || out.incomplete)
  {
    var last := |outs| - 1;
    var outs' := outs[i := Merge(outs[i], out)];
    CountOutMerges(Merged(outs[..last]), outs[last], q);
    CountOutMerges(Merged(outs'[..last]), outs'[last], q);
    if i == last {
      assert outs'[..last] == outs[..last];
      CountOutMerges(outs[i], out, q);
    } else {
      assert outs'[..last] == outs[..last][i := Merge(outs[i], out)];
      OneOutGrows(outs[..last], i, out, q);
    }
  }

  /** Everything accounted for so far: produced, run, or still owed. */
  ghost function Accounted(w: World, s: Walking, q: Tally): nat {
    CountOut(Merged(s.outs), q) + (if q.OfJobs? then |s.pool.ran| else 0) + OwedBy(w, Pool.LiveJobs(s.pool), q)
  }

  ghost predicate LostSoFar(w: World, s: Walking) {
    Merged(s.outs).incomplete || Loses(w, Pool.LiveJobs(s.pool))
  }

  ghost predicate Balanced(w: World, s: Walking, seeds: multiset<Job>, exact: bool) {
    forall q :: Settles(q, exact, Accounted(w, s, q), LostSoFar(w, s), OwedBy(w, seeds, q), Loses(w, seeds))
  }

  ghost predicate Inv(w: World, s: Walking, seeds: multiset<Job>, exact: bool) {
    && Pool.Inv(s.pool) && Pool.NobodyLeftEarly(s.pool)
    && |s.outs| == |s.pool.workers|
    && (forall job :: job in Pool.LiveJobs(s.pool) ==> Sound(w, job) && (exact ==> Forgives(w, job)))
    && Balanced(w, s, seeds, exact)
  }

  lemma ReadKeepsInv(w: World, s: Walking, seeds: multiset<Job>, exact: bool, me: nat, exhausted: bool,
                     budget: seq<Budget>)
    requires WellFormed(w.root) && Inv(w, s, seeds, exact) && Can(w, s, Read(me, exhausted, budget))
    requires exact ==> !exhausted
    ensures Inv(w, Do(w, s, Read(me, exhausted, budget)), seeds, exact)
  {
    var job := s.pool.workers[me].pc.job;
    var step := RunJob(w.ctx, w.root, job, exhausted, budget);
    var s' := Do(w, s, Read(me, exhausted, budget));
    Pool.StepKeepsInv(s.pool, Pool.RunJob(me, step.jobs));
    Pool.StepKeepsNobodyLeftEarly(s.pool, Pool.RunJob(me, step.jobs));
    HeldJobIsLive(s.pool, me);
    LiveJobsStaySound(w, s.pool, s'.pool, job, step, exhausted, budget, exact);
    forall q
      ensures Settles(q, exact, Paid(w, step, q) + (if q.OfJobs? then 1 else 0), Lost(w, step),
                      Owed(w, job, q), OwedSum(w, job).incomplete)
    {
      JobPaysUp(w, job, exhausted, budget, q, exact);
    }
    ReadKeepsBalance(w, s, s', seeds, me, job, step, exact);
  }

  lemma LiveJobsStaySound(w: World, s: Pool.State<Job>, s': Pool.State<Job>, job: Job, step: Step, exhausted: bool,
                          budget: seq<Budget>, exact: bool)
    requires WellFormed(w.root) && job in Pool.LiveJobs(s) && Sound(w, job)
    requires forall j :: j in Pool.LiveJobs(s) ==> Sound(w, j) && (exact ==> Forgives(w, j))
    requires ResolvedDir(w.root, job).Some? ==> |budget| == |ResolvedDir(w.root, job).value.entries|
    requires step == RunJob(w.ctx, w.root, job, exhausted, budget)
    requires Pool.LiveJobs(s') == Pool.LiveJobs(s) - multiset{job} + multiset(step.jobs)
    ensures forall j :: j in Pool.LiveJobs(s') ==> Sound(w, j) && (exact ==> Forgives(w, j))
  {
    JobQueuesSoundJobs(w, job, exhausted, budget);
    if exact {
      JobQueuesForgivingJobs(w, job, exhausted, budget);
    }
    forall j | j in Pool.LiveJobs(s') ensures Sound(w, j) && (exact ==> Forgives(w, j)) {
      assert j in Pool.LiveJobs(s) || j in multiset(step.jobs);
    }
  }

  lemma ReadKeepsBalance(w: World, s: Walking, s': Walking, seeds: multiset<Job>, me: nat, job: Job, step: Step,
                         exact: bool)
    requires Balanced(w, s, seeds, exact)
    requires me < |s.outs| && s'.outs == s.outs[me := Merge(s.outs[me], step.out)]
    requires s'.pool.ran == s.pool.ran + multiset{job}
    requires job in Pool.LiveJobs(s.pool)
    requires Pool.LiveJobs(s'.pool) == Pool.LiveJobs(s.pool) - multiset{job} + multiset(step.jobs)
    requires forall q :: Settles(q, exact, Paid(w, step, q) + (if q.OfJobs? then 1 else 0), Lost(w, step),
                                 Owed(w, job, q), OwedSum(w, job).incomplete)
    ensures Balanced(w, s', seeds, exact)
  {
    forall q
      ensures Settles(q, exact, Accounted(w, s', q), LostSoFar(w, s'), OwedBy(w, seeds, q), Loses(w, seeds))
    {
      ReadAccounts(w, s, s', me, job, step, q, exact);
    }
  }

  lemma HeldJobIsLive(s: Pool.State<Job>, me: nat)
    requires me < |s.workers| && s.workers[me].pc.Holding?
    ensures s.workers[me].pc.job in Pool.LiveJobs(s)
  {
    Pool.EachLives(s.workers, me);
    assert s.workers[me].pc.job in Pool.Live(s.workers[me]);
  }

  lemma ReadAccounts(w: World, s: Walking, s': Walking, me: nat, job: Job, step: Step, q: Tally, exact: bool)
    requires me < |s.outs| && s'.outs == s.outs[me := Merge(s.outs[me], step.out)]
    requires s'.pool.ran == s.pool.ran + multiset{job}
    requires job in Pool.LiveJobs(s.pool)
    requires Pool.LiveJobs(s'.pool) == Pool.LiveJobs(s.pool) - multiset{job} + multiset(step.jobs)
    requires Settles(q, exact, Paid(w, step, q) + (if q.OfJobs? then 1 else 0), Lost(w, step),
                     Owed(w, job, q), OwedSum(w, job).incomplete)
    ensures Settles(q, exact, Accounted(w, s', q), LostSoFar(w, s'), Accounted(w, s, q), LostSoFar(w, s))
  {
    var rest := Pool.LiveJobs(s.pool) - multiset{job};
    assert Pool.LiveJobs(s.pool) == rest + multiset{job};
    OwedByOneMore(w, rest, job, q);
    OwedByMore(w, rest, multiset(step.jobs), q);
    OneOutGrows(s.outs, me, step.out, q);
    LosesOrNot(w, rest, job, step);
    assert |s'.pool.ran| == |s.pool.ran| + 1;
  }

  lemma LosesOrNot(w: World, rest: multiset<Job>, job: Job, step: Step)
    ensures Loses(w, rest + multiset{job}) <==> Loses(w, rest) || OwedSum(w, job).incomplete
    ensures Loses(w, rest + multiset(step.jobs)) <==> Loses(w, rest) || Loses(w, multiset(step.jobs))
  {
    LosesTogether(w, rest, multiset{job});
    LosesTogether(w, rest, multiset(step.jobs));
    assert job in multiset{job};
  }

  lemma ScheduleKeepsInv(w: World, s: Walking, seeds: multiset<Job>, exact: bool, a: Pool.Action<Job>)
    requires Inv(w, s, seeds, exact) && Can(w, s, Schedule(a))
    ensures Inv(w, Do(w, s, Schedule(a)), seeds, exact)
  {
    Pool.StepKeepsInv(s.pool, a);
    Pool.StepKeepsNobodyLeftEarly(s.pool, a);
    OnlyRunningCounts(s.pool, a);
    var s' := Do(w, s, Schedule(a));
    forall q
      ensures Settles(q, exact, Accounted(w, s', q), LostSoFar(w, s'), OwedBy(w, seeds, q), Loses(w, seeds))
    {
      assert Accounted(w, s', q) == Accounted(w, s, q);
    }
  }

  lemma OnlyRunningCounts(s: Pool.State<Job>, a: Pool.Action<Job>)
    requires Pool.Enabled(s, a) && !a.RunJob? && !a.Panic?
    ensures Pool.Apply(s, a).ran == s.ran && |Pool.Apply(s, a).workers| == |s.workers|
  {
  }

  // ---- Runs ----

  ghost predicate IsWalk(w: World, states: seq<Walking>, moves: seq<Move>) {
    && |states| == |moves| + 1
    && forall k :: 0 <= k < |moves| ==> Can(w, states[k], moves[k]) && states[k + 1] == Do(w, states[k], moves[k])
  }

  function Start(seeds: seq<Job>, threads: nat): Walking {
    Walking(Pool.Init(seeds, threads), seq(threads, _ => EMPTY_OUT))
  }

  lemma {:induction false} NothingMerged(outs: seq<Out>, q: Tally)
    requires forall i :: 0 <= i < |outs| ==> outs[i] == EMPTY_OUT
    ensures CountOut(Merged(outs), q) == 0 && !Merged(outs).incomplete
  {
    if outs != [] {
      NothingMerged(outs[..|outs| - 1], q);
      CountOutMerges(Merged(outs[..|outs| - 1]), outs[|outs| - 1], q);
    }
  }

  ghost predicate NeverExhausted(moves: seq<Move>) {
    forall k :: 0 <= k < |moves| && moves[k].Read? ==> !moves[k].exhausted
  }

  lemma StartInv(w: World, seeds: seq<Job>, threads: nat, exact: bool)
    requires AllSound(w, seeds) && (exact ==> AllForgive(w, seeds))
    ensures Inv(w, Start(seeds, threads), multiset(seeds), exact)
  {
    var s := Start(seeds, threads);
    Pool.InitInv(seeds, threads);
    assert Pool.NobodyLeftEarly(s.pool);
    NothingMerged(s.outs, OfReads);
    assert forall job :: job in multiset(seeds) ==> job in seeds;
    forall q
      ensures Settles(q, exact, Accounted(w, s, q), LostSoFar(w, s), OwedBy(w, multiset(seeds), q),
                      Loses(w, multiset(seeds)))
    {
      NothingMerged(s.outs, q);
      assert Accounted(w, s, q) == OwedBy(w, multiset(seeds), q);
    }
  }

  lemma MoveKeepsInv(w: World, s: Walking, seeds: multiset<Job>, exact: bool, m: Move)
    requires WellFormed(w.root) && Inv(w, s, seeds, exact) && Can(w, s, m)
    requires exact && m.Read? ==> !m.exhausted
    ensures Inv(w, Do(w, s, m), seeds, exact)
  {
    match m {
      case Schedule(a) => ScheduleKeepsInv(w, s, seeds, exact, a);
      case Read(me, exhausted, budget) => ReadKeepsInv(w, s, seeds, exact, me, exhausted, budget);
    }
  }

  lemma WalkMoves(w: World, states: seq<Walking>, moves: seq<Move>, k: nat)
    requires IsWalk(w, states, moves) && k < |moves|
    ensures Can(w, states[k], moves[k]) && states[k + 1] == Do(w, states[k], moves[k])
  {
  }

  ghost predicate AllSound(w: World, seeds: seq<Job>) {
    forall k :: 0 <= k < |seeds| ==> Sound(w, seeds[k])
  }

  ghost predicate AllForgive(w: World, seeds: seq<Job>) {
    forall k :: 0 <= k < |seeds| ==> (seeds[k].fd.Some? ==> seeds[k].fd.value.Dir?) && Forgives(w, seeds[k])
  }

  lemma {:induction false} WalkKeepsInv(w: World, seeds: seq<Job>, threads: nat, states: seq<Walking>,
                                        moves: seq<Move>, exact: bool, k: nat)
    requires WellFormed(w.root) && AllSound(w, seeds)
    requires IsWalk(w, states, moves) && states[0] == Start(seeds, threads) && k <= |moves|
    requires exact ==> AllForgive(w, seeds) && NeverExhausted(moves)
    ensures Inv(w, states[k], multiset(seeds), exact)
  {
    var P := (s: Walking) => Inv(w, s, multiset(seeds), exact);
    StartInv(w, seeds, threads, exact);
    forall j | 0 <= j < |moves| && P(states[j]) ensures P(states[j + 1]) {
      WalkMoves(w, states, moves, j);
      MoveKeepsInv(w, states[j], multiset(seeds), exact, moves[j]);
    }
    KeptAlong(P, states, k);
  }

  lemma {:induction false} KeptAlong(P: Walking -> bool, states: seq<Walking>, k: nat)
    requires k < |states| && P(states[0]) && forall j :: 0 <= j < |states| - 1 && P(states[j]) ==> P(states[j + 1])
    ensures P(states[k])
  {
    if k > 0 {
      var j := k - 1;
      KeptAlong(P, states, j);
      assert P(states[j + 1]);
    }
  }

  /** What the walk of a set of seeds adds up to, whatever happens to the schedule. */
  ghost predicate Determined(w: World, seeds: multiset<Job>, sum: Sum, exact: bool) {
    && (forall q: Tally :: !q.OfJobs? ==> Count(sum, q) <= OwedBy(w, seeds, q))
    && (exact || !sum.incomplete ==> forall q: Tally :: !q.OfJobs? ==> Count(sum, q) == OwedBy(w, seeds, q))
    && (Loses(w, seeds) ==> sum.incomplete)
    && (exact && sum.incomplete ==> Loses(w, seeds))
  }

  /** Schedule independence. Once any worker has left, the merged output is what the seeds' subtrees
      determine, or it says it is incomplete; and it is exactly that whenever the process did not run
      out of descriptors and paths serve the seeds' subtrees as well as descriptors do. */
  lemma MergedOutputIsDetermined(w: World, seeds: seq<Job>, threads: nat, states: seq<Walking>, moves: seq<Move>,
                                 i: nat)
    requires WellFormed(w.root) && AllSound(w, seeds)
    requires IsWalk(w, states, moves) && states[0] == Start(seeds, threads)
    requires i < |states[|moves|].pool.workers| && states[|moves|].pool.workers[i].pc.Left?
    ensures Determined(w, multiset(seeds), Summary(Merged(states[|moves|].outs)),
                       AllForgive(w, seeds) && NeverExhausted(moves))
  {
    var last := states[|moves|];
    var exact := AllForgive(w, seeds) && NeverExhausted(moves);
    WalkKeepsInv(w, seeds, threads, states, moves, exact, |moves|);
    Pool.CountIsZeroWhenQuiet(last.pool);
    NothingLeftToOwe(w, last, multiset(seeds), exact);
  }

  lemma NothingLeftToOwe(w: World, s: Walking, seeds: multiset<Job>, exact: bool)
    requires Balanced(w, s, seeds, exact) && Pool.Quiet(s.pool)
    ensures Determined(w, seeds, Summary(Merged(s.outs)), exact)
  {
    Pool.QuietOwnsNothing(s.pool.workers);
    assert Pool.LiveJobs(s.pool) == multiset{};
    var sum := Summary(Merged(s.outs));
    forall q: Tally | !q.OfJobs? ensures Count(sum, q) <= OwedBy(w, seeds, q) {
      assert Settles(q, exact, Accounted(w, s, q), LostSoFar(w, s), OwedBy(w, seeds, q), Loses(w, seeds));
    }
    forall q: Tally | !q.OfJobs? && (exact || !sum.incomplete) ensures Count(sum, q) == OwedBy(w, seeds, q) {
      assert Settles(q, exact, Accounted(w, s, q), LostSoFar(w, s), OwedBy(w, seeds, q), Loses(w, seeds));
    }
    assert Settles(OfReads, exact, Accounted(w, s, OfReads), LostSoFar(w, s), OwedBy(w, seeds, OfReads),
                   Loses(w, seeds));
  }

  /** Work is bounded: at every moment of every walk, the directories run are no more than the tree
      under the seeds holds. */
  lemma {:induction false} JobsAreBounded(w: World, seeds: seq<Job>, threads: nat, states: seq<Walking>,
                                          moves: seq<Move>)
    requires WellFormed(w.root) && AllSound(w, seeds)
    requires IsWalk(w, states, moves) && states[0] == Start(seeds, threads)
    ensures |states[|moves|].pool.ran| <= OwedBy(w, multiset(seeds), OfJobs)
  {
    WalkKeepsInv(w, seeds, threads, states, moves, false, |moves|);
    var last := states[|moves|];
    assert Settles(OfJobs, false, Accounted(w, last, OfJobs), LostSoFar(w, last), OwedBy(w, multiset(seeds), OfJobs),
                   Loses(w, multiset(seeds)));
  }

  lemma RootJobsAreSound(w: World, budget: seq<Budget>, jobs: seq<Job>)
    requires w.root.Dir? && WellFormed(w.root) && |budget| == |w.root.entries|
    requires jobs == ReadDir(w.ctx, w.root, [], budget).jobs
    ensures AllSound(w, jobs) && (Reopenable(w.ctx, w.root, []) ==> AllForgive(w, jobs))
  {
    QueuedJobsAreSound(w, w.root, [], budget);
    if Reopenable(w.ctx, w.root, []) {
      DirectoryQueuesForgivingJobs(w, w.root, [], budget);
    }
  }

  /** A whole root: the calling thread reads it, the pool walks what it queued, and all outputs are
      merged. The result is the tree's own total. */
  lemma WalkingARoot(w: World, budget: seq<Budget>, threads: nat, states: seq<Walking>, moves: seq<Move>, i: nat)
    requires w.root.Dir? && WellFormed(w.root) && |budget| == |w.root.entries|
    requires IsWalk(w, states, moves) && states[0] == Start(ReadDir(w.ctx, w.root, [], budget).jobs, threads)
    requires i < |states[|moves|].pool.workers| && states[|moves|].pool.workers[i].pc.Left?
    ensures var first := ReadDir(w.ctx, w.root, [], budget).out;
            var sum := Summary(Merge(first, Merged(states[|moves|].outs)));
            && AtMost(sum, Total(w.ctx, w.root, [])) && (sum == Total(w.ctx, w.root, []) || sum.incomplete)
            && (Reopenable(w.ctx, w.root, []) && NeverExhausted(moves) ==> sum == Total(w.ctx, w.root, []))
  {
    var step := ReadDir(w.ctx, w.root, [], budget);
    var exact := Reopenable(w.ctx, w.root, []) && NeverExhausted(moves);
    RootJobsAreSound(w, budget, step.jobs);
    MergedOutputIsDetermined(w, step.jobs, threads, states, moves, i);
    RootTotal(w, budget, Merged(states[|moves|].outs), exact);
  }

  /** What the root's own reading and the pool's output come to. */
  lemma RootTotal(w: World, budget: seq<Budget>, rest: Out, exact: bool)
    requires w.root.Dir? && WellFormed(w.root) && |budget| == |w.root.entries|
    requires exact ==> Reopenable(w.ctx, w.root, [])
    requires Determined(w, multiset(ReadDir(w.ctx, w.root, [], budget).jobs), Summary(rest), exact)
    ensures var sum := Summary(Merge(ReadDir(w.ctx, w.root, [], budget).out, rest));
            AtMost(sum, Total(w.ctx, w.root, [])) && (exact || !sum.incomplete ==> sum == Total(w.ctx, w.root, []))
  {
    var step := ReadDir(w.ctx, w.root, [], budget);
    var sum, total := Summary(Merge(step.out, rest)), Total(w.ctx, w.root, []);
    RootIsAtMost(w, budget, rest, exact);
    if exact || !sum.incomplete {
      forall q ensures Count(sum, q) == Count(total, q) {
        DirectoryPaysUp(w, w.root, [], budget, q, exact);
        RootCounts(w, step, rest, total, exact, q);
      }
      DirectoryPaysUp(w, w.root, [], budget, OfReads, exact);
      CountsDecide(sum, total);
    }
  }

  lemma RootIsAtMost(w: World, budget: seq<Budget>, rest: Out, exact: bool)
    requires w.root.Dir? && WellFormed(w.root) && |budget| == |w.root.entries|
    requires Determined(w, multiset(ReadDir(w.ctx, w.root, [], budget).jobs), Summary(rest), exact)
    ensures AtMost(Summary(Merge(ReadDir(w.ctx, w.root, [], budget).out, rest)), Total(w.ctx, w.root, []))
  {
    var step := ReadDir(w.ctx, w.root, [], budget);
    forall q ensures Count(Summary(Merge(step.out, rest)), q) <= Count(Total(w.ctx, w.root, []), q) {
      DirectoryPaysUp(w, w.root, [], budget, q, false);
      CountOutMerges(step.out, rest, q);
    }
    CountsBound(Summary(Merge(step.out, rest)), Total(w.ctx, w.root, []));
  }

  lemma RootCounts(w: World, step: Step, rest: Out, total: Sum, exact: bool, q: Tally)
    requires Determined(w, multiset(step.jobs), Summary(rest), exact)
    requires exact || !Merge(step.out, rest).incomplete
    requires q.OfJobs? || Settles(q, exact, Paid(w, step, q), Lost(w, step), Count(total, q), total.incomplete)
    ensures Count(Summary(Merge(step.out, rest)), q) == Count(total, q)
  {
    CountOutMerges(step.out, rest, q);
  }
}
