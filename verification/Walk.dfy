/** The walk over one root: what reading a directory concludes, and what a whole walk adds up to. */
module Walk {
  import opened Bytes
  import opened Paths
  import opened FileTree

  datatype Detect = OpenScan | StatFirst

  /** What every worker shares. `wildmatch(pattern, path)` is git's matcher. */
  datatype Ctx = Ctx(exclude: seq<Bytes>, wildmatch: (Bytes, Bytes) -> bool, detect: Detect)

  predicate IsExcluded(ctx: Ctx, rel: Bytes) {
    exists k :: 0 <= k < |ctx.exclude| && ctx.wildmatch(ctx.exclude[k], rel)
  }

  /** An index entry: a directory with the mtime it was read at, or a repository. */
  datatype Record = Record(rel: Bytes, mtime: Option<int>)

  // ---- Outputs ----

  /** What one worker has produced so far. */
  datatype Out = Out(repos: seq<Bytes>, records: seq<Record>, dirsRead: nat, excluded: nat, incomplete: bool)

  const EMPTY_OUT := Out([], [], 0, 0, false)
  const LOST_OUT := EMPTY_OUT.(incomplete := true)
  const PRUNED_OUT := EMPTY_OUT.(excluded := 1)

  function Printed(rel: Bytes): Bytes {
    if rel == [] then DOT_PATH else rel
  }

  function EmitOut(rel: Bytes): Out {
    EMPTY_OUT.(repos := [Printed(rel)], records := [Record(rel, None)])
  }

  /** Counting a directory as read, and recording it when it is not a repository. */
  function DirOut(rel: Bytes, mtime: int): Out {
    EMPTY_OUT.(dirsRead := 1, records := [Record(rel, Some(mtime))])
  }

  function Merge(a: Out, b: Out): Out {
    Out(a.repos + b.repos, a.records + b.records, a.dirsRead + b.dirsRead, a.excluded + b.excluded,
        a.incomplete || b.incomplete)
  }

  /** An output up to the order in which scheduling produced it. */
  datatype Sum = Sum(repos: multiset<Bytes>, records: multiset<Record>, dirsRead: nat, excluded: nat, incomplete: bool)
  {
    function Plus(that: Sum): Sum {
      Sum(repos + that.repos, records + that.records, dirsRead + that.dirsRead,
          excluded + that.excluded, incomplete || that.incomplete)
    }
  }

  const ZERO := Sum(multiset{}, multiset{}, 0, 0, false)

  function Summary(out: Out): Sum {
    Sum(multiset(out.repos), multiset(out.records), out.dirsRead, out.excluded, out.incomplete)
  }

  lemma SummaryMerges(a: Out, b: Out)
    ensures Summary(Merge(a, b)) == Summary(a).Plus(Summary(b))
  {
  }

  // ---- Reading one directory ----

  /** Rules (i) and (iv): the entry list decides, and only a link or an untyped `.git` costs a stat. */
  predicate IsRepoDir(dir: Node)
    requires dir.Dir?
  {
    var i := IndexOf(dir.entries, DOT_GIT);
    i < |dir.entries| &&
    (dir.entries[i].node.Link? || !dir.entries[i].typed ==> dir.search && Stats(dir.entries[i].node))
  }

  datatype Verdict = Skip | Prune | Emit | Queue

  /** What the reader does with one entry, up to the point where a child has to be opened. */
  function Decide(ctx: Ctx, dir: Node, rel: Bytes, e: Entry): (v: Verdict)
    requires dir.Dir?
    ensures v == Queue ==> e.node.Dir?
  {
    var path := JoinRel(rel, e.name);
    if !e.typed && !dir.search then Skip
    else match e.node
      case Dir(_, _, _, _, _) =>
        if IsExcluded(ctx, path) then Prune
        else if EndsWith(e.name, DOT_GIT) then Emit
        else if ctx.detect == StatFirst && dir.search && StatsGit(e.node) then Emit
        else Queue
      case Link(target) =>
        if IsExcluded(ctx, path) then Prune
        else if !dir.search || !target.Directory? then Skip
        else if EndsWith(e.name, DOT_GIT) || target.git then Emit
        else Skip
      case File => Skip
  }

  /** A directory found but not yet read: with the descriptor its parent opened, or by path. */
  datatype Job = Job(fd: Option<Node>, rel: Bytes)

  datatype Step = Step(out: Out, jobs: seq<Job>)

  /** What the shared descriptor count says when a child is about to be opened. `Spent` is also the
      process having run out of descriptors. */
  datatype Budget = Spare | Spent

  /** Opens a child, or queues it by path once the budget is spent. */
  function QueueChild(ctx: Ctx, dir: Node, child: Node, path: Bytes, budget: Budget): Step
    requires dir.Dir? && child.Dir?
  {
    if budget == Spent then Step(EMPTY_OUT, [Job(None, path)])
    else if dir.search && child.read then Step(EMPTY_OUT, [Job(Some(child), path)])
    else if dir.search && StatsGit(child) then Step(EmitOut(path), [])
    else Step(LOST_OUT, [])
  }

  function EntryStep(ctx: Ctx, dir: Node, rel: Bytes, e: Entry, budget: Budget): Step
    requires dir.Dir?
  {
    var path := JoinRel(rel, e.name);
    match Decide(ctx, dir, rel, e)
    case Skip => Step(EMPTY_OUT, [])
    case Prune => Step(PRUNED_OUT, [])
    case Emit => Step(EmitOut(path), [])
    case Queue => QueueChild(ctx, dir, e.node, path, budget)
  }

  function Together(a: Step, b: Step): Step {
    Step(Merge(a.out, b.out), a.jobs + b.jobs)
  }

  /** The directory itself and its first `n` entries, each with its own answer from the descriptor budget. */
  function EntrySteps(ctx: Ctx, dir: Node, rel: Bytes, budget: seq<Budget>, n: nat): Step
    requires dir.Dir? && n <= |dir.entries| == |budget|
  {
    if n == 0 then Step(DirOut(rel, dir.mtime), [])
    else
      Together(EntrySteps(ctx, dir, rel, budget, n - 1),
               EntryStep(ctx, dir, rel, dir.entries[n - 1], budget[n - 1]))
  }

  function ReadDir(ctx: Ctx, dir: Node, rel: Bytes, budget: seq<Budget>): Step
    requires dir.Dir? && |dir.entries| == |budget|
  {
    if !dir.intact then Step(LOST_OUT, [])
    else if IsRepoDir(dir) then Step(EmitOut(rel).(dirsRead := 1), [])
    else EntrySteps(ctx, dir, rel, budget, |dir.entries|)
  }

  /** The directory a job ends up reading, when it can be opened at all. */
  function ResolvedDir(root: Node, job: Job): (dir: Option<Node>)
    requires job.fd.Some? ==> job.fd.value.Dir?
    ensures dir.Some? ==> dir.value.Dir?
  {
    if job.fd.Some? then job.fd
    else if OpenAt(root, job.rel).Opened? then Some(OpenAt(root, job.rel).dir) else None
  }

  /** One job's whole effect. `exhausted` is the process running out of descriptors on a re-open, the
      one case with nothing left to fall back to. */
  function RunJob(ctx: Ctx, root: Node, job: Job, exhausted: bool, budget: seq<Budget>): Step
    requires job.fd.Some? ==> job.fd.value.Dir?
    requires ResolvedDir(root, job).Some? ==> |budget| == |ResolvedDir(root, job).value.entries|
  {
    match job.fd
    case Some(dir) => ReadDir(ctx, dir, job.rel, budget)
    case None =>
      if exhausted then Step(LOST_OUT, [])
      else match OpenAt(root, job.rel)
        case Opened(dir) => ReadDir(ctx, dir, job.rel, budget)
        case Refused => Step(LOST_OUT, [])
        case Gone => Step(EMPTY_OUT, [])
  }

  // ---- A whole subtree ----

  /** Everything a walk of the subtree at `rel` produces while descriptors last. */
  function Total(ctx: Ctx, dir: Node, rel: Bytes): Sum
    requires dir.Dir?
    decreases dir, |dir.entries| + 1
  {
    if !dir.intact then Summary(LOST_OUT)
    else if IsRepoDir(dir) then Summary(EmitOut(rel).(dirsRead := 1))
    else TotalEntries(ctx, dir, rel, |dir.entries|)
  }

  function TotalEntries(ctx: Ctx, dir: Node, rel: Bytes, n: nat): Sum
    requires dir.Dir? && n <= |dir.entries|
    decreases dir, n
  {
    if n == 0 then Summary(DirOut(rel, dir.mtime))
    else TotalEntries(ctx, dir, rel, n - 1).Plus(TotalEntry(ctx, dir, rel, dir.entries[n - 1]))
  }

  /** Whether this entry is a directory the walk opens. */
  predicate Enters(ctx: Ctx, dir: Node, rel: Bytes, e: Entry): (r: bool)
    requires dir.Dir?
    ensures r ==> e.node.Dir?
  {
    Decide(ctx, dir, rel, e) == Queue && dir.search && e.node.read
  }

  function TotalEntry(ctx: Ctx, dir: Node, rel: Bytes, e: Entry): Sum
    requires dir.Dir? && e in dir.entries
    decreases dir, 0
  {
    if Enters(ctx, dir, rel, e)
    then Total(ctx, e.node, JoinRel(rel, e.name))
    else Summary(EntryStep(ctx, dir, rel, e, Spare).out)
  }
}
