/** The directory reader as the program runs it: buffers reused from directory to directory, an
    output filled entry by entry. Each method is proved against the functions in Walk. */
module DirectoryReader {
  import opened Bytes
  import opened Paths
  import opened FileTree
  import opened Walk

  const U32_MAX := 0xffff_ffff

  datatype Kind = IsDir | IsSymlink | IsOther | IsUnknown

  function KindOfNode(node: Node): Kind {
    match node
    case Dir(_, _, _, _, _) => IsDir
    case Link(_) => IsSymlink
    case File => IsOther
  }

  /** The type `readdir` reports. */
  function Reported(e: Entry): Kind {
    if e.typed then KindOfNode(e.node) else IsUnknown
  }

  datatype Named = Named(name: Bytes, kind: Kind)

  datatype Ent = Ent(off: nat, len: nat, kind: Kind)

  /** The entries as the stream names and types them. */
  function Listing(dir: Node): seq<Named>
    requires dir.Dir?
  {
    seq(|dir.entries|, i requires 0 <= i < |dir.entries| => Named(dir.entries[i].name, Reported(dir.entries[i])))
  }

  /** Bytes taken by the first `n` names. */
  function NameBytes(entries: seq<Entry>, n: nat): nat
    requires n <= |entries|
  {
    if n == 0 then 0 else NameBytes(entries, n - 1) + |entries[n - 1].name|
  }

  lemma {:induction false} NameBytesGrow(entries: seq<Entry>, n: nat, m: nat)
    requires n <= m <= |entries|
    ensures NameBytes(entries, n) <= NameBytes(entries, m)
    decreases m
  {
    if n < m {
      NameBytesGrow(entries, n, m - 1);
    }
  }

  /** The program gives up on a directory whose names exceed 4 GiB. */
  predicate Fits(dir: Node)
    requires dir.Dir?
  {
    NameBytes(dir.entries, |dir.entries|) + 3 <= U32_MAX
  }

  /** One directory's entries: concatenated names behind offset and length handles. */
  class EntryBuf {
    var names: Bytes
    var ents: seq<Ent>

    constructor ()
      ensures Valid() && Contents() == [] && |names| == 0
    {
      names, ents := [], [];
    }

    ghost predicate Valid()
      reads this
    {
      forall i :: 0 <= i < |ents| ==> ents[i].off + ents[i].len <= |names|
    }

    function Name(i: nat): Bytes
      requires Valid() && i < |ents|
      reads this
    {
      names[ents[i].off..ents[i].off + ents[i].len]
    }

    function Contents(): seq<Named>
      requires Valid()
      reads this
    {
      seq(|ents|, i requires 0 <= i < |ents| reads this requires Valid() => Named(Name(i), ents[i].kind))
    }

    method Clear()
      modifies this
      ensures Valid() && Contents() == [] && |names| == 0
    {
      names, ents := [], [];
    }

    method Push(name: Bytes, kind: Kind)
      requires Valid() && |names| + |name| <= U32_MAX
      modifies this
      ensures Valid()
      ensures Contents() == old(Contents()) + if name == DOT_PATH || name == DOT_DOT then [] else [Named(name, kind)]
      ensures |names| <= old(|names|) + |name|
    {
      if name == DOT_PATH || name == DOT_DOT {
        return;
      }
      ghost var before := Contents();
      var off := |names|;
      names := names + name;
      ents := ents + [Ent(off, |name|, kind)];
      assert Name(|before|) == name;
      assert forall i :: 0 <= i < |before| ==> Name(i) == before[i].name;
      assert Contents() == before + [Named(name, kind)];
    }
  }

  lemma MergeAssociates(a: Out, b: Out, c: Out)
    ensures Merge(Merge(a, b), c) == Merge(a, Merge(b, c))
  {
  }

  class Walker {
    const ctx: Ctx
    const buf: EntryBuf
    var rel: Bytes
    var out: Out

    constructor (ctx: Ctx)
      ensures this.ctx == ctx && fresh(buf) && buf.Valid() && out == EMPTY_OUT
    {
      this.ctx := ctx;
      buf := new EntryBuf();
      rel, out := [], EMPTY_OUT;
    }

    /** Fills the buffer from the stream; a directory whose stream breaks is not used at all. */
    method Fill(dir: Node) returns (whole: bool)
      requires dir.Dir? && WellFormed(dir) && Fits(dir)
      requires buf.Valid()
      modifies buf
      ensures buf.Valid() && whole == dir.intact
      ensures whole ==> buf.Contents() == Listing(dir)
    {
      buf.Clear();
      if !dir.intact {
        return false;
      }
      buf.Push(DOT_PATH, IsDir);
      buf.Push(DOT_DOT, IsDir);
      FillEntries(dir);
      whole := true;
    }

    method FillEntries(dir: Node)
      requires dir.Dir? && DistinctNames(dir.entries) && Fits(dir)
      requires buf.Valid() && buf.Contents() == [] && |buf.names| <= 3
      modifies buf
      ensures buf.Valid() && buf.Contents() == Listing(dir)
    {
      ghost var seen: seq<Named> := [];
      for i := 0 to |dir.entries|
        invariant buf.Valid() && |buf.names| <= NameBytes(dir.entries, i) + 3
        invariant buf.Contents() == seen && |seen| == i
        invariant forall k :: 0 <= k < i ==> seen[k] == Listing(dir)[k]
      {
        NameBytesGrow(dir.entries, i + 1, |dir.entries|);
        var e := dir.entries[i];
        assert IsName(e.name);
        buf.Push(e.name, Reported(e));
        seen := seen + [Named(e.name, Reported(e))];
      }
    }

    /** Scans the entries for `.git`, and stats it only when its type does not settle the matter. */
    method IsRepo(dir: Node) returns (r: bool)
      requires dir.Dir? && buf.Valid() && buf.Contents() == Listing(dir)
      ensures r == IsRepoDir(dir)
    {
      for i := 0 to |buf.ents|
        invariant forall k :: 0 <= k < i ==> dir.entries[k].name != DOT_GIT
      {
        assert buf.Contents()[i] == Listing(dir)[i];
        if buf.Name(i) == DOT_GIT {
          FirstIndex(dir.entries, DOT_GIT, i);
          var kind := buf.ents[i].kind;
          return if kind == IsSymlink || kind == IsUnknown
                 then dir.search && Stats(dir.entries[i].node) else true;
        }
      }
      return false;
    }

    /** Hands one child directory to the queue, or settles it. */
    method Enqueue(dir: Node, i: nat, budget: Budget, children: seq<Job>) returns (children': seq<Job>)
      requires dir.Dir? && i < |dir.entries| && dir.entries[i].node.Dir?
      modifies `out
      ensures var step := QueueChild(ctx, dir, dir.entries[i].node, rel, budget);
              out == Merge(old(out), step.out) && children' == children + step.jobs
    {
      var child := dir.entries[i].node;
      children' := children;
      if budget == Spent {
        children' := children + [Job(None, rel)];
      } else if dir.search && child.read {
        children' := children + [Job(Some(child), rel)];
      } else if dir.search && StatsGit(child) {
        Emit(rel);
      } else {
        NoteIncomplete();
      }
    }

    method Emit(path: Bytes)
      modifies `out
      ensures out == Merge(old(out), EmitOut(path))
    {
      out := out.(repos := out.repos + [if path == [] then DOT_PATH else path]);
      out := out.(records := out.records + [Record(path, None)]);
    }

    /** Applies the rules to one entry. */
    method Visit(dir: Node, path: Bytes, i: nat, budget: Budget, children: seq<Job>) returns (children': seq<Job>)
      requires dir.Dir? && buf.Valid() && buf.Contents() == Listing(dir) && i < |dir.entries|
      modifies `out, `rel
      ensures var step := EntryStep(ctx, dir, path, dir.entries[i], budget);
              out == Merge(old(out), step.out) && children' == children + step.jobs
    {
      children' := children;
      assert buf.Contents()[i] == Listing(dir)[i];
      var name, kind := buf.Name(i), buf.ents[i].kind;
      if kind == IsUnknown {
        if !dir.search {
          return;
        }
        kind := KindOfNode(dir.entries[i].node);
      }
      match kind {
        case IsDir =>
          rel := JoinRel(path, name);
          if IsExcluded(ctx, rel) {
            out := out.(excluded := out.excluded + 1);
          } else if EndsWith(name, DOT_GIT) {
            Emit(rel);
          } else if ctx.detect == StatFirst && dir.search && StatsGit(dir.entries[i].node) {
            Emit(rel);
          } else {
            children' := Enqueue(dir, i, budget, children);
          }
        case IsSymlink =>
          rel := JoinRel(path, name);
          var target := dir.entries[i].node.target;
          if IsExcluded(ctx, rel) {
            out := out.(excluded := out.excluded + 1);
          } else if dir.search && target.Directory? {
            if EndsWith(name, DOT_GIT) {
              Emit(rel);
            } else if target.git {
              Emit(rel);
            }
          }
        case _ =>
      }
    }

    /** Reads one directory: rule (i) over the whole list first, then every entry. */
    method ReadDir(dir: Node, path: Bytes, budget: seq<Budget>, children: seq<Job>) returns (children': seq<Job>)
      requires dir.Dir? && WellFormed(dir) && Fits(dir)
      requires buf.Valid() && |budget| == |dir.entries|
      modifies this, buf
      ensures buf.Valid()
      ensures var step := Walk.ReadDir(ctx, dir, path, budget);
              out == Merge(old(out), step.out) && children' == children + step.jobs
    {
      children' := children;
      var whole := Fill(dir);
      if !whole {
        NoteIncomplete();
        return;
      }
      out := out.(dirsRead := out.dirsRead + 1);
      var isRepo := IsRepo(dir);
      if isRepo {
        Emit(path);
        CountedFirst(old(out), EmitOut(path));
      } else {
        NoteDir(path, dir.mtime);
        CountedFirst(old(out), DirOut(path, dir.mtime).(dirsRead := 0));
        children' := VisitAll(dir, path, budget, children, old(out));
      }
    }

    /** Every entry in turn; `start` is the output before this directory was counted. */
    method VisitAll(dir: Node, path: Bytes, budget: seq<Budget>, children: seq<Job>, ghost start: Out)
      returns (children': seq<Job>)
      requires dir.Dir? && buf.Valid() && buf.Contents() == Listing(dir) && |budget| == |dir.entries|
      requires out == Merge(start, DirOut(path, dir.mtime))
      modifies `out, `rel
      ensures var steps := EntrySteps(ctx, dir, path, budget, |dir.entries|);
              out == Merge(start, steps.out) && children' == children + steps.jobs
    {
      children' := children;
      ghost var steps := EntrySteps(ctx, dir, path, budget, 0);
      NoJobsYet(children, steps.jobs);
      for i := 0 to |dir.entries|
        invariant steps == EntrySteps(ctx, dir, path, budget, i)
        invariant out == Merge(start, steps.out)
        invariant children' == children + steps.jobs
      {
        ghost var last := EntryStep(ctx, dir, path, dir.entries[i], budget[i]);
        OneMoreEntry(start, children, steps, last);
        children' := Visit(dir, path, i, budget[i], children');
        steps := Together(steps, last);
      }
    }

    /** Runs one job: through its descriptor, or re-opened from the root by path. */
    method Run(root: Node, job: Job, exhausted: bool, budget: seq<Budget>, children: seq<Job>)
      returns (children': seq<Job>)
      requires job.fd.Some? ==> job.fd.value.Dir?
      requires var dir := ResolvedDir(root, job);
               dir.Some? ==> WellFormed(dir.value) && Fits(dir.value) &&
                             |budget| == |dir.value.entries|
      requires buf.Valid()
      modifies this, buf
      ensures buf.Valid()
      ensures var step := RunJob(ctx, root, job, exhausted, budget);
              out == Merge(old(out), step.out) && children' == children + step.jobs
    {
      children' := children;
      match job.fd {
        case Some(dir) =>
          children' := ReadDir(dir, job.rel, budget, children);
        case None =>
          if exhausted {
            NoteIncomplete();
            return;
          }
          match OpenAt(root, job.rel) {
            case Opened(dir) => children' := ReadDir(dir, job.rel, budget, children);
            case Refused => NoteIncomplete();
            case Gone =>
          }
      }
    }

    method NoteIncomplete()
      modifies `out
      ensures out == Merge(old(out), LOST_OUT)
    {
      out := out.(incomplete := true);
    }

    method NoteDir(path: Bytes, mtime: int)
      modifies `out
      ensures out == Merge(old(out), DirOut(path, mtime).(dirsRead := 0))
    {
      out := out.(records := out.records + [Record(path, Some(mtime))]);
    }
  }

  lemma NoJobsYet(children: seq<Job>, jobs: seq<Job>)
    requires jobs == []
    ensures children + jobs == children
  {
  }

  lemma OneMoreEntry(start: Out, children: seq<Job>, before: Step, last: Step)
    ensures Merge(Merge(start, before.out), last.out) == Merge(start, Together(before, last).out)
    ensures (children + before.jobs) + last.jobs == children + Together(before, last).jobs
  {
    MergeAssociates(start, before.out, last.out);
  }

  lemma CountedFirst(a: Out, b: Out)
    requires b.dirsRead == 0
    ensures Merge(a.(dirsRead := a.dirsRead + 1), b) == Merge(a, b.(dirsRead := 1))
  {
  }

  lemma {:induction false} FirstIndex(entries: seq<Entry>, name: Bytes, i: nat)
    requires i < |entries| && entries[i].name == name
    requires forall k :: 0 <= k < i ==> entries[k].name != name
    ensures IndexOf(entries, name) == i
  {
  }
}
