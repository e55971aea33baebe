/** What happens to a root and its index file over time: trees change, runs list through the index, walks
    fall short, files get damaged, and stores land late. The invariant, and why changes keep it. */
module CacheEvents {
  import opened Bytes
  import opened Paths
  import opened FileTree
  import opened Walk
  import opened WalkRules
  import opened IndexFormat
  import opened IndexBuild
  import opened IndexValidate
  import opened RootWalk
  import opened CachedListing
  import opened Cache

  /** What does not change: the root's spelling, git's matcher, and how coarse the clock that stamps
      directories is. */
  datatype Env = Env(path: Bytes, name: Bytes, wildmatch: (Bytes, Bytes) -> bool, granularity: int)

  predicate ValidEnv(env: Env) {
    0 <= env.granularity <= RACY_WINDOW
  }

  /** A listing some process has taken and not yet stored. */
  datatype Pending = Pending(exclude: seq<Bytes>, was: Node, listing: Out)

  /** `bits` is whether the root has a read bit set; `seen`, every identity the root ever had. */
  datatype State = State(tree: Node, bits: bool, id: Identity, seen: set<Identity>, now: int, file: Option<Bytes>,
                         pending: seq<Pending>)

  /** What one run finds: the index's answer, by way of a re-walk, and the full walk's; and the paths each
      warns about. */
  datatype Run = Run(ctx: Ctx, rewalk: seq<Bytes> -> Out, lostBy: seq<Bytes> -> set<Bytes>, cached: Option<Out>,
                     walk: Out, lost: set<Bytes>, exhausted: bool)

  /** An answer from an index that was taken from the tree `from`, when the tree it was used on looked like
      the scene's; `gone` are paths that vanished before they were re-walked. */
  datatype Pass = Pass(ctx: Ctx, ix: Index, from: Node, listing: Out, scene: Scene, gone: set<Bytes>,
                       rewalk: seq<Bytes> -> Out, lostBy: seq<Bytes> -> set<Bytes>, exhausted: bool)

  /** `Gather` is a walk during which the tree changed: `was` puts together each directory as the walk
      saw it. `Revalidate` is an answer from an index meanwhile: its scene's tree puts together what it read
      and what it believed. `SlowWalks` shows that either is faithful. */
  datatype Event =
    | Change(tree: Node, bits: bool, now: int, stamp: int -> bool)
    | Replace(tree: Node, bits: bool, id: Identity, now: int)
    | List(run: Run)
    | Check(run: Run)
    | Gather(ctx: Ctx, was: Node, bits: bool, walk: Out, lost: set<Bytes>, exhausted: bool)
    | Revalidate(pass: Pass, answer: Out)
    | Store(at: nat, now: int, writes: bool)
    | Damage(file: Option<Bytes>)

  function SceneOf(env: Env, s: State): Scene {
    Scene(env.path, env.name, s.id, s.tree)
  }

  function RootOf(env: Env, s: State): Root {
    Root(env.name, s.bits, s.tree)
  }

  ghost predicate Sane(tree: Node) {
    tree.Dir? && FileTree.WellFormed(tree) && Searchable(tree)
  }

  // ---- How changes and clocks behave ----

  /** No directory from the root down to `rel` was given a stamp. */
  predicate Calm(tree: Node, stamp: int -> bool, rel: Bytes)
    decreases |rel|
  {
    && DirAt(tree, rel).Some? && !stamp(DirAt(tree, rel).value.mtime)
    && (rel == [] || Calm(tree, stamp, ParentOf(rel)))
  }

  /** A change stamps every directory whose entries it changes; what it leaves calm is as it was. */
  ghost predicate Stamps(was: Node, now: Node, stamp: int -> bool) {
    forall rel :: Calm(now, stamp, rel) ==>
      && DirAt(was, rel).Some? && DirAt(was, rel).value.mtime == DirAt(now, rel).value.mtime
      && SameEntries(DirAt(was, rel).value.entries, DirAt(now, rel).value.entries)
  }

  /** While a walk is on its way to being stored, no stamp repeats an mtime that walk read. */
  ghost predicate NewToPending(s: State, stamp: int -> bool) {
    forall i, rel :: 0 <= i < |s.pending| && DirAt(s.pending[i].was, rel).Some? ==>
      !stamp(DirAt(s.pending[i].was, rel).value.mtime)
  }

  predicate SameTimes(was: Node, now: Node, rel: Bytes)
    decreases |rel|
  {
    && DirAt(was, rel).Some? && DirAt(now, rel).Some?
    && DirAt(was, rel).value.mtime == DirAt(now, rel).value.mtime
    && (rel == [] || SameTimes(was, now, ParentOf(rel)))
  }

  /** As `Faithful`, for a listing that has no write time yet. */
  ghost predicate FaithfulSoFar(was: Node, now: Node) {
    forall rel :: SameTimes(was, now, rel) ==> SameEntries(DirAt(was, rel).value.entries, DirAt(now, rel).value.entries)
  }

  // ---- What a run can see ----

  ghost predicate Consistent(env: Env, s: State, run: Run)
    requires s.tree.Dir?
  {
    && run.ctx.wildmatch == env.wildmatch
    && HonestWalk(run.ctx, RootOf(env, s), run.walk, run.lost, run.exhausted)
    && HonestRewalk(run.ctx, s.tree, run.rewalk, run.lostBy, run.exhausted)
    && Answers(s.file, SceneOf(env, s), run.ctx.exclude, run.rewalk, run.cached)
  }

  /** The rules under these exclusions. */
  function Rules(env: Env, exclude: seq<Bytes>): Ctx {
    Ctx(exclude, env.wildmatch, StatFirst)
  }

  /** `ix` has the entries of the index of a right listing of that tree. */
  ghost predicate IsIndexOf(env: Env, ix: Index, tree: Node, listing: Out) {
    && Sane(tree) && IsRightFor(Rules(env, ix.exclude), env.name, tree, listing)
    && ix.entries == Linked(Canonical(listing.records))
  }

  ghost predicate HonestPass(env: Env, p: Pass) {
    && p.ctx.wildmatch == env.wildmatch && p.ctx.exclude == p.ix.exclude && p.scene.name == env.name
    && IsIndexOf(env, p.ix, p.from, p.listing) && Sane(p.scene.tree)
    && FaithfulBut(p.gone, p.from, p.scene.tree, p.ix.written)
    && HonestRewalk(p.ctx, p.scene.tree, p.rewalk, p.lostBy, p.exhausted)
  }

  ghost predicate PassAnswers(p: Pass, answer: Option<Out>) {
    exists order :: Visits(p.ix, p.scene, order) && answer == Answer(p.ix, p.scene, order, p.rewalk)
  }

  /** Everything fits the format's widths. */
  ghost predicate Fits(ix: Index) {
    && HeadFits(ix) && |ix.exclude| < U32 && (forall k :: 0 <= k < |ix.exclude| ==> |ix.exclude[k]| < U32)
    && |ix.entries| < U32
    && forall k :: 0 <= k < |ix.entries| ==>
      |ix.entries[k].rel| < U32 && (ix.entries[k].mtime.Some? ==> IsI64(ix.entries[k].mtime.value))
  }

  ghost function ToStore(env: Env, s: State, p: Pending, now: int): Option<Index> {
    Built(env.path, Some(s.id), p.exclude, now, p.listing.records)
  }

  /** Nothing that decodes to an index of this root: another root's, whose name happens to give the same file,
      is as good as none. */
  ghost predicate IsWorthless(env: Env, file: Option<Bytes>) {
    file.Some? && Parse(file.value).Some? ==> Parse(file.value).value.root != env.path
  }

  ghost predicate Enabled(env: Env, s: State, e: Event)
    requires s.tree.Dir?
  {
    match e
    case Change(tree, _, now, stamp) =>
      && Sane(tree) && s.now <= now && Stamps(s.tree, tree, stamp) && NewToPending(s, stamp)
      && (forall m :: stamp(m) ==> m > now - env.granularity)
    case Replace(tree, _, id, now) =>
      && Sane(tree) && s.now <= now && id !in s.seen
      && (forall i :: 0 <= i < |s.pending| && s.pending[i].was.Dir? ==> s.pending[i].was.mtime != tree.mtime)
    case List(run) => Consistent(env, s, run)
    case Check(run) => Consistent(env, s, run)
    case Gather(ctx, was, bits, walk, lost, exhausted) =>
      && ctx.wildmatch == env.wildmatch && Sane(was) && FaithfulSoFar(was, s.tree)
      && HonestWalk(ctx, Root(env.name, bits, was), walk, lost, exhausted)
    case Revalidate(pass, answer) =>
      HonestPass(env, pass) && FaithfulSoFar(pass.scene.tree, s.tree) && PassAnswers(pass, Some(answer))
    case Store(at, now, writes) =>
      at < |s.pending| && s.now <= now &&
      (ToStore(env, s, s.pending[at], now).Some? ==> Fits(ToStore(env, s, s.pending[at], now).value))
    case Damage(file) => IsWorthless(env, file)
  }

  /** What a listing run prints. */
  function Output(run: Run): Out {
    if run.cached.Some? then run.cached.value else run.walk
  }

  ghost function Apply(env: Env, s: State, e: Event): State
    requires s.tree.Dir? && Enabled(env, s, e)
  {
    match e
    case Change(tree, bits, now, _) => s.(tree := tree, bits := bits, now := now)
    case Replace(tree, bits, id, now) => s.(tree := tree, bits := bits, id := id, seen := s.seen + {id}, now := now)
    case List(run) => s.(pending := s.pending + [Pending(run.ctx.exclude, s.tree, Output(run))])
    case Check(run) => s.(pending := s.pending + [Pending(run.ctx.exclude, s.tree, run.walk)])
    case Gather(ctx, was, _, walk, _, _) => s.(pending := s.pending + [Pending(ctx.exclude, was, walk)])
    case Revalidate(pass, answer) =>
      s.(pending := s.pending + [Pending(pass.ctx.exclude, pass.scene.tree, answer)])
    case Store(at, now, writes) =>
      var p := s.pending[at];
      s.(file := Stored(s.file, env.path, Some(s.id), p.exclude, now, p.listing, writes), now := now,
         pending := s.pending[..at] + s.pending[at + 1..])
    case Damage(file) => s.(file := file)
  }

  // ---- The invariant ----

  /** `ix` is the index of a complete listing of the tree as it was. */
  ghost predicate IndexOfListing(env: Env, s: State, ix: Index, was: Node, listing: Out) {
    && IsIndexOf(env, ix, was, listing)
    && 0 <= ix.written <= s.now && Identity(ix.dev, ix.ino) in s.seen
    && (Identity(ix.dev, ix.ino) == s.id ==> Faithful(was, s.tree, ix.written))
  }

  ghost predicate FileIsGood(env: Env, s: State) {
    !IsWorthless(env, s.file) ==>
      exists was, listing :: IndexOfListing(env, s, Parse(s.file.value).value, was, listing)
  }

  /** Complete means right, or empty; and what is empty is never stored. */
  ghost predicate PendingIsGood(env: Env, s: State, p: Pending) {
    && Sane(p.was) && FaithfulSoFar(p.was, s.tree)
    && (!p.listing.incomplete ==>
        IsRightFor(Rules(env, p.exclude), env.name, p.was, p.listing) || p.listing == EMPTY_OUT)
  }

  ghost predicate Inv(env: Env, s: State) {
    && ValidEnv(env) && Sane(s.tree) && s.id in s.seen && 0 <= s.now && FileIsGood(env, s)
    && forall i :: 0 <= i < |s.pending| ==> PendingIsGood(env, s, s.pending[i])
  }

  // ---- Entries that stay the same ----

  lemma SameEntriesReflexive(es: seq<Entry>)
    ensures SameEntries(es, es)
  {
  }

  lemma SameUnderTransitive(name: Bytes, a: seq<Entry>, b: seq<Entry>, c: seq<Entry>)
    requires SameUnder(name, a, b) && SameUnder(name, b, c)
    ensures SameUnder(name, a, c)
  {
  }

  lemma SameEntriesTransitive(a: seq<Entry>, b: seq<Entry>, c: seq<Entry>)
    requires SameEntries(a, b) && SameEntries(b, c)
    ensures SameEntries(a, c)
  {
    forall name ensures SameUnder(name, a, c) {
      SameUnderTransitive(name, a, b, c);
    }
  }

  lemma FaithfulToItself(tree: Node)
    ensures FaithfulSoFar(tree, tree)
  {
    forall rel | SameTimes(tree, tree, rel)
      ensures SameEntries(DirAt(tree, rel).value.entries, DirAt(tree, rel).value.entries)
    {
      SameEntriesReflexive(DirAt(tree, rel).value.entries);
    }
  }

  lemma {:induction false} UnmovedIsSameTimes(was: Node, now: Node, written: int, rel: Bytes)
    requires Unmoved(was, now, written, rel)
    ensures SameTimes(was, now, rel)
    decreases |rel|
  {
    if rel != [] {
      UnmovedIsSameTimes(was, now, written, ParentOf(rel));
    }
  }

  lemma FaithfulOnceWritten(was: Node, now: Node, written: int)
    requires FaithfulSoFar(was, now)
    ensures Faithful(was, now, written)
  {
    forall rel | Unmoved(was, now, written, rel)
      ensures SameEntries(DirAt(was, rel).value.entries, DirAt(now, rel).value.entries)
    {
      UnmovedIsSameTimes(was, now, written, rel);
    }
  }

  // ---- A change keeps what was recorded faithful ----

  /** Where a recorded chain still shows its times after a change, the change left it calm. */
  lemma {:induction false} ReadTimesAreCalm(was: Node, now: Node, next: Node, stamp: int -> bool, rel: Bytes)
    requires SameTimes(was, next, rel) && Stamps(now, next, stamp)
    requires forall path :: DirAt(was, path).Some? ==> !stamp(DirAt(was, path).value.mtime)
    ensures Calm(next, stamp, rel) && SameTimes(was, now, rel)
    decreases |rel|
  {
    if rel != [] {
      ReadTimesAreCalm(was, now, next, stamp, ParentOf(rel));
    }
  }

  lemma ChangeKeepsPending(was: Node, now: Node, next: Node, stamp: int -> bool)
    requires FaithfulSoFar(was, now) && Stamps(now, next, stamp)
    requires forall path :: DirAt(was, path).Some? ==> !stamp(DirAt(was, path).value.mtime)
    ensures FaithfulSoFar(was, next)
  {
    forall rel | SameTimes(was, next, rel)
      ensures SameEntries(DirAt(was, rel).value.entries, DirAt(next, rel).value.entries)
    {
      ReadTimesAreCalm(was, now, next, stamp, rel);
      SameEntriesTransitive(DirAt(was, rel).value.entries, DirAt(now, rel).value.entries,
                            DirAt(next, rel).value.entries);
    }
  }

  /** A directory stamped at or after the write can never be believed: its stamp is within the racy
      window of the write, or after it. */
  lemma StampsAreRacy(m: int, written: int, now: int, granularity: int)
    requires 0 <= written <= now && granularity <= RACY_WINDOW && m > now - granularity
    ensures IsRacy(m, written)
  {
  }

  lemma {:induction false} OldTimesAreCalm(was: Node, now: Node, next: Node, written: int, stamp: int -> bool,
                                           rel: Bytes)
    requires Unmoved(was, next, written, rel) && Stamps(now, next, stamp)
    requires forall m :: stamp(m) ==> IsRacy(m, written)
    ensures Calm(next, stamp, rel) && Unmoved(was, now, written, rel)
    decreases |rel|
  {
    if rel != [] {
      OldTimesAreCalm(was, now, next, written, stamp, ParentOf(rel));
    }
  }

  lemma ChangeKeepsStored(was: Node, now: Node, next: Node, written: int, stamp: int -> bool)
    requires Faithful(was, now, written) && Stamps(now, next, stamp)
    requires forall m :: stamp(m) ==> IsRacy(m, written)
    ensures Faithful(was, next, written)
  {
    forall rel | Unmoved(was, next, written, rel)
      ensures SameEntries(DirAt(was, rel).value.entries, DirAt(next, rel).value.entries)
    {
      OldTimesAreCalm(was, now, next, written, stamp, rel);
      SameEntriesTransitive(DirAt(was, rel).value.entries, DirAt(now, rel).value.entries,
                            DirAt(next, rel).value.entries);
    }
  }

  lemma {:induction false} TimesStartAtTheRoot(was: Node, now: Node, rel: Bytes)
    requires SameTimes(was, now, rel)
    ensures SameTimes(was, now, [])
    decreases |rel|
  {
    if rel != [] {
      TimesStartAtTheRoot(was, now, ParentOf(rel));
    }
  }
}
