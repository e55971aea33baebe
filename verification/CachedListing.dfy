/** Answering from the index: entries the validation pass believes, plus a re-walk of the stale ones,
    list what a full walk of the tree lists now. */
module CachedListing {
  import opened Bytes
  import opened Paths
  import opened FileTree
  import opened Walk
  import opened Counting
  import opened WalkRules
  import opened WalkRecords
  import opened IndexFormat
  import opened IndexBuild
  import opened IndexValidate
  import opened RootWalk
  import opened ShortWalks
  import PoolWalk

  // ---- What one probe finds ----

  /** `stat <rel>/.git`, following links. */
  predicate StatsGitAt(root: Node, rel: Bytes) {
    match Resolve(root, rel)
    case Found(Dir(mtime, read, search, intact, entries)) => search && HasGit(entries)
    case Found(Link(target)) => target.Directory? && target.git
    case _ => false
  }

  function ProbeOf(root: Node, rootName: Bytes, e: IndexEntry): Probe {
    match e.mtime
    case None =>
      var name := if e.rel == [] then rootName else Basename(e.rel);
      if EndsWith(name, DOT_GIT) || StatsGitAt(root, e.rel) then StillRepo else Stale
    case Some(_) =>
      match Resolve(root, e.rel)
      case Found(Dir(mtime, _, _, _, _)) => StillDir(mtime)
      case _ => Stale
  }

  function ProbesOf(root: Node, rootName: Bytes, es: seq<IndexEntry>): seq<Probe> {
    seq(|es|, k requires 0 <= k < |es| => ProbeOf(root, rootName, es[k]))
  }

  // ---- What an mtime is trusted to say ----

  /** What a link has to be to be listed under `name`. */
  predicate ListedLink(name: Bytes, target: Target) {
    target.Directory? && (EndsWith(name, DOT_GIT) || target.git)
  }

  /** The same entry as far as an mtime can tell. Where a link points is outside the directory, so its
      target is asked not to become a repository, and not to vanish when the link counts by name alone. */
  predicate SameEntry(name: Bytes, was: Node, now: Node) {
    match was
    case Dir(_, _, _, _, _) => now.Dir?
    case File => now.File?
    case Link(target) =>
      && now.Link?
      && (ListedLink(name, now.target) ==> ListedLink(name, target))
      && (EndsWith(name, DOT_GIT) && ListedLink(name, target) ==> ListedLink(name, now.target))
      && (name == DOT_GIT && Stats(now) ==> Stats(was))
  }

  predicate SameUnder(name: Bytes, was: seq<Entry>, now: seq<Entry>) {
    var i, j := IndexOf(was, name), IndexOf(now, name);
    (i < |was| <==> j < |now|) && (i < |was| ==> SameEntry(name, was[i].node, now[j].node))
  }

  ghost predicate SameEntries(was: seq<Entry>, now: seq<Entry>) {
    forall name :: SameUnder(name, was, now)
  }

  function DirAt(root: Node, rel: Bytes): Option<Node> {
    match Resolve(root, rel)
    case Found(node) => if node.Dir? then Some(node) else None
    case _ => None
  }

  /** Every directory from the root down to `rel` has the mtime it had, and not one too recent to
      trust. */
  predicate Unmoved(was: Node, now: Node, written: int, rel: Bytes)
    decreases |rel|
  {
    && DirAt(was, rel).Some? && DirAt(now, rel).Some?
    && DirAt(was, rel).value.mtime == DirAt(now, rel).value.mtime
    && !IsRacy(DirAt(now, rel).value.mtime, written)
    && (rel == [] || Unmoved(was, now, written, ParentOf(rel)))
  }

  /** Directories whose mtimes match hold the entries they held. */
  ghost predicate Faithful(was: Node, now: Node, written: int) {
    forall rel :: Unmoved(was, now, written, rel) ==>
      SameEntries(DirAt(was, rel).value.entries, DirAt(now, rel).value.entries)
  }

  /** An entry below `rel` that the tree no longer has, and that is no repository by its name. */
  predicate IsGone(gone: set<Bytes>, rel: Bytes, name: Bytes, now: seq<Entry>) {
    JoinRel(rel, name) in gone && !EndsWith(name, DOT_GIT) && IndexOf(now, name) == |now|
  }

  ghost predicate SameEntriesBut(gone: set<Bytes>, rel: Bytes, was: seq<Entry>, now: seq<Entry>) {
    forall name :: SameUnder(name, was, now) || IsGone(gone, rel, name, now)
  }

  /** The same, but for what was `gone` when it was looked at again. */
  ghost predicate FaithfulBut(gone: set<Bytes>, was: Node, now: Node, written: int) {
    forall rel :: Unmoved(was, now, written, rel) ==>
      SameEntriesBut(gone, rel, DirAt(was, rel).value.entries, DirAt(now, rel).value.entries)
  }

  lemma FaithfulButNothing(was: Node, now: Node, written: int)
    requires Faithful(was, now, written)
    ensures FaithfulBut({}, was, now, written)
  {
    forall rel | Unmoved(was, now, written, rel)
      ensures SameEntriesBut({}, rel, DirAt(was, rel).value.entries, DirAt(now, rel).value.entries)
    {
      assert SameEntries(DirAt(was, rel).value.entries, DirAt(now, rel).value.entries);
    }
  }

  // ---- What an index remembers ----

  ghost predicate Remembers(ctx: Ctx, was: Node, ix: Index)
    requires was.Dir?
  {
    var es := ix.entries;
    && IsTree(es) && es[0].rel == []
    && (forall k :: 0 <= k < |es| ==>
        RecordOf(RoleOf(ctx, [], was, es[k].rel), es[k].rel) == Some(Record(es[k].rel, es[k].mtime)))
    && (forall rel :: RoleOf(ctx, [], was, rel) != Nothing ==> exists k :: 0 <= k < |es| && es[k].rel == rel)
    && (forall i, j :: 0 <= i < |es| && 0 <= j < |es| && es[i].rel == es[j].rel ==> i == j)
    && (forall i, c :: IsChild(es, i, c) <==> 0 <= i < |es| && 0 < c < |es| && es[i].rel == ParentOf(es[c].rel))
  }

  lemma NoNewGit(gone: set<Bytes>, rel: Bytes, was: seq<Entry>, now: seq<Entry>)
    requires SameEntriesBut(gone, rel, was, now) && HasGit(now)
    ensures HasGit(was)
  {
    assert EndsWith(DOT_GIT, DOT_GIT);
    var i, j := IndexOf(was, DOT_GIT), IndexOf(now, DOT_GIT);
    assert SameUnder(DOT_GIT, was, now);
  }

  /** Below a believed directory, a directory still there with its old mtime has its old role. */
  lemma {:induction false} DescendedStep(ctx: Ctx, gone: set<Bytes>, was: Node, now: Node, written: int, rel: Bytes)
    requires was.Dir? && now.Dir? && Searchable(was) && Searchable(now) && rel != []
    requires FaithfulBut(gone, was, now, written) && Unmoved(was, now, written, rel)
    requires RoleOf(ctx, [], was, rel).Descended? && RoleOf(ctx, [], now, ParentOf(rel)).Descended?
    ensures RoleOf(ctx, [], now, rel) == Descended(DirAt(now, rel).value)
  {
    var q := ParentOf(rel);
    RolesResolve(ctx, was, rel);
    RolesResolve(ctx, was, q);
    RolesResolve(ctx, now, q);
    var d0, d1 := DirAt(was, rel).value, DirAt(now, rel).value;
    assert SameEntriesBut(gone, rel, d0.entries, d1.entries);
    if HasGit(d1.entries) {
      NoNewGit(gone, rel, d0.entries, d1.entries);
      DescendedHasNoGit(ctx, [], was, rel);
    }
  }

  // ---- What each consulted entry says about the tree as it is now ----

  /** An index made from the tree as it was, used on the tree as it is. `gone` are paths that vanish while
      this goes on; none do when the tree stands still. */
  datatype Revisit = Revisit(ctx: Ctx, was: Node, now: Node, rootName: Bytes, ix: Index, gone: set<Bytes>)

  function Probes(v: Revisit): seq<Probe> {
    ProbesOf(v.now, v.rootName, v.ix.entries)
  }

  function Rel(v: Revisit, k: nat): Bytes
    requires k < |v.ix.entries|
  {
    v.ix.entries[k].rel
  }

  function RoleWas(v: Revisit, rel: Bytes): Role
    requires v.was.Dir?
  {
    RoleOf(v.ctx, [], v.was, rel)
  }

  function RoleNow(v: Revisit, rel: Bytes): (role: Role)
    requires v.now.Dir?
    ensures role.Descended? ==> role.dir.Dir?
  {
    RoleOf(v.ctx, [], v.now, rel)
  }

  ghost predicate Sound(v: Revisit) {
    && v.was.Dir? && v.now.Dir? && FileTree.WellFormed(v.now) && Searchable(v.was) && Searchable(v.now)
    && Remembers(v.ctx, v.was, v.ix) && FaithfulBut(v.gone, v.was, v.now, v.ix.written)
    && !EndsWith(v.rootName, DOT_GIT)
  }

  ghost predicate Consults(v: Revisit, k: nat) {
    IsTree(v.ix.entries) && k < |v.ix.entries| && Reached(v.ix, Probes(v), k)
  }

  /** An entry handed back to be walked again. */
  ghost predicate IsStale(v: Revisit, k: nat) {
    Consults(v, k) && !Hit(v.ix, Probes(v), k)
  }

  ghost predicate Stays(v: Revisit, rel: Bytes)
    requires v.was.Dir? && v.now.Dir?
  {
    && Unmoved(v.was, v.now, v.ix.written, rel) && RoleWas(v, rel).Descended?
    && RoleNow(v, rel) == Descended(DirAt(v.now, rel).value)
  }

  lemma ParentOfEntry(v: Revisit, k: nat)
    requires Sound(v) && Consults(v, k) && k != 0
    ensures var i := ParentIndex(v.ix.entries, k);
            Rel(v, i) == ParentOf(Rel(v, k)) && Rel(v, k) != [] && Consults(v, i) && Descends(v.ix, Probes(v), i)
  {
    assert IsChild(v.ix.entries, ParentIndex(v.ix.entries, k), k);
    assert Rel(v, k) == Rel(v, 0) ==> k == 0;
  }

  lemma BelievedRootStays(v: Revisit)
    requires Sound(v) && Descends(v.ix, Probes(v), 0)
    ensures Stays(v, []) && v.ix.entries[0].mtime == Some(v.now.mtime)
  {
    assert RecordOf(RoleWas(v, []), []) == Some(Record([], v.ix.entries[0].mtime));
    assert Unmoved(v.was, v.now, v.ix.written, []);
    if HasGit(v.now.entries) {
      NoNewGit(v.gone, [], v.was.entries, v.now.entries);
    }
  }

  /** What the probe and the record say of a directory entry that is descended into. */
  lemma BelievedEntry(v: Revisit, k: nat)
    requires Sound(v) && k < |v.ix.entries| && Descends(v.ix, Probes(v), k)
    ensures RoleWas(v, Rel(v, k)).Descended? && DirAt(v.was, Rel(v, k)).Some? && DirAt(v.now, Rel(v, k)).Some?
    ensures v.ix.entries[k].mtime == Some(DirAt(v.now, Rel(v, k)).value.mtime)
    ensures DirAt(v.was, Rel(v, k)).value.mtime == DirAt(v.now, Rel(v, k)).value.mtime
    ensures !IsRacy(DirAt(v.now, Rel(v, k)).value.mtime, v.ix.written)
  {
    var rel := Rel(v, k);
    assert RecordOf(RoleWas(v, rel), rel) == Some(Record(rel, v.ix.entries[k].mtime));
    RolesResolve(v.ctx, v.was, rel);
  }

  /** A believed directory is still where the rules descend, with the entries it had. */
  lemma {:induction false} BelievedDirectoriesStay(v: Revisit, k: nat)
    requires Sound(v) && Consults(v, k) && Descends(v.ix, Probes(v), k)
    ensures Stays(v, Rel(v, k)) && v.ix.entries[k].mtime == Some(DirAt(v.now, Rel(v, k)).value.mtime)
    decreases k
  {
    if k == 0 {
      BelievedRootStays(v);
    } else {
      BelievedEntry(v, k);
      ParentOfEntry(v, k);
      BelievedDirectoriesStay(v, ParentIndex(v.ix.entries, k));
      DescendedStep(v.ctx, v.gone, v.was, v.now, v.ix.written, Rel(v, k));
    }
  }

  /** An entry below a believed directory is still there, and of the kind it was, or it is gone. */
  lemma EntryStays(v: Revisit, rel: Bytes) returns (d0: Node, d1: Node, i: nat, j: nat)
    requires Sound(v) && rel != [] && Stays(v, ParentOf(rel)) && RoleWas(v, rel) != Nothing
    ensures d0.Dir? && i < |d0.entries| && RoleWas(v, rel) == ChildRole(v.ctx, d0, rel) &&
            i == IndexOf(d0.entries, Basename(rel))
    ensures d1.Dir? && RoleNow(v, rel) == ChildRole(v.ctx, d1, rel) && j == IndexOf(d1.entries, Basename(rel))
    ensures j < |d1.entries| ==>
      && SameEntry(Basename(rel), d0.entries[i].node, d1.entries[j].node) && !IsExcluded(v.ctx, rel)
      && Resolve(v.now, rel) == Found(d1.entries[j].node) && Searchable(d1.entries[j].node)
    ensures j == |d1.entries| ==> Resolve(v.now, rel) == Absent && !EndsWith(Basename(rel), DOT_GIT)
  {
    var q := ParentOf(rel);
    RolesResolve(v.ctx, v.was, q);
    RolesResolve(v.ctx, v.now, q);
    d0, d1 := DirAt(v.was, q).value, DirAt(v.now, q).value;
    i, j := IndexOf(d0.entries, Basename(rel)), IndexOf(d1.entries, Basename(rel));
    assert SameEntriesBut(v.gone, q, d0.entries, d1.entries);
    assert SameUnder(Basename(rel), d0.entries, d1.entries) || IsGone(v.gone, q, Basename(rel), d1.entries);
    if j < |d1.entries| {
      assert Searchable(d1.entries[j].node);
    }
  }

  /** A believed repository is one. */
  lemma BelievedRepositoriesStay(v: Revisit, k: nat)
    requires Sound(v) && Consults(v, k) && Probes(v)[k].StillRepo?
    ensures RoleNow(v, Rel(v, k)) == Repository && v.ix.entries[k].mtime == None
  {
    var rel := Rel(v, k);
    assert RecordOf(RoleWas(v, rel), rel) == Some(Record(rel, v.ix.entries[k].mtime));
    if k == 0 {
      RootRepositoryStays(v);
    } else {
      ParentOfEntry(v, k);
      BelievedDirectoriesStay(v, ParentIndex(v.ix.entries, k));
      RepositoryStays(v, k);
    }
  }

  lemma RootRepositoryStays(v: Revisit)
    requires Sound(v) && Probes(v)[0].StillRepo?
    ensures RoleNow(v, []) == Repository
  {
    assert Probes(v)[0] == ProbeOf(v.now, v.rootName, v.ix.entries[0]);
  }

  lemma RepositoryStays(v: Revisit, k: nat)
    requires Sound(v) && k < |v.ix.entries| && Probes(v)[k].StillRepo? && Rel(v, k) != []
    requires Stays(v, ParentOf(Rel(v, k))) && RoleWas(v, Rel(v, k)) == Repository
    ensures RoleNow(v, Rel(v, k)) == Repository
  {
    var d0, d1, i, j := EntryStays(v, Rel(v, k));
    assert Probes(v)[k] == ProbeOf(v.now, v.rootName, v.ix.entries[k]);
  }

  /** What a stale entry's re-walk owes. */
  function Rewalked(v: Revisit, rel: Bytes): Sum {
    PoolWalk.OwedSum(PoolWalk.World(v.ctx, v.now), Job(None, rel))
  }

  /** An entry that was listed and is of the kind it was, but no longer counts as a repository by
      name or by `.git`. */
  lemma NoLongerListed(ctx: Ctx, d0: Node, d1: Node, path: Bytes)
    requires d0.Dir? && d1.Dir? && !IsExcluded(ctx, path) && ChildRole(ctx, d0, path) != Nothing
    requires IndexOf(d0.entries, Basename(path)) < |d0.entries| && IndexOf(d1.entries, Basename(path)) < |d1.entries|
    requires var now := d1.entries[IndexOf(d1.entries, Basename(path))].node;
             && SameEntry(Basename(path), d0.entries[IndexOf(d0.entries, Basename(path))].node, now)
             && (ChildRole(ctx, d0, path) == Repository ==>
                   !EndsWith(Basename(path), DOT_GIT) && !(now.Link? && now.target.Directory? && now.target.git))
    ensures var now := d1.entries[IndexOf(d1.entries, Basename(path))].node;
            match now
            case Dir(_, _, _, _, entries) =>
              ChildRole(ctx, d1, path) == (if HasGit(entries) then Repository else Descended(now))
            case Link(_) => ChildRole(ctx, d1, path) == Nothing
            case File => false
  {
  }

  /** What there is now where a stale entry was: a directory the rules look at, or nothing that counts. */
  ghost predicate IsStaleNow(v: Revisit, rel: Bytes)
    requires v.now.Dir?
  {
    match Resolve(v.now, rel)
    case Found(Dir(m, r, s, t, entries)) =>
      RoleNow(v, rel) == if HasGit(entries) then Repository else Descended(Dir(m, r, s, t, entries))
    case Found(Link(_)) => RoleNow(v, rel) == Nothing
    case Absent => RoleNow(v, rel) == Nothing
    case _ => false
  }

  lemma StaleEntryRole(v: Revisit, k: nat)
    requires Sound(v) && Consults(v, k) && !Hit(v.ix, Probes(v), k) && k != 0
    ensures Rel(v, k) != [] && IsStaleNow(v, Rel(v, k))
  {
    var rel := Rel(v, k);
    ParentOfEntry(v, k);
    assert RecordOf(RoleWas(v, rel), rel) == Some(Record(rel, v.ix.entries[k].mtime));
    BelievedDirectoriesStay(v, ParentIndex(v.ix.entries, k));
    StaleEntryIs(v, k);
  }

  /** A stale entry is nothing any more, or a directory the rules look at. */
  lemma StaleEntryNow(v: Revisit, k: nat)
    requires Sound(v) && Consults(v, k) && !Hit(v.ix, Probes(v), k) && k != 0
    requires !Rewalked(v, Rel(v, k)).incomplete
    ensures match OpenAt(v.now, Rel(v, k))
            case Gone => RoleNow(v, Rel(v, k)) == Nothing
            case Refused => false
            case Opened(d) =>
              RoleNow(v, Rel(v, k)) == (if HasGit(d.entries) then Repository else Descended(d)) &&
              Rewalked(v, Rel(v, k)) == Total(v.ctx, d, Rel(v, k))
  {
    StaleEntryRole(v, k);
  }

  lemma StaleEntryIs(v: Revisit, k: nat)
    requires Sound(v) && k < |v.ix.entries| && !Hit(v.ix, Probes(v), k) && Rel(v, k) != []
    requires Stays(v, ParentOf(Rel(v, k))) && RoleWas(v, Rel(v, k)) != Nothing
    requires RoleWas(v, Rel(v, k)) == Repository ==> v.ix.entries[k].mtime == None
    ensures IsStaleNow(v, Rel(v, k))
  {
    var d0, d1, i, j := EntryStays(v, Rel(v, k));
    if j < |d1.entries| {
      NoLongerListed(v.ctx, d0, d1, Rel(v, k));
    }
  }

  /** What the rules owe from a stale entry's path alone is what they owe there. */
  lemma StaleEntryPaysUp(v: Revisit, k: nat, r: Record)
    requires Sound(v) && IsStale(v, k) && k != 0 && Below(Rel(v, k), r.rel)
    ensures RulesOf(World(v), Job(None, Rel(v, k)), r) == Owed(v.ctx, [], v.now, r)
  {
    var rel := Rel(v, k);
    StaleEntryRole(v, k);
    EverythingIsBelowTheRoot(rel);
    if DirAt(v.now, rel).Some? {
      OpenedPaysUp(v.ctx, v.now, rel, DirAt(v.now, rel).value, r);
    } else if r.rel != rel {
      NothingInside(v.ctx, [], v.now, rel, r.rel);
    }
  }

  lemma {:induction false} OpenedPaysUp(ctx: Ctx, root: Node, rel: Bytes, d: Node, r: Record)
    requires root.Dir? && Below([], rel) && Below(rel, r.rel) && d.Dir?
    requires RoleOf(ctx, [], root, rel) == if HasGit(d.entries) then Repository else Descended(d)
    ensures Owed(ctx, rel, d, r) == Owed(ctx, [], root, r)
  {
    if HasGit(d.entries) {
      RepositoryOwesOnlyItself(ctx, root, [], rel, d, r);
    } else {
      RolesRestrict(ctx, [], root, rel, r.rel);
    }
  }

  lemma StaleEntryKeepsToItself(v: Revisit, k: nat, r: Record)
    requires Sound(v) && Consults(v, k) && !Hit(v.ix, Probes(v), k) && k != 0
    requires !Rewalked(v, Rel(v, k)).incomplete && !Below(Rel(v, k), r.rel)
    ensures Rewalked(v, Rel(v, k)).records[r] == 0
  {
    var rel := Rel(v, k);
    StaleEntryNow(v, k);
    match OpenAt(v.now, rel)
    case Refused =>
    case Gone =>
    case Opened(d) =>
      PoolWalk.ResolvedIsPart(v.now, rel);
      SubtreeMatchesRules(v.ctx, d, rel, r);
      if RoleOf(v.ctx, rel, d, r.rel) != Nothing {
        RolesLieBelow(v.ctx, rel, d, r.rel);
      }
  }

  // ---- Each path is settled by exactly one consulted entry ----

  /** What was unlisted in a believed directory still is. */
  lemma NothingStays(v: Revisit, rel: Bytes)
    requires Sound(v) && rel != [] && Stays(v, ParentOf(rel)) && RoleWas(v, rel) == Nothing
    ensures RoleNow(v, rel) == Nothing
  {
    var q := ParentOf(rel);
    RolesResolve(v.ctx, v.was, q);
    var d0, d1 := DirAt(v.was, q).value, DirAt(v.now, q).value;
    RoleBelow(v.ctx, v.was, d0, rel);
    RoleBelow(v.ctx, v.now, d1, rel);
    if rel == JoinRel(q, Basename(rel)) {
      NothingChild(v.ctx, v.gone, q, d0, d1, rel);
    }
  }

  lemma {:induction false} RoleBelow(ctx: Ctx, root: Node, dir: Node, rel: Bytes)
    requires root.Dir? && rel != [] && RoleOf(ctx, [], root, ParentOf(rel)) == Descended(dir) && dir.Dir?
    ensures RoleOf(ctx, [], root, rel) ==
            if rel == JoinRel(ParentOf(rel), Basename(rel)) then ChildRole(ctx, dir, rel) else Nothing
  {
  }

  lemma NothingChild(ctx: Ctx, gone: set<Bytes>, dir: Bytes, d0: Node, d1: Node, path: Bytes)
    requires d0.Dir? && d1.Dir? && SameEntriesBut(gone, dir, d0.entries, d1.entries)
    requires ChildRole(ctx, d0, path) == Nothing
    ensures ChildRole(ctx, d1, path) == Nothing
  {
    var name := Basename(path);
    assert SameUnder(name, d0.entries, d1.entries) || IsGone(gone, dir, name, d1.entries);
  }

  /** A consulted entry below another means the other was believed. */
  lemma {:induction false} AboveMeansBelieved(v: Revisit, a: nat, c: nat)
    requires Sound(v) && Consults(v, c) && a < |v.ix.entries| && Below(Rel(v, a), Rel(v, c)) && a != c
    ensures Consults(v, a) && Descends(v.ix, Probes(v), a)
    decreases c
  {
    assert Rel(v, a) != Rel(v, c);
    if c != 0 {
      var p := ParentIndex(v.ix.entries, c);
      ParentOfEntry(v, c);
      if a != p {
        AboveMeansBelieved(v, a, p);
      }
    }
  }

  lemma {:induction false} OneEntrySettles(v: Revisit, a: nat, c: nat, rel: Bytes)
    requires Sound(v) && Consults(v, a) && Consults(v, c) && Below(Rel(v, a), rel) && Below(Rel(v, c), rel)
    requires !Descends(v.ix, Probes(v), a)
    requires !Descends(v.ix, Probes(v), c) || Rel(v, c) == rel
    ensures a == c
  {
    if a != c {
      BelowIsLinear(Rel(v, a), Rel(v, c), rel);
      if Below(Rel(v, a), Rel(v, c)) {
        AboveMeansBelieved(v, a, c);
      } else {
        BelowIsLonger(Rel(v, c), Rel(v, a));
        BelowIsLonger(Rel(v, a), rel);
        AboveMeansBelieved(v, c, a);
      }
    }
  }

  /** The entry a path is settled by: its own, one above it that is not descended into, or a believed
      directory in which the next component was not, and is not, listed. */
  lemma {:induction false} Settle(v: Revisit, rel: Bytes) returns (k: nat)
    requires Sound(v)
    ensures Consults(v, k) && Below(Rel(v, k), rel)
    ensures Rel(v, k) == rel || !Descends(v.ix, Probes(v), k) || RoleNow(v, rel) == Nothing
    decreases |rel|
  {
    if rel == [] {
      return 0;
    }
    k := Settle(v, ParentOf(rel));
    if Rel(v, k) == ParentOf(rel) && Descends(v.ix, Probes(v), k) {
      BelievedDirectoriesStay(v, k);
      if RoleWas(v, rel) == Nothing {
        NothingStays(v, rel);
      } else {
        var c :| 0 <= c < |v.ix.entries| && v.ix.entries[c].rel == rel;
        assert IsChild(v.ix.entries, k, c);
        OnlyParent(v.ix.entries, k, c);
        k := c;
      }
    }
  }

  // ---- Adding up ----

  /** A finished pass that did not find the root stale. */
  ghost predicate Passed(v: Revisit, order: seq<nat>) {
    && Sound(v) && Consulted(v.ix, Probes(v), order) && InRange(order, |v.ix.entries|)
    && [] !in StaleOf(v.ix, Probes(v), order)
  }

  lemma {:induction false} StaleIsListed(v: Revisit, order: seq<nat>, k: nat)
    requires InRange(order, |v.ix.entries|) && k in order && !Hit(v.ix, Probes(v), k)
    ensures Rel(v, k) in StaleOf(v.ix, Probes(v), order)
    decreases |order|
  {
    var front := order[..|order| - 1];
    assert order == front + [order[|order| - 1]];
    if k in front {
      StaleIsListed(v, front, k);
    }
  }

  lemma {:induction false} ListedIsStale(v: Revisit, order: seq<nat>, rel: Bytes) returns (k: nat)
    requires InRange(order, |v.ix.entries|) && rel in StaleOf(v.ix, Probes(v), order)
    ensures k in order && !Hit(v.ix, Probes(v), k) && Rel(v, k) == rel
    decreases |order|
  {
    var front, last := order[..|order| - 1], order[|order| - 1];
    assert order == front + [last];
    if rel in StaleOf(v.ix, Probes(v), front) {
      k := ListedIsStale(v, front, rel);
    } else {
      k := last;
    }
  }

  lemma {:induction false} StaleIsInOrder(v: Revisit, order: seq<nat>, k: nat)
    requires Passed(v, order) && IsStale(v, k)
    ensures k != 0 && Rel(v, k) in StaleOf(v.ix, Probes(v), order)
  {
    assert k in order;
    StaleIsListed(v, order, k);
  }

  lemma StaleJobIs(v: Revisit, order: seq<nat>, rel: Bytes) returns (k: nat)
    requires Passed(v, order) && rel in StaleOf(v.ix, Probes(v), order)
    ensures IsStale(v, k) && k != 0 && Rel(v, k) == rel
  {
    k := ListedIsStale(v, order, rel);
    assert k in order;
  }

  lemma OrderedIsConsulted(v: Revisit, order: seq<nat>, j: nat)
    requires Passed(v, order) && j < |order|
    ensures Consults(v, order[j]) && (!Hit(v.ix, Probes(v), order[j]) ==> IsStale(v, order[j]) && order[j] != 0)
  {
    assert order[j] in order;
    if !Hit(v.ix, Probes(v), order[j]) {
      StaleIsInOrder(v, order, order[j]);
    }
  }

  function World(v: Revisit): PoolWalk.World {
    PoolWalk.World(v.ctx, v.now)
  }

  ghost function StaleSum(v: Revisit, order: seq<nat>, f: Job -> nat): nat
    requires InRange(order, |v.ix.entries|)
  {
    JobSum(f, multiset(SeedJobs(StaleOf(v.ix, Probes(v), order))))
  }

  lemma OneMorePath(f: Job -> nat, rels: seq<Bytes>, rel: Bytes)
    ensures JobSum(f, multiset(SeedJobs(rels + [rel]))) == JobSum(f, multiset(SeedJobs(rels))) + f(Job(None, rel))
  {
    assert SeedJobs(rels + [rel]) == SeedJobs(rels) + [Job(None, rel)];
    OneMoreJob(f, multiset(SeedJobs(rels)), Job(None, rel));
  }

  lemma OneMoreStale(v: Revisit, order: seq<nat>, f: Job -> nat)
    requires InRange(order, |v.ix.entries|) && order != []
    ensures var k := order[|order| - 1];
            StaleSum(v, order, f) == StaleSum(v, order[..|order| - 1], f) +
              if Hit(v.ix, Probes(v), k) then 0 else f(Job(None, Rel(v, k)))
  {
    var k := order[|order| - 1];
    var rels := StaleOf(v.ix, Probes(v), order[..|order| - 1]);
    if !Hit(v.ix, Probes(v), k) {
      OneMorePath(f, rels, Rel(v, k));
    } else {
      assert rels + [] == rels;
    }
  }

  lemma {:induction false} NoStaleCounts(v: Revisit, order: seq<nat>, f: Job -> nat)
    requires InRange(order, |v.ix.entries|)
    requires forall j :: 0 <= j < |order| && !Hit(v.ix, Probes(v), order[j]) ==> f(Job(None, Rel(v, order[j]))) == 0
    ensures StaleSum(v, order, f) == 0
    decreases |order|
  {
    if order == [] {
      assert multiset(SeedJobs(StaleOf(v.ix, Probes(v), order))) == multiset{};
    } else {
      NoStaleCounts(v, order[..|order| - 1], f);
      OneMoreStale(v, order, f);
    }
  }

  lemma {:induction false} OneStaleCounts(v: Revisit, order: seq<nat>, at: nat, f: Job -> nat)
    requires InRange(order, |v.ix.entries|) && at < |order| && !Hit(v.ix, Probes(v), order[at])
    requires forall j :: 0 <= j < |order| && j != at && !Hit(v.ix, Probes(v), order[j]) ==>
      f(Job(None, Rel(v, order[j]))) == 0
    ensures StaleSum(v, order, f) == f(Job(None, Rel(v, order[at])))
    decreases |order|
  {
    OneMoreStale(v, order, f);
    if at == |order| - 1 {
      NoStaleCounts(v, order[..|order| - 1], f);
    } else {
      OneStaleCounts(v, order[..|order| - 1], at, f);
    }
  }

  lemma {:induction false} StaleAt(v: Revisit, order: seq<nat>, at: nat, r: Record)
    requires Passed(v, order) && at < |order| && !Hit(v.ix, Probes(v), order[at]) && Below(Rel(v, order[at]), r.rel)
    ensures StaleSum(v, order, RulesFor(World(v), r)) == Owed(v.ctx, [], v.now, r)
    ensures multiset(HitsOf(v.ix, Probes(v), order))[r] == 0
  {
    var k := order[at];
    OrderedIsConsulted(v, order, at);
    forall j | 0 <= j < |order| && j != at && !Hit(v.ix, Probes(v), order[j])
      ensures RulesOf(World(v), Job(None, Rel(v, order[j])), r) == 0
    {
      OrderedIsConsulted(v, order, j);
      OwesBelowItself(World(v), Job(None, Rel(v, order[j])), r);
      if Below(Rel(v, order[j]), r.rel) {
        OneEntrySettles(v, k, order[j], r.rel);
        assert false;
      }
    }
    OneStaleCounts(v, order, at, RulesFor(World(v), r));
    StaleEntryPaysUp(v, k, r);
    NoHitBelowStale(v, order, k, r);
  }

  lemma {:induction false} NoHitBelowStale(v: Revisit, order: seq<nat>, k: nat, r: Record)
    requires Passed(v, order) && IsStale(v, k) && Below(Rel(v, k), r.rel)
    ensures multiset(HitsOf(v.ix, Probes(v), order))[r] == 0
  {
    forall j | 0 <= j < |order| && Hit(v.ix, Probes(v), order[j]) ensures RecordAt(v.ix, Probes(v), order[j]) != r {
      OrderedIsConsulted(v, order, j);
      if Rel(v, order[j]) == r.rel {
        OneEntrySettles(v, k, order[j], r.rel);
        assert false;
      }
    }
    NotAmongHits(v.ix, Probes(v), order, r);
  }

  lemma NothingStaleAbove(v: Revisit, order: seq<nat>, r: Record)
    requires Passed(v, order)
    requires forall j :: 0 <= j < |order| && !Hit(v.ix, Probes(v), order[j]) ==> !Below(Rel(v, order[j]), r.rel)
    ensures StaleSum(v, order, RulesFor(World(v), r)) == 0
  {
    forall j | 0 <= j < |order| && !Hit(v.ix, Probes(v), order[j])
      ensures RulesOf(World(v), Job(None, Rel(v, order[j])), r) == 0
    {
      OwesBelowItself(World(v), Job(None, Rel(v, order[j])), r);
    }
    NoStaleCounts(v, order, RulesFor(World(v), r));
  }

  /** A hit's record is the one the rules owe for its path. */
  lemma HitIsOwed(v: Revisit, k: nat)
    requires Sound(v) && Consults(v, k) && Hit(v.ix, Probes(v), k)
    ensures RecordOf(RoleNow(v, Rel(v, k)), Rel(v, k)) == Some(RecordAt(v.ix, Probes(v), k))
    ensures RecordAt(v.ix, Probes(v), k) == Record(Rel(v, k), v.ix.entries[k].mtime)
  {
    if Probes(v)[k].StillRepo? {
      BelievedRepositoriesStay(v, k);
    } else {
      BelievedDirectoriesStay(v, k);
    }
  }

  lemma DifferentPaths(v: Revisit, a: nat, c: nat)
    requires Sound(v) && a < |v.ix.entries| && c < |v.ix.entries| && a != c
    ensures Rel(v, a) != Rel(v, c)
  {
  }

  lemma {:induction false} HitAt(v: Revisit, order: seq<nat>, at: nat, r: Record)
    requires Passed(v, order) && at < |order| && Hit(v.ix, Probes(v), order[at]) && Rel(v, order[at]) == r.rel
    ensures multiset(HitsOf(v.ix, Probes(v), order))[r] == Owed(v.ctx, [], v.now, r)
  {
    OrderedIsConsulted(v, order, at);
    HitIsOwed(v, order[at]);
    forall j | 0 <= j < |order| && j != at ensures Rel(v, order[j]) != r.rel {
      DifferentPaths(v, order[j], order[at]);
    }
    if RecordAt(v.ix, Probes(v), order[at]) == r {
      OnceAmongHits(v.ix, Probes(v), order, at, r);
    } else {
      NotAmongHits(v.ix, Probes(v), order, r);
    }
  }

  lemma {:induction false} NoHitAt(v: Revisit, order: seq<nat>, r: Record)
    requires Passed(v, order)
    requires forall j :: 0 <= j < |order| && Hit(v.ix, Probes(v), order[j]) ==> Rel(v, order[j]) != r.rel
    requires forall j :: 0 <= j < |order| && !Hit(v.ix, Probes(v), order[j]) ==> !Below(Rel(v, order[j]), r.rel)
    ensures Owed(v.ctx, [], v.now, r) == 0
    ensures multiset(HitsOf(v.ix, Probes(v), order))[r] == 0
  {
    NotAmongHits(v.ix, Probes(v), order, r);
    var k := Settle(v, r.rel);
    assert k in order;
    var j :| 0 <= j < |order| && order[j] == k;
    if RoleNow(v, r.rel) != Nothing {
      assert Probes(v)[k].StillRepo?;
      BelievedRepositoriesStay(v, k);
      EverythingIsBelowTheRoot(Rel(v, k));
      NothingInside(v.ctx, [], v.now, Rel(v, k), r.rel);
    }
  }

  /** The believed entries, and what the rules owe from the stale ones, are together what the rules owe. */
  lemma {:induction false} AnswerMatchesRules(v: Revisit, order: seq<nat>, r: Record)
    requires Passed(v, order)
    ensures multiset(HitsOf(v.ix, Probes(v), order))[r] +
            RulesBy(World(v), SeedJobs(StaleOf(v.ix, Probes(v), order)), r) == Owed(v.ctx, [], v.now, r)
  {
    if at: nat :| at < |order| && !Hit(v.ix, Probes(v), order[at]) && Below(Rel(v, order[at]), r.rel) {
      StaleAt(v, order, at, r);
    } else {
      NothingStaleAbove(v, order, r);
      if at: nat :| at < |order| && Hit(v.ix, Probes(v), order[at]) && Rel(v, order[at]) == r.rel {
        HitAt(v, order, at, r);
      } else {
        NoHitAt(v, order, r);
      }
    }
  }

  // ---- The listing ----

  /** The repositories among records, as they are printed. */
  function RepoPaths(records: seq<Record>): seq<Bytes> {
    if records == [] then []
    else
      var last := records[|records| - 1];
      RepoPaths(records[..|records| - 1]) + if last.mtime == None then [Printed(last.rel)] else []
  }

  function FromRecords(records: seq<Record>, dirsRead: nat, excluded: nat, incomplete: bool): Out {
    Out(RepoPaths(records), records, dirsRead, excluded, incomplete)
  }

  /** One record more prints one path more, if it is a repository's. */
  lemma OneMoreRecord(repos: multiset<Bytes>, records: multiset<Record>, last: Record, s: Sum, t: Sum)
    requires ListsItsRecords(s) && s.repos == repos && s.records == records
    requires t.records == records + multiset{last}
    requires t.repos == repos + if last.mtime == None then multiset{Printed(last.rel)} else multiset{}
    ensures ListsItsRecords(t)
  {
  }

  lemma {:induction false} RepoPathsCount(records: seq<Record>, dirsRead: nat, excluded: nat, incomplete: bool)
    ensures ListsItsRecords(Summary(FromRecords(records, dirsRead, excluded, incomplete)))
    decreases |records|
  {
    var listing := FromRecords(records, dirsRead, excluded, incomplete);
    if records == [] {
      SilentListsItsRecords(listing);
    } else {
      var front, last := records[..|records| - 1], records[|records| - 1];
      RepoPathsCount(front, dirsRead, excluded, incomplete);
      assert records == front + [last];
      OneMoreRecord(multiset(RepoPaths(front)), multiset(front), last,
                    Summary(FromRecords(front, dirsRead, excluded, incomplete)), Summary(listing));
    }
  }

  /** How often the rules have `p` printed. */
  function Listed(ctx: Ctx, root: Node, p: Bytes): nat
    requires root.Dir?
  {
    if p != [] && RoleOf(ctx, [], root, if p == DOT_PATH then [] else p) == Repository then 1 else 0
  }

  /** A listing is what the rules define: every record once, every repository printed once. */
  ghost predicate IsTheListing(ctx: Ctx, root: Node, listing: Out)
    requires root.Dir?
  {
    && (forall r :: multiset(listing.records)[r] == Owed(ctx, [], root, r))
    && (forall p :: multiset(listing.repos)[p] == Listed(ctx, root, p))
  }

  /** A printed path, as the rules have it. */
  function Unprinted(p: Bytes): Bytes {
    if p == DOT_PATH then [] else p
  }

  /** A listing that lists nothing the rules do not, and all they do that is not at or below something lost. */
  ghost predicate IsListingButFor(ctx: Ctx, root: Node, listing: Out, lost: set<Bytes>)
    requires root.Dir?
  {
    && (forall r: Record :: IsDue(multiset(listing.records)[r], Owed(ctx, [], root, r), Covered(lost, r.rel)))
    && (forall p: Bytes :: IsDue(multiset(listing.repos)[p], Listed(ctx, root, p), Covered(lost, Unprinted(p))))
  }

  lemma {:induction false} ListedFromRecords(ctx: Ctx, root: Node, listing: Out, lost: set<Bytes>)
    requires root.Dir? && FileTree.WellFormed(root)
    requires forall r: Record :: IsDue(multiset(listing.records)[r], Owed(ctx, [], root, r), Covered(lost, r.rel))
    requires ListsItsRecords(Summary(listing))
    ensures IsListingButFor(ctx, root, listing, lost)
  {
    DotHasNoRole(ctx, root);
    forall p: Bytes ensures IsDue(multiset(listing.repos)[p], Listed(ctx, root, p), Covered(lost, Unprinted(p))) {
      var own := Record(Unprinted(p), None);
      assert IsDue(multiset(listing.records)[own], Owed(ctx, [], root, own), Covered(lost, own.rel));
      if p == DOT_PATH {
        var dot := Record(DOT_PATH, None);
        assert IsDue(multiset(listing.records)[dot], Owed(ctx, [], root, dot), Covered(lost, dot.rel));
      }
      assert Summary(listing).repos[p] == multiset(listing.repos)[p];
    }
  }

  lemma NothingLostIsTheListing(ctx: Ctx, root: Node, listing: Out)
    requires root.Dir? && IsListingButFor(ctx, root, listing, {})
    ensures IsTheListing(ctx, root, listing)
  {
    forall r: Record ensures multiset(listing.records)[r] == Owed(ctx, [], root, r) {
      assert IsDue(multiset(listing.records)[r], Owed(ctx, [], root, r), Covered({}, r.rel));
    }
    forall p: Bytes ensures multiset(listing.repos)[p] == Listed(ctx, root, p) {
      assert IsDue(multiset(listing.repos)[p], Listed(ctx, root, p), Covered({}, Unprinted(p)));
    }
  }

  /** A complete walk of the whole root is the listing. */
  lemma {:induction false} FreshWalkIsTheListing(ctx: Ctx, root: Node, walk: Out)
    requires root.Dir? && FileTree.WellFormed(root) && Searchable(root)
    requires Summary(walk) == Total(ctx, root, []) && !walk.incomplete
    ensures IsTheListing(ctx, root, walk)
  {
    forall r ensures multiset(walk.records)[r] == Owed(ctx, [], root, r) {
      SubtreeMatchesRules(ctx, root, [], r);
      assert Summary(walk).records[r] == multiset(walk.records)[r];
    }
    WalksListTheirRecords(ctx, root, []);
    ListedFromRecords(ctx, root, walk, {});
    NothingLostIsTheListing(ctx, root, walk);
  }

  /** The answer the index gives after a pass. */
  function AnswerOf(v: Revisit, order: seq<nat>, rest: Out): Out
    requires InRange(order, |v.ix.entries|)
  {
    FromRecords(HitsOf(v.ix, Probes(v), order) + rest.records, rest.dirsRead, rest.excluded, rest.incomplete)
  }

  /** What the re-walk of a pass may be relied on for. */
  ghost predicate IsRestOf(v: Revisit, order: seq<nat>, rest: Out, lost: set<Bytes>, exhausted: bool)
    requires InRange(order, |v.ix.entries|)
  {
    IsShortOf(World(v), SeedJobs(StaleOf(v.ix, Probes(v), order)), rest, lost, exhausted)
  }

  /** The main claim of the index: whatever its re-walk lost, the answer lists nothing the rules do not, and
      all they do that is not at or below something lost. */
  lemma {:induction false} CachedListingIsRightSoFar(v: Revisit, order: seq<nat>, rest: Out, lost: set<Bytes>,
                                                     exhausted: bool)
    requires Passed(v, order) && IsRestOf(v, order, rest, lost, exhausted)
    ensures IsListingButFor(v.ctx, v.now, AnswerOf(v, order, rest), lost)
  {
    var records := HitsOf(v.ix, Probes(v), order) + rest.records;
    forall r: Record ensures IsDue(multiset(records)[r], Owed(v.ctx, [], v.now, r), Covered(lost, r.rel)) {
      AnswerMatchesRules(v, order, r);
      RecordsJoin(HitsOf(v.ix, Probes(v), order), rest.records, r);
      assert IsDue(multiset(rest.records)[r], RulesBy(World(v), SeedJobs(StaleOf(v.ix, Probes(v), order)), r),
                   Covered(lost, r.rel));
    }
    RepoPathsCount(records, rest.dirsRead, rest.excluded, rest.incomplete);
    ListedFromRecords(v.ctx, v.now, AnswerOf(v, order, rest), lost);
  }

  lemma RecordsJoin(a: seq<Record>, b: seq<Record>, r: Record)
    ensures multiset(a + b)[r] == multiset(a)[r] + multiset(b)[r]
  {
  }

  /** So when the answer is complete it is the listing a full walk of the tree as it is now would give. */
  lemma {:induction false} CachedListingIsFresh(v: Revisit, order: seq<nat>, rest: Out, lost: set<Bytes>,
                                                exhausted: bool)
    requires Passed(v, order) && IsRestOf(v, order, rest, lost, exhausted) && !rest.incomplete
    ensures IsTheListing(v.ctx, v.now, AnswerOf(v, order, rest))
  {
    assert lost == {};
    CachedListingIsRightSoFar(v, order, rest, lost, exhausted);
    NothingLostIsTheListing(v.ctx, v.now, AnswerOf(v, order, rest));
  }

  /** Every believed entry is in the answer once, and printed once if it is a repository, whatever was lost. */
  lemma {:induction false} BelievedEntriesAreListed(v: Revisit, order: seq<nat>, rest: Out, lost: set<Bytes>,
                                                    exhausted: bool, k: nat)
    requires Passed(v, order) && IsRestOf(v, order, rest, lost, exhausted)
    requires Consults(v, k) && Hit(v.ix, Probes(v), k)
    ensures var r, answer := Record(Rel(v, k), v.ix.entries[k].mtime), AnswerOf(v, order, rest);
            && multiset(answer.records)[r] == 1
            && (r.mtime == None ==> multiset(answer.repos)[Printed(r.rel)] == 1)
  {
    HitIsOwed(v, k);
    HitIsUncovered(v, order, lost, rest, exhausted, k);
    CachedListingIsRightSoFar(v, order, rest, lost, exhausted);
    OwedIsListed(v.ctx, v.now, AnswerOf(v, order, rest), lost, Record(Rel(v, k), v.ix.entries[k].mtime));
  }

  lemma {:induction false} OwedIsListed(ctx: Ctx, root: Node, listing: Out, lost: set<Bytes>, r: Record)
    requires root.Dir? && FileTree.WellFormed(root) && IsListingButFor(ctx, root, listing, lost)
    requires RecordOf(RoleOf(ctx, [], root, r.rel), r.rel) == Some(r) && !Covered(lost, r.rel)
    ensures multiset(listing.records)[r] == 1
    ensures r.mtime == None ==> multiset(listing.repos)[Printed(r.rel)] == 1
  {
    assert IsDue(multiset(listing.records)[r], Owed(ctx, [], root, r), Covered(lost, r.rel));
    if r.mtime == None {
      DotHasNoRole(ctx, root);
      var p := Printed(r.rel);
      assert IsDue(multiset(listing.repos)[p], Listed(ctx, root, p), Covered(lost, Unprinted(p)));
    }
  }

  /** What is lost lies at or below stale entries, and no believed one does. */
  lemma {:induction false} HitIsUncovered(v: Revisit, order: seq<nat>, lost: set<Bytes>, rest: Out, exhausted: bool,
                                          k: nat)
    requires Passed(v, order) && IsRestOf(v, order, rest, lost, exhausted)
    requires Consults(v, k) && Hit(v.ix, Probes(v), k)
    ensures !Covered(lost, Rel(v, k))
  {
    var stale := StaleOf(v.ix, Probes(v), order);
    forall p | p in lost ensures !Below(p, Rel(v, k)) {
      assert IsPlaced(World(v), SeedJobs(stale), exhausted, p);
      var j :| 0 <= j < |stale| && Below(SeedJobs(stale)[j].rel, p);
      var c := StaleJobIs(v, order, stale[j]);
      if Below(p, Rel(v, k)) {
        BelowTransitive(stale[j], p, Rel(v, k));
        OneEntrySettles(v, c, k, Rel(v, k));
        assert false;
      }
    }
  }

  // ---- Whole roots ----

  /** The records a root's listing owes: a root named `*.git` is a repository and nothing else. */
  function TimesOwed(ctx: Ctx, name: Bytes, tree: Node, r: Record): nat
    requires tree.Dir?
  {
    if IsNamed(name) then (if r == Record([], None) then 1 else 0) else Owed(ctx, [], tree, r)
  }

  function TimesListed(ctx: Ctx, name: Bytes, tree: Node, p: Bytes): nat
    requires tree.Dir?
  {
    if IsNamed(name) then (if p == DOT_PATH then 1 else 0) else Listed(ctx, tree, p)
  }

  ghost predicate PrintsWhatIsListed(ctx: Ctx, name: Bytes, tree: Node, repos: seq<Bytes>)
    requires tree.Dir?
  {
    forall p :: multiset(repos)[p] == TimesListed(ctx, name, tree, p)
  }

  /** A root's listing is what the rules define, its own name included. */
  ghost predicate IsRightFor(ctx: Ctx, name: Bytes, tree: Node, listing: Out)
    requires tree.Dir?
  {
    && (forall r :: multiset(listing.records)[r] == TimesOwed(ctx, name, tree, r))
    && PrintsWhatIsListed(ctx, name, tree, listing.repos)
  }

  /** It says that it is short exactly when something was lost; and it lists nothing the rules do not, and all
      they do that is not at or below what was lost. */
  ghost predicate IsRightButFor(ctx: Ctx, name: Bytes, tree: Node, listing: Out, lost: set<Bytes>)
    requires tree.Dir?
  {
    && (listing.incomplete <==> lost != {})
    && (forall r: Record :: IsDue(multiset(listing.records)[r], TimesOwed(ctx, name, tree, r), Covered(lost, r.rel)))
    && (forall p: Bytes ::
          IsDue(multiset(listing.repos)[p], TimesListed(ctx, name, tree, p), Covered(lost, Unprinted(p))))
  }

  lemma RightButForUnnamed(ctx: Ctx, name: Bytes, tree: Node, listing: Out, lost: set<Bytes>)
    requires tree.Dir? && !IsNamed(name) && IsListingButFor(ctx, tree, listing, lost)
    requires listing.incomplete <==> lost != {}
    ensures IsRightButFor(ctx, name, tree, listing, lost)
  {
    forall r: Record ensures IsDue(multiset(listing.records)[r], TimesOwed(ctx, name, tree, r), Covered(lost, r.rel)) {
      assert IsDue(multiset(listing.records)[r], Owed(ctx, [], tree, r), Covered(lost, r.rel));
    }
  }

  lemma RightIsRightButFor(ctx: Ctx, name: Bytes, tree: Node, listing: Out)
    requires tree.Dir? && IsRightFor(ctx, name, tree, listing) && !listing.incomplete
    ensures IsRightButFor(ctx, name, tree, listing, {})
  {
  }

  /** Everything being lost leaves nothing to be right about. */
  lemma LostRootIsRightButFor(ctx: Ctx, name: Bytes, tree: Node)
    requires tree.Dir? && !IsNamed(name)
    ensures IsRightButFor(ctx, name, tree, LOST_OUT, {[]})
  {
    var listing := LOST_OUT;
    forall r: Record ensures IsDue(multiset(listing.records)[r], TimesOwed(ctx, name, tree, r), Covered({[]}, r.rel)) {
      EverythingIsBelowTheRoot(r.rel);
    }
    forall p: Bytes
      ensures IsDue(multiset(listing.repos)[p], TimesListed(ctx, name, tree, p), Covered({[]}, Unprinted(p)))
    {
      EverythingIsBelowTheRoot(Unprinted(p));
    }
  }

  lemma RightForUnnamed(ctx: Ctx, name: Bytes, tree: Node, listing: Out)
    requires tree.Dir? && !IsNamed(name)
    ensures IsRightFor(ctx, name, tree, listing) <==> IsTheListing(ctx, tree, listing)
  {
  }

  lemma RightForNamed(ctx: Ctx, name: Bytes, tree: Node)
    requires tree.Dir? && IsNamed(name)
    ensures IsRightFor(ctx, name, tree, EmitOut([]))
  {
    var out := EmitOut([]);
    assert out.records == [Record([], None)] && out.repos == [DOT_PATH];
  }

  lemma OnlyOneIsRight(ctx: Ctx, name: Bytes, tree: Node, a: Out, b: Out)
    requires tree.Dir? && IsRightFor(ctx, name, tree, a) && IsRightFor(ctx, name, tree, b)
    ensures multiset(a.records) == multiset(b.records) && multiset(a.repos) == multiset(b.repos)
  {
    forall r ensures multiset(a.records)[r] == multiset(b.records)[r] {}
    forall p ensures multiset(a.repos)[p] == multiset(b.repos)[p] {}
  }

  ghost predicate NothingIsListed(ctx: Ctx, name: Bytes, tree: Node)
    requires tree.Dir?
  {
    forall p :: TimesListed(ctx, name, tree, p) == 0
  }

  /** A walk of a root with a read bit is right but for what it lost. */
  lemma {:induction false} WalkIsRightButFor(ctx: Ctx, root: Root, walk: Out, lost: set<Bytes>, exhausted: bool)
    requires root.tree.Dir? && FileTree.WellFormed(root.tree) && Searchable(root.tree)
    requires HonestWalk(ctx, root, walk, lost, exhausted) && root.bits
    ensures IsRightButFor(ctx, root.name, root.tree, walk, lost)
  {
    if IsNamed(root.name) {
      RightForNamed(ctx, root.name, root.tree);
      RightIsRightButFor(ctx, root.name, root.tree, walk);
    } else if !root.tree.read {
      LostRootIsRightButFor(ctx, root.name, root.tree);
    } else {
      RootWalkIsRightButFor(PoolWalk.World(ctx, root.tree), root.name, walk, lost, exhausted);
    }
  }

  lemma {:induction false} RootWalkIsRightButFor(w: PoolWalk.World, name: Bytes, walk: Out, lost: set<Bytes>,
                                                 exhausted: bool)
    requires w.root.Dir? && FileTree.WellFormed(w.root) && Searchable(w.root) && !IsNamed(name)
    requires IsShortOf(w, RootSeed(), walk, lost, exhausted)
    ensures IsRightButFor(w.ctx, name, w.root, walk, lost)
  {
    forall r: Record ensures IsDue(multiset(walk.records)[r], Owed(w.ctx, [], w.root, r), Covered(lost, r.rel)) {
      RootOwes(w, r);
      assert IsDue(multiset(walk.records)[r], RulesBy(w, RootSeed(), r), Covered(lost, r.rel));
    }
    ListedFromRecords(w.ctx, w.root, walk, lost);
    RightButForUnnamed(w.ctx, name, w.root, walk, lost);
  }

  /** A walk that does not say it is short is right exactly when the root has a read bit or has nothing to
      list: a root without one comes out empty and complete. */
  lemma {:induction false} CompleteWalkIsRight(ctx: Ctx, root: Root, walk: Out, lost: set<Bytes>, exhausted: bool)
    requires root.tree.Dir? && FileTree.WellFormed(root.tree) && Searchable(root.tree)
    requires HonestWalk(ctx, root, walk, lost, exhausted) && !walk.incomplete
    ensures root.bits ==> IsRightFor(ctx, root.name, root.tree, walk)
    ensures !root.bits ==> walk == EMPTY_OUT
    ensures PrintsWhatIsListed(ctx, root.name, root.tree, walk.repos) <==>
            root.bits || NothingIsListed(ctx, root.name, root.tree)
  {
    if !root.bits {
      NothingPrinted(ctx, root.name, root.tree, walk.repos);
    } else if IsNamed(root.name) {
      RightForNamed(ctx, root.name, root.tree);
    } else {
      FreshWalkIsTheListing(ctx, root.tree, walk);
      RightForUnnamed(ctx, root.name, root.tree, walk);
    }
  }

  lemma NothingPrinted(ctx: Ctx, name: Bytes, tree: Node, repos: seq<Bytes>)
    requires tree.Dir? && repos == []
    ensures PrintsWhatIsListed(ctx, name, tree, repos) <==> NothingIsListed(ctx, name, tree)
  {
    assert forall p :: multiset(repos)[p] == 0;
  }
}
