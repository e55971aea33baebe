/** The records of any walk, whatever its permission bits, describe a tree: one record a path, each
    under a recorded directory. */
module WalkRecords {
  import opened Bytes
  import opened Paths
  import opened FileTree
  import opened Walk
  import opened Counting
  import opened WalkRules
  import opened IndexBuild

  ghost predicate OnePerPath(recs: multiset<Record>) {
    && (forall r :: recs[r] <= 1)
    && (forall r, r' :: r in recs && r' in recs && r.rel == r'.rel ==> r == r')
  }

  ghost predicate UnderADirectory(recs: multiset<Record>, r: Record) {
    exists m :: Record(ParentOf(r.rel), Some(m)) in recs
  }

  /** The records of a walk of the subtree at `base`. */
  ghost predicate Tidy(recs: multiset<Record>, base: Bytes) {
    && OnePerPath(recs)
    && (forall r :: r in recs ==> Below(base, r.rel) && IsWalkPath(r.rel))
    && (forall r :: r in recs && r.rel != base ==> UnderADirectory(recs, r))
  }

  /** What lies below one entry is what that entry contributed. */
  lemma {:induction false} RecordsUnderAnEntry(ctx: Ctx, dir: Node, rel: Bytes, i: nat, r: Record)
    requires dir.Dir? && DistinctNames(dir.entries) && i < |dir.entries|
    requires forall e :: e in dir.entries ==> Tidy(TotalEntry(ctx, dir, rel, e).records, JoinRel(rel, e.name))
    requires Below(JoinRel(rel, dir.entries[i].name), r.rel)
    ensures TotalEntries(ctx, dir, rel, |dir.entries|).records[r] ==
            TotalEntry(ctx, dir, rel, dir.entries[i]).records[r]
  {
    var d := (e: Entry) => if e in dir.entries then TotalEntry(ctx, dir, rel, e).records[r] else 0;
    RecordsOfEntries(ctx, dir, rel, r, d);
    NotUnderItsOwnEntries(dir, rel, i);
    forall k | 0 <= k < |dir.entries| && k != i ensures d(dir.entries[k]) == 0 {
      EntriesAreApart(dir, rel, i, k, r.rel);
    }
    SumOfOne(d, dir.entries, i, |dir.entries|);
  }

  lemma {:induction false} RecordsElsewhere(ctx: Ctx, dir: Node, rel: Bytes, r: Record)
    requires dir.Dir?
    requires forall e :: e in dir.entries ==> Tidy(TotalEntry(ctx, dir, rel, e).records, JoinRel(rel, e.name))
    requires forall i :: 0 <= i < |dir.entries| ==> !Below(JoinRel(rel, dir.entries[i].name), r.rel)
    ensures TotalEntries(ctx, dir, rel, |dir.entries|).records[r] == if r == Record(rel, Some(dir.mtime)) then 1 else 0
  {
    var d := (e: Entry) => if e in dir.entries then TotalEntry(ctx, dir, rel, e).records[r] else 0;
    RecordsOfEntries(ctx, dir, rel, r, d);
    SumOfNone(d, dir.entries, |dir.entries|);
  }

  /** A record of a directory's walk is the directory's own or lies below exactly one entry. */
  lemma WhereARecordIs(ctx: Ctx, dir: Node, rel: Bytes, r: Record) returns (i: nat)
    requires dir.Dir?
    requires forall e :: e in dir.entries ==> Tidy(TotalEntry(ctx, dir, rel, e).records, JoinRel(rel, e.name))
    requires r in TotalEntries(ctx, dir, rel, |dir.entries|).records && r != Record(rel, Some(dir.mtime))
    ensures i < |dir.entries| && Below(JoinRel(rel, dir.entries[i].name), r.rel)
  {
    if k: nat :| k < |dir.entries| && Below(JoinRel(rel, dir.entries[k].name), r.rel) {
      i := k;
    } else {
      RecordsElsewhere(ctx, dir, rel, r);
    }
  }

  lemma {:induction false} OwnRecordIsThere(ctx: Ctx, dir: Node, rel: Bytes)
    requires dir.Dir? && DistinctNames(dir.entries)
    requires forall e :: e in dir.entries ==> Tidy(TotalEntry(ctx, dir, rel, e).records, JoinRel(rel, e.name))
    ensures TotalEntries(ctx, dir, rel, |dir.entries|).records[Record(rel, Some(dir.mtime))] == 1
  {
    forall i | 0 <= i < |dir.entries| ensures !Below(JoinRel(rel, dir.entries[i].name), rel) {
      NotUnderItsOwnEntries(dir, rel, i);
    }
    RecordsElsewhere(ctx, dir, rel, Record(rel, Some(dir.mtime)));
  }

  lemma {:induction false} OneRecordIsEnough(ctx: Ctx, dir: Node, rel: Bytes, r: Record, r': Record)
    requires dir.Dir? && DistinctNames(dir.entries)
    requires forall e :: e in dir.entries ==> Tidy(TotalEntry(ctx, dir, rel, e).records, JoinRel(rel, e.name))
    requires r in TotalEntries(ctx, dir, rel, |dir.entries|).records
    requires r' in TotalEntries(ctx, dir, rel, |dir.entries|).records && r.rel == r'.rel
    ensures r == r' && TotalEntries(ctx, dir, rel, |dir.entries|).records[r] == 1
  {
    var own := Record(rel, Some(dir.mtime));
    OwnRecordIsThere(ctx, dir, rel);
    if r != own {
      var i := WhereARecordIs(ctx, dir, rel, r);
      NotUnderItsOwnEntries(dir, rel, i);
      RecordsUnderAnEntry(ctx, dir, rel, i, r);
      RecordsUnderAnEntry(ctx, dir, rel, i, r');
      assert OnePerPath(TotalEntry(ctx, dir, rel, dir.entries[i]).records);
    } else if r' != own {
      var i := WhereARecordIs(ctx, dir, rel, r');
      NotUnderItsOwnEntries(dir, rel, i);
    }
  }

  lemma {:induction false} RecordIsPlaced(ctx: Ctx, dir: Node, rel: Bytes, r: Record)
    requires dir.Dir? && DistinctNames(dir.entries) && IsWalkPath(rel)
    requires forall e :: e in dir.entries ==> Tidy(TotalEntry(ctx, dir, rel, e).records, JoinRel(rel, e.name))
    requires r in TotalEntries(ctx, dir, rel, |dir.entries|).records
    ensures Below(rel, r.rel) && IsWalkPath(r.rel)
    ensures r.rel != rel ==> UnderADirectory(TotalEntries(ctx, dir, rel, |dir.entries|).records, r)
  {
    if r != Record(rel, Some(dir.mtime)) {
      var i := WhereARecordIs(ctx, dir, rel, r);
      RecordsUnderAnEntry(ctx, dir, rel, i, r);
      EntryIsBelow(rel, dir.entries[i].name, r.rel);
      EntryRecordIsPlaced(ctx, dir, rel, i, r);
    }
  }

  lemma {:induction false} EntryIsBelow(rel: Bytes, name: Bytes, path: Bytes)
    requires IsName(name) && Below(JoinRel(rel, name), path)
    ensures Below(rel, path)
  {
    JoinSplits(rel, name);
    assert Below(rel, JoinRel(rel, name));
    BelowTransitive(rel, JoinRel(rel, name), path);
  }

  lemma {:induction false} EntryRecordIsPlaced(ctx: Ctx, dir: Node, rel: Bytes, i: nat, r: Record)
    requires dir.Dir? && DistinctNames(dir.entries) && i < |dir.entries|
    requires forall e :: e in dir.entries ==> Tidy(TotalEntry(ctx, dir, rel, e).records, JoinRel(rel, e.name))
    requires r in TotalEntry(ctx, dir, rel, dir.entries[i]).records
    ensures UnderADirectory(TotalEntries(ctx, dir, rel, |dir.entries|).records, r)
  {
    var path := JoinRel(rel, dir.entries[i].name);
    if r.rel == path {
      JoinSplits(rel, dir.entries[i].name);
      OwnRecordIsThere(ctx, dir, rel);
      assert Record(ParentOf(r.rel), Some(dir.mtime)) in TotalEntries(ctx, dir, rel, |dir.entries|).records;
    } else {
      assert Tidy(TotalEntry(ctx, dir, rel, dir.entries[i]).records, path);
      var m :| Record(ParentOf(r.rel), Some(m)) in TotalEntry(ctx, dir, rel, dir.entries[i]).records;
      EntryRecordIsKept(ctx, dir, rel, i, Record(ParentOf(r.rel), Some(m)));
    }
  }

  lemma {:induction false} EntryRecordIsKept(ctx: Ctx, dir: Node, rel: Bytes, i: nat, r: Record)
    requires dir.Dir? && DistinctNames(dir.entries) && i < |dir.entries|
    requires forall e :: e in dir.entries ==> Tidy(TotalEntry(ctx, dir, rel, e).records, JoinRel(rel, e.name))
    requires r in TotalEntry(ctx, dir, rel, dir.entries[i]).records
    ensures r in TotalEntries(ctx, dir, rel, |dir.entries|).records
  {
    RecordsUnderAnEntry(ctx, dir, rel, i, r);
  }

  lemma {:induction false} LeafIsTidy(ctx: Ctx, dir: Node, rel: Bytes, e: Entry)
    requires dir.Dir? && IsName(e.name) && IsWalkPath(rel)
    ensures Tidy(multiset(EntryStep(ctx, dir, rel, e, Spare).out.records), JoinRel(rel, e.name))
  {
    var path := JoinRel(rel, e.name);
    JoinSplits(rel, e.name);
    var out := EntryStep(ctx, dir, rel, e, Spare).out;
    if out == EmitOut(path) {
      RepositoryIsTidy(path);
    } else {
      assert multiset(out.records) == multiset{};
    }
  }

  lemma {:induction false} RepositoryIsTidy(path: Bytes)
    requires IsWalkPath(path)
    ensures Tidy(multiset(EmitOut(path).records), path)
  {
    assert multiset(EmitOut(path).records) == multiset{Record(path, None)};
  }

  /** Any walk at all: one record per path, all below the start, each but the first in a recorded directory. */
  lemma {:induction false} LittleIsTidy(recs: multiset<Record>, rel: Bytes)
    requires IsWalkPath(rel) && (recs == multiset{} || recs == multiset{Record(rel, None)})
    ensures Tidy(recs, rel)
  {
    assert Below(rel, rel);
  }

  lemma {:induction false} WalksAreTidy(ctx: Ctx, dir: Node, rel: Bytes)
    requires dir.Dir? && WellFormed(dir) && IsWalkPath(rel)
    ensures Tidy(Total(ctx, dir, rel).records, rel)
    decreases dir, |dir.entries| + 1
  {
    if !dir.intact {
      LittleIsTidy(Total(ctx, dir, rel).records, rel);
    } else if IsRepoDir(dir) {
      assert EmitOut(rel).records == [Record(rel, None)];
      LittleIsTidy(Total(ctx, dir, rel).records, rel);
    } else {
      forall e | e in dir.entries ensures Tidy(TotalEntry(ctx, dir, rel, e).records, JoinRel(rel, e.name)) {
        EntryIsTidy(ctx, dir, rel, e);
      }
      DirectoryIsTidy(ctx, dir, rel);
    }
  }

  lemma {:induction false} EntryIsTidy(ctx: Ctx, dir: Node, rel: Bytes, e: Entry)
    requires dir.Dir? && WellFormed(dir) && IsWalkPath(rel) && e in dir.entries
    ensures Tidy(TotalEntry(ctx, dir, rel, e).records, JoinRel(rel, e.name))
    decreases dir, 0
  {
    JoinSplits(rel, e.name);
    if Enters(ctx, dir, rel, e) {
      WalksAreTidy(ctx, e.node, JoinRel(rel, e.name));
    } else {
      LeafIsTidy(ctx, dir, rel, e);
    }
  }

  lemma {:induction false} DirectoryIsTidy(ctx: Ctx, dir: Node, rel: Bytes)
    requires dir.Dir? && DistinctNames(dir.entries) && IsWalkPath(rel)
    requires forall e :: e in dir.entries ==> Tidy(TotalEntry(ctx, dir, rel, e).records, JoinRel(rel, e.name))
    ensures Tidy(TotalEntries(ctx, dir, rel, |dir.entries|).records, rel)
  {
    var recs := TotalEntries(ctx, dir, rel, |dir.entries|).records;
    forall r, r' | r in recs && r' in recs && r.rel == r'.rel ensures r == r' && recs[r] == 1 {
      OneRecordIsEnough(ctx, dir, rel, r, r');
    }
    forall r | r in recs ensures Below(rel, r.rel) && IsWalkPath(r.rel) && (r.rel != rel ==> UnderADirectory(recs, r)) {
      RecordIsPlaced(ctx, dir, rel, r);
    }
  }

  lemma {:induction false} IntactRootsAreRecorded(ctx: Ctx, root: Node)
    requires root.Dir? && WellFormed(root) && root.intact
    ensures exists r :: r in Total(ctx, root, []).records && r.rel == []
  {
    if IsRepoDir(root) {
      assert Record([], None) in Total(ctx, root, []).records;
    } else {
      forall e | e in root.entries ensures Tidy(TotalEntry(ctx, root, [], e).records, JoinRel([], e.name)) {
        EntryIsTidy(ctx, root, [], e);
      }
      OwnRecordIsThere(ctx, root, []);
      assert Record([], Some(root.mtime)) in Total(ctx, root, []).records;
    }
  }

  /** The records of a root's walk can always be linked into a tree, unless the root itself could not
      be read, and then there are none. */
  lemma {:induction false} WalkRecordsBuild(ctx: Ctx, root: Node, records: seq<Record>)
    requires root.Dir? && WellFormed(root) && multiset(records) == Total(ctx, root, []).records
    ensures OnePerPath(multiset(records)) && ParentsListed(records) && DirectoriesHoldTheRest(records)
    ensures forall r :: r in records ==> IsSafeRel(r.rel)
    ensures HasPath(records, []) <==> root.intact
    ensures !root.intact ==> records == []
  {
    WalksAreTidy(ctx, root, []);
    var recs := multiset(records);
    assert forall r :: r in records <==> r in recs;
    forall r | r in records ensures IsSafeRel(r.rel) {
      SafeMeansWalkable(r.rel);
    }
    forall r | r in records && r.rel != [] ensures HasPath(records, ParentOf(r.rel)) && UnderADirectory(recs, r) {
      var m :| Record(ParentOf(r.rel), Some(m)) in recs;
      assert Record(ParentOf(r.rel), Some(m)) in records;
    }
    if root.intact {
      IntactRootsAreRecorded(ctx, root);
    }
    assert |records| == |recs|;
  }
}
