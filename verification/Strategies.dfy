/** The two `.git` detection strategies against each other, for every assignment of read and search
    bits and every kind of `.git`. */
module Strategies {
  import opened Bytes
  import opened Paths
  import opened FileTree
  import opened Walk
  import opened Counting

  /** A child directory either strategy has to decide by looking at its `.git`. */
  predicate IsCandidate(ctx: Ctx, dir: Node, rel: Bytes, e: Entry): (r: bool)
    requires dir.Dir?
    ensures r ==> e.node.Dir?
  {
    e.node.Dir? && (e.typed || dir.search) && !IsExcluded(ctx, JoinRel(rel, e.name)) &&
    !EndsWith(e.name, DOT_GIT)
  }

  /** A candidate whose `.git` stats from outside. */
  predicate StatsAsRepository(ctx: Ctx, dir: Node, rel: Bytes, e: Entry): (r: bool)
    requires dir.Dir?
    ensures r ==> e.node.Dir?
  {
    IsCandidate(ctx, dir, rel, e) && dir.search && StatsGit(e.node)
  }

  /** What separates the strategies in one subtree: repositories stat-first settles from outside and
      open-scan opens. Counted under `OfReads` are those it reads; counted under `OfRepo(path)`, and
      under its record, is the one at `path` if its entries then fail to read. */
  function GapOf(ctx: Ctx, dir: Node, rel: Bytes, q: Tally): nat
    requires dir.Dir?
    decreases dir, |dir.entries| + 1
  {
    if !dir.intact || IsRepoDir(dir) then 0 else GapOfEntries(ctx, dir, rel, |dir.entries|, q)
  }

  function GapOfEntries(ctx: Ctx, dir: Node, rel: Bytes, n: nat, q: Tally): nat
    requires dir.Dir? && n <= |dir.entries|
    decreases dir, n
  {
    if n == 0 then 0
    else GapOfEntries(ctx, dir, rel, n - 1, q) + GapOfEntry(ctx, dir, rel, dir.entries[n - 1], q)
  }

  function GapOfEntry(ctx: Ctx, dir: Node, rel: Bytes, e: Entry, q: Tally): nat
    requires dir.Dir? && e in dir.entries
    decreases dir, 0
  {
    var path := JoinRel(rel, e.name);
    if StatsAsRepository(ctx, dir, rel, e) then
      if !e.node.read then 0
      else if e.node.intact then (if q == OfReads then 1 else 0)
      else (if q == OfRepo(path) || q == OfRecord(Record(path, None)) then 1 else 0)
    else if IsCandidate(ctx, dir, rel, e) && dir.search && e.node.read then GapOf(ctx, e.node, path, q)
    else 0
  }

  /** Some repository both strategies reach can be opened but not read to the end of its entry list. */
  ghost predicate Breaks(ctx: Ctx, dir: Node, rel: Bytes)
    requires dir.Dir?
    decreases dir, |dir.entries| + 1
  {
    dir.intact && !IsRepoDir(dir) && exists e :: e in dir.entries && EntryBreaks(ctx, dir, rel, e)
  }

  ghost predicate EntryBreaks(ctx: Ctx, dir: Node, rel: Bytes, e: Entry)
    requires dir.Dir? && e in dir.entries
    decreases dir, 0
  {
    if StatsAsRepository(ctx, dir, rel, e) then e.node.read && !e.node.intact
    else IsCandidate(ctx, dir, rel, e) && dir.search && e.node.read && Breaks(ctx, e.node, JoinRel(rel, e.name))
  }

  /** Open-scan reads more, stat-first lists more, and otherwise they count the same. */
  predicate Differ(stat: nat, open: nat, q: Tally, gap: nat) {
    match q
    case OfReads => open == stat + gap
    case OfRepo(_) => stat == open + gap
    case OfRecord(_) => stat == open + gap
    case _ => stat == open
  }

  function OpenScanOf(ctx: Ctx): Ctx { ctx.(detect := OpenScan) }

  function StatFirstOf(ctx: Ctx): Ctx { ctx.(detect := StatFirst) }

  lemma {:induction false} GapsAdd(ctx: Ctx, dir: Node, rel: Bytes, n: nat, q: Tally, d: Entry -> nat)
    requires dir.Dir? && n <= |dir.entries|
    requires forall e :: e in dir.entries ==> d(e) == GapOfEntry(ctx, dir, rel, e, q)
    ensures GapOfEntries(ctx, dir, rel, n, q) == SumOver(d, dir.entries, n)
    decreases n
  {
    if n != 0 {
      GapsAdd(ctx, dir, rel, n - 1, q, d);
    }
  }

  lemma {:induction false} SumsDiffer(s: Entry -> nat, o: Entry -> nat, g: Entry -> nat, entries: seq<Entry>, n: nat,
                                      q: Tally)
    requires n <= |entries|
    requires forall e :: e in entries ==> Differ(s(e), o(e), q, g(e))
    ensures Differ(SumOver(s, entries, n), SumOver(o, entries, n), q, SumOver(g, entries, n))
    decreases n
  {
    if n != 0 {
      SumsDiffer(s, o, g, entries, n - 1, q);
    }
  }

  /** Stat-first lists exactly the repositories open-scan lists and the broken ones; open-scan reads
      exactly the repositories it entered on top. */
  lemma {:induction false} StrategiesDifferByTheGap(ctx: Ctx, dir: Node, rel: Bytes, q: Tally)
    requires dir.Dir? && WellFormed(dir)
    ensures Differ(Count(Total(StatFirstOf(ctx), dir, rel), q), Count(Total(OpenScanOf(ctx), dir, rel), q), q,
                   GapOf(ctx, dir, rel, q))
    decreases dir, |dir.entries| + 1
  {
    if dir.intact && !IsRepoDir(dir) {
      forall e | e in dir.entries ensures EntryDiffers(ctx, dir, rel, e, q) {
        EntryDiffersByTheGap(ctx, dir, rel, e, q);
      }
      EntriesDifferByTheGap(ctx, dir, rel, q);
    }
  }

  ghost predicate EntryDiffers(ctx: Ctx, dir: Node, rel: Bytes, e: Entry, q: Tally)
    requires dir.Dir? && e in dir.entries
  {
    Differ(Count(TotalEntry(StatFirstOf(ctx), dir, rel, e), q), Count(TotalEntry(OpenScanOf(ctx), dir, rel, e), q), q,
           GapOfEntry(ctx, dir, rel, e, q))
  }

  lemma {:induction false} EntriesDifferByTheGap(ctx: Ctx, dir: Node, rel: Bytes, q: Tally)
    requires dir.Dir? && forall e :: e in dir.entries ==> EntryDiffers(ctx, dir, rel, e, q)
    ensures var n := |dir.entries|;
            Differ(Count(TotalEntries(StatFirstOf(ctx), dir, rel, n), q),
                   Count(TotalEntries(OpenScanOf(ctx), dir, rel, n), q), q, GapOfEntries(ctx, dir, rel, n, q))
  {
    var s := (e: Entry) => if e in dir.entries then Count(TotalEntry(StatFirstOf(ctx), dir, rel, e), q) else 0;
    var o := (e: Entry) => if e in dir.entries then Count(TotalEntry(OpenScanOf(ctx), dir, rel, e), q) else 0;
    var g := (e: Entry) => if e in dir.entries then GapOfEntry(ctx, dir, rel, e, q) else 0;
    forall e | e in dir.entries ensures Differ(s(e), o(e), q, g(e)) {
      assert EntryDiffers(ctx, dir, rel, e, q);
    }
    EntriesDifferGiven(ctx, dir, rel, q, s, o, g);
  }

  lemma {:induction false} EntriesDifferGiven(ctx: Ctx, dir: Node, rel: Bytes, q: Tally, s: Entry -> nat,
                                              o: Entry -> nat, g: Entry -> nat)
    requires dir.Dir?
    requires forall e :: e in dir.entries ==> s(e) == Count(TotalEntry(StatFirstOf(ctx), dir, rel, e), q)
    requires forall e :: e in dir.entries ==> o(e) == Count(TotalEntry(OpenScanOf(ctx), dir, rel, e), q)
    requires forall e :: e in dir.entries ==> g(e) == GapOfEntry(ctx, dir, rel, e, q)
    requires forall e :: e in dir.entries ==> Differ(s(e), o(e), q, g(e))
    ensures var n := |dir.entries|;
            Differ(Count(TotalEntries(StatFirstOf(ctx), dir, rel, n), q),
                   Count(TotalEntries(OpenScanOf(ctx), dir, rel, n), q), q, GapOfEntries(ctx, dir, rel, n, q))
  {
    CountEntries(StatFirstOf(ctx), dir, rel, s, q);
    CountEntries(OpenScanOf(ctx), dir, rel, o, q);
    GapsAdd(ctx, dir, rel, |dir.entries|, q, g);
    SumsDiffer(s, o, g, dir.entries, |dir.entries|, q);
  }

  lemma {:induction false} EntryDiffersByTheGap(ctx: Ctx, dir: Node, rel: Bytes, e: Entry, q: Tally)
    requires dir.Dir? && WellFormed(dir) && e in dir.entries
    ensures EntryDiffers(ctx, dir, rel, e, q)
    decreases dir, 0
  {
    CandidatesAreDecided(ctx, dir, rel, e);
    if StatsAsRepository(ctx, dir, rel, e) {
      RepositoryGap(ctx, dir, rel, e, q);
    } else if IsCandidate(ctx, dir, rel, e) && dir.search && e.node.read {
      StrategiesDifferByTheGap(ctx, e.node, JoinRel(rel, e.name), q);
    } else {
      assert EntryStep(StatFirstOf(ctx), dir, rel, e, Spare) == EntryStep(OpenScanOf(ctx), dir, rel, e, Spare);
    }
  }

  lemma CandidatesAreDecided(ctx: Ctx, dir: Node, rel: Bytes, e: Entry)
    requires dir.Dir?
    ensures IsCandidate(ctx, dir, rel, e) ==> Decide(OpenScanOf(ctx), dir, rel, e) == Queue
    ensures IsCandidate(ctx, dir, rel, e) ==>
      Decide(StatFirstOf(ctx), dir, rel, e) == if StatsAsRepository(ctx, dir, rel, e) then Emit else Queue
    ensures !IsCandidate(ctx, dir, rel, e) ==>
      Decide(StatFirstOf(ctx), dir, rel, e) == Decide(OpenScanOf(ctx), dir, rel, e) != Queue
  {
    var path := JoinRel(rel, e.name);
    assert IsExcluded(StatFirstOf(ctx), path) == IsExcluded(ctx, path) == IsExcluded(OpenScanOf(ctx), path);
  }

  lemma RepositoryGap(ctx: Ctx, dir: Node, rel: Bytes, e: Entry, q: Tally)
    requires dir.Dir? && e in dir.entries && IsName(e.name) && StatsAsRepository(ctx, dir, rel, e)
    ensures EntryDiffers(ctx, dir, rel, e, q)
  {
    RepositoryTotals(ctx, dir, rel, e);
    ListedDiffers(JoinRel(rel, e.name), TotalEntry(StatFirstOf(ctx), dir, rel, e),
                  TotalEntry(OpenScanOf(ctx), dir, rel, e),
                  e.node.read, e.node.intact, q);
  }

  lemma ListedDiffers(path: Bytes, stat: Sum, open: Sum, read: bool, intact: bool, q: Tally)
    requires stat == Sum(multiset{path}, multiset{Record(path, None)}, 0, 0, false)
    requires open == if !read then stat
                     else if intact then stat.(dirsRead := 1)
                     else Sum(multiset{}, multiset{}, 0, 0, true)
    ensures Differ(Count(stat, q), Count(open, q), q,
                   if !read then 0
                   else if intact then (if q == OfReads then 1 else 0)
                   else (if q == OfRepo(path) || q == OfRecord(Record(path, None)) then 1 else 0))
  {
  }

  lemma {:induction false} RepositoryTotals(ctx: Ctx, dir: Node, rel: Bytes, e: Entry)
    requires dir.Dir? && e in dir.entries && IsName(e.name) && StatsAsRepository(ctx, dir, rel, e)
    ensures var path := JoinRel(rel, e.name);
            var listed := Sum(multiset{path}, multiset{Record(path, None)}, 0, 0, false);
            && TotalEntry(StatFirstOf(ctx), dir, rel, e) == listed
            && TotalEntry(OpenScanOf(ctx), dir, rel, e) ==
               if !e.node.read then listed
               else if e.node.intact then listed.(dirsRead := 1)
               else Sum(multiset{}, multiset{}, 0, 0, true)
  {
    CandidatesAreDecided(ctx, dir, rel, e);
    var path := JoinRel(rel, e.name);
    assert multiset(EmitOut(path).repos) == multiset{path};
    assert multiset(EmitOut(path).records) == multiset{Record(path, None)};
    assert TotalEntry(StatFirstOf(ctx), dir, rel, e) == Summary(EmitOut(path));
    if e.node.read {
      assert IsRepoDir(e.node);
      assert TotalEntry(OpenScanOf(ctx), dir, rel, e) == Total(OpenScanOf(ctx), e.node, path);
    } else {
      assert TotalEntry(OpenScanOf(ctx), dir, rel, e) == Summary(EmitOut(path));
    }
  }

  // ---- Being complete ----

  lemma {:induction false} GapIsSome(ctx: Ctx, dir: Node, rel: Bytes, n: nat, q: Tally)
    requires dir.Dir? && n <= |dir.entries|
    ensures GapOfEntries(ctx, dir, rel, n, q) > 0 <==>
            exists i :: 0 <= i < n && GapOfEntry(ctx, dir, rel, dir.entries[i], q) > 0
    decreases n
  {
    if n != 0 {
      GapIsSome(ctx, dir, rel, n - 1, q);
    }
  }

  /** Something breaks exactly when some path is counted as listed by stat-first alone. */
  lemma {:induction false} BreaksAreCounted(ctx: Ctx, dir: Node, rel: Bytes)
    requires dir.Dir?
    ensures Breaks(ctx, dir, rel) <==> exists path :: GapOf(ctx, dir, rel, OfRepo(path)) > 0
    decreases dir, |dir.entries| + 1
  {
    if dir.intact && !IsRepoDir(dir) {
      forall path ensures GapOf(ctx, dir, rel, OfRepo(path)) > 0 <==>
                          exists i :: 0 <= i < |dir.entries| &&
                            GapOfEntry(ctx, dir, rel, dir.entries[i], OfRepo(path)) > 0
      {
        GapIsSome(ctx, dir, rel, |dir.entries|, OfRepo(path));
      }
      if Breaks(ctx, dir, rel) {
        var e :| e in dir.entries && EntryBreaks(ctx, dir, rel, e);
        EntryBreaksAreCounted(ctx, dir, rel, e);
        var path :| GapOfEntry(ctx, dir, rel, e, OfRepo(path)) > 0;
        var i :| 0 <= i < |dir.entries| && dir.entries[i] == e;
        assert GapOf(ctx, dir, rel, OfRepo(path)) > 0;
      }
      if path :| GapOf(ctx, dir, rel, OfRepo(path)) > 0 {
        var i :| 0 <= i < |dir.entries| && GapOfEntry(ctx, dir, rel, dir.entries[i], OfRepo(path)) > 0;
        EntryBreaksAreCounted(ctx, dir, rel, dir.entries[i]);
      }
    }
  }

  lemma {:induction false} EntryBreaksAreCounted(ctx: Ctx, dir: Node, rel: Bytes, e: Entry)
    requires dir.Dir? && e in dir.entries
    ensures EntryBreaks(ctx, dir, rel, e) <==> exists path :: GapOfEntry(ctx, dir, rel, e, OfRepo(path)) > 0
    decreases dir, 0
  {
    var path := JoinRel(rel, e.name);
    if StatsAsRepository(ctx, dir, rel, e) {
      if e.node.read && !e.node.intact {
        assert GapOfEntry(ctx, dir, rel, e, OfRepo(path)) > 0;
      }
    } else if IsCandidate(ctx, dir, rel, e) && dir.search && e.node.read {
      BreaksAreCounted(ctx, e.node, path);
      forall p ensures GapOfEntry(ctx, dir, rel, e, OfRepo(p)) == GapOf(ctx, e.node, path, OfRepo(p)) {
      }
    }
  }

  /** Open-scan is incomplete exactly when stat-first is or something broke under it. */
  lemma {:induction false} StrategiesLoseTheSame(ctx: Ctx, dir: Node, rel: Bytes)
    requires dir.Dir? && WellFormed(dir)
    ensures Total(OpenScanOf(ctx), dir, rel).incomplete <==>
            Total(StatFirstOf(ctx), dir, rel).incomplete || Breaks(ctx, dir, rel)
    decreases dir, |dir.entries| + 1
  {
    if dir.intact && !IsRepoDir(dir) {
      forall e | e in dir.entries ensures EntryLosesTheSame(ctx, dir, rel, e) {
        EntryLoses(ctx, dir, rel, e);
      }
      EntriesLoseTheSame(ctx, dir, rel);
    }
  }

  ghost predicate EntryLosesTheSame(ctx: Ctx, dir: Node, rel: Bytes, e: Entry)
    requires dir.Dir? && e in dir.entries
  {
    TotalEntry(OpenScanOf(ctx), dir, rel, e).incomplete <==>
    TotalEntry(StatFirstOf(ctx), dir, rel, e).incomplete || EntryBreaks(ctx, dir, rel, e)
  }

  lemma {:induction false} EntriesLoseTheSame(ctx: Ctx, dir: Node, rel: Bytes)
    requires dir.Dir? && forall e :: e in dir.entries ==> EntryLosesTheSame(ctx, dir, rel, e)
    ensures TotalEntries(OpenScanOf(ctx), dir, rel, |dir.entries|).incomplete <==>
            TotalEntries(StatFirstOf(ctx), dir, rel, |dir.entries|).incomplete ||
            exists e :: e in dir.entries && EntryBreaks(ctx, dir, rel, e)
  {
    var o := (e: Entry) => e in dir.entries && TotalEntry(OpenScanOf(ctx), dir, rel, e).incomplete;
    var s := (e: Entry) => e in dir.entries && TotalEntry(StatFirstOf(ctx), dir, rel, e).incomplete;
    IncompleteEntries(OpenScanOf(ctx), dir, rel, o);
    IncompleteEntries(StatFirstOf(ctx), dir, rel, s);
    AnyIsSome(o, dir.entries, |dir.entries|);
    AnyIsSome(s, dir.entries, |dir.entries|);
    assert forall e :: e in dir.entries ==> (o(e) <==> s(e) || EntryBreaks(ctx, dir, rel, e)) by {
      forall e | e in dir.entries ensures o(e) <==> s(e) || EntryBreaks(ctx, dir, rel, e) {
        assert EntryLosesTheSame(ctx, dir, rel, e);
      }
    }
  }

  lemma {:induction false} EntryLoses(ctx: Ctx, dir: Node, rel: Bytes, e: Entry)
    requires dir.Dir? && WellFormed(dir) && e in dir.entries
    ensures EntryLosesTheSame(ctx, dir, rel, e)
    decreases dir, 0
  {
    CandidatesAreDecided(ctx, dir, rel, e);
    if StatsAsRepository(ctx, dir, rel, e) {
      RepositoryTotals(ctx, dir, rel, e);
    } else if IsCandidate(ctx, dir, rel, e) && dir.search && e.node.read {
      StrategiesLoseTheSame(ctx, e.node, JoinRel(rel, e.name));
    } else {
      assert EntryStep(StatFirstOf(ctx), dir, rel, e, Spare) == EntryStep(OpenScanOf(ctx), dir, rel, e, Spare);
    }
  }

  // ---- Main results ----

  /** The strategies list the same repositories exactly when no repository they both reach has an
      entry list that fails to read half-way; and then they agree on being complete too. */
  lemma {:induction false} StrategiesAgreeUnlessBroken(ctx: Ctx, dir: Node, rel: Bytes)
    requires dir.Dir? && WellFormed(dir)
    ensures var stat, open := Total(StatFirstOf(ctx), dir, rel), Total(OpenScanOf(ctx), dir, rel);
            && (stat.repos == open.repos <==> !Breaks(ctx, dir, rel))
            && (stat.repos == open.repos ==> stat.incomplete == open.incomplete)
            && stat.repos >= open.repos && stat.excluded == open.excluded
            && open.dirsRead == stat.dirsRead + GapOf(ctx, dir, rel, OfReads)
  {
    var stat, open := Total(StatFirstOf(ctx), dir, rel), Total(OpenScanOf(ctx), dir, rel);
    forall path ensures stat.repos[path] == open.repos[path] + GapOf(ctx, dir, rel, OfRepo(path)) {
      StrategiesDifferByTheGap(ctx, dir, rel, OfRepo(path));
    }
    StrategiesDifferByTheGap(ctx, dir, rel, OfReads);
    StrategiesDifferByTheGap(ctx, dir, rel, OfPrunes);
    StrategiesLoseTheSame(ctx, dir, rel);
    BreaksAreCounted(ctx, dir, rel);
    if Breaks(ctx, dir, rel) {
      var path :| GapOf(ctx, dir, rel, OfRepo(path)) > 0;
      assert stat.repos[path] != open.repos[path];
    }
  }

  ghost predicate Intact(node: Node) {
    node.Dir? ==> node.intact && forall i :: 0 <= i < |node.entries| ==> Intact(node.entries[i].node)
  }

  /** Mode bits alone never separate the strategies. */
  lemma {:induction false} ModeBitsNeverBreak(ctx: Ctx, dir: Node, rel: Bytes)
    requires dir.Dir? && Intact(dir)
    ensures !Breaks(ctx, dir, rel)
    decreases dir
  {
    forall e | e in dir.entries ensures !EntryBreaks(ctx, dir, rel, e) {
      assert Intact(e.node);
      if IsCandidate(ctx, dir, rel, e) {
        ModeBitsNeverBreak(ctx, e.node, JoinRel(rel, e.name));
      }
    }
  }

  /** The documented promise, for intact entry lists under arbitrary mode bits. */
  lemma {:induction false} StrategiesListTheSame(ctx: Ctx, dir: Node, rel: Bytes)
    requires dir.Dir? && WellFormed(dir) && Intact(dir)
    ensures var stat, open := Total(StatFirstOf(ctx), dir, rel), Total(OpenScanOf(ctx), dir, rel);
            && stat.repos == open.repos
            && stat.incomplete == open.incomplete
            && stat.excluded == open.excluded
            && open.dirsRead == stat.dirsRead + GapOf(ctx, dir, rel, OfReads)
  {
    ModeBitsNeverBreak(ctx, dir, rel);
    StrategiesAgreeUnlessBroken(ctx, dir, rel);
  }

  /** A root over one repository whose entry list fails part-way. */
  function HalfRead(name: Bytes): Node {
    Dir(0, true, true, true, [Entry(name, true, Dir(0, true, true, false, [Entry(DOT_GIT, true, File)]))])
  }

  lemma {:induction false} HalfReadTreeBreaks(ctx: Ctx, name: Bytes)
    requires IsName(name) && !EndsWith(name, DOT_GIT) && !IsExcluded(ctx, name)
    ensures var root := HalfRead(name);
            && WellFormed(root) && Searchable(root) && !IsRepoDir(root)
            && StatsAsRepository(ctx, root, [], root.entries[0]) && Breaks(ctx, root, [])
  {
    var root := HalfRead(name);
    var e := root.entries[0];
    assert HasGit(e.node.entries) && IndexOf(root.entries, DOT_GIT) == 1;
    assert e in root.entries && EntryBreaks(ctx, root, [], e);
  }

  lemma {:induction false} HalfReadIsListedByStatFirst(ctx: Ctx, root: Node)
    requires root.Dir? && root.intact && !IsRepoDir(root) && |root.entries| == 1
    requires StatsAsRepository(ctx, root, [], root.entries[0])
    ensures !Total(StatFirstOf(ctx), root, []).incomplete
  {
    CandidatesAreDecided(ctx, root, [], root.entries[0]);
    TotalsHave((s: Sum) => !s.incomplete, StatFirstOf(ctx), root, [], 1);
  }

  /** Stat-first lists that repository without opening it, and open-scan loses it. */
  lemma HalfReadRepositoriesBreak(ctx: Ctx, name: Bytes)
    requires IsName(name) && !EndsWith(name, DOT_GIT) && !IsExcluded(ctx, name)
    ensures var stat, open := Total(StatFirstOf(ctx), HalfRead(name), []), Total(OpenScanOf(ctx), HalfRead(name), []);
            stat.repos != open.repos && !stat.incomplete && open.incomplete
  {
    HalfReadTreeBreaks(ctx, name);
    HalfReadIsListedByStatFirst(ctx, HalfRead(name));
    StrategiesAgreeUnlessBroken(ctx, HalfRead(name), []);
    StrategiesLoseTheSame(ctx, HalfRead(name), []);
  }
}
