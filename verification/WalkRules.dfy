/** The rules a listing promises, stated path by path and without any permission bit, and the proof
    that a complete walk produces exactly what they say. */
module WalkRules {
  import opened Bytes
  import opened Paths
  import opened FileTree
  import opened Walk
  import opened Counting

  /** What the rules say about one path: nothing, a repository, or a directory to look inside. */
  datatype Role = Nothing | Repository | Descended(dir: Node)

  function ChildRole(ctx: Ctx, dir: Node, path: Bytes): (role: Role)
    requires dir.Dir?
    ensures role.Descended? ==> role.dir.Dir?
  {
    var name := Basename(path);
    var i := IndexOf(dir.entries, name);
    if i == |dir.entries| || IsExcluded(ctx, path) then Nothing
    else match dir.entries[i].node
      case Dir(_, _, _, _, entries) =>
        if EndsWith(name, DOT_GIT) || HasGit(entries) then Repository else Descended(dir.entries[i].node)
      case Link(target) =>
        if target.Directory? && (EndsWith(name, DOT_GIT) || target.git) then Repository else Nothing
      case File => Nothing
  }

  /** The role of `rel` for a walk that starts at the directory `top`, whose path is `base`. */
  function RoleOf(ctx: Ctx, base: Bytes, top: Node, rel: Bytes): (role: Role)
    requires top.Dir?
    ensures role.Descended? ==> role.dir.Dir?
    decreases |rel|
  {
    if rel == base then
      if HasGit(top.entries) then Repository else Descended(top)
    else if rel == [] then Nothing
    else
      match RoleOf(ctx, base, top, ParentOf(rel))
      case Descended(dir) =>
        if rel == JoinRel(ParentOf(rel), Basename(rel)) then ChildRole(ctx, dir, rel) else Nothing
      case _ => Nothing
  }

  function RecordOf(role: Role, rel: Bytes): Option<Record>
    requires role.Descended? ==> role.dir.Dir?
  {
    match role
    case Nothing => None
    case Repository => Some(Record(rel, None))
    case Descended(dir) => Some(Record(rel, Some(dir.mtime)))
  }

  /** How often `r` has to appear among the records. */
  function Owed(ctx: Ctx, base: Bytes, top: Node, r: Record): nat
    requires top.Dir?
  {
    if RecordOf(RoleOf(ctx, base, top, r.rel), r.rel) == Some(r) then 1 else 0
  }

  lemma {:induction false} RolesLieBelow(ctx: Ctx, base: Bytes, top: Node, rel: Bytes)
    requires top.Dir? && RoleOf(ctx, base, top, rel) != Nothing
    ensures Below(base, rel)
    decreases |rel|
  {
    if rel != base {
      RolesLieBelow(ctx, base, top, ParentOf(rel));
    }
  }

  /** A walk from `base` that enters the directory `sub` gives everything under it the role a walk
      started there gives it. */
  lemma {:induction false} RolesRestrict(ctx: Ctx, base: Bytes, top: Node, sub: Bytes, rel: Bytes)
    requires top.Dir? && Below(base, sub) && Below(sub, rel)
    requires RoleOf(ctx, base, top, sub).Descended?
    ensures RoleOf(ctx, base, top, rel) == RoleOf(ctx, sub, RoleOf(ctx, base, top, sub).dir, rel)
    decreases |rel|
  {
    DescendedHasNoGit(ctx, base, top, sub);
    if rel != sub {
      RolesRestrict(ctx, base, top, sub, ParentOf(rel));
      BelowIsLonger(sub, ParentOf(rel));
      if rel == base {
        BelowIsLonger(base, sub);
      }
    }
  }

  lemma {:induction false} DescendedHasNoGit(ctx: Ctx, base: Bytes, top: Node, rel: Bytes)
    requires top.Dir? && RoleOf(ctx, base, top, rel).Descended?
    ensures !HasGit(RoleOf(ctx, base, top, rel).dir.entries)
  {
  }

  /** Nothing is ever listed inside a repository, a link or a pruned directory. */
  lemma {:induction false} NothingInside(ctx: Ctx, base: Bytes, top: Node, outer: Bytes, rel: Bytes)
    requires top.Dir? && Below(base, outer) && Below(outer, rel) && rel != outer
    requires !RoleOf(ctx, base, top, outer).Descended?
    ensures RoleOf(ctx, base, top, rel) == Nothing
    decreases |rel|
  {
    BelowIsLonger(base, outer);
    BelowIsLonger(outer, rel);
    if ParentOf(rel) != outer {
      NothingInside(ctx, base, top, outer, ParentOf(rel));
    }
  }

  /** What the rules descend into is what the path resolves to. */
  lemma {:induction false} RolesResolve(ctx: Ctx, root: Node, rel: Bytes)
    requires root.Dir? && Searchable(root) && RoleOf(ctx, [], root, rel).Descended?
    ensures Resolve(root, rel) == Found(RoleOf(ctx, [], root, rel).dir)
    ensures Searchable(RoleOf(ctx, [], root, rel).dir)
    decreases |rel|
  {
    if rel != [] {
      RolesResolve(ctx, root, ParentOf(rel));
      var dir := RoleOf(ctx, [], root, ParentOf(rel)).dir;
      var i := IndexOf(dir.entries, Basename(rel));
      assert Searchable(dir.entries[i].node);
    }
  }

  // ---- The rules entry by entry ----

  /** The name ends in `.git`. */
  ghost predicate IsGitName(name: Bytes) {
    exists stem: Bytes :: name == stem + [0x2e, 0x67, 0x69, 0x74]
  }

  /** Something called `.git` is there, and is no link that dangles. */
  ghost predicate HoldsGit(entries: seq<Entry>) {
    exists j :: 0 <= j < |entries| && entries[j].name == [0x2e, 0x67, 0x69, 0x74] && entries[j].node != Link(Nowhere)
  }

  lemma GitNameEnds(name: Bytes)
    ensures IsGitName(name) <==> EndsWith(name, DOT_GIT)
  {
    if EndsWith(name, DOT_GIT) {
      assert name == name[..|name| - 4] + DOT_GIT;
    }
  }

  lemma {:induction false} HoldsGitIs(entries: seq<Entry>)
    requires DistinctNames(entries)
    ensures HoldsGit(entries) <==> HasGit(entries)
  {
    if j :| 0 <= j < |entries| && entries[j].name == [0x2e, 0x67, 0x69, 0x74] && entries[j].node != Link(Nowhere) {
      IndexOfEntry(entries, j);
    }
  }

  /** What an entry is, in so many words. */
  lemma {:induction false} RulesOfAnEntry(ctx: Ctx, dir: Node, rel: Bytes, i: nat)
    requires dir.Dir? && DistinctNames(dir.entries) && i < |dir.entries|
    requires dir.entries[i].node.Dir? ==> DistinctNames(dir.entries[i].node.entries)
    requires !IsExcluded(ctx, JoinRel(rel, dir.entries[i].name))
    ensures var name, node := dir.entries[i].name, dir.entries[i].node;
            ChildRole(ctx, dir, JoinRel(rel, name)) ==
            match node
            case Dir(_, _, _, _, entries) =>
              if IsGitName(name) || HoldsGit(entries) then Repository else Descended(node)
            case Link(target) =>
              if target.Directory? && (IsGitName(name) || target.git) then Repository else Nothing
            case File => Nothing
  {
    var e := dir.entries[i];
    JoinSplits(rel, e.name);
    IndexOfEntry(dir.entries, i);
    GitNameEnds(e.name);
    if e.node.Dir? {
      HoldsGitIs(e.node.entries);
    }
  }

  /** A pattern matches the path or one above it. */
  ghost predicate IsShut(ctx: Ctx, rel: Bytes) {
    exists p :: IsShutBy(ctx, p, rel)
  }

  ghost predicate IsShutBy(ctx: Ctx, p: Bytes, rel: Bytes) {
    p != [] && Below(p, rel) && exists k :: 0 <= k < |ctx.exclude| && ctx.wildmatch(ctx.exclude[k], p)
  }

  lemma {:induction false} ShutFromAbove(ctx: Ctx, rel: Bytes)
    requires rel != []
    ensures IsShut(ctx, rel) <==> IsExcluded(ctx, rel) || IsShut(ctx, ParentOf(rel))
  {
    assert Below(rel, rel) && (IsExcluded(ctx, rel) ==> IsShutBy(ctx, rel, rel));
    if p :| IsShutBy(ctx, p, ParentOf(rel)) {
      assert IsShutBy(ctx, p, rel);
    }
    if p :| IsShutBy(ctx, p, rel) {
      assert p == rel || IsShutBy(ctx, p, ParentOf(rel));
    }
  }

  lemma NothingShutsTheRoot(ctx: Ctx)
    ensures !IsShut(ctx, [])
  {
  }

  /** Exclusions take away what they match and all below it, and change nothing else. */
  lemma {:induction false} ExclusionsOnlyPrune(ctx: Ctx, root: Node, rel: Bytes)
    requires root.Dir?
    ensures RoleOf(ctx, [], root, rel) ==
            if IsShut(ctx, rel) then Nothing else RoleOf(ctx.(exclude := []), [], root, rel)
    decreases |rel|
  {
    NothingShutsTheRoot(ctx);
    if rel != [] {
      ExclusionsOnlyPrune(ctx, root, ParentOf(rel));
      ShutFromAbove(ctx, rel);
    }
  }

  // ---- The walk's own sum against the rules ----

  /** The records one entry of `dir` owes. */
  ghost predicate EntryOwes(ctx: Ctx, dir: Node, rel: Bytes, e: Entry, r: Record, count: nat)
    requires dir.Dir?
  {
    count == if Below(JoinRel(rel, e.name), r.rel) then Owed(ctx, rel, dir, r) else 0
  }

  lemma {:induction false} RootOfWalk(ctx: Ctx, rel: Bytes, dir: Node, e: Entry, i: nat)
    requires dir.Dir? && DistinctNames(dir.entries) && i < |dir.entries| && e == dir.entries[i]
    requires !HasGit(dir.entries)
    ensures RoleOf(ctx, rel, dir, JoinRel(rel, e.name)) == ChildRole(ctx, dir, JoinRel(rel, e.name))
    ensures Below(rel, JoinRel(rel, e.name))
  {
    JoinSplits(rel, e.name);
  }

  function Only(role: Role, path: Bytes): multiset<Record> {
    if role == Repository then multiset{Record(path, None)} else multiset{}
  }

  /** An entry settled without reading it is a repository or nothing, as its role says. */
  lemma {:induction false} LeafRole(ctx: Ctx, dir: Node, rel: Bytes, i: nat)
    requires dir.Dir? && WellFormed(dir) && Searchable(dir)
    requires i < |dir.entries| && !Enters(ctx, dir, rel, dir.entries[i])
    requires !EntryStep(ctx, dir, rel, dir.entries[i], Spare).out.incomplete
    ensures var path := JoinRel(rel, dir.entries[i].name);
            var role := ChildRole(ctx, dir, path);
            !role.Descended? &&
            multiset(EntryStep(ctx, dir, rel, dir.entries[i], Spare).out.records) == Only(role, path)
  {
    var e := dir.entries[i];
    JoinSplits(rel, e.name);
    IndexOfEntry(dir.entries, i);
    assert Searchable(e.node);
    match Decide(ctx, dir, rel, e)
    case Skip =>
    case Prune =>
    case Emit =>
    case Queue =>
      assert StatsGit(e.node) == HasGit(e.node.entries);
  }

  lemma {:induction false} LeafMatchesRules(ctx: Ctx, dir: Node, rel: Bytes, i: nat, r: Record)
    requires dir.Dir? && WellFormed(dir) && Searchable(dir) && !HasGit(dir.entries)
    requires i < |dir.entries| && !Enters(ctx, dir, rel, dir.entries[i])
    requires !TotalEntry(ctx, dir, rel, dir.entries[i]).incomplete
    ensures EntryOwes(ctx, dir, rel, dir.entries[i], r, TotalEntry(ctx, dir, rel, dir.entries[i]).records[r])
  {
    var path := JoinRel(rel, dir.entries[i].name);
    LeafRole(ctx, dir, rel, i);
    RootOfWalk(ctx, rel, dir, dir.entries[i], i);
    if Below(path, r.rel) && r.rel != path {
      NothingInside(ctx, rel, dir, path, r.rel);
    }
  }

  /** A child that is to be opened has the role its own subtree gives it. */
  lemma {:induction false} EnteredRole(ctx: Ctx, dir: Node, rel: Bytes, i: nat, r: Record)
    requires dir.Dir? && WellFormed(dir) && Searchable(dir) && !HasGit(dir.entries)
    requires i < |dir.entries| && Decide(ctx, dir, rel, dir.entries[i]) == Queue
    ensures var path := JoinRel(rel, dir.entries[i].name);
            Owed(ctx, path, dir.entries[i].node, r) ==
            if Below(path, r.rel) then Owed(ctx, rel, dir, r) else 0
  {
    var e := dir.entries[i];
    var path := JoinRel(rel, e.name);
    JoinSplits(rel, e.name);
    IndexOfEntry(dir.entries, i);
    RootOfWalk(ctx, rel, dir, e, i);
    if Below(path, r.rel) {
      if HasGit(e.node.entries) {
        RepositoryOwesOnlyItself(ctx, dir, rel, path, e.node, r);
      } else {
        RolesRestrict(ctx, rel, dir, path, r.rel);
      }
    } else if RoleOf(ctx, path, e.node, r.rel) != Nothing {
      RolesLieBelow(ctx, path, e.node, r.rel);
    }
  }

  /** One entry contributes exactly what the rules owe at and below its path. */
  lemma {:induction false} EntryMatchesRules(ctx: Ctx, dir: Node, rel: Bytes, i: nat, r: Record)
    requires dir.Dir? && WellFormed(dir) && Searchable(dir) && !HasGit(dir.entries)
    requires i < |dir.entries|
    requires !TotalEntry(ctx, dir, rel, dir.entries[i]).incomplete
    ensures EntryOwes(ctx, dir, rel, dir.entries[i], r, TotalEntry(ctx, dir, rel, dir.entries[i]).records[r])
    decreases dir, 0
  {
    var e := dir.entries[i];
    if Enters(ctx, dir, rel, e) {
      assert TotalEntry(ctx, dir, rel, e) == Total(ctx, e.node, JoinRel(rel, e.name));
      SubtreeMatchesRules(ctx, e.node, JoinRel(rel, e.name), r);
      EnteredRole(ctx, dir, rel, i, r);
    } else {
      LeafMatchesRules(ctx, dir, rel, i, r);
    }
  }

  /** A child that turns out to be a repository is one however it was found. */
  lemma {:induction false} RepositoryOwesOnlyItself(ctx: Ctx, dir: Node, rel: Bytes, path: Bytes, child: Node,
                                                    r: Record)
    requires dir.Dir? && child.Dir? && Below(rel, path) && Below(path, r.rel)
    requires HasGit(child.entries) && RoleOf(ctx, rel, dir, path) == Repository
    ensures Owed(ctx, path, child, r) == Owed(ctx, rel, dir, r)
  {
    if r.rel != path {
      NothingInside(ctx, rel, dir, path, r.rel);
      NothingInside(ctx, path, child, path, r.rel);
    }
  }

  lemma {:induction false} EntriesAreApart(dir: Node, rel: Bytes, i: nat, j: nat, path: Bytes)
    requires dir.Dir? && DistinctNames(dir.entries)
    requires i < |dir.entries| && j < |dir.entries| && i != j
    requires Below(JoinRel(rel, dir.entries[i].name), path)
    ensures !Below(JoinRel(rel, dir.entries[j].name), path)
  {
    var a, b := dir.entries[i].name, dir.entries[j].name;
    JoinSplits(rel, a);
    JoinSplits(rel, b);
    SiblingsAreApart(JoinRel(rel, a), JoinRel(rel, b), path);
  }

  /** A role below a directory is a role below one of its entries. */
  lemma {:induction false} OwedUnderAnEntry(ctx: Ctx, dir: Node, rel: Bytes, path: Bytes) returns (i: nat)
    requires dir.Dir? && DistinctNames(dir.entries) && path != rel
    requires RoleOf(ctx, rel, dir, path) != Nothing
    ensures i < |dir.entries| && Below(JoinRel(rel, dir.entries[i].name), path)
    decreases |path|
  {
    if ParentOf(path) == rel {
      i := IndexOf(dir.entries, Basename(path));
    } else {
      i := OwedUnderAnEntry(ctx, dir, rel, ParentOf(path));
    }
  }

  lemma {:induction false} NotUnderItsOwnEntries(dir: Node, rel: Bytes, i: nat)
    requires dir.Dir? && DistinctNames(dir.entries) && i < |dir.entries|
    ensures !Below(JoinRel(rel, dir.entries[i].name), rel)
  {
    JoinSplits(rel, dir.entries[i].name);
    if Below(JoinRel(rel, dir.entries[i].name), rel) {
      BelowIsLonger(JoinRel(rel, dir.entries[i].name), rel);
    }
  }

  /** The entries together: each path is below at most one of them. */
  lemma EntriesSumUp(ctx: Ctx, dir: Node, rel: Bytes, r: Record, d: Entry -> nat)
    requires dir.Dir? && DistinctNames(dir.entries) && r.rel != rel
    requires forall i :: 0 <= i < |dir.entries| ==> EntryOwes(ctx, dir, rel, dir.entries[i], r, d(dir.entries[i]))
    ensures SumOver(d, dir.entries, |dir.entries|) == Owed(ctx, rel, dir, r)
  {
    if i: nat :| i < |dir.entries| && Below(JoinRel(rel, dir.entries[i].name), r.rel) {
      forall k | 0 <= k < |dir.entries| && k != i ensures d(dir.entries[k]) == 0 {
        EntriesAreApart(dir, rel, i, k, r.rel);
      }
      SumOfOne(d, dir.entries, i, |dir.entries|);
    } else {
      SumOfNone(d, dir.entries, |dir.entries|);
      if RoleOf(ctx, rel, dir, r.rel) != Nothing {
        var i := OwedUnderAnEntry(ctx, dir, rel, r.rel);
      }
    }
  }

  lemma OwnRecordIsNotBelow(ctx: Ctx, dir: Node, rel: Bytes, r: Record, d: Entry -> nat)
    requires dir.Dir? && DistinctNames(dir.entries) && r.rel == rel
    requires forall i :: 0 <= i < |dir.entries| ==> EntryOwes(ctx, dir, rel, dir.entries[i], r, d(dir.entries[i]))
    ensures SumOver(d, dir.entries, |dir.entries|) == 0
  {
    forall i | 0 <= i < |dir.entries| ensures d(dir.entries[i]) == 0 {
      NotUnderItsOwnEntries(dir, rel, i);
    }
    SumOfNone(d, dir.entries, |dir.entries|);
  }

  lemma RepositoryOwesItself(ctx: Ctx, dir: Node, rel: Bytes, r: Record)
    requires dir.Dir? && HasGit(dir.entries)
    ensures Owed(ctx, rel, dir, r) == if r == Record(rel, None) then 1 else 0
  {
    if r.rel != rel && RoleOf(ctx, rel, dir, r.rel) != Nothing {
      RolesLieBelow(ctx, rel, dir, r.rel);
      NothingInside(ctx, rel, dir, rel, r.rel);
    }
  }

  lemma {:induction false} CompleteEntries(ctx: Ctx, dir: Node, rel: Bytes)
    requires dir.Dir? && !TotalEntries(ctx, dir, rel, |dir.entries|).incomplete
    ensures forall i :: 0 <= i < |dir.entries| ==> !TotalEntry(ctx, dir, rel, dir.entries[i]).incomplete
  {
    var b := (e: Entry) => e in dir.entries && TotalEntry(ctx, dir, rel, e).incomplete;
    IncompleteEntries(ctx, dir, rel, b);
    AnyIsSome(b, dir.entries, |dir.entries|);
    forall i | 0 <= i < |dir.entries| ensures !TotalEntry(ctx, dir, rel, dir.entries[i]).incomplete {
      assert !b(dir.entries[i]);
    }
  }

  lemma {:induction false} DirectoryMatchesRules(ctx: Ctx, dir: Node, rel: Bytes, r: Record)
    requires dir.Dir? && DistinctNames(dir.entries) && !HasGit(dir.entries)
    requires forall i :: 0 <= i < |dir.entries| ==>
      EntryOwes(ctx, dir, rel, dir.entries[i], r, TotalEntry(ctx, dir, rel, dir.entries[i]).records[r])
    ensures TotalEntries(ctx, dir, rel, |dir.entries|).records[r] == Owed(ctx, rel, dir, r)
  {
    var d := (e: Entry) => if e in dir.entries then TotalEntry(ctx, dir, rel, e).records[r] else 0;
    RecordsOfEntries(ctx, dir, rel, r, d);
    if r.rel == rel {
      OwnRecordIsNotBelow(ctx, dir, rel, r, d);
    } else {
      EntriesSumUp(ctx, dir, rel, r, d);
    }
  }

  lemma {:induction false} RecordsOfEntries(ctx: Ctx, dir: Node, rel: Bytes, r: Record, d: Entry -> nat)
    requires dir.Dir?
    requires forall e :: e in dir.entries ==> d(e) == TotalEntry(ctx, dir, rel, e).records[r]
    ensures TotalEntries(ctx, dir, rel, |dir.entries|).records[r] ==
            (if r == Record(rel, Some(dir.mtime)) then 1 else 0) + SumOver(d, dir.entries, |dir.entries|)
  {
    CountEntries(ctx, dir, rel, d, OfRecord(r));
    OwnRecord(dir, rel, r);
  }

  lemma OwnRecord(dir: Node, rel: Bytes, r: Record)
    requires dir.Dir?
    ensures Count(Summary(DirOut(rel, dir.mtime)), OfRecord(r)) ==
            if r == Record(rel, Some(dir.mtime)) then 1 else 0
  {
  }

  /** On a tree whose directories can be searched, a walk that lost nothing records exactly what the
      rules say, and each path once. */
  lemma {:induction false} SubtreeMatchesRules(ctx: Ctx, dir: Node, rel: Bytes, r: Record)
    requires dir.Dir? && WellFormed(dir) && Searchable(dir)
    requires !Total(ctx, dir, rel).incomplete
    ensures Total(ctx, dir, rel).records[r] == Owed(ctx, rel, dir, r)
    decreases dir, |dir.entries| + 1
  {
    assert IsRepoDir(dir) == HasGit(dir.entries);
    if HasGit(dir.entries) {
      RepositoryOwesItself(ctx, dir, rel, r);
    } else {
      CompleteEntries(ctx, dir, rel);
      forall i | 0 <= i < |dir.entries|
        ensures EntryOwes(ctx, dir, rel, dir.entries[i], r, TotalEntry(ctx, dir, rel, dir.entries[i]).records[r])
      {
        EntryMatchesRules(ctx, dir, rel, i, r);
      }
      DirectoryMatchesRules(ctx, dir, rel, r);
    }
  }

  // ---- The printed listing ----

  /** Every repository is printed once per repository record, the root as `.`. */
  ghost predicate ListsItsRecords(s: Sum) {
    forall p :: s.repos[p] ==
      if p == [] then 0
      else if p == DOT_PATH then s.records[Record([], None)] + s.records[Record(DOT_PATH, None)]
      else s.records[Record(p, None)]
  }

  lemma {:induction false} WalksListTheirRecords(ctx: Ctx, dir: Node, rel: Bytes)
    requires dir.Dir?
    ensures ListsItsRecords(Total(ctx, dir, rel))
    decreases dir, |dir.entries| + 1
  {
    if dir.intact && !IsRepoDir(dir) {
      forall e | e in dir.entries ensures ListsItsRecords(TotalEntry(ctx, dir, rel, e)) {
        if Enters(ctx, dir, rel, e) {
          WalksListTheirRecords(ctx, e.node, JoinRel(rel, e.name));
        } else {
          StepListsItsRecords(ctx, dir, rel, e);
        }
      }
      EntriesListTheirRecords(ctx, dir, rel);
    }
  }

  lemma EmitListsItsRecord(path: Bytes)
    ensures ListsItsRecords(Summary(EmitOut(path)))
  {
    var s := Summary(EmitOut(path));
    assert s.repos == multiset{Printed(path)} && s.records == multiset{Record(path, None)};
  }

  lemma StepListsItsRecords(ctx: Ctx, dir: Node, rel: Bytes, e: Entry)
    requires dir.Dir?
    ensures ListsItsRecords(Summary(EntryStep(ctx, dir, rel, e, Spare).out))
  {
    EmitListsItsRecord(JoinRel(rel, e.name));
    var out := EntryStep(ctx, dir, rel, e, Spare).out;
    if out != EmitOut(JoinRel(rel, e.name)) {
      SilentListsItsRecords(out);
    }
  }

  lemma SilentListsItsRecords(out: Out)
    requires out.repos == [] && out.records == []
    ensures ListsItsRecords(Summary(out))
  {
  }

  lemma PlusListsItsRecords(a: Sum, b: Sum)
    requires ListsItsRecords(a) && ListsItsRecords(b)
    ensures ListsItsRecords(a.Plus(b))
  {
  }

  lemma {:induction false} EntriesListTheirRecords(ctx: Ctx, dir: Node, rel: Bytes)
    requires dir.Dir?
    requires forall e :: e in dir.entries ==> ListsItsRecords(TotalEntry(ctx, dir, rel, e))
    ensures ListsItsRecords(TotalEntries(ctx, dir, rel, |dir.entries|))
  {
    var R := (s: Sum) => ListsItsRecords(s);
    forall a: Sum, b: Sum | R(a) && R(b) ensures R(a.Plus(b)) {
      PlusListsItsRecords(a, b);
    }
    TotalsHave(R, ctx, dir, rel, |dir.entries|);
  }

  /** No path the rules mention is called `.`. */
  lemma {:induction false} DotHasNoRole(ctx: Ctx, root: Node)
    requires root.Dir? && WellFormed(root)
    ensures RoleOf(ctx, [], root, DOT_PATH) == Nothing
  {
    assert LastIndexOf(DOT_PATH, SLASH) == -1;
    if RoleOf(ctx, [], root, []).Descended? {
      var i := IndexOf(root.entries, DOT_PATH);
      assert i < |root.entries| ==> IsName(root.entries[i].name);
    }
  }

  /** A complete walk of a root lists exactly the repositories the rules define, each once. */
  lemma {:induction false} WalkListsTheRules(ctx: Ctx, root: Node, p: Bytes)
    requires root.Dir? && WellFormed(root) && Searchable(root)
    requires !Total(ctx, root, []).incomplete
    ensures Total(ctx, root, []).repos[p] ==
      if p == [] then 0
      else if RoleOf(ctx, [], root, if p == DOT_PATH then [] else p) == Repository then 1
      else 0
  {
    WalksListTheirRecords(ctx, root, []);
    DotHasNoRole(ctx, root);
    SubtreeMatchesRules(ctx, root, [], Record([], None));
    SubtreeMatchesRules(ctx, root, [], Record(DOT_PATH, None));
    SubtreeMatchesRules(ctx, root, [], Record(p, None));
  }

  /** Nothing is lost on a tree that can be read. */
  lemma {:induction false} ReadableWalksAreComplete(ctx: Ctx, dir: Node, rel: Bytes)
    requires dir.Dir? && Searchable(dir) && Readable(dir)
    ensures !Total(ctx, dir, rel).incomplete
    decreases dir, |dir.entries| + 1
  {
    if !IsRepoDir(dir) {
      forall e | e in dir.entries ensures !TotalEntry(ctx, dir, rel, e).incomplete {
        if Enters(ctx, dir, rel, e) {
          ReadableWalksAreComplete(ctx, e.node, JoinRel(rel, e.name));
        }
      }
      TotalsHave((s: Sum) => !s.incomplete, ctx, dir, rel, |dir.entries|);
    }
  }
}
