/** One root's index file in use: deciding whether it may be believed, answering from it, and writing
    it back. */
module Cache {
  import opened Bytes
  import opened Paths
  import opened FileTree
  import opened Walk
  import opened WalkRules
  import opened IndexFormat
  import opened IndexBuild
  import opened IndexValidate
  import opened RootWalk
  import opened CachedListing
  import opened CheckReport
  import IndexCodec
  import PoolWalk

  // ---- An index built from a listing remembers the tree ----

  lemma {:induction false} ListedRecord(ctx: Ctx, was: Node, records: seq<Record>, rel: Bytes)
    requires was.Dir? && (forall r :: multiset(records)[r] == Owed(ctx, [], was, r))
    ensures RoleOf(ctx, [], was, rel) != Nothing ==> RecordOf(RoleOf(ctx, [], was, rel), rel).value in records
    ensures HasPath(records, rel) <==> RoleOf(ctx, [], was, rel) != Nothing
  {
    var role := RoleOf(ctx, [], was, rel);
    if role != Nothing {
      var r := RecordOf(role, rel).value;
      assert Owed(ctx, [], was, r) == 1;
      assert r in multiset(records);
    }
    if r :| r in records && r.rel == rel {
      assert multiset(records)[r] > 0;
    }
  }

  lemma ListedParents(ctx: Ctx, was: Node, records: seq<Record>)
    requires was.Dir? && (forall r :: multiset(records)[r] == Owed(ctx, [], was, r))
    ensures HasPath(records, []) && ParentsListed(records)
  {
    ListedRecord(ctx, was, records, []);
    forall r | r in records && r.rel != [] ensures HasPath(records, ParentOf(r.rel)) {
      assert HasPath(records, r.rel);
      ListedRecord(ctx, was, records, r.rel);
      ListedRecord(ctx, was, records, ParentOf(r.rel));
    }
  }

  lemma {:induction false} EntryIsRecorded(ctx: Ctx, was: Node, records: seq<Record>, k: nat)
    requires was.Dir? && (forall r :: multiset(records)[r] == Owed(ctx, [], was, r)) && k < |Canonical(records)|
    ensures var r := Canonical(records)[k]; RecordOf(RoleOf(ctx, [], was, r.rel), r.rel) == Some(r)
  {
    CanonicalPaths(records);
    var r := Canonical(records)[k];
    assert r in records;
    assert multiset(records)[r] > 0;
  }

  lemma {:induction false} LinkedEdges(s: seq<Record>, i: int, c: int)
    requires Strict(s) && s != [] && s[0].rel == [] && ParentsListed(s)
    ensures IsChild(Linked(s), i, c) <==> 0 <= i < |s| && 0 < c < |s| && s[i].rel == ParentOf(s[c].rel)
  {
    var es := Linked(s);
    if 0 <= i < |s| {
      ChildrenOfParent(s, s[i].rel);
      if 0 < c < |s| && s[i].rel == ParentOf(s[c].rel) {
        var j :| 0 <= j < |es[i].children| && es[i].children[j] == c;
        assert IsEdge(es, i, j);
      }
      if j :| IsEdge(es, i, j) && es[i].children[j] == c {
        assert c in es[i].children;
      }
    }
  }

  lemma LinkedRecord(s: seq<Record>, k: nat)
    requires k < |s|
    ensures |Linked(s)| == |s| && Linked(s)[k].rel == s[k].rel && Linked(s)[k].mtime == s[k].mtime
  {
  }

  lemma {:induction false} RoleIsRemembered(ctx: Ctx, was: Node, records: seq<Record>, rel: Bytes)
    requires was.Dir? && (forall r :: multiset(records)[r] == Owed(ctx, [], was, r))
    requires RoleOf(ctx, [], was, rel) != Nothing
    ensures exists k :: 0 <= k < |Linked(Canonical(records))| && Linked(Canonical(records))[k].rel == rel
  {
    var s := Canonical(records);
    CanonicalPaths(records);
    ListedRecord(ctx, was, records, rel);
    assert HasPath(s, rel);
    var r :| r in s && r.rel == rel;
    var k :| 0 <= k < |s| && s[k] == r;
    LinkedRecord(s, k);
  }

  lemma ListingIsATree(ctx: Ctx, was: Node, records: seq<Record>)
    requires was.Dir? && (forall r :: multiset(records)[r] == Owed(ctx, [], was, r))
    ensures var s := Canonical(records);
            Strict(s) && s != [] && s[0].rel == [] && ParentsListed(s) && IsTree(Linked(s))
  {
    ListedParents(ctx, was, records);
    CanonicalPaths(records);
    ParentsOfCanonical(records);
    RootIsFirst(Canonical(records));
    LinksFormATree(Canonical(records));
  }

  /** An index built from the listing of a tree remembers exactly that tree's rules. */
  lemma BuiltRemembers(ctx: Ctx, was: Node, records: seq<Record>, ix: Index)
    requires was.Dir? && (forall r :: multiset(records)[r] == Owed(ctx, [], was, r))
    requires ix.entries == Linked(Canonical(records))
    ensures Remembers(ctx, was, ix)
  {
    var s, es := Canonical(records), ix.entries;
    ListingIsATree(ctx, was, records);
    forall k | 0 <= k < |es|
      ensures RecordOf(RoleOf(ctx, [], was, es[k].rel), es[k].rel) == Some(Record(es[k].rel, es[k].mtime))
    {
      EntryIsRecorded(ctx, was, records, k);
      LinkedRecord(s, k);
    }
    forall rel | RoleOf(ctx, [], was, rel) != Nothing ensures exists k :: 0 <= k < |es| && es[k].rel == rel {
      RoleIsRemembered(ctx, was, records, rel);
    }
    forall i, j | 0 <= i < |es| && 0 <= j < |es| && es[i].rel == es[j].rel ensures i == j {
      LinkedRecord(s, i);
      LinkedRecord(s, j);
      PathsAreDistinct(s, i, j);
    }
    forall i, c ensures IsChild(es, i, c) <==> 0 <= i < |es| && 0 < c < |es| && es[i].rel == ParentOf(es[c].rel) {
      LinkedEdges(s, i, c);
    }
    LinkedRecord(s, 0);
  }

  // ---- One run ----

  /** The root as a run finds it: how the user spelled it, its last component, what it is, what is in it. */
  datatype Scene = Scene(path: Bytes, name: Bytes, id: Identity, tree: Node)

  /** Guards against another root, another directory under the same path, and other exclusions. */
  predicate Describes(ix: Index, scene: Scene, exclude: seq<Bytes>) {
    ix.root == scene.path && ix.dev == scene.id.dev && ix.ino == scene.id.ino && ix.exclude == exclude
  }

  /** The index this run may consult. The root has to be open to be asked about. */
  ghost function Usable(file: Option<Bytes>, scene: Scene, exclude: seq<Bytes>): (ix: Option<Index>)
    ensures ix.Some? ==> IndexFormat.WellFormed(ix.value)
  {
    if file.None? || !OpenAt(scene.tree, []).Opened? then None
    else
      ParsingInvertsEncodingAll(file.value);
      var ix := Parse(file.value);
      if ix.Some? && Describes(ix.value, scene, exclude) then ix else None
  }

  lemma ParsingInvertsEncodingAll(b: Bytes)
    ensures Parse(b).Some? ==> IndexFormat.WellFormed(Parse(b).value) && Enc(Parse(b).value) == b
  {
    if Parse(b).Some? {
      ParsingInvertsEncoding(b, Parse(b).value);
    }
  }

  /** What the pass over an index, in some order, answers; a stale root means there is no answer. */
  ghost function Answer(ix: Index, scene: Scene, order: seq<nat>, rewalk: seq<Bytes> -> Out): Option<Out>
    requires InRange(order, |ix.entries|)
  {
    var probes := ProbesOf(scene.tree, scene.name, ix.entries);
    var stale := StaleOf(ix, probes, order);
    if [] in stale then None
    else
      var rest := if stale == [] then EMPTY_OUT else rewalk(stale);
      Some(FromRecords(HitsOf(ix, probes, order) + rest.records, rest.dirsRead, rest.excluded, rest.incomplete))
  }

  ghost predicate Visits(ix: Index, scene: Scene, order: seq<nat>) {
    && IsTree(ix.entries) && InRange(order, |ix.entries|)
    && Consulted(ix, ProbesOf(scene.tree, scene.name, ix.entries), order)
  }

  ghost predicate Answers(file: Option<Bytes>, scene: Scene, exclude: seq<Bytes>, rewalk: seq<Bytes> -> Out,
                          r: Option<Out>)
  {
    match Usable(file, scene, exclude)
    case None => r == None
    case Some(ix) => exists order :: Visits(ix, scene, order) && r == Answer(ix, scene, order, rewalk)
  }

  /** The listing the index gives, or nothing when this run has to walk the whole root. */
  method ListFromIndex(file: Option<Bytes>, scene: Scene, exclude: seq<Bytes>, rewalk: seq<Bytes> -> Out, threads: nat)
    returns (r: Option<Out>)
    ensures Answers(file, scene, exclude, rewalk, r)
  {
    if file.None? {
      return None;
    }
    var decoded, reserved := IndexCodec.DecodeParsed(file.value);
    ParsingInvertsEncodingAll(file.value);
    if decoded.None? || !OpenAt(scene.tree, []).Opened? {
      return None;
    }
    var ix := decoded.value;
    if !Describes(ix, scene, exclude) {
      return None;
    }
    var probes := ProbeAll(ix.entries, e => ProbeOf(scene.tree, scene.name, e), threads);
    assert probes[..] == ProbesOf(scene.tree, scene.name, ix.entries);
    WellFormedIsTree(ix);
    var believed, stale, hits, racy, order := WalkIndex(ix, probes[..]);
    assert Visits(ix, scene, order);
    if [] in stale {
      return None;
    }
    var rest := EMPTY_OUT;
    if stale != [] {
      rest := rewalk(stale);
    }
    r := Some(FromRecords(believed + rest.records, rest.dirsRead, rest.excluded, rest.incomplete));
  }

  lemma {:induction false} OneRecordLinks(r: Record)
    requires r.rel == []
    ensures Canonical([r]) == [r] && Linked([r]) == [IndexEntry([], r.mtime, [])]
  {
    assert SortByPath([r][1..]) == [] && Dedup([r][1..]) == [];
    assert Linked([r])[0].children == [];
  }

  /** The index of a root named `*.git` repeats what a walk says, the root itself, whatever is in it now. */
  lemma {:induction false} NamedRootIsRepeated(ctx: Ctx, scene: Scene, was: Node, listing: Out, ix: Index,
                                               order: seq<nat>, rewalk: seq<Bytes> -> Out)
    requires was.Dir? && IsNamed(scene.name) && IsRightFor(ctx, scene.name, was, listing)
    requires ix.entries == Linked(Canonical(listing.records)) && Visits(ix, scene, order)
    ensures Answer(ix, scene, order, rewalk) == Some(EmitOut([]))
    ensures StaleOf(ix, ProbesOf(scene.tree, scene.name, ix.entries), order) == []
    ensures ix.entries == [IndexEntry([], None, [])]
  {
    assert multiset(listing.records) == multiset{Record([], None)} by {
      forall r ensures multiset(listing.records)[r] == multiset{Record([], None)}[r] {}
    }
    OnlyRecord(listing.records, Record([], None));
    OneRecordLinks(Record([], None));
    RootAlone(ix, scene, order);
    var records := [Record([], None)];
    assert records[..0] == [];
    assert RepoPaths(records) == [DOT_PATH];
    assert records + [] == records;
  }

  lemma OnlyRecord(records: seq<Record>, r: Record)
    requires multiset(records) == multiset{r}
    ensures records == [r]
  {
    assert |records| == |multiset(records)| == 1;
    assert records[0] in multiset(records);
  }

  lemma {:induction false} RootAlone(ix: Index, scene: Scene, order: seq<nat>)
    requires IsNamed(scene.name) && ix.entries == [IndexEntry([], None, [])] && Visits(ix, scene, order)
    ensures var probes := ProbesOf(scene.tree, scene.name, ix.entries);
            HitsOf(ix, probes, order) == [Record([], None)] && StaleOf(ix, probes, order) == []
  {
    var probes := ProbesOf(scene.tree, scene.name, ix.entries);
    assert probes[0] == StillRepo;
    assert 0 in order;
    OnlyZero(order);
    assert order[..0] == [];
  }

  lemma OnlyZero(order: seq<nat>)
    requires Distinct(order) && 0 in order && forall c :: c in order ==> c == 0
    ensures order == [0]
  {
    assert order[0] in order;
    if |order| > 1 {
      SomeNonZero(order);
    }
  }

  lemma SomeNonZero(order: seq<nat>)
    requires Distinct(order) && |order| > 1
    ensures exists c :: c in order && c != 0
  {
    var c := if order[0] == 0 then order[1] else order[0];
    assert c in order;
  }

  /** The file after a run: rewritten from a complete listing that makes a tree, if writing works. */
  ghost function Stored(file: Option<Bytes>, path: Bytes, stat: Option<Identity>, exclude: seq<Bytes>, now: int,
                        listing: Out, writes: bool): Option<Bytes>
  {
    if listing.incomplete || !writes then file
    else match Built(path, stat, exclude, now, listing.records)
      case None => file
      case Some(ix) => Some(Enc(ix))
  }

  method StoreIfComplete(file: Option<Bytes>, path: Bytes, stat: Option<Identity>, exclude: seq<Bytes>, now: int,
                         listing: Out, writes: bool) returns (r: Option<Bytes>)
    ensures r == Stored(file, path, stat, exclude, now, listing, writes)
  {
    if listing.incomplete {
      return file;
    }
    var ix := Build(path, stat, exclude, now, listing.records);
    if ix.None? || !writes {
      return file;
    }
    var bytes := IndexCodec.Encode(ix.value);
    r := Some(bytes);
  }

  /** One root through the index: its answer, or a full walk; then the file is rewritten from the listing.
      `stat` is what building finds the root to be, which may be later. */
  method ListRoot(file: Option<Bytes>, scene: Scene, exclude: seq<Bytes>, rewalk: seq<Bytes> -> Out, walk: Out,
                  threads: nat, stat: Option<Identity>, now: int, writes: bool)
    returns (listing: Out, file': Option<Bytes>)
    ensures exists cached :: Answers(file, scene, exclude, rewalk, cached) &&
              listing == (if cached.Some? then cached.value else walk)
    ensures file' == Stored(file, scene.path, stat, exclude, now, listing, writes)
  {
    var cached := ListFromIndex(file, scene, exclude, rewalk, threads);
    listing := if cached.Some? then cached.value else walk;
    file' := StoreIfComplete(file, scene.path, stat, exclude, now, listing, writes);
  }

  /** One root checked: the walk is what is listed and stored, and it differs from the index's answer when
      the two do not hold the same repositories. `gone` and `found` are what is said about it. */
  method CheckRoot(file: Option<Bytes>, scene: Scene, exclude: seq<Bytes>, rewalk: seq<Bytes> -> Out, walk: Out,
                   threads: nat, stat: Option<Identity>, now: int, writes: bool)
    returns (listing: Out, differs: bool, gone: seq<Bytes>, found: seq<Bytes>, file': Option<Bytes>)
    ensures listing == walk && file' == Stored(file, scene.path, stat, exclude, now, walk, writes)
    ensures exists cached ::
              Answers(file, scene, exclude, rewalk, cached) && Reports(cached, walk, differs, gone, found)
  {
    var cached := ListFromIndex(file, scene, exclude, rewalk, threads);
    listing := walk;
    file' := StoreIfComplete(file, scene.path, stat, exclude, now, walk, writes);
    differs, gone, found := false, [], [];
    if cached.Some? {
      differs, gone, found := ReportDiff(cached.value.repos, walk.repos);
    }
    assert Reports(cached, walk, differs, gone, found);
  }

  /** What a check says, given the index's answer if there was one. */
  ghost predicate Reports(cached: Option<Out>, walk: Out, differs: bool, gone: seq<Bytes>, found: seq<Bytes>) {
    match cached
    case None => !differs && gone == [] && found == []
    case Some(answer) =>
      && (differs <==> multiset(answer.repos) != multiset(walk.repos))
      && OnlyIn(answer.repos, walk.repos, gone) && OnlyIn(walk.repos, answer.repos, found)
  }
}
