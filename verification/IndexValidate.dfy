/** The top-down validation pass: which remembered entries may be believed, which go back to the
    walker, and which are never consulted. */
module IndexValidate {
  import opened Bytes
  import opened Paths
  import opened Walk
  import opened IndexFormat

  const RACY_WINDOW: int := 2_000_000_000

  /** What one entry's `stat` found. */
  datatype Probe = StillDir(mtime: int) | StillRepo | Stale

  function SaturatingSub(a: int, b: int): int {
    if a - b < I64_MIN then I64_MIN else if a - b > I64_MAX then I64_MAX else a - b
  }

  predicate IsRacy(observed: int, written: int) {
    observed > SaturatingSub(written, RACY_WINDOW)
  }

  // ---- What the pass concludes about one entry ----

  /** Its probe is still a directory with the mtime that was remembered. */
  predicate Matches(ix: Index, probes: seq<Probe>, k: int) {
    0 <= k < |ix.entries| == |probes| && probes[k].StillDir? && ix.entries[k].mtime == Some(probes[k].mtime)
  }

  predicate Racy(ix: Index, probes: seq<Probe>, k: int) {
    Matches(ix, probes, k) && IsRacy(probes[k].mtime, ix.written)
  }

  /** A directory whose entry list is believed, so that its children are looked at. */
  predicate Descends(ix: Index, probes: seq<Probe>, k: int) {
    Matches(ix, probes, k) && !IsRacy(probes[k].mtime, ix.written)
  }

  predicate Hit(ix: Index, probes: seq<Probe>, k: int) {
    (0 <= k < |probes| && probes[k].StillRepo?) || Descends(ix, probes, k)
  }

  function RecordAt(ix: Index, probes: seq<Probe>, k: nat): Record
    requires k < |ix.entries| == |probes|
  {
    Record(ix.entries[k].rel, if probes[k].StillDir? then Some(probes[k].mtime) else None)
  }

  // ---- Which entries are consulted ----

  ghost predicate IsChild(es: seq<IndexEntry>, i: int, c: int) {
    exists j :: IsEdge(es, i, j) && es[i].children[j] == c
  }

  ghost predicate IsTree(es: seq<IndexEntry>) {
    es != [] && ForwardEdges(es) && ClaimedOnce(es) && AllClaimed(es)
  }

  /** The one entry that lists `c` as a child. */
  ghost function ParentIndex(es: seq<IndexEntry>, c: nat): (i: nat)
    requires IsTree(es) && 0 < c < |es|
    ensures i < c && IsChild(es, i, c)
  {
    assert IsClaimed(es, c);
    var i, j :| IsEdge(es, i, j) && es[i].children[j] == c;
    i
  }

  lemma OnlyParent(es: seq<IndexEntry>, i: nat, c: nat)
    requires IsTree(es) && IsChild(es, i, c)
    ensures i < c < |es| && ParentIndex(es, c) == i
  {
    var j :| IsEdge(es, i, j) && es[i].children[j] == c;
    var p := ParentIndex(es, c);
    var j' :| IsEdge(es, p, j') && es[p].children[j'] == c;
  }

  /** Every directory above `c` is believed. */
  ghost predicate Reached(ix: Index, probes: seq<Probe>, c: nat)
    requires IsTree(ix.entries)
    decreases c
  {
    c == 0 ||
    (c < |ix.entries| && Descends(ix, probes, ParentIndex(ix.entries, c)) &&
     Reached(ix, probes, ParentIndex(ix.entries, c)))
  }

  ghost predicate Ancestor(es: seq<IndexEntry>, a: nat, c: nat)
    requires IsTree(es) && c < |es|
    decreases c
  {
    a == c || (0 < c && Ancestor(es, a, ParentIndex(es, c)))
  }

  lemma {:induction false} EverythingHangsOffTheRoot(es: seq<IndexEntry>, c: nat)
    requires IsTree(es) && c < |es|
    ensures Ancestor(es, 0, c)
    decreases c
  {
    if c != 0 {
      EverythingHangsOffTheRoot(es, ParentIndex(es, c));
    }
  }

  /** Whatever bytes decode, decode to a tree of safe relative paths rooted at the empty one. */
  lemma {:induction false} DecodedIsARootedTree(b: Bytes, c: nat)
    requires Parse(b).Some? && c < |Parse(b).value.entries|
    ensures var es := Parse(b).value.entries;
            IsTree(es) && es[0].rel == [] && IsWalkPath(es[c].rel) && Ancestor(es, 0, c)
  {
    var ix := Parse(b).value;
    ParsingInvertsEncoding(b, ix);
    assert EntryFits(ix.entries[c]);
    SafeMeansWalkable(ix.entries[c].rel);
    EverythingHangsOffTheRoot(ix.entries, c);
  }

  // ---- The pass itself ----

  predicate InRange(order: seq<nat>, n: nat) {
    forall j :: 0 <= j < |order| ==> order[j] < n
  }

  function HitsOf(ix: Index, probes: seq<Probe>, order: seq<nat>): seq<Record>
    requires |ix.entries| == |probes| && InRange(order, |probes|)
  {
    if order == [] then []
    else
      var k := order[|order| - 1];
      HitsOf(ix, probes, order[..|order| - 1]) + if Hit(ix, probes, k) then [RecordAt(ix, probes, k)] else []
  }

  function StaleOf(ix: Index, probes: seq<Probe>, order: seq<nat>): seq<Bytes>
    requires |ix.entries| == |probes| && InRange(order, |probes|)
  {
    if order == [] then []
    else
      var k := order[|order| - 1];
      StaleOf(ix, probes, order[..|order| - 1]) + if Hit(ix, probes, k) then [] else [ix.entries[k].rel]
  }

  function RacyOf(ix: Index, probes: seq<Probe>, order: seq<nat>): (n: nat)
    requires |ix.entries| == |probes| && InRange(order, |probes|)
    ensures n <= |StaleOf(ix, probes, order)|
  {
    if order == [] then 0
    else RacyOf(ix, probes, order[..|order| - 1]) + if Racy(ix, probes, order[|order| - 1]) then 1 else 0
  }

  ghost function UpTo(n: nat): (all: set<nat>)
    ensures forall c: nat :: c in all <==> c < n
  {
    if n == 0 then {} else UpTo(n - 1) + {n - 1}
  }

  /** The entries popped so far and the ones waiting: all reached, none twice, nothing forgotten. */
  ghost predicate Frontier(ix: Index, probes: seq<Probe>, order: seq<nat>, stack: seq<nat>)
    requires IsTree(ix.entries)
  {
    && Distinct(order + stack) && 0 in order + stack
    && (forall c :: c in order + stack ==> c < |ix.entries| && Reached(ix, probes, c))
    && (forall c :: c in order + stack && c != 0 ==> ParentIndex(ix.entries, c) in order)
    && (forall i, c :: i in order && Descends(ix, probes, i) && IsChild(ix.entries, i, c) ==> c in order + stack)
  }

  lemma FrontierStarts(ix: Index, probes: seq<Probe>)
    requires IsTree(ix.entries)
    ensures Frontier(ix, probes, [], [0])
  {
    assert [] + [0] == [0];
  }

  /** Popping an entry that is not descended into. */
  lemma FrontierSkips(ix: Index, probes: seq<Probe>, order: seq<nat>, stack: seq<nat>, i: nat)
    requires IsTree(ix.entries) && Frontier(ix, probes, order, stack + [i]) && !Descends(ix, probes, i)
    ensures Frontier(ix, probes, order + [i], stack)
    ensures i < |ix.entries| && i !in order
  {
    MovedOne(order, stack, i);
  }

  lemma MovedOne(order: seq<nat>, stack: seq<nat>, i: nat)
    requires Distinct(order + (stack + [i]))
    ensures Distinct(order + [i] + stack) && i !in order
    ensures forall c :: c in order + [i] + stack <==> c in order + (stack + [i])
    ensures i in order + (stack + [i])
  {
    var a, b := order + (stack + [i]), order + [i] + stack;
    assert a[|order| + |stack|] == i;
    assert forall k :: 0 <= k < |order| ==> a[k] == order[k];
    assert forall k :: 0 <= k < |stack| ==> a[|order| + k] == stack[k];
    MovedStaysDistinct(order, stack, i, a, b);
  }

  lemma MovedStaysDistinct(order: seq<nat>, stack: seq<nat>, i: nat, a: seq<nat>, b: seq<nat>)
    requires a == order + (stack + [i]) && b == order + [i] + stack && Distinct(a)
    ensures Distinct(b)
  {
    forall j, k | 0 <= j < k < |b| ensures b[j] != b[k] {
      var j', k' := MovedFrom(|order|, |stack|, j), MovedFrom(|order|, |stack|, k);
      assert a[j'] == b[j] && a[k'] == b[k];
    }
  }

  /** Where a place comes from when the last one is moved to just after the first `n`. */
  function MovedFrom(n: nat, m: nat, k: nat): nat {
    if k < n then k else if k == n then n + m else k - 1
  }

  lemma DistinctJoin(a: seq<nat>, b: seq<nat>)
    requires Distinct(a) && Distinct(b) && forall c :: c in b ==> c !in a
    ensures Distinct(a + b)
  {
    forall j, k | 0 <= j < k < |a + b| ensures (a + b)[j] != (a + b)[k] {
      if j < |a| <= k {
        assert b[k - |a|] in b && a[j] in a;
      }
    }
  }

  lemma ChildrenAreNew(ix: Index, probes: seq<Probe>, order: seq<nat>, stack: seq<nat>, i: nat)
    requires IsTree(ix.entries) && Frontier(ix, probes, order, stack + [i]) && i < |ix.entries| && i !in order
    ensures Distinct(ix.entries[i].children)
    ensures forall c :: c in ix.entries[i].children <==> IsChild(ix.entries, i, c)
    ensures forall c :: c in ix.entries[i].children ==>
      0 < c < |ix.entries| && ParentIndex(ix.entries, c) == i && c !in order + (stack + [i])
  {
    var cs := ix.entries[i].children;
    forall c | c in cs
      ensures IsChild(ix.entries, i, c) && 0 < c < |ix.entries| && ParentIndex(ix.entries, c) == i
      ensures c !in order + (stack + [i])
    {
      var j :| 0 <= j < |cs| && cs[j] == c;
      assert IsEdge(ix.entries, i, j);
      OnlyParent(ix.entries, i, c);
    }
    forall j, k | 0 <= j < k < |cs| ensures cs[j] != cs[k] {
      assert IsEdge(ix.entries, i, j) && IsEdge(ix.entries, i, k);
    }
  }

  /** Popping a directory and pushing its children. */
  lemma FrontierDescends(ix: Index, probes: seq<Probe>, order: seq<nat>, stack: seq<nat>, i: nat)
    requires IsTree(ix.entries) && Frontier(ix, probes, order, stack + [i]) && Descends(ix, probes, i)
    ensures Frontier(ix, probes, order + [i], stack + ix.entries[i].children)
    ensures i < |ix.entries| && i !in order
  {
    var cs := ix.entries[i].children;
    MovedOne(order, stack, i);
    ChildrenAreNew(ix, probes, order, stack, i);
    var before := order + [i] + stack;
    DistinctJoin(before, cs);
    assert order + [i] + (stack + cs) == before + cs;
  }

  /** With nothing left waiting, exactly the reached entries have been visited. */
  lemma {:induction false} FrontierIsDone(ix: Index, probes: seq<Probe>, order: seq<nat>, c: nat)
    requires IsTree(ix.entries) && Frontier(ix, probes, order, []) && c < |ix.entries|
    ensures c in order <==> Reached(ix, probes, c)
    decreases c
  {
    assert order + [] == order;
    if c != 0 && Reached(ix, probes, c) {
      FrontierIsDone(ix, probes, order, ParentIndex(ix.entries, c));
    }
  }

  /** What the pass has to return for the entries it consulted. */
  ghost predicate Consulted(ix: Index, probes: seq<Probe>, order: seq<nat>)
    requires IsTree(ix.entries)
  {
    Distinct(order) && forall c: nat :: c in order <==> c < |ix.entries| && Reached(ix, probes, c)
  }

  lemma NextIsInRange(ix: Index, probes: seq<Probe>, order: seq<nat>, rest: seq<nat>, i: nat)
    requires IsTree(ix.entries) && Frontier(ix, probes, order, rest + [i])
    ensures i < |ix.entries|
    ensures UpTo(|ix.entries|) - Elements(order + [i]) < UpTo(|ix.entries|) - Elements(order)
  {
    MovedOne(order, rest, i);
    var all := UpTo(|ix.entries|);
    assert i in all - Elements(order) && i in Elements(order + [i]);
    assert forall c :: c in order ==> c in order + [i];
  }

  lemma WellFormedIsTree(ix: Index)
    requires WellFormed(ix)
    ensures IsTree(ix.entries)
  {
  }

  /** Walks the remembered tree from the root, descending only into directories it believes. */
  method WalkIndex(ix: Index, probes: seq<Probe>)
    returns (believed: seq<Record>, stale: seq<Bytes>, hits: nat, racy: nat, ghost order: seq<nat>)
    requires IsTree(ix.entries) && |probes| == |ix.entries|
    ensures Consulted(ix, probes, order) && InRange(order, |probes|)
    ensures believed == HitsOf(ix, probes, order) && hits == |believed|
    ensures stale == StaleOf(ix, probes, order) && racy == RacyOf(ix, probes, order) <= |stale|
  {
    believed, stale, hits, racy, order := [], [], 0, 0, [];
    var stack: seq<nat> := [0];
    FrontierStarts(ix, probes);
    while stack != []
      invariant Frontier(ix, probes, order, stack) && InRange(order, |probes|)
      invariant believed == HitsOf(ix, probes, order) && hits == |believed|
      invariant stale == StaleOf(ix, probes, order) && racy == RacyOf(ix, probes, order)
      decreases UpTo(|probes|) - Elements(order)
    {
      var i := stack[|stack| - 1];
      var rest := stack[..|stack| - 1];
      assert stack == rest + [i];
      ghost var next := order + [i];
      assert next[..|next| - 1] == order;
      NextIsInRange(ix, probes, order, rest, i);
      if probes[i].StillRepo? {
        FrontierSkips(ix, probes, order, rest, i);
        hits, believed := hits + 1, believed + [RecordAt(ix, probes, i)];
      } else if Matches(ix, probes, i) && !IsRacy(probes[i].mtime, ix.written) {
        FrontierDescends(ix, probes, order, rest, i);
        hits, believed := hits + 1, believed + [RecordAt(ix, probes, i)];
        rest := rest + ix.entries[i].children;
      } else {
        FrontierSkips(ix, probes, order, rest, i);
        if Racy(ix, probes, i) {
          racy := racy + 1;
        }
        stale := stale + [ix.entries[i].rel];
      }
      stack, order := rest, next;
    }
    forall c: nat | c < |ix.entries| ensures c in order <==> Reached(ix, probes, c) {
      FrontierIsDone(ix, probes, order, c);
    }
    assert order + [] == order;
  }

  // ---- Every entry has one fate ----

  /** Only entries remembered as repositories are probed for being one. */
  ghost predicate Honest(ix: Index, probes: seq<Probe>) {
    |probes| == |ix.entries| &&
    forall k :: 0 <= k < |probes| && probes[k].StillRepo? ==> ix.entries[k].mtime == None
  }

  ghost predicate BelowAStaleEntry(ix: Index, probes: seq<Probe>, c: nat)
    requires IsTree(ix.entries) && c < |ix.entries|
  {
    exists a: nat :: a != c && Ancestor(ix.entries, a, c) && Reached(ix, probes, a) && !Hit(ix, probes, a)
  }

  lemma {:induction false} AncestorsComeFirst(es: seq<IndexEntry>, a: nat, c: nat)
    requires IsTree(es) && c < |es| && Ancestor(es, a, c)
    ensures a <= c
    decreases c
  {
    if a != c {
      AncestorsComeFirst(es, a, ParentIndex(es, c));
    }
  }

  lemma {:induction false} ReachedThroughHits(ix: Index, probes: seq<Probe>, a: nat, c: nat)
    requires IsTree(ix.entries) && c < |ix.entries| && Reached(ix, probes, c) && Ancestor(ix.entries, a, c)
    ensures a == c || Hit(ix, probes, a)
    decreases c
  {
    if a != c {
      ReachedThroughHits(ix, probes, a, ParentIndex(ix.entries, c));
    }
  }

  /** Every entry is consulted, and so a hit or stale, or lies strictly below a stale entry; never both. */
  lemma {:induction false} ExactlyOneFate(ix: Index, probes: seq<Probe>, c: nat)
    requires WellFormed(ix) && Honest(ix, probes) && c < |ix.entries|
    ensures Reached(ix, probes, c) <==> !BelowAStaleEntry(ix, probes, c)
    decreases c
  {
    if Reached(ix, probes, c) {
      forall a: nat | a != c && Ancestor(ix.entries, a, c) ensures Hit(ix, probes, a) {
        ReachedThroughHits(ix, probes, a, c);
      }
    } else {
      var p := ParentIndex(ix.entries, c);
      assert Ancestor(ix.entries, p, c);
      if Reached(ix, probes, p) {
        assert EntryFits(ix.entries[p]);
        assert !Hit(ix, probes, p);
      } else {
        ExactlyOneFate(ix, probes, p);
        var a: nat :| a != p && Ancestor(ix.entries, a, p) && Reached(ix, probes, a) && !Hit(ix, probes, a);
        AncestorsComeFirst(ix.entries, a, p);
        assert Ancestor(ix.entries, a, c);
      }
    }
  }

  // ---- Counting what the pass returns ----

  lemma {:induction false} NotAmongHits(ix: Index, probes: seq<Probe>, order: seq<nat>, r: Record)
    requires |ix.entries| == |probes| && InRange(order, |probes|)
    requires forall j :: 0 <= j < |order| && Hit(ix, probes, order[j]) ==> RecordAt(ix, probes, order[j]) != r
    ensures multiset(HitsOf(ix, probes, order))[r] == 0
    decreases |order|
  {
    if order != [] {
      NotAmongHits(ix, probes, order[..|order| - 1], r);
    }
  }

  lemma {:induction false} OnceAmongHits(ix: Index, probes: seq<Probe>, order: seq<nat>, at: nat, r: Record)
    requires |ix.entries| == |probes| && InRange(order, |probes|) && at < |order|
    requires Hit(ix, probes, order[at]) && RecordAt(ix, probes, order[at]) == r
    requires forall j :: 0 <= j < |order| && j != at && Hit(ix, probes, order[j]) ==>
      RecordAt(ix, probes, order[j]) != r
    ensures multiset(HitsOf(ix, probes, order))[r] == 1
    decreases |order|
  {
    var rest := order[..|order| - 1];
    if at == |order| - 1 {
      NotAmongHits(ix, probes, rest, r);
    } else {
      OnceAmongHits(ix, probes, rest, at, r);
    }
  }

  /** An entry whose time is the one remembered, and within two seconds of the write or after it. */
  predicate IsTooRecent(ix: Index, probes: seq<Probe>, k: int) {
    && 0 <= k < |ix.entries| == |probes| && probes[k].StillDir? && ix.entries[k].mtime == Some(probes[k].mtime)
    && probes[k].mtime > ix.written - 2_000_000_000
  }

  ghost function Those(order: seq<nat>, P: nat -> bool): set<nat> {
    set c | c in order && P(c)
  }

  /** The pass's counters count entries: every one consulted is a hit or a miss, and the racy ones are those whose
      time matches but is too recent to be believed. */
  lemma {:induction false} CountersCountEntries(ix: Index, probes: seq<Probe>, order: seq<nat>)
    requires |ix.entries| == |probes| && InRange(order, |probes|) && Distinct(order) && 0 <= ix.written <= I64_MAX
    ensures |HitsOf(ix, probes, order)| + |StaleOf(ix, probes, order)| == |order|
    ensures |HitsOf(ix, probes, order)| == |Those(order, k => Hit(ix, probes, k))|
    ensures RacyOf(ix, probes, order) == |Those(order, k => IsTooRecent(ix, probes, k))|
  {
    HitsAreCounted(ix, probes, order, k => Hit(ix, probes, k));
    RacyAreCounted(ix, probes, order, k => IsTooRecent(ix, probes, k));
  }

  lemma {:induction false} HitsAreCounted(ix: Index, probes: seq<Probe>, order: seq<nat>, P: nat -> bool)
    requires |ix.entries| == |probes| && InRange(order, |probes|) && Distinct(order)
    requires forall k: nat :: P(k) == Hit(ix, probes, k)
    ensures |HitsOf(ix, probes, order)| + |StaleOf(ix, probes, order)| == |order|
    ensures |HitsOf(ix, probes, order)| == |Those(order, P)|
    decreases |order|
  {
    if order == [] {
      assert Those(order, P) == {};
    } else {
      HitsAreCounted(ix, probes, order[..|order| - 1], P);
      OneMoreCounted(order[..|order| - 1], order[|order| - 1], order, P);
    }
  }

  lemma {:induction false} RacyAreCounted(ix: Index, probes: seq<Probe>, order: seq<nat>, P: nat -> bool)
    requires |ix.entries| == |probes| && InRange(order, |probes|) && Distinct(order) && 0 <= ix.written <= I64_MAX
    requires forall k: nat :: P(k) == IsTooRecent(ix, probes, k)
    ensures RacyOf(ix, probes, order) == |Those(order, P)|
    decreases |order|
  {
    if order == [] {
      assert Those(order, P) == {};
    } else {
      RacyAreCounted(ix, probes, order[..|order| - 1], P);
      OneMoreCounted(order[..|order| - 1], order[|order| - 1], order, P);
    }
  }

  lemma OneMoreCounted(front: seq<nat>, k: nat, order: seq<nat>, P: nat -> bool)
    requires order == front + [k] && Distinct(order)
    ensures |Those(order, P)| == |Those(front, P)| + if P(k) then 1 else 0
  {
    forall c | c in front ensures c != k {
      var i :| 0 <= i < |front| && front[i] == c;
      assert order[i] == c && order[|front|] == k;
    }
    assert forall c :: c in order <==> c in front || c == k;
    assert Those(order, P) == Those(front, P) + if P(k) then {k} else {};
  }

  // ---- Probing every entry ----

  /** Fills one slot per entry, a chunk of slots per worker; the workers' order does not matter, as no
      two share a slot. */
  method ProbeAll(es: seq<IndexEntry>, look: IndexEntry -> Probe, threads: nat) returns (probes: array<Probe>)
    ensures fresh(probes) && probes[..] == seq(|es|, k requires 0 <= k < |es| => look(es[k]))
  {
    probes := new Probe[|es|](_ => Stale);
    var workers := if threads > 1 then threads else 1;
    var chunk := (|es| + workers - 1) / workers;
    if chunk < 1 {
      chunk := 1;
    }
    var at := 0;
    while at < |es|
      invariant at <= |es|
      invariant forall k :: 0 <= k < at ==> probes[k] == look(es[k])
    {
      var end := if at + chunk < |es| then at + chunk else |es|;
      for k := at to end
        invariant forall j :: 0 <= j < k ==> probes[j] == look(es[j])
      {
        probes[k] := look(es[k]);
      }
      at := end;
    }
  }

  /** The slots after they have been written in this order, as the workers' steps happen to interleave. */
  function ProbedIn(es: seq<IndexEntry>, look: IndexEntry -> Probe, order: seq<nat>): (probes: seq<Probe>)
    requires InRange(order, |es|)
    ensures |probes| == |es|
  {
    if order == [] then seq(|es|, _ => Stale)
    else
      var k := order[|order| - 1];
      ProbedIn(es, look, order[..|order| - 1])[k := look(es[k])]
  }

  lemma {:induction false} WrittenSlots(es: seq<IndexEntry>, look: IndexEntry -> Probe, order: seq<nat>, k: nat)
    requires InRange(order, |es|) && k < |es|
    ensures ProbedIn(es, look, order)[k] == if k in order then look(es[k]) else Stale
    decreases |order|
  {
    if order != [] {
      var front := order[..|order| - 1];
      assert order == front + [order[|order| - 1]];
      WrittenSlots(es, look, front, k);
    }
  }

  /** Whatever the order, once every slot has been written the probes are the same. */
  lemma {:induction false} AnyOrderProbesAlike(es: seq<IndexEntry>, look: IndexEntry -> Probe, order: seq<nat>)
    requires InRange(order, |es|) && forall k: nat :: k < |es| ==> k in order
    ensures ProbedIn(es, look, order) == seq(|es|, k requires 0 <= k < |es| => look(es[k]))
  {
    forall k: nat | k < |es| ensures ProbedIn(es, look, order)[k] == look(es[k]) {
      WrittenSlots(es, look, order, k);
    }
  }
}
