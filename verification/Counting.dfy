/** Counting what outputs hold, one thing at a time, and adding the counts up over a directory's
    entries. Whole sums are compared by comparing every count. */
module Counting {
  import opened Bytes
  import opened FileTree
  import opened Walk

  /** One thing to count in an output. `OfJobs` is counted elsewhere: jobs run against directories. */
  datatype Tally = OfRepo(path: Bytes) | OfRecord(record: Record) | OfReads | OfPrunes | OfJobs

  function Count(s: Sum, q: Tally): nat {
    match q
    case OfRepo(path) => s.repos[path]
    case OfRecord(record) => s.records[record]
    case OfReads => s.dirsRead
    case OfPrunes => s.excluded
    case OfJobs => 0
  }

  lemma CountPlus(a: Sum, b: Sum, q: Tally)
    ensures Count(a.Plus(b), q) == Count(a, q) + Count(b, q)
  {
  }

  lemma CountsDecide(a: Sum, b: Sum)
    requires forall q :: Count(a, q) == Count(b, q)
    requires a.incomplete == b.incomplete
    ensures a == b
  {
    forall path ensures a.repos[path] == b.repos[path] {
      assert Count(a, OfRepo(path)) == Count(b, OfRepo(path));
    }
    forall record ensures a.records[record] == b.records[record] {
      assert Count(a, OfRecord(record)) == Count(b, OfRecord(record));
    }
    assert Count(a, OfReads) == Count(b, OfReads) && Count(a, OfPrunes) == Count(b, OfPrunes);
  }

  /** Nothing listed or counted more often. */
  predicate AtMost(a: Sum, b: Sum) {
    a.repos <= b.repos && a.records <= b.records && a.dirsRead <= b.dirsRead && a.excluded <= b.excluded
  }

  lemma CountsBound(a: Sum, b: Sum)
    requires forall q :: Count(a, q) <= Count(b, q)
    ensures AtMost(a, b)
  {
    forall path ensures a.repos[path] <= b.repos[path] {
      assert Count(a, OfRepo(path)) <= Count(b, OfRepo(path));
    }
    forall record ensures a.records[record] <= b.records[record] {
      assert Count(a, OfRecord(record)) <= Count(b, OfRecord(record));
    }
    assert Count(a, OfReads) <= Count(b, OfReads) && Count(a, OfPrunes) <= Count(b, OfPrunes);
  }

  // ---- Over a directory's entries ----

  function SumOver(d: Entry -> nat, entries: seq<Entry>, n: nat): nat
    requires n <= |entries|
  {
    if n == 0 then 0 else SumOver(d, entries, n - 1) + d(entries[n - 1])
  }

  predicate AnyOver(b: Entry -> bool, entries: seq<Entry>, n: nat)
    requires n <= |entries|
  {
    n != 0 && (AnyOver(b, entries, n - 1) || b(entries[n - 1]))
  }

  /** One entry more adds what `d` says. */
  ghost predicate AddsOne(g: Sum -> nat, d: Entry -> nat, ctx: Ctx, dir: Node, rel: Bytes, k: nat)
    requires dir.Dir? && k < |dir.entries|
  {
    g(TotalEntries(ctx, dir, rel, k + 1)) == g(TotalEntries(ctx, dir, rel, k)) + d(dir.entries[k])
  }

  lemma {:induction false} TotalsAddUp(g: Sum -> nat, d: Entry -> nat, ctx: Ctx, dir: Node, rel: Bytes, n: nat)
    requires dir.Dir? && n <= |dir.entries|
    requires forall k: nat :: k < n ==> AddsOne(g, d, ctx, dir, rel, k)
    ensures g(TotalEntries(ctx, dir, rel, n)) == g(Summary(DirOut(rel, dir.mtime))) + SumOver(d, dir.entries, n)
    decreases n
  {
    if n != 0 {
      TotalsAddUp(g, d, ctx, dir, rel, n - 1);
      assert AddsOne(g, d, ctx, dir, rel, n - 1);
    }
  }

  /** Whatever adds up over two sums adds up over a directory's total. */
  lemma {:induction false} TotalsAdd(g: Sum -> nat, d: Entry -> nat, ctx: Ctx, dir: Node, rel: Bytes, n: nat)
    requires dir.Dir? && n <= |dir.entries|
    requires forall a: Sum, b: Sum {:trigger g(a.Plus(b))} :: g(a.Plus(b)) == g(a) + g(b)
    requires forall e :: e in dir.entries ==> d(e) == g(TotalEntry(ctx, dir, rel, e))
    ensures g(TotalEntries(ctx, dir, rel, n)) == g(Summary(DirOut(rel, dir.mtime))) + SumOver(d, dir.entries, n)
  {
    forall k: nat | k < n ensures AddsOne(g, d, ctx, dir, rel, k) {
      OneMoreTotal(g, d, ctx, dir, rel, k);
    }
    TotalsAddUp(g, d, ctx, dir, rel, n);
  }

  lemma {:induction false} OneMoreTotal(g: Sum -> nat, d: Entry -> nat, ctx: Ctx, dir: Node, rel: Bytes, k: nat)
    requires dir.Dir? && k < |dir.entries|
    requires forall a: Sum, b: Sum {:trigger g(a.Plus(b))} :: g(a.Plus(b)) == g(a) + g(b)
    requires forall e :: e in dir.entries ==> d(e) == g(TotalEntry(ctx, dir, rel, e))
    ensures AddsOne(g, d, ctx, dir, rel, k)
  {
  }

  lemma {:induction false} TotalsAny(g: Sum -> bool, b: Entry -> bool, ctx: Ctx, dir: Node, rel: Bytes, n: nat)
    requires dir.Dir? && n <= |dir.entries|
    requires forall a: Sum, a': Sum {:trigger g(a.Plus(a'))} :: g(a.Plus(a')) == (g(a) || g(a'))
    requires forall e :: e in dir.entries ==> b(e) == g(TotalEntry(ctx, dir, rel, e))
    ensures g(TotalEntries(ctx, dir, rel, n)) == (g(Summary(DirOut(rel, dir.mtime))) || AnyOver(b, dir.entries, n))
    decreases n
  {
    if n != 0 {
      TotalsAny(g, b, ctx, dir, rel, n - 1);
    }
  }

  /** Whatever two sums pass on to their sum, a directory's total has. */
  lemma {:induction false} TotalsHave(R: Sum -> bool, ctx: Ctx, dir: Node, rel: Bytes, n: nat)
    requires dir.Dir? && n <= |dir.entries|
    requires R(Summary(DirOut(rel, dir.mtime)))
    requires forall a: Sum, b: Sum {:trigger R(a.Plus(b))} :: R(a) && R(b) ==> R(a.Plus(b))
    requires forall e :: e in dir.entries ==> R(TotalEntry(ctx, dir, rel, e))
    ensures R(TotalEntries(ctx, dir, rel, n))
    decreases n
  {
    if n != 0 {
      TotalsHave(R, ctx, dir, rel, n - 1);
    }
  }

  /** The counts of a directory's entries, one probe at a time. */
  lemma {:induction false} CountEntries(ctx: Ctx, dir: Node, rel: Bytes, d: Entry -> nat, q: Tally)
    requires dir.Dir?
    requires forall e :: e in dir.entries ==> d(e) == Count(TotalEntry(ctx, dir, rel, e), q)
    ensures Count(TotalEntries(ctx, dir, rel, |dir.entries|), q) ==
            Count(Summary(DirOut(rel, dir.mtime)), q) + SumOver(d, dir.entries, |dir.entries|)
  {
    var g := (s: Sum) => Count(s, q);
    forall a: Sum, b: Sum ensures g(a.Plus(b)) == g(a) + g(b) {
      CountPlus(a, b, q);
    }
    TotalsAdd(g, d, ctx, dir, rel, |dir.entries|);
  }

  lemma {:induction false} IncompleteEntries(ctx: Ctx, dir: Node, rel: Bytes, b: Entry -> bool)
    requires dir.Dir?
    requires forall e :: e in dir.entries ==> b(e) == TotalEntry(ctx, dir, rel, e).incomplete
    ensures TotalEntries(ctx, dir, rel, |dir.entries|).incomplete == AnyOver(b, dir.entries, |dir.entries|)
  {
    TotalsAny((s: Sum) => s.incomplete, b, ctx, dir, rel, |dir.entries|);
  }

  lemma {:induction false} AnyIsSome(b: Entry -> bool, entries: seq<Entry>, n: nat)
    requires n <= |entries|
    ensures AnyOver(b, entries, n) <==> exists i :: 0 <= i < n && b(entries[i])
  {
    if n != 0 {
      AnyIsSome(b, entries, n - 1);
    }
  }

  lemma {:induction false} SumOfNone(d: Entry -> nat, entries: seq<Entry>, n: nat)
    requires n <= |entries|
    requires forall k :: 0 <= k < n ==> d(entries[k]) == 0
    ensures SumOver(d, entries, n) == 0
  {
    if n != 0 {
      SumOfNone(d, entries, n - 1);
    }
  }

  lemma {:induction false} SumOfOne(d: Entry -> nat, entries: seq<Entry>, i: nat, n: nat)
    requires i < n <= |entries|
    requires forall k :: 0 <= k < n && k != i ==> d(entries[k]) == 0
    ensures SumOver(d, entries, n) == d(entries[i])
  {
    if i == n - 1 {
      SumOfNone(d, entries, n - 1);
    } else {
      SumOfOne(d, entries, i, n - 1);
    }
  }

  lemma {:induction false} SumOfAtLeast(d: Entry -> nat, entries: seq<Entry>, i: nat, n: nat)
    requires i < n <= |entries|
    ensures SumOver(d, entries, n) >= d(entries[i])
  {
    if i < n - 1 {
      SumOfAtLeast(d, entries, i, n - 1);
    }
  }
}
