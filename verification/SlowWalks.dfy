/** Timestamps as evidence: how wide the racy window has to be, and why a directory's mtime is read
    before its entries. */
module SlowWalks {
  import opened Bytes
  import opened Paths
  import opened FileTree
  import opened IndexFormat
  import opened IndexValidate
  import opened CachedListing
  import opened CacheEvents

  /** A file system that keeps every `unit` nanoseconds rounds a change's time down. */
  function Rounded(t: int, unit: int): int
    requires unit > 0
  {
    t - t % unit
  }

  /** The racy window catches every change at or after the write exactly when it is at least as wide as
      the file system's clock is coarse. */
  lemma WindowCoversGranularity(unit: int)
    requires 0 < unit
    ensures (forall written, t :: 0 <= written <= t ==> IsRacy(Rounded(t, unit), written)) <==> unit <= RACY_WINDOW
  {
    if unit > RACY_WINDOW {
      var t := unit - 1;
      assert Rounded(t, unit) == 0 && !IsRacy(Rounded(t, unit), t);
    }
  }

  // ---- A walk that takes time ----

  /** The moments between which one directory was read: its mtime at `start`, its entries from then to `end`. */
  datatype Reading = Reading(start: nat, end: nat)

  /** The directory `was` has at `rel` is what a reading of it saw. */
  ghost predicate ReadDuring(trees: seq<Node>, was: Node, rel: Bytes, r: Reading) {
    && r.start <= r.end < |trees| && DirAt(was, rel).Some? && DirAt(trees[r.start], rel).Some?
    && DirAt(was, rel).value.mtime == DirAt(trees[r.start], rel).value.mtime
    && forall name :: SeenDuring(trees, was, rel, r, name)
  }

  ghost predicate SeenDuring(trees: seq<Node>, was: Node, rel: Bytes, r: Reading, name: Bytes)
    requires r.end < |trees| && DirAt(was, rel).Some?
  {
    exists t :: r.start <= t <= r.end && SawAt(trees[t], was, rel, name)
  }

  predicate SawAt(tree: Node, was: Node, rel: Bytes, name: Bytes)
    requires DirAt(was, rel).Some?
  {
    DirAt(tree, rel).Some? && SameUnder(name, DirAt(was, rel).value.entries, DirAt(tree, rel).value.entries)
  }

  /** Every directory was read, and none before the one above it. */
  ghost predicate Walked(trees: seq<Node>, was: Node, times: Bytes -> Reading) {
    forall rel :: DirAt(was, rel).Some? ==>
      ReadDuring(trees, was, rel, times(rel)) && (rel != [] ==> times(ParentOf(rel)).start <= times(rel).start)
  }

  /** The mtimes of a directory and of all above it had been read by then. */
  predicate TimesReadBy(times: Bytes -> nat, rel: Bytes, t: nat)
    decreases |rel|
  {
    times(rel) <= t && (rel != [] ==> TimesReadBy(times, ParentOf(rel), t))
  }

  /** The tree's changes meanwhile. A change never repeats an mtime that had already been read. */
  ghost predicate Changed(trees: seq<Node>, stamps: seq<int -> bool>, was: Node, times: Bytes -> nat) {
    && |trees| == |stamps| + 1
    && (forall t :: 0 <= t < |stamps| ==> Stamps(trees[t], trees[t + 1], stamps[t]))
    && (forall t, rel :: 0 <= t < |stamps| && DirAt(was, rel).Some? && times(rel) <= t ==>
          !stamps[t](DirAt(was, rel).value.mtime))
  }

  lemma {:induction false} ChainIsCalm(trees: seq<Node>, stamps: seq<int -> bool>, was: Node, times: Bytes -> nat,
                                       t: nat, rel: Bytes)
    requires Changed(trees, stamps, was, times) && t < |stamps|
    requires SameTimes(was, trees[t + 1], rel) && TimesReadBy(times, rel, t)
    ensures Calm(trees[t + 1], stamps[t], rel) && SameTimes(was, trees[t], rel)
    decreases |rel|
  {
    if rel != [] {
      ChainIsCalm(trees, stamps, was, times, t, ParentOf(rel));
    }
  }

  lemma {:induction false} ReadOnceIsRead(times: Bytes -> nat, rel: Bytes, t: nat, u: nat)
    requires TimesReadBy(times, rel, t) && t <= u
    ensures TimesReadBy(times, rel, u)
    decreases |rel|
  {
    if rel != [] {
      ReadOnceIsRead(times, ParentOf(rel), t, u);
    }
  }

  lemma {:induction false} CalmStep(a: Node, b: Node, c: Node, stamp: int -> bool, rel: Bytes)
    requires Stamps(a, b, stamp) && Calm(b, stamp, rel) && DirAt(b, rel).Some? && DirAt(c, rel).Some?
    requires SameEntries(DirAt(b, rel).value.entries, DirAt(c, rel).value.entries)
    ensures DirAt(a, rel).Some? && SameEntries(DirAt(a, rel).value.entries, DirAt(c, rel).value.entries)
  {
    SameEntriesTransitive(DirAt(a, rel).value.entries, DirAt(b, rel).value.entries, DirAt(c, rel).value.entries);
  }

  /** Back from the end to a moment when the mtimes had been read, nothing moved. */
  lemma {:induction false} StillSince(trees: seq<Node>, stamps: seq<int -> bool>, was: Node, times: Bytes -> nat,
                                      rel: Bytes, t: nat)
    requires Changed(trees, stamps, was, times) && t < |trees| && TimesReadBy(times, rel, t)
    requires SameTimes(was, trees[|stamps|], rel)
    ensures SameTimes(was, trees[t], rel)
    ensures SameEntries(DirAt(trees[t], rel).value.entries, DirAt(trees[|stamps|], rel).value.entries)
    decreases |trees| - t
  {
    if t == |stamps| {
      SameEntriesReflexive(DirAt(trees[t], rel).value.entries);
    } else {
      ReadOnceIsRead(times, rel, t, t + 1);
      StillSince(trees, stamps, was, times, rel, t + 1);
      ChainIsCalm(trees, stamps, was, times, t, rel);
      CalmStep(trees[t], trees[t + 1], trees[|stamps|], stamps[t], rel);
    }
  }

  /** What was seen in a directory after its time was read is there while it shows that time. */
  lemma {:induction false} SeenIsThere(trees: seq<Node>, stamps: seq<int -> bool>, was: Node, times: Bytes -> nat,
                                       rel: Bytes, name: Bytes, t: nat)
    requires Changed(trees, stamps, was, times) && t < |trees| && TimesReadBy(times, rel, t)
    requires DirAt(was, rel).Some? && SawAt(trees[t], was, rel, name) && SameTimes(was, trees[|stamps|], rel)
    ensures SameUnder(name, DirAt(was, rel).value.entries, DirAt(trees[|stamps|], rel).value.entries)
  {
    StillSince(trees, stamps, was, times, rel, t);
    SameUnderTransitive(name, DirAt(was, rel).value.entries, DirAt(trees[t], rel).value.entries,
                        DirAt(trees[|stamps|], rel).value.entries);
  }

  lemma {:induction false} WalkedInOrder(trees: seq<Node>, was: Node, times: Bytes -> Reading, rel: Bytes)
    requires Walked(trees, was, times) && DirAt(was, rel).Some? && SameTimes(was, was, rel)
    ensures TimesReadBy(p => times(p).start, rel, times(rel).start)
    decreases |rel|
  {
    if rel != [] {
      WalkedInOrder(trees, was, times, ParentOf(rel));
      ReadOnceIsRead(p => times(p).start, ParentOf(rel), times(ParentOf(rel)).start, times(rel).start);
    }
  }

  lemma {:induction false} SameAsItself(was: Node, now: Node, rel: Bytes)
    requires SameTimes(was, now, rel)
    ensures SameTimes(was, was, rel)
    decreases |rel|
  {
    if rel != [] {
      SameAsItself(was, now, ParentOf(rel));
    }
  }

  /** However the tree changed while it was walked: a directory that still shows the mtime that was read
      holds the entries that were read. */
  lemma SlowWalksAreFaithful(trees: seq<Node>, stamps: seq<int -> bool>, was: Node, times: Bytes -> Reading)
    requires Walked(trees, was, times) && Changed(trees, stamps, was, p => times(p).start)
    ensures FaithfulSoFar(was, trees[|stamps|])
  {
    var now, starts := trees[|stamps|], (p: Bytes) => times(p).start;
    forall rel, name | SameTimes(was, now, rel)
      ensures SameUnder(name, DirAt(was, rel).value.entries, DirAt(now, rel).value.entries)
    {
      SameAsItself(was, now, rel);
      WalkedInOrder(trees, was, times, rel);
      assert ReadDuring(trees, was, rel, times(rel));
      assert SeenDuring(trees, was, rel, times(rel), name);
      var t :| times(rel).start <= t <= times(rel).end && SawAt(trees[t], was, rel, name);
      ReadOnceIsRead(starts, rel, times(rel).start, t);
      SeenIsThere(trees, stamps, was, starts, rel, name, t);
    }
  }

  // ---- An answer from an index that takes time ----

  /** Why a directory has this entry: it was seen after the times down to there were read; or something above it
      had moved by then; or it was believed, those times being the remembered ones. */
  ghost predicate HasReason(trees: seq<Node>, from: Node, written: int, was: Node, times: Bytes -> nat, rel: Bytes,
                            name: Bytes)
    requires DirAt(was, rel).Some?
  {
    || (exists t :: 0 <= t < |trees| && TimesReadBy(times, rel, t) &&
                    (SawAt(trees[t], was, rel, name) || !SameTimes(was, trees[t], rel)))
    || (Unmoved(from, was, written, rel) &&
        SameUnder(name, DirAt(was, rel).value.entries, DirAt(from, rel).value.entries))
  }

  ghost predicate PassedOver(trees: seq<Node>, from: Node, written: int, was: Node, times: Bytes -> nat) {
    forall rel, name :: DirAt(was, rel).Some? ==> HasReason(trees, from, written, was, times, rel, name)
  }

  lemma {:induction false} StillUnmoved(from: Node, was: Node, now: Node, written: int, rel: Bytes)
    requires Unmoved(from, was, written, rel) && SameTimes(was, now, rel)
    ensures Unmoved(from, now, written, rel)
    decreases |rel|
  {
    if rel != [] {
      StillUnmoved(from, was, now, written, ParentOf(rel));
    }
  }

  lemma {:induction false} BelievedIsThere(from: Node, was: Node, now: Node, written: int, rel: Bytes, name: Bytes)
    requires Faithful(from, now, written) && Unmoved(from, was, written, rel) && SameTimes(was, now, rel)
    requires SameUnder(name, DirAt(was, rel).value.entries, DirAt(from, rel).value.entries)
    ensures SameUnder(name, DirAt(was, rel).value.entries, DirAt(now, rel).value.entries)
  {
    StillUnmoved(from, was, now, written, rel);
    SameUnderTransitive(name, DirAt(was, rel).value.entries, DirAt(from, rel).value.entries,
                        DirAt(now, rel).value.entries);
  }

  /** However the tree changed while the index was checked and its stale paths re-walked: a directory that still
      shows the mtime that was found holds the entries that were read in it or believed of it. */
  lemma SlowPassesAreFaithful(trees: seq<Node>, stamps: seq<int -> bool>, from: Node, written: int, was: Node,
                              times: Bytes -> nat)
    requires PassedOver(trees, from, written, was, times) && Changed(trees, stamps, was, times)
    requires Faithful(from, trees[|stamps|], written)
    ensures FaithfulSoFar(was, trees[|stamps|])
  {
    var now := trees[|stamps|];
    forall rel, name | SameTimes(was, now, rel)
      ensures SameUnder(name, DirAt(was, rel).value.entries, DirAt(now, rel).value.entries)
    {
      assert HasReason(trees, from, written, was, times, rel, name);
      if t :| 0 <= t < |trees| && TimesReadBy(times, rel, t) &&
              (SawAt(trees[t], was, rel, name) || !SameTimes(was, trees[t], rel)) {
        StillSince(trees, stamps, was, times, rel, t);
        SeenIsThere(trees, stamps, was, times, rel, name, t);
      } else {
        BelievedIsThere(from, was, now, written, rel, name);
      }
    }
  }

  /** Where an entry that was believed turns out not to be as it was, something above it had moved: the third
      reason is there whenever the other two are not. */
  lemma {:induction false} LossesShow(from: Node, was: Node, then': Node, written: int, rel: Bytes, name: Bytes)
    requires Faithful(from, then', written) && Unmoved(from, was, written, rel) && DirAt(then', rel).Some?
    requires !SameUnder(name, DirAt(from, rel).value.entries, DirAt(then', rel).value.entries)
    ensures !SameTimes(was, then', rel)
  {
    if SameTimes(was, then', rel) {
      StillUnmoved(from, was, then', written, rel);
    }
  }

  function Only(m: int): int -> bool {
    x => x == m
  }

  /** Reading the mtime after the entries would pair a new time with an old list. */
  lemma TimeReadLastIsFooled() returns (before: Node, after: Node, read: Node)
    ensures before.Dir? && after.Dir? && read == before.(mtime := after.mtime)
    ensures Stamps(before, after, Only(after.mtime)) && before.mtime != after.mtime
    ensures !FaithfulSoFar(read, after)
  {
    before := Dir(1, true, true, true, []);
    after := Dir(2, true, true, true, [Entry([0x61], true, File)]);
    read := before.(mtime := 2);
    assert SameTimes(read, after, []);
    assert !SameUnder([0x61], read.entries, after.entries);
    forall rel ensures !Calm(after, Only(2), rel) {
      NeverCalm(after, Only(2), rel);
    }
  }

  lemma {:induction false} NeverCalm(tree: Node, stamp: int -> bool, rel: Bytes)
    requires tree.Dir? && stamp(tree.mtime)
    ensures !Calm(tree, stamp, rel)
    decreases |rel|
  {
    if rel != [] {
      NeverCalm(tree, stamp, ParentOf(rel));
    }
  }
}
