/** Writing and reading the index file, as the program does it: a growing buffer one way, a
    bounds-checked cursor the other. */
module IndexCodec {
  import opened Bytes
  import opened Paths
  import opened IndexFormat

  // ---- Writing ----

  method PushBytes(buf: Bytes, bytes: Bytes) returns (r: Bytes)
    ensures r == buf + EncBytes(bytes)
  {
    r := buf + EncLen(|bytes|) + bytes;
    assert r == buf + (EncLen(|bytes|) + bytes);
  }

  method PushChildren(buf: Bytes, cs: seq<nat>) returns (r: Bytes)
    ensures r == buf + EncChildren(cs)
  {
    r := buf + EncLen(|cs|);
    ghost var items, front := Children(0, 0), r;
    items.WrittenStarts(front, cs);
    for i := 0 to |cs|
      invariant r == items.Written(front, cs, i)
    {
      items.WrittenGrows(front, cs, i);
      r := r + Little(cs[i], 4);
    }
  }

  method PushEntry(buf: Bytes, e: IndexEntry) returns (r: Bytes)
    ensures r == buf + EncEntry(e)
  {
    var kind := if e.mtime.Some? then 1 else 0;
    r := PushBytes(buf + [kind], e.rel);
    if e.mtime.Some? {
      r := PushChildren(r + Little(Unsigned(e.mtime.value), 8), e.children);
    }
    assert r == buf + ([kind] + (EncBytes(e.rel) + EncRest(e)));
  }

  method PushHead(ix: Index) returns (buf: Bytes)
    ensures buf == EncHead(ix)
  {
    buf := MAGIC + Little(VERSION, 4);
    buf := PushBytes(buf, ix.root);
    buf := buf + Little(ix.dev, 8) + Little(ix.ino, 8) + Little(Unsigned(ix.written), 8);
  }

  method PushExclude(buf: Bytes, ps: seq<Bytes>) returns (r: Bytes)
    ensures r == buf + EncExclude(ps)
  {
    r := buf + EncLen(|ps|);
    ghost var items, front := Patterns(), r;
    items.WrittenStarts(front, ps);
    for i := 0 to |ps|
      invariant r == items.Written(front, ps, i)
    {
      items.WrittenGrows(front, ps, i);
      r := PushBytes(r, ps[i]);
    }
  }

  method PushEntries(buf: Bytes, es: seq<IndexEntry>) returns (r: Bytes)
    ensures r == buf + EncEntries(es)
  {
    r := buf + EncLen(|es|);
    ghost var items, front := Entries(0), r;
    items.WrittenStarts(front, es);
    for i := 0 to |es|
      invariant r == items.Written(front, es, i)
    {
      items.WrittenGrows(front, es, i);
      r := PushEntry(r, es[i]);
    }
  }

  /** The file for one index. */
  method Encode(ix: Index) returns (buf: Bytes)
    ensures buf == Enc(ix)
  {
    buf := PushHead(ix);
    buf := PushExclude(buf, ix.exclude);
    buf := PushEntries(buf, ix.entries);
  }

  // ---- Reading ----

  /** What a reader returns and where it stands, against what parsing at its old position gives. */
  predicate Took<T(==)>(p: Parsed<T>, r: Option<T>, at: nat) {
    match p
    case Fail => r == None
    case Ok(value, next) => r == Some(value) && at == next
  }

  class Reader {
    const bytes: Bytes
    var at: nat

    ghost predicate Valid()
      reads this
    {
      at <= |bytes|
    }

    constructor (bytes: Bytes)
      ensures Valid() && this.bytes == bytes && at == 0
    {
      this.bytes := bytes;
      at := 0;
    }

    method Take(n: nat) returns (r: Option<Bytes>)
      requires Valid()
      modifies this
      ensures Valid() && old(at) <= at && Took(ParseTake(bytes, old(at), n), r, at)
    {
      if at + n > |bytes| {
        return None;
      }
      r := Some(bytes[at..at + n]);
      at := at + n;
    }

    method Nat(width: nat) returns (r: Option<nat>)
      requires Valid()
      modifies this
      ensures Valid() && old(at) <= at && Took(ParseNat(bytes, old(at), width), r, at)
    {
      var slice := Take(width);
      if slice.None? {
        return None;
      }
      r := Some(Value(slice.value));
    }

    method I64() returns (r: Option<int>)
      requires Valid()
      modifies this
      ensures Valid() && old(at) <= at && Took(ParseI64(bytes, old(at)), r, at)
    {
      var n := Nat(8);
      if n.None? {
        return None;
      }
      r := Some(Signed(n.value));
    }

    method Prefixed() returns (r: Option<Bytes>)
      requires Valid()
      modifies this
      ensures Valid() && old(at) <= at && Took(ParseBytes(bytes, old(at)), r, at)
    {
      var len := Nat(4);
      if len.None? {
        return None;
      }
      r := Take(len.value);
    }

    method Count(each: nat) returns (r: Option<nat>)
      requires Valid()
      modifies this
      ensures Valid() && old(at) <= at && Took(ParseCount(bytes, old(at), each), r, at)
    {
      var count := Nat(4);
      if count.None? || count.value * each > |bytes| - at {
        return None;
      }
      r := count;
    }

    method Head() returns (r: Option<Index>)
      requires Valid() && at == 0
      modifies this
      ensures Valid() && Took(ParseHead(bytes), r, at)
    {
      r := None;
      var magic := Take(|MAGIC|);
      if magic.None? || magic.value != MAGIC { return; }
      var version := Nat(4);
      if version.None? || version.value != VERSION { return; }
      var root := Prefixed();
      if root.None? { return; }
      var dev := Nat(8);
      if dev.None? { return; }
      var ino := Nat(8);
      if ino.None? { return; }
      var written := I64();
      if written.None? { return; }
      r := Some(Index(root.value, dev.value, ino.value, written.value, [], []));
    }

    /** The exclusion patterns. `reserved` is how many the list was given room for. */
    method Exclude() returns (r: Option<seq<Bytes>>, ghost reserved: nat)
      requires Valid()
      modifies this
      ensures Valid() && Took(ParseExclude(bytes, old(at)), r, at)
      ensures old(at) + 4 * reserved <= |bytes|
      ensures r.Some? ==> old(at) + 4 * reserved <= at
    {
      reserved := 0;
      var n := Count(4);
      if n.None? {
        return None, 0;
      }
      reserved := n.value;
      var ps := [];
      ghost var goal := ParseExclude(bytes, old(at));
      ghost var start := at;
      Patterns().ResumeStarts(ps, bytes, at, n.value, ());
      for i := 0 to n.value
        invariant Valid() && start + 4 * i <= at && |ps| == i
        invariant goal == Patterns().Resume(ps, bytes, at, n.value - i, ())
      {
        Patterns().ResumeSteps(ps, bytes, at, n.value - i, ());
        var p := Prefixed();
        if p.None? {
          return None, reserved;
        }
        ps := ps + [p.value];
      }
      Patterns().ResumeEnds(ps, bytes, at, ());
      r := Some(ps);
    }

    method ClaimChild(i: nat, parents: array<bool>) returns (r: Option<nat>)
      requires Valid()
      modifies this, parents
      ensures Valid() && old(at) <= at
      ensures Took(ParseChild(bytes, old(at), i, parents.Length, Marked(old(parents[..]))), r, at)
      ensures r.Some? ==> Marked(parents[..]) == Marked(old(parents[..])) + {r.value} && at == old(at) + 4
    {
      r := Nat(4);
      if r.None? || r.value <= i || r.value >= parents.Length || parents[r.value] {
        return None;
      }
      MarkOne(parents[..], r.value);
      parents[r.value] := true;
    }

    /** One entry's children, each marked in `parents` as it is claimed. */
    method ClaimChildren(i: nat, parents: array<bool>) returns (r: Option<seq<nat>>, ghost reserved: nat)
      requires Valid()
      modifies this, parents
      ensures Valid() && old(at) <= at
      ensures Took(ParseChildren(bytes, old(at), i, parents.Length, Marked(old(parents[..]))), r, at)
      ensures r.Some? ==> Marked(parents[..]) == Marked(old(parents[..])) + Elements(r.value)
      ensures old(at) + 4 * reserved <= |bytes|
      ensures r.Some? ==> old(at) + 4 * reserved <= at
    {
      reserved := 0;
      var n := Count(4);
      if n.None? {
        return None, 0;
      }
      reserved := n.value;
      r := ClaimAll(i, n.value, parents);
    }

    /** The `n` children of a list, one after another. */
    method ClaimAll(i: nat, n: nat, parents: array<bool>) returns (r: Option<seq<nat>>)
      requires Valid()
      modifies this, parents
      ensures Valid() && old(at) <= at
      ensures Took(Children(i, parents.Length).ParseAll(bytes, old(at), n, Marked(old(parents[..]))), r, at)
      ensures r.Some? ==> Marked(parents[..]) == Marked(old(parents[..])) + Elements(r.value) && old(at) + 4 * n <= at
    {
      var cs: seq<nat> := [];
      ghost var items, was := Children(i, parents.Length), Marked(parents[..]);
      ghost var goal, seen := items.ParseAll(bytes, at, n, was), was;
      items.ResumeStarts(cs, bytes, at, n, was);
      for k := 0 to n
        invariant Valid() && old(at) + 4 * k <= at
        invariant goal == items.Resume(cs, bytes, at, n - k, seen)
        invariant Marked(parents[..]) == seen == was + Elements(cs)
      {
        items.ResumeSteps(cs, bytes, at, n - k, seen);
        var c := ClaimChild(i, parents);
        if c.None? {
          return None;
        }
        ElementsSnoc(cs, c.value);
        cs, seen := cs + [c.value], seen + {c.value};
      }
      items.ResumeEnds(cs, bytes, at, seen);
      r := Some(cs);
    }

    method Entry(i: nat, parents: array<bool>) returns (r: Option<IndexEntry>, ghost reserved: nat)
      requires Valid()
      modifies this, parents
      ensures Valid() && old(at) <= at
      ensures Took(ParseEntry(bytes, old(at), i, parents.Length, Marked(old(parents[..]))), r, at)
      ensures r.Some? ==> Marked(parents[..]) == Marked(old(parents[..])) + Elements(r.value.children)
      ensures old(at) + 4 * reserved <= |bytes|
      ensures r.Some? ==> old(at) + 4 * reserved <= at
    {
      reserved := 0;
      r := None;
      var kind := Nat(1);
      if kind.None? { return; }
      var rel := Prefixed();
      if rel.None? || !IsSafeRel(rel.value) { return; }
      if kind.value == 0 {
        return Some(IndexEntry(rel.value, None, [])), 0;
      }
      if kind.value != 1 { return; }
      var mtime := I64();
      if mtime.None? { return; }
      var children;
      children, reserved := ClaimChildren(i, parents);
      if children.Some? {
        r := Some(IndexEntry(rel.value, mtime, children.value));
      }
    }

    /** The entry after the ones in `es`, out of as many as there are flags. */
    method NextEntry(es: seq<IndexEntry>, parents: array<bool>) returns (r: Option<IndexEntry>, ghost reserved: nat)
      requires Valid() && |es| < parents.Length
      modifies this, parents
      ensures Valid() && old(at) <= at
      ensures EntriesLeft(bytes, es, old(at), parents.Length, Marked(old(parents[..]))) ==
              if r.None? then Fail else EntriesLeft(bytes, es + [r.value], at, parents.Length, Marked(parents[..]))
      ensures r.Some? ==> Marked(parents[..]) == Marked(old(parents[..])) + Elements(r.value.children)
      ensures old(at) + 4 * reserved <= |bytes|
      ensures r.Some? ==> old(at) + 4 * reserved <= at
    {
      ghost var start, claimed := at, Marked(parents[..]);
      r, reserved := Entry(|es|, parents);
      if r.Some? {
        EntryTaken(bytes, es, start, parents.Length, claimed, r.value, at);
      } else {
        EntryRefused(bytes, es, start, parents.Length, claimed);
      }
    }

    /** As many entries as there are flags, none of them claimed yet. */
    method FillEntries(parents: array<bool>) returns (r: Option<seq<IndexEntry>>, ghost reserved: nat)
      requires Valid() && Marked(parents[..]) == {}
      modifies this, parents
      ensures Valid()
      ensures Took(EntriesLeft(bytes, [], old(at), parents.Length, {}), r, at)
      ensures r.Some? ==> |r.value| == parents.Length && Marked(parents[..]) == AllChildren(r.value)
      ensures old(at) + 4 * reserved <= |bytes|
    {
      var es: seq<IndexEntry> := [];
      reserved := 0;
      for i := 0 to parents.Length
        invariant Valid() && old(at) + 4 * reserved <= at && |es| == i
        invariant EntriesLeft(bytes, es, at, parents.Length, Marked(parents[..])) ==
                  EntriesLeft(bytes, [], old(at), parents.Length, {})
        invariant Marked(parents[..]) == AllChildren(es)
      {
        ghost var more;
        var e;
        e, more := NextEntry(es, parents);
        reserved := reserved + more;
        if e.None? { return None, reserved; }
        AllChildrenSnoc(es, e.value);
        es := es + [e.value];
      }
      IndexFormat.Entries(parents.Length).ResumeEnds(es, bytes, at, Seen(parents.Length, Marked(parents[..])));
      r := Some(es);
    }

    /** All the entries. `reserved` counts what is given room for: entries, flags and children. */
    method Entries() returns (r: Option<seq<IndexEntry>>, parents: array<bool>, ghost reserved: nat)
      requires Valid()
      modifies this
      ensures Valid() && fresh(parents)
      ensures Took(ParseEntries(bytes, old(at)), r, at)
      ensures r.Some? ==> parents.Length == |r.value| && Marked(parents[..]) == AllChildren(r.value)
      ensures 20 * reserved <= 8 * |bytes| + 5 * (|bytes| - old(at))
    {
      r := None;
      parents := new bool[0];
      reserved := 0;
      var n := Count(MIN_ENTRY_BYTES);
      if n.None? { return; }
      parents := new bool[n.value](_ => false);
      NoneMarked(parents[..]);
      EntriesStart(bytes, at, n.value);
      r, reserved := FillEntries(parents);
      reserved := reserved + 2 * n.value;
    }
  }

  ghost function EntriesLeft(b: Bytes, es: seq<IndexEntry>, at: nat, total: nat,
                             claimed: set<nat>): Parsed<seq<IndexEntry>>
    requires |es| <= total
  {
    Entries(total).Resume(es, b, at, total - |es|, Seen(|es|, claimed))
  }

  lemma {:induction false} EntriesStart(b: Bytes, at: nat, n: nat)
    ensures EntriesLeft(b, [], at, n, {}) == Entries(n).ParseAll(b, at, n, Seen(0, {}))
  {
    Entries(n).ResumeStarts([], b, at, n, Seen(0, {}));
  }

  lemma EntryTaken(b: Bytes, es: seq<IndexEntry>, at: nat, total: nat, claimed: set<nat>, e: IndexEntry, next: nat)
    requires |es| < total && ParseEntry(b, at, |es|, total, claimed) == Ok(e, next)
    ensures EntriesLeft(b, es, at, total, claimed) ==
            EntriesLeft(b, es + [e], next, total, claimed + Elements(e.children))
  {
    EntryParser(b, at, total, Seen(|es|, claimed));
    Taken(Entries(total), es, b, at, total, Seen(|es|, claimed), e, next,
          Seen(|es| + 1, claimed + Elements(e.children)));
  }

  lemma EntryRefused(b: Bytes, es: seq<IndexEntry>, at: nat, total: nat, claimed: set<nat>)
    requires |es| < total && ParseEntry(b, at, |es|, total, claimed) == Fail
    ensures EntriesLeft(b, es, at, total, claimed) == Fail
  {
    EntryParser(b, at, total, Seen(|es|, claimed));
    Entries(total).ResumeFails(es, b, at, total - |es|, Seen(|es|, claimed));
  }

  lemma Taken(items: Items<IndexEntry, Seen>, es: seq<IndexEntry>, b: Bytes, at: nat, total: nat, seen: Seen,
              e: IndexEntry, next: nat, after: Seen)
    requires |es| < total && items.parse(b, at, seen) == Ok(e, next) && items.advance(seen, e) == after
    ensures items.Resume(es, b, at, total - |es|, seen) == items.Resume(es + [e], b, next, total - |es + [e]|, after)
  {
    items.ResumeSteps(es, b, at, total - |es|, seen);
  }

  lemma EntryParser(b: Bytes, at: nat, total: nat, seen: Seen)
    ensures Entries(total).parse(b, at, seen) == ParseEntry(b, at, seen.i, total, seen.claimed)
    ensures forall e :: Entries(total).advance(seen, e) == Seen(seen.i + 1, seen.claimed + Elements(e.children))
  {
  }

  function AllChildren(es: seq<IndexEntry>): set<nat> {
    set e, c | e in es && c in e.children :: c
  }

  lemma AllChildrenSnoc(es: seq<IndexEntry>, e: IndexEntry)
    ensures AllChildren(es + [e]) == AllChildren(es) + Elements(e.children)
  {
    var all := es + [e];
    assert all[|es|] == e;
    assert forall k :: 0 <= k < |es| ==> all[k] == es[k];
  }

  /** The entries some flag says have been claimed. */
  function Marked(flags: seq<bool>): set<nat> {
    set c | 0 <= c < |flags| && flags[c]
  }

  lemma NoneMarked(flags: seq<bool>)
    requires forall k :: 0 <= k < |flags| ==> !flags[k]
    ensures Marked(flags) == {}
  {
  }

  lemma MarkOne(flags: seq<bool>, c: nat)
    requires c < |flags|
    ensures Marked(flags[c := true]) == Marked(flags) + {c}
  {
  }

  lemma ClaimedAreChildren(es: seq<IndexEntry>, c: nat)
    ensures IsClaimed(es, c) <==> c in AllChildren(es)
  {
    if c in AllChildren(es) {
      var e :| e in es && c in e.children;
      var i :| 0 <= i < |es| && es[i] == e;
      var j :| 0 <= j < |e.children| && e.children[j] == c;
      assert IsEdge(es, i, j);
    }
    if IsClaimed(es, c) {
      var i, j :| IsEdge(es, i, j) && es[i].children[j] == c;
      assert es[i] in es && c in es[i].children;
    }
  }

  lemma FlagsSayAllClaimed(es: seq<IndexEntry>, flags: seq<bool>)
    requires |flags| == |es| && Marked(flags) == AllChildren(es)
    ensures AllClaimed(es) <==> forall c :: 0 < c < |flags| ==> flags[c]
  {
    forall c: nat | 0 < c < |es| ensures IsClaimed(es, c) <==> flags[c] {
      ClaimedAreChildren(es, c);
      assert flags[c] <==> c in Marked(flags);
    }
  }

  /** Parses one index file, or says that it is not exactly one. Whatever its counts claim, no more
      items are given room for than the file has bytes. */
  method Decode(bytes: Bytes) returns (r: Option<Index>, ghost reserved: nat)
    ensures r.Some? ==> WellFormed(r.value) && Enc(r.value) == bytes
    ensures r.None? ==> forall ix :: WellFormed(ix) ==> Enc(ix) != bytes
    ensures reserved <= |bytes|
  {
    var parsed;
    parsed, reserved := DecodeParsed(bytes);
    r := parsed;
    forall ix ensures Parse(bytes) == Some(ix) <==> WellFormed(ix) && Enc(ix) == bytes {
      ParsingInvertsEncoding(bytes, ix);
    }
  }

  method DecodeParsed(bytes: Bytes) returns (r: Option<Index>, ghost reserved: nat)
    ensures r == Parse(bytes) && reserved <= |bytes|
  {
    r := None;
    reserved := 0;
    var reader := new Reader(bytes);
    var head := reader.Head();
    if head.None? { return; }
    var exclude;
    ghost var a1 := reader.at;
    exclude, reserved := reader.Exclude();
    if exclude.None? { return; }
    ghost var more, a2 := 0, reader.at;
    var entries, parents;
    entries, parents, more := reader.Entries();
    reserved := reserved + more;
    if entries.None? { return; }
    Assemble(bytes, head.value, a1, exclude.value, a2, entries.value, reader.at);
    if reader.at != |bytes| || entries.value == [] || entries.value[0].rel != [] { return; }
    FlagsSayAllClaimed(entries.value, parents[..]);
    var all := AllSet(parents);
    if all {
      r := Some(head.value.(exclude := exclude.value, entries := entries.value));
    }
  }

  /** Whether every flag but the first is set. */
  method AllSet(flags: array<bool>) returns (all: bool)
    ensures all <==> forall c :: 0 < c < |flags[..]| ==> flags[..][c]
  {
    if flags.Length == 0 { return true; }
    for c := 1 to flags.Length
      invariant forall k :: 0 < k < c ==> flags[k]
    {
      if !flags[c] {
        assert !flags[..][c];
        return false;
      }
    }
    all := true;
  }

  lemma Assemble(b: Bytes, head: Index, a1: nat, exclude: seq<Bytes>, a2: nat, entries: seq<IndexEntry>, a3: nat)
    requires ParseHead(b) == Ok(head, a1) && ParseExclude(b, a1) == Ok(exclude, a2) &&
             ParseEntries(b, a2) == Ok(entries, a3)
    ensures Parse(b) ==
            if a3 == |b| && entries != [] && entries[0].rel == [] && AllClaimed(entries)
            then Some(head.(exclude := exclude, entries := entries)) else None
  {
  }
}
