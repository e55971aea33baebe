/** The index file: what it holds, how it is laid out in bytes, and how bytes are parsed back. */
module IndexFormat {
  import opened Bytes
  import opened Paths

  /** One remembered directory (with an mtime and children) or repository. */
  datatype IndexEntry = IndexEntry(rel: Bytes, mtime: Option<int>, children: seq<nat>)

  datatype Index = Index(root: Bytes, dev: nat, ino: nat, written: int, exclude: seq<Bytes>, entries: seq<IndexEntry>)

  const U32: nat := 0x1_0000_0000
  const U64: nat := 0x1_0000_0000_0000_0000
  const I64_MIN: int := -0x8000_0000_0000_0000
  const I64_MAX: int := 0x7fff_ffff_ffff_ffff

  /** "SCAPIDX\0" */
  const MAGIC: Bytes := [0x53, 0x43, 0x41, 0x50, 0x49, 0x44, 0x58, 0x00]
  const VERSION: nat := 1
  const MIN_ENTRY_BYTES: nat := 5

  predicate IsI64(x: int) { I64_MIN <= x <= I64_MAX }

  // ---- What a well-formed index is ----

  /** The `j`-th child of entry `i`. */
  predicate IsEdge(es: seq<IndexEntry>, i: int, j: int) {
    0 <= i < |es| && 0 <= j < |es[i].children|
  }

  ghost predicate ForwardEdges(es: seq<IndexEntry>) {
    forall i, j :: IsEdge(es, i, j) ==> i < es[i].children[j] < |es|
  }

  ghost predicate ClaimedOnce(es: seq<IndexEntry>) {
    forall i, j, i', j' :: IsEdge(es, i, j) && IsEdge(es, i', j') && es[i].children[j] == es[i'].children[j'] ==>
      i == i' && j == j'
  }

  ghost predicate IsClaimed(es: seq<IndexEntry>, c: int) {
    exists i, j :: IsEdge(es, i, j) && es[i].children[j] == c
  }

  /** Every entry but the root is some entry's child. */
  ghost predicate AllClaimed(es: seq<IndexEntry>) {
    forall c :: 0 < c < |es| ==> IsClaimed(es, c)
  }

  /** An entry that fits the format: only directories have an mtime and children. */
  predicate EntryFits(e: IndexEntry) {
    && |e.rel| < U32 && IsSafeRel(e.rel) && |e.children| < U32
    && match e.mtime
       case None => e.children == []
       case Some(m) => IsI64(m)
  }

  predicate HeadFits(ix: Index) {
    |ix.root| < U32 && ix.dev < U64 && ix.ino < U64 && IsI64(ix.written)
  }

  ghost predicate WellFormed(ix: Index) {
    && HeadFits(ix)
    && |ix.exclude| < U32 && (forall k :: 0 <= k < |ix.exclude| ==> |ix.exclude[k]| < U32)
    && 0 < |ix.entries| < U32 && ix.entries[0].rel == []
    && (forall k :: 0 <= k < |ix.entries| ==> EntryFits(ix.entries[k]))
    && ForwardEdges(ix.entries) && ClaimedOnce(ix.entries) && AllClaimed(ix.entries)
  }

  // ---- Numbers ----

  /** Little-endian bytes of `n`, `width` of them. */
  function Little(n: nat, width: nat): (b: Bytes)
    ensures |b| == width
  {
    if width == 0 then [] else [n % 256] + Little(n / 256, width - 1)
  }

  function Value(b: Bytes): nat {
    if b == [] then 0 else b[0] + 256 * Value(b[1..])
  }

  /** Two's complement. */
  function Unsigned(x: int): nat {
    x % U64
  }

  function Signed(n: nat): int {
    if n > I64_MAX then n - U64 else n
  }

  function Pow256(n: nat): nat {
    if n == 0 then 1 else 256 * Pow256(n - 1)
  }

  lemma Widths()
    ensures Pow256(1) == 256 && Pow256(4) == U32 && Pow256(8) == U64
  {
    assert Pow256(5) == 256 * U32;
  }

  lemma {:induction false} ValueBound(b: Bytes)
    ensures Value(b) < Pow256(|b|)
  {
    if b != [] {
      ValueBound(b[1..]);
    }
  }

  lemma {:induction false} LittleOfValue(b: Bytes)
    ensures Little(Value(b), |b|) == b
  {
    if b != [] {
      LittleOfValue(b[1..]);
      assert Value(b) % 256 == b[0] && Value(b) / 256 == Value(b[1..]);
      assert b == [b[0]] + b[1..];
    }
  }

  lemma {:induction false} ValueOfLittle(n: nat, width: nat)
    requires n < Pow256(width)
    ensures Value(Little(n, width)) == n
  {
    if width != 0 {
      ValueOfLittle(n / 256, width - 1);
      assert Little(n, width)[1..] == Little(n / 256, width - 1);
    }
  }

  // ---- Bytes at a position ----

  predicate At(b: Bytes, at: nat, x: Bytes) {
    at + |x| <= |b| && b[at..at + |x|] == x
  }

  lemma AtSplit(b: Bytes, at: nat, x: Bytes, y: Bytes)
    ensures At(b, at, x + y) <==> At(b, at, x) && At(b, at + |x|, y)
  {
    if At(b, at, x) && At(b, at + |x|, y) {
      assert b[at..at + |x + y|] == b[at..at + |x|] + b[at + |x|..at + |x| + |y|];
    }
    if At(b, at, x + y) {
      assert b[at..at + |x|] == (x + y)[..|x|];
      assert b[at + |x|..at + |x| + |y|] == (x + y)[|x|..];
    }
  }

  datatype Parsed<+T> = Fail | Ok(value: T, next: nat)

  function ParseTake(b: Bytes, at: nat, n: nat): Parsed<Bytes> {
    if at + n <= |b| then Ok(b[at..at + n], at + n) else Fail
  }

  function ParseNat(b: Bytes, at: nat, width: nat): Parsed<nat> {
    match ParseTake(b, at, width)
    case Fail => Fail
    case Ok(v, next) => Ok(Value(v), next)
  }

  function ParseI64(b: Bytes, at: nat): Parsed<int> {
    match ParseNat(b, at, 8)
    case Fail => Fail
    case Ok(v, next) => Ok(Signed(v), next)
  }

  /** A length prefix; what does not fit saturates. */
  function EncLen(n: nat): (b: Bytes)
    ensures |b| == 4
  {
    Little(if n < U32 then n else U32 - 1, 4)
  }

  function EncBytes(b: Bytes): Bytes {
    EncLen(|b|) + b
  }

  function ParseBytes(b: Bytes, at: nat): Parsed<Bytes> {
    match ParseNat(b, at, 4)
    case Fail => Fail
    case Ok(len, next) => ParseTake(b, next, len)
  }

  /** A count, refused when the bytes that are left could not hold that many items. */
  function ParseCount(b: Bytes, at: nat, each: nat): Parsed<nat> {
    match ParseNat(b, at, 4)
    case Fail => Fail
    case Ok(count, next) => if next <= |b| && count * each <= |b| - next then Ok(count, next) else Fail
  }

  lemma {:induction false} NatAt(b: Bytes, at: nat, width: nat, n: nat, next: nat)
    ensures ParseNat(b, at, width) == Ok(n, next) <==>
            n < Pow256(width) && next == at + width && At(b, at, Little(n, width))
  {
    if at + width <= |b| {
      var v := b[at..at + width];
      ValueBound(v);
      LittleOfValue(v);
      if n < Pow256(width) {
        ValueOfLittle(n, width);
      }
    }
  }

  lemma ByteAt(b: Bytes, at: nat, n: nat, next: nat)
    ensures ParseNat(b, at, 1) == Ok(n, next) <==> n < 256 && next == at + 1 && At(b, at, [n])
  {
    NatAt(b, at, 1, n, next);
    Widths();
    assert n < 256 ==> Little(n, 1) == [n];
  }

  lemma I64At(b: Bytes, at: nat, x: int, next: nat)
    ensures ParseI64(b, at) == Ok(x, next) <==> IsI64(x) && next == at + 8 && At(b, at, Little(Unsigned(x), 8))
  {
    NatAt(b, at, 8, Unsigned(x), next);
    Widths();
    if at + 8 <= |b| {
      ValueBound(b[at..at + 8]);
    }
  }

  lemma BytesAt(b: Bytes, at: nat, x: Bytes, next: nat)
    ensures ParseBytes(b, at) == Ok(x, next) <==> |x| < U32 && next == at + |EncBytes(x)| && At(b, at, EncBytes(x))
  {
    Widths();
    NatAt(b, at, 4, |x|, at + 4);
    AtSplit(b, at, EncLen(|x|), x);
    match ParseNat(b, at, 4)
    case Fail =>
    case Ok(len, body) => NatAt(b, at, 4, len, body);
  }

  lemma CountAt(b: Bytes, at: nat, each: nat, n: nat, next: nat)
    ensures ParseCount(b, at, each) == Ok(n, next) <==>
            n < U32 && next == at + 4 && At(b, at, EncLen(n)) && n * each <= |b| - next
  {
    Widths();
    NatAt(b, at, 4, n, next);
  }

  // ---- Lists of items ----

  /** How one kind of item is written, parsed and judged. `S` is what parsing remembers between items. */
  datatype Items<!T(!new), !S(!new)> = Items(
    enc: T -> Bytes,
    parse: (Bytes, nat, S) -> Parsed<T>,
    ok: (T, S) -> bool,
    advance: (S, T) -> S)
  {
    /** The parser takes exactly the bytes the encoder writes, for exactly the items that are fine. */
    ghost predicate Faithful(b: Bytes) {
      && (forall at: nat, s, x :: at <= |b| && ok(x, s) && At(b, at, enc(x)) ==>
            parse(b, at, s) == Ok(x, at + |enc(x)|))
      && (forall at: nat, s :: at <= |b| && parse(b, at, s).Ok? ==>
            var x := parse(b, at, s).value;
            ok(x, s) && At(b, at, enc(x)) && parse(b, at, s).next == at + |enc(x)|)
    }

    function EncAll(xs: seq<T>): Bytes {
      if xs == [] then [] else enc(xs[0]) + EncAll(xs[1..])
    }

    predicate AllOk(xs: seq<T>, s: S) {
      xs == [] || (ok(xs[0], s) && AllOk(xs[1..], advance(s, xs[0])))
    }

    function ParseAll(b: Bytes, at: nat, n: nat, s: S): Parsed<seq<T>>
      decreases n
    {
      if n == 0 then Ok([], at)
      else match parse(b, at, s)
        case Fail => Fail
        case Ok(x, next) =>
          match ParseAll(b, next, n - 1, advance(s, x))
          case Fail => Fail
          case Ok(xs, end) => Ok([x] + xs, end)
    }

    /** Parsing `n` more items after the ones already parsed. */
    function Resume(done: seq<T>, b: Bytes, at: nat, n: nat, s: S): Parsed<seq<T>> {
      match ParseAll(b, at, n, s)
      case Fail => Fail
      case Ok(xs, end) => Ok(done + xs, end)
    }

    lemma {:induction false} ResumeStarts(none: seq<T>, b: Bytes, at: nat, n: nat, s: S)
      requires none == []
      ensures Resume(none, b, at, n, s) == ParseAll(b, at, n, s)
    {
      var p := ParseAll(b, at, n, s);
      assert p.Ok? ==> none + p.value == p.value;
    }

    lemma ResumeEnds(done: seq<T>, b: Bytes, at: nat, s: S)
      ensures Resume(done, b, at, 0, s) == Ok(done, at)
    {
      assert done + [] == done;
    }

    lemma ResumeSteps(done: seq<T>, b: Bytes, at: nat, n: nat, s: S)
      requires n > 0
      ensures Resume(done, b, at, n, s) ==
              match parse(b, at, s)
              case Fail => Fail
              case Ok(x, next) => Resume(done + [x], b, next, n - 1, advance(s, x))
    {
      if parse(b, at, s).Ok? {
        var x, next := parse(b, at, s).value, parse(b, at, s).next;
        var rest := ParseAll(b, next, n - 1, advance(s, x));
        if rest.Ok? {
          assert done + ([x] + rest.value) == (done + [x]) + rest.value;
        }
      }
    }

    lemma ResumeFails(done: seq<T>, b: Bytes, at: nat, n: nat, s: S)
      requires n > 0 && parse(b, at, s) == Fail
      ensures Resume(done, b, at, n, s) == Fail
    {
    }

    /** A buffer after the first `n` items have been written to it. */
    function Written(front: Bytes, xs: seq<T>, n: nat): Bytes
      requires n <= |xs|
    {
      front + EncAll(xs[..n])
    }

    lemma {:induction false} WrittenStarts(front: Bytes, xs: seq<T>)
      ensures Written(front, xs, 0) == front
      ensures Written(front, xs, |xs|) == front + EncAll(xs)
    {
      assert xs[..|xs|] == xs;
    }

    lemma WrittenGrows(front: Bytes, xs: seq<T>, n: nat)
      requires n < |xs|
      ensures Written(front, xs, n + 1) == Written(front, xs, n) + enc(xs[n])
    {
      EncAllSnoc(xs[..n], xs[n]);
      assert xs[..n + 1] == xs[..n] + [xs[n]];
    }

    lemma {:induction false} EncAllSnoc(xs: seq<T>, x: T)
      ensures EncAll(xs + [x]) == EncAll(xs) + enc(x)
    {
      if xs == [] {
        assert [x][1..] == [];
      } else {
        EncAllSnoc(xs[1..], x);
        assert (xs + [x])[1..] == xs[1..] + [x];
      }
    }

    lemma {:induction false} AllFound(b: Bytes, at: nat, xs: seq<T>, s: S)
      requires Faithful(b) && at <= |b| && AllOk(xs, s) && At(b, at, EncAll(xs))
      ensures ParseAll(b, at, |xs|, s) == Ok(xs, at + |EncAll(xs)|)
      decreases |xs|
    {
      if xs != [] {
        var x, rest := xs[0], xs[1..];
        assert xs == [x] + rest;
        var first, others := enc(x), EncAll(rest);
        AtSplit(b, at, first, others);
        AllFound(b, at + |first|, rest, advance(s, x));
      }
    }

    lemma {:induction false} AllParsed(b: Bytes, at: nat, n: nat, s: S, xs: seq<T>, next: nat)
      requires Faithful(b) && at <= |b| && ParseAll(b, at, n, s) == Ok(xs, next)
      ensures |xs| == n && AllOk(xs, s) && At(b, at, EncAll(xs)) && next == at + |EncAll(xs)|
      decreases n
    {
      if n != 0 {
        var x, rest := xs[0], xs[1..];
        assert xs == [x] + rest;
        var mid := at + |enc(x)|;
        AllParsed(b, mid, n - 1, advance(s, x), rest, next);
        AtSplit(b, at, enc(x), EncAll(rest));
      }
    }

    /** The shortest a list can be written. */
    lemma {:induction false} AtLeast(xs: seq<T>, each: nat)
      requires forall x :: |enc(x)| >= each
      ensures |EncAll(xs)| >= |xs| * each
      decreases |xs|
    {
      if xs != [] {
        AtLeast(xs[1..], each);
        assert |xs| * each == each + |xs[1..]| * each;
      }
    }
  }

  // ---- Exclusion patterns ----

  function Patterns(): Items<Bytes, ()> {
    Items((p: Bytes) => EncBytes(p),
          (b: Bytes, at: nat, s: ()) => ParseBytes(b, at),
          (p: Bytes, s: ()) => |p| < U32,
          (s: (), p: Bytes) => s)
  }

  lemma PatternsAreFaithful(b: Bytes)
    ensures Patterns().Faithful(b)
  {
    forall at: nat, x: Bytes, next: nat
      ensures ParseBytes(b, at) == Ok(x, next) <==> |x| < U32 && next == at + |EncBytes(x)| && At(b, at, EncBytes(x))
    {
      BytesAt(b, at, x, next);
    }
  }

  // ---- One entry's children ----

  function Children(i: nat, total: nat): Items<nat, set<nat>> {
    Items((c: nat) => Little(c, 4),
          (b: Bytes, at: nat, claimed: set<nat>) => ParseChild(b, at, i, total, claimed),
          (c: nat, claimed: set<nat>) => i < c < total && c !in claimed,
          (claimed: set<nat>, c: nat) => claimed + {c})
  }

  function ParseChild(b: Bytes, at: nat, i: nat, total: nat, claimed: set<nat>): Parsed<nat> {
    match ParseNat(b, at, 4)
    case Fail => Fail
    case Ok(c, next) => if c <= i || c >= total || c in claimed then Fail else Ok(c, next)
  }

  lemma ChildrenAreFaithful(b: Bytes, i: nat, total: nat)
    requires total < U32
    ensures Children(i, total).Faithful(b)
  {
    Widths();
    forall at: nat, c: nat, next: nat
      ensures ParseNat(b, at, 4) == Ok(c, next) <==> c < U32 && next == at + 4 && At(b, at, Little(c, 4))
    {
      NatAt(b, at, 4, c, next);
    }
  }

  // ---- Entries ----

  function EncRest(e: IndexEntry): Bytes {
    match e.mtime
    case None => []
    case Some(m) => Little(Unsigned(m), 8) + EncChildren(e.children)
  }

  function EncEntry(e: IndexEntry): Bytes {
    [if e.mtime.Some? then 1 else 0] + (EncBytes(e.rel) + EncRest(e))
  }

  function ParseChildren(b: Bytes, at: nat, i: nat, total: nat, claimed: set<nat>): Parsed<seq<nat>> {
    match ParseCount(b, at, 4)
    case Fail => Fail
    case Ok(n, next) => Children(i, total).ParseAll(b, next, n, claimed)
  }

  function ParseRest(b: Bytes, at: nat, kind: nat, rel: Bytes, i: nat, total: nat,
                     claimed: set<nat>): Parsed<IndexEntry>
  {
    if kind == 0 then Ok(IndexEntry(rel, None, []), at)
    else if kind != 1 then Fail
    else match ParseI64(b, at)
      case Fail => Fail
      case Ok(m, next) =>
        match ParseChildren(b, next, i, total, claimed)
        case Fail => Fail
        case Ok(cs, end) => Ok(IndexEntry(rel, Some(m), cs), end)
  }

  function ParseEntry(b: Bytes, at: nat, i: nat, total: nat, claimed: set<nat>): Parsed<IndexEntry> {
    match ParseNat(b, at, 1)
    case Fail => Fail
    case Ok(kind, next) =>
      match ParseBytes(b, next)
      case Fail => Fail
      case Ok(rel, rest) => if IsSafeRel(rel) then ParseRest(b, rest, kind, rel, i, total, claimed) else Fail
  }

  predicate EntryOk(e: IndexEntry, i: nat, total: nat, claimed: set<nat>) {
    EntryFits(e) && Children(i, total).AllOk(e.children, claimed)
  }

  function Elements(cs: seq<nat>): set<nat> {
    set c | c in cs
  }

  lemma ElementsSnoc(cs: seq<nat>, c: nat)
    ensures Elements(cs + [c]) == Elements(cs) + {c}
  {
  }

  /** What has been seen when an entry is parsed: its index, and the entries claimed so far. */
  datatype Seen = Seen(i: nat, claimed: set<nat>)

  function Entries(total: nat): Items<IndexEntry, Seen> {
    Items((e: IndexEntry) => EncEntry(e),
          (b: Bytes, at: nat, s: Seen) => ParseEntry(b, at, s.i, total, s.claimed),
          (e: IndexEntry, s: Seen) => EntryOk(e, s.i, total, s.claimed),
          (s: Seen, e: IndexEntry) => Seen(s.i + 1, s.claimed + Elements(e.children)))
  }

  /** How children are written does not depend on whose they are. */
  lemma {:induction false} ChildrenEncAlike(i: nat, total: nat, cs: seq<nat>)
    ensures Children(i, total).EncAll(cs) == Children(0, 0).EncAll(cs)
    ensures |Children(0, 0).EncAll(cs)| == 4 * |cs|
  {
    if cs != [] {
      ChildrenEncAlike(i, total, cs[1..]);
    }
  }

  /** A child list with its count. */
  function EncChildren(cs: seq<nat>): Bytes {
    EncLen(|cs|) + Children(0, 0).EncAll(cs)
  }

  lemma {:induction false} ChildrenFound(b: Bytes, at: nat, i: nat, total: nat, claimed: set<nat>, cs: seq<nat>)
    requires total < U32 && |cs| < U32 && Children(i, total).AllOk(cs, claimed) && At(b, at, EncChildren(cs))
    ensures ParseChildren(b, at, i, total, claimed) == Ok(cs, at + |EncChildren(cs)|)
  {
    ChildrenEncAlike(i, total, cs);
    AtSplit(b, at, EncLen(|cs|), Children(i, total).EncAll(cs));
    CountAt(b, at, 4, |cs|, at + 4);
    ChildrenAreFaithful(b, i, total);
    Children(i, total).AllFound(b, at + 4, cs, claimed);
  }

  lemma {:induction false} ChildrenParsed(b: Bytes, at: nat, i: nat, total: nat, claimed: set<nat>, cs: seq<nat>,
                                          next: nat)
    requires total < U32 && ParseChildren(b, at, i, total, claimed) == Ok(cs, next)
    ensures |cs| < U32 && Children(i, total).AllOk(cs, claimed) && At(b, at, EncChildren(cs)) &&
            next == at + |EncChildren(cs)|
  {
    var n := ParseCount(b, at, 4).value;
    CountAt(b, at, 4, n, at + 4);
    ChildrenAreFaithful(b, i, total);
    Children(i, total).AllParsed(b, at + 4, n, claimed, cs, next);
    ChildrenEncAlike(i, total, cs);
    AtSplit(b, at, EncLen(n), Children(i, total).EncAll(cs));
  }

  lemma RestFound(b: Bytes, at: nat, i: nat, total: nat, claimed: set<nat>, e: IndexEntry)
    requires at <= |b| && total < U32 && e.mtime.Some?
    requires EntryOk(e, i, total, claimed) && At(b, at, EncRest(e))
    ensures ParseRest(b, at, 1, e.rel, i, total, claimed) == Ok(e, at + |EncRest(e)|)
  {
    var m := e.mtime.value;
    AtSplit(b, at, Little(Unsigned(m), 8), EncChildren(e.children));
    I64At(b, at, m, at + 8);
    ChildrenFound(b, at + 8, i, total, claimed, e.children);
  }

  lemma RestParsed(b: Bytes, at: nat, i: nat, total: nat, claimed: set<nat>, e: IndexEntry, next: nat)
    requires at <= |b| && total < U32 && |e.rel| < U32 && IsSafeRel(e.rel)
    requires ParseRest(b, at, 1, e.rel, i, total, claimed) == Ok(e, next)
    ensures EntryOk(e, i, total, claimed) && At(b, at, EncRest(e)) && next == at + |EncRest(e)|
  {
    var m := e.mtime.value;
    I64At(b, at, m, at + 8);
    ChildrenParsed(b, at + 8, i, total, claimed, e.children, next);
    AtSplit(b, at, Little(Unsigned(m), 8), EncChildren(e.children));
  }

  lemma EntrySplit(b: Bytes, at: nat, e: IndexEntry)
    ensures |EncEntry(e)| == 1 + |EncBytes(e.rel)| + |EncRest(e)|
    ensures At(b, at, EncEntry(e)) <==>
            && At(b, at, [if e.mtime.Some? then 1 else 0]) && At(b, at + 1, EncBytes(e.rel))
            && At(b, at + 1 + |EncBytes(e.rel)|, EncRest(e))
  {
    var rel, rest := EncBytes(e.rel), EncRest(e);
    AtSplit(b, at, [if e.mtime.Some? then 1 else 0], rel + rest);
    AtSplit(b, at + 1, rel, rest);
  }

  lemma EntryFound(b: Bytes, at: nat, i: nat, total: nat, claimed: set<nat>, e: IndexEntry)
    requires at <= |b| && total < U32
    requires EntryOk(e, i, total, claimed) && At(b, at, EncEntry(e))
    ensures ParseEntry(b, at, i, total, claimed) == Ok(e, at + |EncEntry(e)|)
  {
    var kind := if e.mtime.Some? then 1 else 0;
    var rel := EncBytes(e.rel);
    EntrySplit(b, at, e);
    ByteAt(b, at, kind, at + 1);
    BytesAt(b, at + 1, e.rel, at + 1 + |rel|);
    if e.mtime.Some? {
      RestFound(b, at + 1 + |rel|, i, total, claimed, e);
    }
  }

  lemma EntryParsed(b: Bytes, at: nat, i: nat, total: nat, claimed: set<nat>, e: IndexEntry, next: nat)
    requires at <= |b| && total < U32
    requires ParseEntry(b, at, i, total, claimed) == Ok(e, next)
    ensures EntryOk(e, i, total, claimed) && At(b, at, EncEntry(e)) && next == at + |EncEntry(e)|
  {
    PartsOfEntry(b, at, i, total, claimed, e, next, ParseNat(b, at, 1).value, ParseBytes(b, at + 1).next);
  }

  lemma PartsOfEntry(b: Bytes, at: nat, i: nat, total: nat, claimed: set<nat>, e: IndexEntry, next: nat, kind: nat,
                     rest: nat)
    requires at <= |b| && total < U32 && IsSafeRel(e.rel)
    requires ParseNat(b, at, 1) == Ok(kind, at + 1) && ParseBytes(b, at + 1) == Ok(e.rel, rest)
    requires ParseRest(b, rest, kind, e.rel, i, total, claimed) == Ok(e, next)
    ensures EntryOk(e, i, total, claimed) && At(b, at, EncEntry(e)) && next == at + |EncEntry(e)|
  {
    ByteAt(b, at, kind, at + 1);
    BytesAt(b, at + 1, e.rel, rest);
    if kind == 1 {
      RestParsed(b, rest, i, total, claimed, e, next);
    }
    EntrySplit(b, at, e);
  }

  lemma EntriesAreFaithful(b: Bytes, total: nat)
    requires total < U32
    ensures Entries(total).Faithful(b)
  {
    forall at: nat, s: Seen, e: IndexEntry
      | at <= |b| && EntryOk(e, s.i, total, s.claimed) && At(b, at, EncEntry(e))
      ensures ParseEntry(b, at, s.i, total, s.claimed) == Ok(e, at + |EncEntry(e)|)
    {
      EntryFound(b, at, s.i, total, s.claimed, e);
    }
    forall at: nat, s: Seen | at <= |b| && ParseEntry(b, at, s.i, total, s.claimed).Ok?
      ensures var p := ParseEntry(b, at, s.i, total, s.claimed);
              EntryOk(p.value, s.i, total, s.claimed) && At(b, at, EncEntry(p.value)) &&
                p.next == at + |EncEntry(p.value)|
    {
      var p := ParseEntry(b, at, s.i, total, s.claimed);
      EntryParsed(b, at, s.i, total, s.claimed, p.value, p.next);
    }
  }

  // ---- The parser's running checks say that the edges form a tree ----

  ghost predicate Distinct(cs: seq<nat>) {
    forall j, k :: 0 <= j < k < |cs| ==> cs[j] != cs[k]
  }

  ghost predicate Admissible(cs: seq<nat>, i: nat, total: nat, claimed: set<nat>) {
    Distinct(cs) && forall j :: 0 <= j < |cs| ==> i < cs[j] < total && cs[j] !in claimed
  }

  lemma {:induction false} ChildrenAdmitted(cs: seq<nat>, i: nat, total: nat, claimed: set<nat>)
    ensures Children(i, total).AllOk(cs, claimed) <==> Admissible(cs, i, total, claimed)
  {
    if cs != [] {
      var c, rest := cs[0], cs[1..];
      ChildrenAdmitted(rest, i, total, claimed + {c});
      assert forall j :: 0 < j < |cs| ==> cs[j] == rest[j - 1];
      assert forall j :: 0 <= j < |rest| ==> rest[j] == cs[j + 1];
    }
  }

  /** `ForwardEdges` and `ClaimedOnce` for the entries from index `i` on. */
  ghost predicate TreeFrom(es: seq<IndexEntry>, i: nat, total: nat, claimed: set<nat>) {
    && (forall k :: 0 <= k < |es| ==> EntryFits(es[k]))
    && (forall k, j :: IsEdge(es, k, j) ==> i + k < es[k].children[j] < total && es[k].children[j] !in claimed)
    && ClaimedOnce(es)
  }

  lemma ConsEdges(e: IndexEntry, rest: seq<IndexEntry>)
    ensures var es := [e] + rest;
            && (forall j :: IsEdge(es, 0, j) <==> 0 <= j < |e.children|)
            && (forall k, j :: 0 < k && IsEdge(es, k, j) ==> es[k] == rest[k - 1] && IsEdge(rest, k - 1, j))
            && (forall k, j :: IsEdge(rest, k, j) ==> es[k + 1] == rest[k] && IsEdge(es, k + 1, j))
  {
  }

  lemma ConsTree(e: IndexEntry, rest: seq<IndexEntry>, i: nat, total: nat, claimed: set<nat>)
    ensures TreeFrom([e] + rest, i, total, claimed) <==>
            && EntryFits(e) && Admissible(e.children, i, total, claimed)
            && TreeFrom(rest, i + 1, total, claimed + Elements(e.children))
  {
    var es := [e] + rest;
    ConsEdges(e, rest);
    if TreeFrom(es, i, total, claimed) {
      TreeGivesParts(e, rest, i, total, claimed);
    }
    if EntryFits(e) && Admissible(e.children, i, total, claimed)
      && TreeFrom(rest, i + 1, total, claimed + Elements(e.children))
    {
      PartsGiveTree(e, rest, i, total, claimed);
    }
  }

  lemma TreeGivesParts(e: IndexEntry, rest: seq<IndexEntry>, i: nat, total: nat, claimed: set<nat>)
    requires TreeFrom([e] + rest, i, total, claimed)
    ensures EntryFits(e) && Admissible(e.children, i, total, claimed)
    ensures TreeFrom(rest, i + 1, total, claimed + Elements(e.children))
  {
    var es := [e] + rest;
    ConsEdges(e, rest);
    assert es[0] == e;
    forall j | 0 <= j < |e.children| ensures i < e.children[j] < total && e.children[j] !in claimed {
      assert IsEdge(es, 0, j);
    }
    forall j, k | 0 <= j < k < |e.children| ensures e.children[j] != e.children[k] {
      assert IsEdge(es, 0, j) && IsEdge(es, 0, k);
    }
    forall k | 0 <= k < |rest| ensures EntryFits(rest[k]) {
      assert es[k + 1] == rest[k];
    }
    forall k, j | IsEdge(rest, k, j)
      ensures i + 1 + k < rest[k].children[j] < total && rest[k].children[j] !in claimed + Elements(e.children)
    {
      assert IsEdge(es, k + 1, j);
      forall j' | 0 <= j' < |e.children| ensures e.children[j'] != rest[k].children[j] {
        assert IsEdge(es, 0, j');
      }
    }
  }

  lemma PartsGiveTree(e: IndexEntry, rest: seq<IndexEntry>, i: nat, total: nat, claimed: set<nat>)
    requires EntryFits(e) && Admissible(e.children, i, total, claimed)
    requires TreeFrom(rest, i + 1, total, claimed + Elements(e.children))
    ensures TreeFrom([e] + rest, i, total, claimed)
  {
    var es := [e] + rest;
    ConsEdges(e, rest);
    assert es[0] == e;
    forall k, j | IsEdge(es, k, j) ensures i + k < es[k].children[j] < total && es[k].children[j] !in claimed {
    }
    forall k, j, k', j' | IsEdge(es, k, j) && IsEdge(es, k', j') && es[k].children[j] == es[k'].children[j']
      ensures k == k' && j == j'
    {
      if k == 0 || k' == 0 {
        assert es[k].children[j] in Elements(e.children);
      } else {
        assert IsEdge(rest, k - 1, j) && IsEdge(rest, k' - 1, j');
      }
    }
  }

  lemma {:induction false} EntriesFormATree(es: seq<IndexEntry>, i: nat, total: nat, claimed: set<nat>)
    ensures Entries(total).AllOk(es, Seen(i, claimed)) <==> TreeFrom(es, i, total, claimed)
    decreases |es|
  {
    if es != [] {
      var e, rest := es[0], es[1..];
      ChildrenAdmitted(e.children, i, total, claimed);
      EntriesFormATree(rest, i + 1, total, claimed + Elements(e.children));
      ConsTree(e, rest, i, total, claimed);
      assert es == [e] + rest;
    }
  }

  // ---- The whole file ----

  function EncIdentity(ix: Index): Bytes {
    Little(ix.dev, 8) + (Little(ix.ino, 8) + Little(Unsigned(ix.written), 8))
  }

  function EncHead(ix: Index): Bytes {
    MAGIC + (Little(VERSION, 4) + (EncBytes(ix.root) + EncIdentity(ix)))
  }

  function EncExclude(ps: seq<Bytes>): Bytes {
    EncLen(|ps|) + Patterns().EncAll(ps)
  }

  function EncEntries(es: seq<IndexEntry>): Bytes {
    EncLen(|es|) + Entries(0).EncAll(es)
  }

  function Enc(ix: Index): Bytes {
    EncHead(ix) + (EncExclude(ix.exclude) + EncEntries(ix.entries))
  }

  function ParseIdentity(b: Bytes, at: nat, root: Bytes): Parsed<Index> {
    match ParseNat(b, at, 8)
    case Fail => Fail
    case Ok(dev, a1) =>
      match ParseNat(b, a1, 8)
      case Fail => Fail
      case Ok(ino, a2) =>
        match ParseI64(b, a2)
        case Fail => Fail
        case Ok(written, a3) => Ok(Index(root, dev, ino, written, [], []), a3)
  }

  /** Magic, version, root, identity and write time, as an index without patterns or entries. */
  function ParseHead(b: Bytes): Parsed<Index> {
    match ParseTake(b, 0, |MAGIC|)
    case Fail => Fail
    case Ok(magic, a1) =>
      if magic != MAGIC then Fail
      else match ParseNat(b, a1, 4)
        case Fail => Fail
        case Ok(version, a2) =>
          if version != VERSION then Fail
          else match ParseBytes(b, a2)
            case Fail => Fail
            case Ok(root, a3) => ParseIdentity(b, a3, root)
  }

  function ParseExclude(b: Bytes, at: nat): Parsed<seq<Bytes>> {
    match ParseCount(b, at, 4)
    case Fail => Fail
    case Ok(n, next) => Patterns().ParseAll(b, next, n, ())
  }

  function ParseEntries(b: Bytes, at: nat): Parsed<seq<IndexEntry>> {
    match ParseCount(b, at, MIN_ENTRY_BYTES)
    case Fail => Fail
    case Ok(total, next) => Entries(total).ParseAll(b, next, total, Seen(0, {}))
  }

  /** Everything after the head, checked as a whole once the bytes are used up. */
  ghost function Parse(b: Bytes): Option<Index> {
    match ParseHead(b)
    case Fail => None
    case Ok(head, a1) =>
      match ParseExclude(b, a1)
      case Fail => None
      case Ok(exclude, a2) =>
        match ParseEntries(b, a2)
        case Fail => None
        case Ok(entries, a3) =>
          if a3 == |b| && entries != [] && entries[0].rel == [] && AllClaimed(entries)
          then Some(head.(exclude := exclude, entries := entries))
          else None
  }

  lemma IdentityAt(b: Bytes, at: nat, ix: Index, next: nat)
    requires ix.exclude == [] && ix.entries == []
    ensures |EncIdentity(ix)| == 24
    ensures ParseIdentity(b, at, ix.root) == Ok(ix, next) <==>
            ix.dev < U64 && ix.ino < U64 && IsI64(ix.written) && next == at + 24 && At(b, at, EncIdentity(ix))
  {
    Widths();
    var dev, ino, written := Little(ix.dev, 8), Little(ix.ino, 8), Little(Unsigned(ix.written), 8);
    AtSplit(b, at, dev, ino + written);
    AtSplit(b, at + 8, ino, written);
    NatAt(b, at, 8, ix.dev, at + 8);
    NatAt(b, at + 8, 8, ix.ino, at + 16);
    I64At(b, at + 16, ix.written, at + 24);
  }

  lemma HeadSplit(b: Bytes, ix: Index)
    ensures |EncHead(ix)| == 12 + |EncBytes(ix.root)| + |EncIdentity(ix)|
    ensures At(b, 0, EncHead(ix)) <==>
            && At(b, 0, MAGIC) && At(b, 8, Little(VERSION, 4)) && At(b, 12, EncBytes(ix.root))
            && At(b, 12 + |EncBytes(ix.root)|, EncIdentity(ix))
  {
    var root, id := EncBytes(ix.root), EncIdentity(ix);
    AtSplit(b, 0, MAGIC, Little(VERSION, 4) + (root + id));
    AtSplit(b, 8, Little(VERSION, 4), root + id);
    AtSplit(b, 12, root, id);
  }

  lemma HeadAt(b: Bytes, ix: Index, next: nat)
    requires ix.exclude == [] && ix.entries == []
    ensures ParseHead(b) == Ok(ix, next) <==> HeadFits(ix) && next == |EncHead(ix)| && At(b, 0, EncHead(ix))
  {
    Widths();
    HeadSplit(b, ix);
    NatAt(b, 8, 4, VERSION, 12);
    BytesAt(b, 12, ix.root, 12 + |EncBytes(ix.root)|);
    IdentityAt(b, 12 + |EncBytes(ix.root)|, ix, next);
    match ParseBytes(b, 12)
    case Fail =>
    case Ok(root, a) => BytesAt(b, 12, root, a);
  }

  lemma {:induction false} ExcludeFound(b: Bytes, at: nat, ps: seq<Bytes>)
    requires |ps| < U32 && Patterns().AllOk(ps, ()) && At(b, at, EncExclude(ps))
    ensures ParseExclude(b, at) == Ok(ps, at + |EncExclude(ps)|)
  {
    AtSplit(b, at, EncLen(|ps|), Patterns().EncAll(ps));
    Patterns().AtLeast(ps, 4);
    CountAt(b, at, 4, |ps|, at + 4);
    PatternsAreFaithful(b);
    Patterns().AllFound(b, at + 4, ps, ());
  }

  lemma {:induction false} ExcludeParsed(b: Bytes, at: nat, ps: seq<Bytes>, next: nat)
    requires ParseExclude(b, at) == Ok(ps, next)
    ensures |ps| < U32 && Patterns().AllOk(ps, ()) && At(b, at, EncExclude(ps)) && next == at + |EncExclude(ps)|
  {
    var n := ParseCount(b, at, 4).value;
    CountAt(b, at, 4, n, at + 4);
    PatternsAreFaithful(b);
    Patterns().AllParsed(b, at + 4, n, (), ps, next);
    AtSplit(b, at, EncLen(n), Patterns().EncAll(ps));
  }

  lemma {:induction false} ShortPatterns(ps: seq<Bytes>)
    ensures Patterns().AllOk(ps, ()) <==> forall k :: 0 <= k < |ps| ==> |ps[k]| < U32
  {
    if ps != [] {
      ShortPatterns(ps[1..]);
      assert forall k :: 0 < k < |ps| ==> ps[k] == ps[1..][k - 1];
      assert forall k :: 0 <= k < |ps| - 1 ==> ps[1..][k] == ps[k + 1];
    }
  }

  lemma {:induction false} EntriesEncAlike(total: nat, es: seq<IndexEntry>)
    ensures Entries(total).EncAll(es) == Entries(0).EncAll(es)
  {
    if es != [] {
      EntriesEncAlike(total, es[1..]);
    }
  }

  lemma {:induction false} EntriesTakeRoom(total: nat, es: seq<IndexEntry>)
    ensures |Entries(total).EncAll(es)| >= |es| * MIN_ENTRY_BYTES
  {
    Entries(total).AtLeast(es, MIN_ENTRY_BYTES);
  }

  lemma EntriesFound(b: Bytes, at: nat, es: seq<IndexEntry>)
    requires |es| < U32 && TreeFrom(es, 0, |es|, {}) && At(b, at, EncEntries(es))
    ensures ParseEntries(b, at) == Ok(es, at + |EncEntries(es)|)
  {
    var total := |es|;
    EntriesEncAlike(total, es);
    EntriesFormATree(es, 0, total, {});
    AtSplit(b, at, EncLen(total), Entries(total).EncAll(es));
    EntriesFollow(b, at, es, total);
  }

  lemma {:induction false} EntriesFollow(b: Bytes, at: nat, es: seq<IndexEntry>, total: nat)
    requires |es| == total < U32 && Entries(total).AllOk(es, Seen(0, {}))
    requires At(b, at, EncLen(total)) && At(b, at + 4, Entries(total).EncAll(es))
    ensures ParseEntries(b, at) == Ok(es, at + 4 + |Entries(total).EncAll(es)|)
  {
    EntriesTakeRoom(total, es);
    CountAt(b, at, MIN_ENTRY_BYTES, total, at + 4);
    EntriesAreFaithful(b, total);
    Entries(total).AllFound(b, at + 4, es, Seen(0, {}));
  }

  lemma EntriesParsed(b: Bytes, at: nat, es: seq<IndexEntry>, next: nat)
    requires ParseEntries(b, at) == Ok(es, next)
    ensures |es| < U32 && TreeFrom(es, 0, |es|, {}) && At(b, at, EncEntries(es)) && next == at + |EncEntries(es)|
  {
    var total := ParseCount(b, at, MIN_ENTRY_BYTES).value;
    CountAt(b, at, MIN_ENTRY_BYTES, total, at + 4);
    EntriesAreFaithful(b, total);
    Entries(total).AllParsed(b, at + 4, total, Seen(0, {}), es, next);
    EntriesFormATree(es, 0, total, {});
    EntriesEncAlike(total, es);
    AtSplit(b, at, EncLen(total), Entries(total).EncAll(es));
  }

  /** Parsing accepts exactly the encodings of well-formed indexes, so a file has one meaning and an
      index one file. */
  lemma ParsingInvertsEncoding(b: Bytes, ix: Index)
    ensures Parse(b) == Some(ix) <==> WellFormed(ix) && Enc(ix) == b
  {
    if WellFormed(ix) && Enc(ix) == b {
      EncodingParses(b, ix);
    }
    if Parse(b) == Some(ix) {
      ParsedIsCanonical(b, ix);
    }
  }

  lemma WholeSplit(b: Bytes, ix: Index)
    ensures |Enc(ix)| == |EncHead(ix)| + |EncExclude(ix.exclude)| + |EncEntries(ix.entries)|
    ensures At(b, 0, Enc(ix)) <==>
            && At(b, 0, EncHead(ix)) && At(b, |EncHead(ix)|, EncExclude(ix.exclude))
            && At(b, |EncHead(ix)| + |EncExclude(ix.exclude)|, EncEntries(ix.entries))
    ensures Enc(ix) == b <==> |b| == |Enc(ix)| && At(b, 0, Enc(ix))
  {
    var head, exclude, entries := EncHead(ix), EncExclude(ix.exclude), EncEntries(ix.entries);
    AtSplit(b, 0, head, exclude + entries);
    AtSplit(b, |head|, exclude, entries);
  }

  lemma HeadAlone(ix: Index)
    ensures EncHead(ix.(exclude := [], entries := [])) == EncHead(ix)
  {
  }

  lemma HeadIsFirst(b: Bytes, ix: Index, a1: nat)
    ensures ParseHead(b) == Ok(ix.(exclude := [], entries := []), a1) <==>
            HeadFits(ix) && a1 == |EncHead(ix)| && At(b, 0, EncHead(ix))
  {
    HeadAlone(ix);
    HeadAt(b, ix.(exclude := [], entries := []), a1);
  }

  ghost predicate Parts(b: Bytes, ix: Index, a1: nat, a2: nat) {
    && ParseHead(b) == Ok(ix.(exclude := [], entries := []), a1)
    && ParseExclude(b, a1) == Ok(ix.exclude, a2)
    && ParseEntries(b, a2) == Ok(ix.entries, |b|)
    && ix.entries != [] && ix.entries[0].rel == [] && AllClaimed(ix.entries)
  }

  lemma PartsParse(b: Bytes, ix: Index, a1: nat, a2: nat)
    requires Parts(b, ix, a1, a2)
    ensures Parse(b) == Some(ix)
  {
  }

  lemma EncodingParses(b: Bytes, ix: Index)
    requires WellFormed(ix) && b == Enc(ix)
    ensures Parse(b) == Some(ix)
  {
    var a1 := |EncHead(ix)|;
    var a2 := a1 + |EncExclude(ix.exclude)|;
    WholeSplit(b, ix);
    LaidOut(b, ix, a1, a2);
    PartsParse(b, ix, a1, a2);
  }

  lemma LaidOut(b: Bytes, ix: Index, a1: nat, a2: nat)
    requires WellFormed(ix) && At(b, 0, EncHead(ix)) && At(b, a1, EncExclude(ix.exclude)) &&
             At(b, a2, EncEntries(ix.entries))
    requires a1 == |EncHead(ix)| && a2 == a1 + |EncExclude(ix.exclude)| && |b| == a2 + |EncEntries(ix.entries)|
    ensures Parts(b, ix, a1, a2)
  {
    HeadIsFirst(b, ix, a1);
    ExcludeIsNext(b, a1, ix.exclude);
    EntriesFound(b, a2, ix.entries);
  }

  lemma ExcludeIsNext(b: Bytes, at: nat, ps: seq<Bytes>)
    requires |ps| < U32 && (forall k :: 0 <= k < |ps| ==> |ps[k]| < U32) && At(b, at, EncExclude(ps))
    ensures ParseExclude(b, at) == Ok(ps, at + |EncExclude(ps)|)
  {
    ShortPatterns(ps);
    ExcludeFound(b, at, ps);
  }

  lemma ParsedIsCanonical(b: Bytes, ix: Index)
    requires Parse(b) == Some(ix)
    ensures WellFormed(ix) && Enc(ix) == b
  {
    var a1 := ParseHead(b).next;
    var a2 := ParseExclude(b, a1).next;
    assert Parts(b, ix, a1, a2);
    PartsAreWellFormed(b, ix, a1, a2);
    PartsAreCanonical(b, ix, a1, a2);
  }

  lemma PartsAreWellFormed(b: Bytes, ix: Index, a1: nat, a2: nat)
    requires Parts(b, ix, a1, a2)
    ensures WellFormed(ix)
  {
    HeadIsFirst(b, ix, a1);
    ExcludeParsed(b, a1, ix.exclude, a2);
    EntriesParsed(b, a2, ix.entries, |b|);
    ShortPatterns(ix.exclude);
  }

  lemma PartsAreCanonical(b: Bytes, ix: Index, a1: nat, a2: nat)
    requires Parts(b, ix, a1, a2)
    ensures Enc(ix) == b
  {
    HeadIsFirst(b, ix, a1);
    ExcludeParsed(b, a1, ix.exclude, a2);
    EntriesParsed(b, a2, ix.entries, |b|);
    LaidOutIsEncoded(b, ix, a1, a2);
  }

  lemma LaidOutIsEncoded(b: Bytes, ix: Index, a1: nat, a2: nat)
    requires At(b, 0, EncHead(ix)) && At(b, a1, EncExclude(ix.exclude)) && At(b, a2, EncEntries(ix.entries))
    requires a1 == |EncHead(ix)| && a2 == a1 + |EncExclude(ix.exclude)| && |b| == a2 + |EncEntries(ix.entries)|
    ensures Enc(ix) == b
  {
    ThreeInARow(b, EncHead(ix), EncExclude(ix.exclude), EncEntries(ix.entries));
  }

  lemma ThreeInARow(b: Bytes, x: Bytes, y: Bytes, z: Bytes)
    requires At(b, 0, x) && At(b, |x|, y) && At(b, |x| + |y|, z) && |b| == |x| + |y| + |z|
    ensures x + (y + z) == b
  {
    AtSplit(b, |x|, y, z);
    AtSplit(b, 0, x, y + z);
    assert b[0..|b|] == b;
  }
}
