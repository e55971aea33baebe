/** One index file, byte by byte: the magic, the version, the head, the patterns and the entries are where the
    program puts them, little end first. */
module IndexLayout {
  import opened Bytes
  import opened Paths
  import opened IndexFormat

  function Times(b: byte, n: nat): Bytes {
    seq(n, _ => b)
  }

  lemma {:induction false} ZeroBytes(width: nat)
    ensures Little(0, width) == Times(0, width)
  {
    if width > 0 {
      ZeroBytes(width - 1);
      assert Times(0, width) == [0] + Times(0, width - 1);
    }
  }

  lemma {:induction false} OneBytes(width: nat)
    ensures Pow256(width) > 0 && Little(Pow256(width) - 1, width) == Times(0xff, width)
  {
    if width > 0 {
      OneBytes(width - 1);
      var n := Pow256(width) - 1;
      assert n == 256 * (Pow256(width - 1) - 1) + 255;
      assert n % 256 == 255 && n / 256 == Pow256(width - 1) - 1;
      assert Times(0xff, width) == [0xff] + Times(0xff, width - 1);
    }
  }

  lemma {:induction false} SmallNumber(n: nat, width: nat)
    requires n < 256 && width > 0
    ensures Little(n, width) == [n] + Times(0, width - 1)
  {
    ZeroBytes(width - 1);
  }

  lemma SmallLength(n: nat)
    requires n < 256
    ensures EncLen(n) == [n, 0, 0, 0]
  {
    SmallNumber(n, 4);
  }

  lemma MinusTwo()
    ensures Little(Unsigned(-2), 8) == [0xfe] + Times(0xff, 7)
  {
    Widths();
    OneBytes(7);
    assert Pow256(8) == 256 * Pow256(7);
    var n := Unsigned(-2);
    assert n == U64 - 2 == 256 * (Pow256(7) - 1) + 254;
    assert n % 256 == 254 && n / 256 == Pow256(7) - 1;
  }

  const SAMPLE_ROOT := IndexEntry([], Some(-2), [1])
  const SAMPLE_REPOSITORY := IndexEntry([0x61], None, [])

  /** A root `/r` that excludes `x` and holds one repository, `a`. */
  const SAMPLE := Index([0x2f, 0x72], 0x0102, 3, 4, [[0x78]], [SAMPLE_ROOT, SAMPLE_REPOSITORY])

  lemma NumbersOfSample()
    ensures Little(0x0102, 8) == [2, 1, 0, 0, 0, 0, 0, 0]
    ensures Little(3, 8) == [3, 0, 0, 0, 0, 0, 0, 0] && Little(Unsigned(4), 8) == [4, 0, 0, 0, 0, 0, 0, 0]
  {
    SmallNumber(1, 7);
    SmallNumber(3, 8);
    SmallNumber(4, 8);
    assert Little(0x0102, 8) == [2] + Little(1, 7);
  }

  lemma StartOfSample()
    ensures MAGIC == [0x53, 0x43, 0x41, 0x50, 0x49, 0x44, 0x58, 0] && Little(VERSION, 4) == [1, 0, 0, 0]
    ensures EncBytes(SAMPLE.root) == [2, 0, 0, 0, 0x2f, 0x72]
  {
    SmallNumber(1, 4);
    SmallLength(2);
  }

  lemma HeadOfSample()
    ensures EncHead(SAMPLE) ==
            [0x53, 0x43, 0x41, 0x50, 0x49, 0x44, 0x58, 0] + ([1, 0, 0, 0] + ([2, 0, 0, 0, 0x2f, 0x72] +
            ([2, 1, 0, 0, 0, 0, 0, 0] + ([3, 0, 0, 0, 0, 0, 0, 0] + [4, 0, 0, 0, 0, 0, 0, 0]))))
  {
    StartOfSample();
    NumbersOfSample();
  }

  lemma PatternsOfSample()
    ensures EncExclude(SAMPLE.exclude) == [1, 0, 0, 0, 1, 0, 0, 0, 0x78]
  {
    SmallLength(1);
    var ps := SAMPLE.exclude;
    assert ps[1..] == [];
    assert Patterns().EncAll(ps[1..]) == [];
    assert Patterns().enc(ps[0]) == EncBytes(ps[0]);
  }

  lemma RootOfSample()
    ensures EncEntry(SAMPLE_ROOT) == [1, 0, 0, 0, 0, 0xfe] + Times(0xff, 7) + [1, 0, 0, 0, 1, 0, 0, 0]
  {
    SmallLength(0);
    SmallLength(1);
    SmallNumber(1, 4);
    MinusTwo();
    var cs := SAMPLE_ROOT.children;
    assert cs[1..] == [];
    assert Children(0, 0).EncAll(cs[1..]) == [];
    assert Children(0, 0).enc(cs[0]) == Little(1, 4);
    assert EncBytes([]) == [0, 0, 0, 0];
  }

  lemma RepositoryOfSample()
    ensures EncEntry(SAMPLE_REPOSITORY) == [0, 1, 0, 0, 0, 0x61]
  {
    SmallLength(1);
  }

  lemma EntriesOfSample()
    ensures EncEntries(SAMPLE.entries) == [2, 0, 0, 0] + EncEntry(SAMPLE_ROOT) + EncEntry(SAMPLE_REPOSITORY)
  {
    SmallLength(2);
    var es := SAMPLE.entries;
    var rest := es[1..];
    assert rest == [SAMPLE_REPOSITORY] && rest[1..] == [];
    assert Entries(0).EncAll(rest[1..]) == [];
    assert Entries(0).enc(rest[0]) == EncEntry(SAMPLE_REPOSITORY);
    assert Entries(0).enc(es[0]) == EncEntry(SAMPLE_ROOT);
    assert Entries(0).EncAll(rest) == EncEntry(SAMPLE_REPOSITORY);
    assert Entries(0).EncAll(es) == EncEntry(SAMPLE_ROOT) + EncEntry(SAMPLE_REPOSITORY);
  }

  function SampleFile(): Bytes {
    [0x53, 0x43, 0x41, 0x50, 0x49, 0x44, 0x58, 0] + ([1, 0, 0, 0] + ([2, 0, 0, 0, 0x2f, 0x72] +
    ([2, 1, 0, 0, 0, 0, 0, 0] + ([3, 0, 0, 0, 0, 0, 0, 0] + [4, 0, 0, 0, 0, 0, 0, 0])))) +
    ([1, 0, 0, 0, 1, 0, 0, 0, 0x78] +
     ([2, 0, 0, 0] + ([1, 0, 0, 0, 0, 0xfe] + Times(0xff, 7) + [1, 0, 0, 0, 1, 0, 0, 0]) + [0, 1, 0, 0, 0, 0x61]))
  }

  /** These bytes, and no others, are this index's file. */
  lemma SampleIsLaidOut(b: Bytes)
    ensures Parse(b) == Some(SAMPLE) <==> b == SampleFile()
  {
    SampleEncodes(SAMPLE);
    SampleIsWellFormed();
    ParsingInvertsEncoding(b, SAMPLE);
  }

  lemma SampleEncodes(ix: Index)
    requires ix == SAMPLE
    ensures Enc(ix) == SampleFile()
  {
    HeadOfSample();
    PatternsOfSample();
    RootOfSample();
    RepositoryOfSample();
    EntriesOfSample();
  }

  lemma SampleIsWellFormed()
    ensures WellFormed(SAMPLE)
  {
    var es := SAMPLE.entries;
    assert IsEdge(es, 0, 0) && es[0].children[0] == 1;
    forall i, j | IsEdge(es, i, j) ensures i == 0 && j == 0 {}
    SafeMeansWalkable([]);
    SafeMeansWalkable([0x61]);
    assert EntryFits(es[0]) && EntryFits(es[1]);
  }
}
