/** Root-relative paths: how the walk joins them, how the index splits them. */
module Paths {
  import opened Bytes

  /** A name `readdir` can return once `.` and `..` have been dropped. */
  predicate IsName(name: Bytes) {
    name != [] && SLASH !in name && NUL !in name && name != DOT_PATH && name != DOT_DOT
  }

  function JoinRel(rel: Bytes, name: Bytes): Bytes {
    if rel == [] then name else rel + [SLASH] + name
  }

  function ParentOf(rel: Bytes): (parent: Bytes)
    ensures rel != [] ==> |parent| < |rel|
  {
    var i := LastIndexOf(rel, SLASH);
    if 0 <= i then rel[..i] else []
  }

  function Basename(rel: Bytes): Bytes {
    var i := LastIndexOf(rel, SLASH);
    if 0 <= i then rel[i + 1..] else rel
  }

  /** Joining a name to a directory's path and splitting it again are inverse. */
  lemma JoinSplits(rel: Bytes, name: Bytes)
    requires IsName(name)
    ensures JoinRel(rel, name) != []
    ensures ParentOf(JoinRel(rel, name)) == rel
    ensures Basename(JoinRel(rel, name)) == name
    ensures |rel| < |JoinRel(rel, name)|
  {
    var path := JoinRel(rel, name);
    var i := LastIndexOf(path, SLASH);
    if rel == [] {
      assert i == -1;
    } else {
      assert path[|rel|] == SLASH;
      assert forall j :: |rel| < j < |path| ==> path[j] == name[j - |rel| - 1];
      assert i == |rel|;
    }
  }

  /** `rel` is `base` or lies somewhere underneath it. */
  predicate Below(base: Bytes, rel: Bytes)
    decreases |rel|
  {
    rel == base || (rel != [] && Below(base, ParentOf(rel)))
  }

  lemma {:induction false} BelowIsLonger(base: Bytes, rel: Bytes)
    requires Below(base, rel)
    ensures |base| <= |rel|
    ensures |base| == |rel| ==> base == rel
    decreases |rel|
  {
    if rel != base {
      BelowIsLonger(base, ParentOf(rel));
    }
  }

  lemma {:induction false} BelowTransitive(a: Bytes, b: Bytes, c: Bytes)
    requires Below(a, b) && Below(b, c)
    ensures Below(a, c)
    decreases |c|
  {
    if b != c {
      BelowTransitive(a, b, ParentOf(c));
    }
  }

  lemma {:induction false} EverythingIsBelowTheRoot(rel: Bytes)
    ensures Below([], rel)
    decreases |rel|
  {
    if rel != [] {
      EverythingIsBelowTheRoot(ParentOf(rel));
    }
  }

  /** Of two directories above one path, one is above the other. */
  lemma {:induction false} BelowIsLinear(a: Bytes, b: Bytes, rel: Bytes)
    requires Below(a, rel) && Below(b, rel)
    ensures Below(a, b) || Below(b, a)
    decreases |rel|
  {
    if rel != a && rel != b {
      BelowIsLinear(a, b, ParentOf(rel));
    }
  }

  /** Two different entries of one directory share nothing underneath. */
  lemma {:induction false} SiblingsAreApart(a: Bytes, b: Bytes, rel: Bytes)
    requires a != [] && b != [] && a != b && ParentOf(a) == ParentOf(b)
    requires Below(a, rel)
    ensures !Below(b, rel)
    decreases |rel|
  {
    if Below(b, rel) {
      BelowIsLonger(a, rel);
      BelowIsLonger(b, rel);
      if rel == a {
        BelowIsLonger(b, ParentOf(a));
      } else if rel == b {
        BelowIsLonger(a, ParentOf(b));
      } else {
        SiblingsAreApart(a, b, ParentOf(rel));
      }
    }
  }

  // Which decoded paths may be handed to `statat`.

  /** The components between slashes, as `split` yields them. */
  function Split(s: Bytes): (parts: seq<Bytes>)
    ensures parts != []
    decreases |s|
  {
    var i := LastIndexOf(s, SLASH);
    if i < 0 then [s] else Split(s[..i]) + [s[i + 1..]]
  }

  predicate IsPart(part: Bytes) {
    part != [] && part != DOT_PATH && part != DOT_DOT
  }

  predicate AllParts(parts: seq<Bytes>) {
    forall k :: 0 <= k < |parts| ==> IsPart(parts[k])
  }

  lemma AllPartsOfMore(parts: seq<Bytes>, last: Bytes)
    ensures AllParts(parts + [last]) <==> AllParts(parts) && IsPart(last)
  {
    var more := parts + [last];
    assert more[|parts|] == last;
    assert forall k :: 0 <= k < |parts| ==> more[k] == parts[k];
  }

  predicate IsSafeRel(rel: Bytes) {
    rel == [] ||
    (rel[0] != SLASH && NUL !in rel && AllParts(Split(rel)))
  }

  /** What the walk can build: names joined one at a time, starting from the root. */
  predicate IsWalkPath(rel: Bytes)
    decreases |rel|
  {
    rel == [] ||
    (IsName(Basename(rel)) && rel == JoinRel(ParentOf(rel), Basename(rel)) && IsWalkPath(ParentOf(rel)))
  }

  lemma {:induction false} JoinOfSplit(rel: Bytes)
    requires LastIndexOf(rel, SLASH) > 0
    ensures ParentOf(rel) != [] && rel == JoinRel(ParentOf(rel), Basename(rel))
    ensures SLASH !in Basename(rel) && rel[0] == ParentOf(rel)[0]
    ensures NUL in rel <==> NUL in ParentOf(rel) || NUL in Basename(rel)
  {
    var i := LastIndexOf(rel, SLASH);
    assert rel == rel[..i] + [SLASH] + rel[i + 1..];
    assert forall k :: 0 <= k < |Basename(rel)| ==> Basename(rel)[k] == rel[i + 1 + k];
  }

  lemma {:induction false} SafeNested(rel: Bytes)
    requires LastIndexOf(rel, SLASH) > 0
    ensures IsSafeRel(rel) <==> IsSafeRel(ParentOf(rel)) && IsName(Basename(rel))
  {
    JoinOfSplit(rel);
    AllPartsOfMore(Split(ParentOf(rel)), Basename(rel));
  }

  /** The decoder's check admits exactly the paths a walk can have produced. */
  lemma {:induction false} SafeMeansWalkable(rel: Bytes)
    ensures IsSafeRel(rel) <==> IsWalkPath(rel)
    decreases |rel|
  {
    if rel != [] {
      var i := LastIndexOf(rel, SLASH);
      if i < 0 {
        assert Split(rel)[0] == rel && IsWalkPath([]);
      } else if i > 0 {
        JoinOfSplit(rel);
        SafeNested(rel);
        SafeMeansWalkable(ParentOf(rel));
      }
    }
  }
}
