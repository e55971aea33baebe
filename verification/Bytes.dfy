/** Byte strings, as every path, name and file in the program is handled. */
module Bytes {
  type byte = x: int | 0 <= x < 256

  type Bytes = seq<byte>

  const NUL: byte := 0
  const DOT: byte := 0x2e
  const SLASH: byte := 0x2f

  const DOT_GIT: Bytes := [0x2e, 0x67, 0x69, 0x74]
  const DOT_PATH: Bytes := [DOT]
  const DOT_DOT: Bytes := [DOT, DOT]

  datatype Option<+T> = None | Some(value: T)

  predicate EndsWith(s: Bytes, suffix: Bytes) {
    |suffix| <= |s| && s[|s| - |suffix|..] == suffix
  }

  predicate StartsWith(s: Bytes, prefix: Bytes) {
    |prefix| <= |s| && s[..|prefix|] == prefix
  }

  /** The position of the last `b` in `s`, or -1: `memrchr`. */
  function LastIndexOf(s: Bytes, b: byte): (i: int)
    ensures -1 <= i < |s|
    ensures 0 <= i ==> s[i] == b
    ensures forall j :: i < j < |s| ==> s[j] != b
  {
    if s == [] then -1
    else if s[|s| - 1] == b then |s| - 1
    else LastIndexOf(s[..|s| - 1], b)
  }

  /** The position of the first `b` in `s`, or |s|: `memchr`. */
  function FirstIndexOf(s: Bytes, b: byte): (i: nat)
    ensures i <= |s|
    ensures i < |s| ==> s[i] == b
    ensures forall j :: 0 <= j < i ==> s[j] != b
  {
    if s == [] then 0
    else if s[0] == b then 0
    else 1 + FirstIndexOf(s[1..], b)
  }

  // Byte order, which is how paths sort.

  predicate Lt(a: Bytes, b: Bytes) {
    if b == [] then false
    else if a == [] then true
    else if a[0] != b[0] then a[0] < b[0]
    else Lt(a[1..], b[1..])
  }

  predicate Le(a: Bytes, b: Bytes) {
    a == b || Lt(a, b)
  }

  lemma {:induction false} LtTotal(a: Bytes, b: Bytes)
    ensures Lt(a, b) || a == b || Lt(b, a)
  {
    if a != [] && b != [] && a[0] == b[0] {
      LtTotal(a[1..], b[1..]);
      assert a == [a[0]] + a[1..] && b == [b[0]] + b[1..];
    }
  }

  lemma {:induction false} LtTransitive(a: Bytes, b: Bytes, c: Bytes)
    requires Lt(a, b) && Lt(b, c)
    ensures Lt(a, c)
  {
    if a != [] && a[0] == b[0] && b[0] == c[0] {
      LtTransitive(a[1..], b[1..], c[1..]);
    }
  }

  lemma {:induction false} LtIrreflexive(a: Bytes)
    ensures !Lt(a, a)
  {
    if a != [] {
      LtIrreflexive(a[1..]);
    }
  }

  /** A proper prefix sorts first, so a parent directory precedes its children. */
  lemma {:induction false} PrefixIsLess(a: Bytes, b: Bytes)
    requires |a| < |b| && b[..|a|] == a
    ensures Lt(a, b)
  {
    if a != [] {
      assert b[1..][..|a[1..]|] == b[..|a|][1..];
      PrefixIsLess(a[1..], b[1..]);
    }
  }
}
