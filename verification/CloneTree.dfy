/** The directories clones are made in, as a map over component paths, and what creating, removing and
    renaming do to everything at or below a path. */
module CloneTree {
  import opened Bytes
  import opened TmpNames

  /** Components below the file system's root. */
  type Path = seq<Bytes>

  /** `q` is `p` or lies below it. */
  predicate Within(p: Path, q: Path) {
    |p| <= |q| && q[..|p|] == p
  }

  function Parent(p: Path): Path
    requires p != []
  {
    p[..|p| - 1]
  }

  function Name(p: Path): Bytes
    requires p != []
  {
    p[|p| - 1]
  }

  function Sibling(p: Path, name: Bytes): Path
    requires p != []
  {
    Parent(p) + [name]
  }

  /** A plain directory holding what is listed below it; one that holds part of a clone, or anything else;
      one that holds a whole clone; or a file, with its identity. */
  datatype Entry = Folder | Broken | Whole | File(id: nat)

  type Tree = map<Path, Entry>

  predicate IsDirectory(t: Tree, p: Path) {
    p in t && !t[p].File?
  }

  /** Every entry lies in a directory. */
  ghost predicate Closed(t: Tree) {
    IsDirectory(t, []) && forall p :: p in t && p != [] ==> IsDirectory(t, Parent(p))
  }

  /** Nothing there, or an empty directory. */
  ghost predicate Vacant(t: Tree, p: Path) {
    p in t ==> t[p].Folder? && forall q :: q in t && Within(p, q) ==> q == p
  }

  // ---- What stays the same ----

  predicate SameAt(a: Tree, b: Tree, p: Path) {
    (p in a <==> p in b) && (p in a ==> a[p] == b[p])
  }

  ghost predicate SameWithin(a: Tree, b: Tree, p: Path) {
    forall q :: Within(p, q) ==> SameAt(a, b, q)
  }

  /** The same directory, or none in both. */
  predicate SameDirectory(a: Tree, b: Tree, p: Path) {
    (IsDirectory(a, p) <==> IsDirectory(b, p)) && (IsDirectory(a, p) ==> a[p] == b[p])
  }

  ghost predicate SameDirectoriesWithin(a: Tree, b: Tree, p: Path) {
    forall q :: Within(p, q) ==> SameDirectory(a, b, q)
  }

  // ---- What the calls do ----

  function Prefixes(p: Path): (all: set<Path>)
    ensures forall q :: q in all <==> Within(q, p)
  {
    set k | 0 <= k <= |p| :: p[..k]
  }

  /** `create_dir_all`: it fails on a file and otherwise makes what is missing. */
  predicate CanMake(t: Tree, p: Path) {
    forall q :: q in Prefixes(p) ==> q !in t || !t[q].File?
  }

  function Made(t: Tree, p: Path): Tree {
    map q | q in t.Keys + Prefixes(p) :: if q in t then t[q] else Folder
  }

  /** `remove_dir_all`, finished or not: nothing but what is at or below `p` goes, a directory after what is
      in it, and a clone may be left with part of its files. It does nothing to a file. */
  ghost predicate Removes(t: Tree, left: Tree, p: Path) {
    && (forall q :: q in left ==> q in t && (left[q] == t[q] || (t[q].Whole? && left[q].Broken?)))
    && (forall q :: !Within(p, q) ==> SameAt(t, left, q))
    && (Closed(t) ==> Closed(left))
    && (IsDirectory(t, p) || left == t)
  }

  function Without(t: Tree, p: Path): Tree {
    map q | q in t && !Within(p, q) :: t[q]
  }

  /** `rename` of a directory: onto nothing or an empty directory, with everything in it. */
  ghost predicate CanMove(t: Tree, from: Path, to: Path) {
    from in t && (to !in t || (Vacant(t, to) && IsDirectory(t, from)))
  }

  function Moved(t: Tree, from: Path, to: Path): Tree {
    Without(t, from) + Transplanted(t, from, to)
  }

  function Transplanted(t: Tree, from: Path, to: Path): Tree {
    map q | q in (set r | r in t && Within(from, r) :: to + r[|from|..]) && from + q[|to|..] in t :: t[from + q[|to|..]]
  }

  lemma TransplantedHas(t: Tree, from: Path, to: Path, q: Path)
    ensures q in Transplanted(t, from, to) <==> Within(to, q) && from + q[|to|..] in t
    ensures q in Transplanted(t, from, to) ==> Transplanted(t, from, to)[q] == t[from + q[|to|..]]
  {
    if Within(to, q) && from + q[|to|..] in t {
      var r := from + q[|to|..];
      assert r[..|from|] == from && r[|from|..] == q[|to|..];
      assert to + r[|from|..] == q;
    }
    if q in Transplanted(t, from, to) {
      var r :| r in t && Within(from, r) && q == to + r[|from|..];
      assert q[..|to|] == to;
    }
  }

  lemma MovedHas(t: Tree, from: Path, to: Path, q: Path)
    requires !Within(to, from) && !Within(from, to)
    ensures q in Moved(t, from, to) <==>
            if Within(to, q) then from + q[|to|..] in t || q in t else q in t && !Within(from, q)
    ensures q in Moved(t, from, to) ==>
            Moved(t, from, to)[q] == if Within(to, q) && from + q[|to|..] in t then t[from + q[|to|..]] else t[q]
  {
    TransplantedHas(t, from, to, q);
    if Within(to, q) && Within(from, q) {
      OneIsWithinTheOther(from, to, q);
    }
  }

  lemma OneIsWithinTheOther(a: Path, b: Path, q: Path)
    requires Within(a, q) && Within(b, q)
    ensures Within(a, b) || Within(b, a)
    ensures |a| <= |b| ==> Within(a, b)
  {
    if |a| <= |b| {
      assert b[..|a|] == q[..|b|][..|a|] == q[..|a|];
    } else {
      assert a[..|b|] == q[..|a|][..|b|] == q[..|b|];
    }
  }

  lemma WithinTransitive(a: Path, b: Path, c: Path)
    requires Within(a, b) && Within(b, c)
    ensures Within(a, c)
  {
    assert c[..|b|][..|a|] == c[..|a|];
  }

  // ---- The tree stays a tree ----

  lemma MadeIsClosed(t: Tree, p: Path)
    requires Closed(t) && CanMake(t, p)
    ensures Closed(Made(t, p)) && IsDirectory(Made(t, p), p)
  {
    var t' := Made(t, p);
    assert p[..|p|] == p;
    assert IsDirectory(t', p);
    forall q | q in t' && q != [] ensures IsDirectory(t', Parent(q)) {
      if q !in t {
        WithinTransitive(Parent(q), q, p);
      }
    }
  }

  lemma PutIsClosed(t: Tree, p: Path, e: Entry)
    requires Closed(t) && p != [] && IsDirectory(t, Parent(p)) && (e.File? ==> p !in t)
    ensures Closed(t[p := e])
  {
    var t' := t[p := e];
    forall q | q in t' && q != [] ensures IsDirectory(t', Parent(q)) {
      if Parent(q) == p {
        assert q != p && q in t;
      }
    }
  }

  lemma FileGoes(t: Tree, p: Path)
    requires Closed(t) && !IsDirectory(t, p)
    ensures Closed(t - {p})
  {
  }

  lemma WithoutIsRemoved(t: Tree, p: Path)
    requires p != [] && IsDirectory(t, p)
    ensures Removes(t, Without(t, p), p)
  {
    var left := Without(t, p);
    if Closed(t) {
      forall q | q in left && q != [] ensures IsDirectory(left, Parent(q)) {
        if Within(p, Parent(q)) {
          WithinTransitive(p, Parent(q), q);
        }
      }
    }
  }

  /** Between siblings. */
  lemma MovedIsClosed(t: Tree, from: Path, to: Path)
    requires Closed(t) && from != [] && to != [] && Parent(from) == Parent(to) && from != to && CanMove(t, from, to)
    ensures Closed(Moved(t, from, to))
  {
    var t' := Moved(t, from, to);
    SiblingsAreNotWithin(from, to);
    MovedHas(t, from, to, []);
    forall q | q in t' && q != [] ensures IsDirectory(t', Parent(q)) {
      MovedEntryIsHeld(t, from, to, q);
    }
  }

  lemma SiblingsAreNotWithin(a: Path, b: Path)
    requires a != [] && b != [] && Parent(a) == Parent(b) && a != b
    ensures |a| == |b| && !Within(a, b) && !Within(b, a)
  {
    assert |Parent(a)| == |a| - 1 && |Parent(b)| == |b| - 1;
    assert b[..|a|] == b && a[..|b|] == a;
  }

  ghost predicate Moves(t: Tree, from: Path, to: Path) {
    && Closed(t) && CanMove(t, from, to)
    && from != [] && to != [] && Parent(from) == Parent(to) && !Within(from, to) && !Within(to, from)
  }

  lemma {:induction false} HeldFromAbove(t: Tree, p: Path, q: Path)
    requires Closed(t) && q in t && Within(p, q)
    ensures p in t && (p != q ==> IsDirectory(t, p))
    decreases |q|
  {
    if p != q {
      assert Within(p, Parent(q));
      HeldFromAbove(t, p, Parent(q));
    } else {
      assert p == q[..|p|];
    }
  }

  lemma MovedEntryIsHeld(t: Tree, from: Path, to: Path, q: Path)
    requires Moves(t, from, to) && q != [] && q in Moved(t, from, to)
    ensures IsDirectory(Moved(t, from, to), Parent(q))
  {
    if q == to {
      MovedTopIsHeld(t, from, to);
    } else if Within(to, q) {
      MovedInsideIsHeld(t, from, to, q);
    } else {
      UnmovedIsHeld(t, from, to, q);
    }
  }

  lemma MovedTopIsHeld(t: Tree, from: Path, to: Path)
    requires Moves(t, from, to)
    ensures IsDirectory(Moved(t, from, to), Parent(to))
  {
    MovedHas(t, from, to, Parent(to));
  }

  lemma MovedInsideIsHeld(t: Tree, from: Path, to: Path, q: Path)
    requires Moves(t, from, to) && q != to && Within(to, q) && q in Moved(t, from, to)
    ensures IsDirectory(Moved(t, from, to), Parent(q))
  {
    var r := from + q[|to|..];
    MovedHas(t, from, to, q);
    if r !in t {
      HeldFromAbove(t, to, q);
    }
    ParentMovesAlong(from, to, q);
    MovedHas(t, from, to, Parent(q));
  }

  lemma ParentMovesAlong(from: Path, to: Path, q: Path)
    requires Within(to, q) && q != to
    ensures q != [] && Within(to, Parent(q)) && from + q[|to|..] != []
    ensures Parent(from + q[|to|..]) == from + Parent(q)[|to|..]
  {
    assert Parent(q)[..|to|] == q[..|to|];
  }

  lemma UnmovedIsHeld(t: Tree, from: Path, to: Path, q: Path)
    requires Moves(t, from, to) && q != [] && !Within(to, q) && q in Moved(t, from, to)
    ensures IsDirectory(Moved(t, from, to), Parent(q))
  {
    MovedHas(t, from, to, q);
    MovedHas(t, from, to, Parent(q));
    assert Within(to, Parent(q)) ==> Within(to, q);
    assert Within(from, Parent(q)) ==> Within(from, q);
  }

  // ---- The paths a clone uses ----

  /** ".scap-lock-" */
  const LOCK: Bytes := [0x2e, 0x73, 0x63, 0x61, 0x70, 0x2d, 0x6c, 0x6f, 0x63, 0x6b, 0x2d]

  function TmpPath(dest: Path, pid: nat): Path
    requires dest != []
  {
    Sibling(dest, TmpOf(Name(dest), pid))
  }

  function LockPath(dest: Path): Path
    requires dest != []
  {
    Sibling(dest, LOCK + Name(dest))
  }

  /** The process a sweep for `dest` takes `p` to belong to. It looks at the entries beside `dest` only. */
  function SweptFor(dest: Path, p: Path): Option<int> {
    if dest != [] && p != [] && Parent(p) == Parent(dest) then SweptPid(Name(dest), Name(p)) else None
  }

  /** `foo.tmp-42` and `.scap-lock-foo`, beside `foo`. */
  lemma NamesAreSpelled(parent: Path, dest: Path)
    requires dest == parent + [[0x66, 0x6f, 0x6f]]
    ensures TmpPath(dest, 42) == parent + [[0x66, 0x6f, 0x6f, 0x2e, 0x74, 0x6d, 0x70, 0x2d, 0x34, 0x32]]
    ensures LockPath(dest) == parent + [[0x2e, 0x73, 0x63, 0x61, 0x70, 0x2d, 0x6c, 0x6f, 0x63, 0x6b, 0x2d,
                                         0x66, 0x6f, 0x6f]]
  {
    assert Parent(dest) == parent && Name(dest) == [0x66, 0x6f, 0x6f];
    assert Decimal(42) == Decimal(4) + [Digit(2)] && Decimal(4) == [Digit(4)];
    assert TmpOf(Name(dest), 42) == [0x66, 0x6f, 0x6f, 0x2e, 0x74, 0x6d, 0x70, 0x2d, 0x34, 0x32];
    assert LOCK + Name(dest) == [0x2e, 0x73, 0x63, 0x61, 0x70, 0x2d, 0x6c, 0x6f, 0x63, 0x6b, 0x2d, 0x66, 0x6f, 0x6f];
  }
}
