/** Which configured root names a repository, and how. */
module Naming {
  import opened Bytes
  import opened Paths

  // ---- Cleaned paths, component by component ----

  ghost predicate Names(cs: seq<Bytes>) {
    forall k :: 0 <= k < |cs| ==> IsName(cs[k])
  }

  /** Each component with a slash before it. */
  function Lead(cs: seq<Bytes>): Bytes {
    if cs == [] then [] else [SLASH] + cs[0] + Lead(cs[1..])
  }

  /** A cleaned absolute path. */
  function Absolute(cs: seq<Bytes>): Bytes {
    if cs == [] then [SLASH] else Lead(cs)
  }

  /** A relative path as it is printed, `.` for the root itself. */
  function Relative(cs: seq<Bytes>): Bytes {
    if cs == [] then DOT_PATH else Lead(cs)[1..]
  }

  // ---- The program's own functions ----

  /** `<root>/<rel>` without doubling a separator, and the root itself for `.`. */
  function FullPath(root: Bytes, rel: Bytes): Bytes {
    if rel == DOT_PATH then root
    else if EndsWith(root, [SLASH]) then root + rel
    else root + [SLASH] + rel
  }

  /** How much of `abs` to drop for `root` to name it, when it contains it on a component boundary. */
  function RootPrefix(root: Bytes, abs: Bytes): (cut: Option<nat>)
    ensures cut.Some? ==> |root| <= cut.value <= |abs|
  {
    if !StartsWith(abs, root) then None
    else if |abs| == |root| then Some(|abs|)
    else if EndsWith(root, [SLASH]) then Some(|root|)
    else if abs[|root|] == SLASH then Some(|root| + 1) else None
  }

  /** What is printed for the rest of a path after its naming root. */
  function Shown(rest: Bytes): Bytes {
    if rest == [] then DOT_PATH else rest
  }

  // ---- Containment ----

  predicate Contains(root: seq<Bytes>, abs: seq<Bytes>) {
    |root| <= |abs| && abs[..|root|] == root
  }

  /** `a` starts `b` and stops where a component of `b` does. */
  predicate StopsOnBoundary(a: Bytes, b: Bytes) {
    StartsWith(b, a) && (|b| == |a| || b[|a|] == SLASH)
  }

  lemma {:induction false} LeadJoins(a: seq<Bytes>, b: seq<Bytes>)
    ensures Lead(a + b) == Lead(a) + Lead(b)
  {
    if a == [] {
      assert a + b == b;
    } else {
      LeadJoins(a[1..], b);
      assert (a + b)[1..] == a[1..] + b;
    }
  }

  lemma {:induction false} LeadIsSlashed(cs: seq<Bytes>)
    ensures cs != [] ==> Lead(cs) != [] && Lead(cs)[0] == SLASH
  {
  }

  lemma PrefixPeels(a: Bytes, x: Bytes, y: Bytes)
    ensures StartsWith(a + y, a + x) <==> StartsWith(y, x)
    ensures StopsOnBoundary(a + x, a + y) <==> StopsOnBoundary(x, y)
  {
    if |x| <= |y| {
      assert (a + y)[..|a + x|] == a + y[..|x|];
      if StartsWith(a + y, a + x) {
        assert y[..|x|] == (a + y)[..|a + x|][|a|..];
        assert x == (a + x)[|a|..];
      }
    }
  }

  /** Two slash-free first components that differ cannot hide behind one another. */
  lemma FirstComponentsMatch(c: Bytes, x: Bytes, d: Bytes, y: Bytes)
    requires SLASH !in c && SLASH !in d && (x != [] ==> x[0] == SLASH) && (y != [] ==> y[0] == SLASH)
    requires StopsOnBoundary(c + x, d + y)
    ensures c == d
  {
    var a, b := c + x, d + y;
    assert forall k :: 0 <= k < |a| ==> a[k] == b[k];
    assert forall k :: 0 <= k < |c| ==> a[k] == c[k];
    assert forall k :: 0 <= k < |d| ==> b[k] == d[k];
    assert |a| > |c| ==> a[|c|] == x[0];
    assert |b| > |d| ==> b[|d|] == y[0];
    assert |c| == |d|;
    assert c == a[..|c|] && d == b[..|c|];
  }

  /** On rendered paths, starting with a root and stopping on a slash is being below it. */
  lemma {:induction false} BoundaryIsContainment(root: seq<Bytes>, abs: seq<Bytes>)
    requires Names(root) && Names(abs)
    ensures StopsOnBoundary(Lead(root), Lead(abs)) <==> Contains(root, abs)
  {
    if root == [] {
      LeadIsSlashed(abs);
    } else if abs != [] {
      var c, d := root[0], abs[0];
      var x, y := Lead(root[1..]), Lead(abs[1..]);
      LeadIsSlashed(root[1..]);
      LeadIsSlashed(abs[1..]);
      BoundaryIsContainment(root[1..], abs[1..]);
      var slash := [SLASH];
      PrefixPeels(slash, c + x, d + y);
      assert Lead(root) == slash + (c + x) && Lead(abs) == slash + (d + y);
      if StopsOnBoundary(c + x, d + y) {
        FirstComponentsMatch(c, x, d, y);
      }
      if c == d {
        PrefixPeels(c, x, y);
      }
      ContainsPeels(root, abs);
    }
  }

  lemma ContainsPeels(root: seq<Bytes>, abs: seq<Bytes>)
    requires root != [] && abs != []
    ensures Contains(root, abs) <==> root[0] == abs[0] && Contains(root[1..], abs[1..])
  {
    if Contains(root, abs) {
      assert root[1..] == abs[..|root|][1..] == abs[1..][..|root| - 1];
    }
    if root[0] == abs[0] && Contains(root[1..], abs[1..]) {
      assert abs[..|root|] == [abs[0]] + abs[1..][..|root| - 1];
      assert root == [root[0]] + root[1..];
    }
  }

  lemma {:induction false} LeadEnds(cs: seq<Bytes>)
    requires Names(cs) && cs != []
    ensures |Lead(cs)| >= 2 && !EndsWith(Lead(cs), [SLASH])
  {
    var c := cs[0];
    assert c[|c| - 1] in c;
    if |cs| == 1 {
      assert Lead(cs)[|Lead(cs)| - 1] == c[|c| - 1];
      assert [SLASH][0] == SLASH;
    } else {
      LeadEnds(cs[1..]);
      var rest := Lead(cs[1..]);
      assert Lead(cs)[|Lead(cs)| - 1..] == rest[|rest| - 1..];
    }
  }

  lemma RelativeIsDot(cs: seq<Bytes>)
    requires Names(cs)
    ensures Relative(cs) == DOT_PATH <==> cs == []
    ensures Shown(Relative(cs)) == Relative(cs)
  {
    if cs != [] {
      var c, rest := cs[0], Lead(cs[1..]);
      assert Lead(cs)[1..] == c + rest;
      assert (c + rest)[0] == c[0];
      assert |c| == 1 && c[0] == DOT ==> c == DOT_PATH;
    }
  }

  /** Joining a root and what lies below it, whatever they are, is the path made of both. */
  lemma FullPathJoins(root: seq<Bytes>, rest: seq<Bytes>)
    requires Names(root) && Names(rest)
    ensures FullPath(Absolute(root), Relative(rest)) == Absolute(root + rest)
  {
    RelativeIsDot(rest);
    LeadJoins(root, rest);
    if rest == [] {
      assert root + rest == root;
    } else if root == [] {
      assert [SLASH] + Lead(rest)[1..] == Lead(rest);
    } else {
      LeadEnds(root);
      assert [SLASH] + Lead(rest)[1..] == Lead(rest);
      assert Lead(root) + [SLASH] + Lead(rest)[1..] == Lead(root) + ([SLASH] + Lead(rest)[1..]);
    }
  }

  /** The byte test finds exactly the roots that contain a path, and cuts it after them. */
  lemma RootPrefixNames(root: seq<Bytes>, abs: seq<Bytes>)
    requires Names(root) && Names(abs)
    ensures var cut := RootPrefix(Absolute(root), Absolute(abs));
            && (cut.Some? <==> Contains(root, abs))
            && (cut.Some? ==> Shown(Absolute(abs)[cut.value..]) == Relative(abs[|root|..]))
  {
    BoundaryIsContainment(root, abs);
    if root == [] {
      RelativeIsDot(abs);
      assert abs[0..] == abs;
    } else {
      LeadEnds(root);
      if Contains(root, abs) {
        CutIsRelative(root, abs);
      }
    }
  }

  lemma {:induction false} CutIsRelative(root: seq<Bytes>, abs: seq<Bytes>)
    requires Names(root) && Names(abs) && root != [] && Contains(root, abs)
    requires RootPrefix(Lead(root), Lead(abs)).Some? && !EndsWith(Lead(root), [SLASH])
    ensures Shown(Lead(abs)[RootPrefix(Lead(root), Lead(abs)).value..]) == Relative(abs[|root|..])
  {
    var rest := abs[|root|..];
    assert abs == root + rest;
    LeadJoins(root, rest);
    RelativeIsDot(rest);
    if rest != [] {
      assert Lead(abs)[|Lead(root)| + 1..] == Lead(rest)[1..];
    }
  }

  // ---- Naming every repository ----

  ghost predicate Cleaned(p: Bytes) {
    exists cs :: Names(cs) && p == Absolute(cs)
  }

  ghost predicate CleanRel(p: Bytes) {
    exists cs :: Names(cs) && p == Relative(cs)
  }

  /** `root` is `abs` or a directory above it. */
  ghost predicate Holds(root: Bytes, abs: Bytes) {
    exists r, a :: Names(r) && Names(a) && root == Absolute(r) && abs == Absolute(a) && Contains(r, a)
  }

  /** Where one repository's path sits in the shared buffer, and where the part that names it begins. */
  datatype Span = Span(start: nat, rel: nat, end: nat, underPrimary: bool)

  /** Every repository with the root whose walk found it, in order. */
  function Flat(listings: seq<seq<Bytes>>): seq<(nat, Bytes)> {
    if listings == [] then []
    else FlatOne(Flat(listings[..|listings| - 1]), |listings| - 1, listings[|listings| - 1], |listings[|listings| - 1]|)
  }

  function FlatOne(before: seq<(nat, Bytes)>, w: nat, rels: seq<Bytes>, n: nat): seq<(nat, Bytes)>
    requires n <= |rels|
  {
    if n == 0 then before else FlatOne(before, w, rels, n - 1) + [(w, rels[n - 1])]
  }

  /** `i` is the first root that contains `abs`. */
  ghost predicate FirstToHold(roots: seq<Bytes>, i: nat, abs: Bytes) {
    i < |roots| && Holds(roots[i], abs) && forall j :: 0 <= j < i ==> !Holds(roots[j], abs)
  }

  /** The first root that contains `abs` names it; joining that root with the name that is shown gives the
      path back; and the primary root names exactly what it contains. */
  ghost predicate NamedBy(roots: seq<Bytes>, abs: Bytes, name: Bytes, underPrimary: bool) {
    && (exists i: nat :: FirstToHold(roots, i, abs) && FullPath(roots[i], Shown(name)) == abs)
    && (underPrimary <==> roots != [] && Holds(roots[0], abs))
  }

  /** The same, as the byte test sees it. */
  predicate FirstToMatch(roots: seq<Bytes>, i: nat, abs: Bytes, name: Bytes) {
    && i < |roots| && |name| <= |abs| && RootPrefix(roots[i], abs) == Some(|abs| - |name|)
    && name == abs[|abs| - |name|..]
    && forall j :: 0 <= j < i ==> RootPrefix(roots[j], abs) == None
  }

  ghost predicate MatchedBy(roots: seq<Bytes>, abs: Bytes, name: Bytes, underPrimary: bool) {
    exists i: nat :: FirstToMatch(roots, i, abs, name) && (underPrimary <==> i == 0)
  }

  predicate SpanOf(roots: seq<Bytes>, paths: Bytes, span: Span, found: (nat, Bytes)) {
    && span.start <= span.rel <= span.end <= |paths| && found.0 < |roots|
    && paths[span.start..span.end] == FullPath(roots[found.0], found.1)
  }

  ghost predicate WellNamed(roots: seq<Bytes>, paths: Bytes, span: Span, found: (nat, Bytes)) {
    && SpanOf(roots, paths, span, found)
    && NamedBy(roots, paths[span.start..span.end], paths[span.rel..span.end], span.underPrimary)
  }

  ghost predicate WellMatched(roots: seq<Bytes>, paths: Bytes, span: Span, found: (nat, Bytes)) {
    && SpanOf(roots, paths, span, found)
    && MatchedBy(roots, paths[span.start..span.end], paths[span.rel..span.end], span.underPrimary)
  }

  lemma HoldsIsPrefix(root: Bytes, abs: Bytes)
    requires Cleaned(root) && Cleaned(abs)
    ensures RootPrefix(root, abs).Some? <==> Holds(root, abs)
    ensures RootPrefix(root, abs).Some? ==> FullPath(root, Shown(abs[RootPrefix(root, abs).value..])) == abs
  {
    var r :| Names(r) && root == Absolute(r);
    var a :| Names(a) && abs == Absolute(a);
    RootPrefixNames(r, a);
    if Contains(r, a) {
      var rest := a[|r|..];
      assert a == r + rest;
      FullPathJoins(r, rest);
    }
    if r', a' :| Names(r') && Names(a') && root == Absolute(r') && abs == Absolute(a') && Contains(r', a') {
      RootPrefixNames(r', a');
    }
  }

  lemma FoundPathIsHeld(root: Bytes, rel: Bytes)
    requires Cleaned(root) && CleanRel(rel)
    ensures Cleaned(FullPath(root, rel)) && Holds(root, FullPath(root, rel))
  {
    var r :| Names(r) && root == Absolute(r);
    var cs :| Names(cs) && rel == Relative(cs);
    FullPathJoins(r, cs);
    assert Names(r + cs) && Contains(r, r + cs);
  }

  /** The byte test finds the first root that contains a path. */
  lemma MatchingIsNaming(roots: seq<Bytes>, abs: Bytes, name: Bytes, underPrimary: bool)
    requires (forall w :: 0 <= w < |roots| ==> Cleaned(roots[w])) && Cleaned(abs)
    requires MatchedBy(roots, abs, name, underPrimary)
    ensures NamedBy(roots, abs, name, underPrimary)
  {
    var i: nat :| FirstToMatch(roots, i, abs, name) && (underPrimary <==> i == 0);
    forall j | 0 <= j <= i ensures RootPrefix(roots[j], abs).Some? <==> Holds(roots[j], abs) {
      HoldsIsPrefix(roots[j], abs);
    }
    HoldsIsPrefix(roots[i], abs);
    assert FirstToHold(roots, i, abs);
  }

  /** The first root, up to the one that was walked, that contains the path. */
  method FirstRoot(roots: seq<Bytes>, walked: nat, abs: Bytes) returns (i: nat, cut: nat)
    requires walked < |roots| && RootPrefix(roots[walked], abs).Some?
    ensures cut <= |abs| && FirstToMatch(roots, i, abs, abs[cut..])
  {
    i := 0;
    var found := RootPrefix(roots[0], abs);
    while found.None?
      invariant i <= walked && found == RootPrefix(roots[i], abs)
      invariant forall j :: 0 <= j < i ==> RootPrefix(roots[j], abs) == None
      decreases walked - i
    {
      i := i + 1;
      found := RootPrefix(roots[i], abs);
    }
    cut := found.value;
  }

  lemma WellMatchedStays(roots: seq<Bytes>, paths: Bytes, more: Bytes, span: Span, found: (nat, Bytes))
    requires WellMatched(roots, paths, span, found)
    ensures WellMatched(roots, paths + more, span, found)
  {
    assert (paths + more)[span.start..span.end] == paths[span.start..span.end];
    assert (paths + more)[span.rel..span.end] == paths[span.rel..span.end];
  }

  ghost predicate AllWellMatched(roots: seq<Bytes>, paths: Bytes, spans: seq<Span>, found: seq<(nat, Bytes)>) {
    |spans| == |found| && forall k :: 0 <= k < |spans| ==> WellMatched(roots, paths, spans[k], found[k])
  }

  lemma OneMoreMatched(roots: seq<Bytes>, paths: Bytes, more: Bytes, spans: seq<Span>, found: seq<(nat, Bytes)>,
                       span: Span, one: (nat, Bytes))
    requires AllWellMatched(roots, paths, spans, found) && WellMatched(roots, paths + more, span, one)
    ensures AllWellMatched(roots, paths + more, spans + [span], found + [one])
  {
    forall k | 0 <= k < |spans| ensures WellMatched(roots, paths + more, spans[k], found[k]) {
      WellMatchedStays(roots, paths, more, spans[k], found[k]);
    }
  }

  lemma TailOfBoth(paths: Bytes, abs: Bytes, cut: nat)
    requires cut <= |abs|
    ensures (paths + abs)[|paths| + cut..|paths + abs|] == abs[cut..]
  {
  }

  method NameOne(roots: seq<Bytes>, w: nat, rel: Bytes, paths: Bytes) returns (abs: Bytes, span: Span)
    requires w < |roots| && Cleaned(roots[w]) && CleanRel(rel)
    ensures WellMatched(roots, paths + abs, span, (w, rel))
  {
    abs := FullPath(roots[w], rel);
    FoundPathIsHeld(roots[w], rel);
    HoldsIsPrefix(roots[w], abs);
    var i, cut := FirstRoot(roots, w, abs);
    SpanMatches(roots, w, rel, paths, paths + abs, abs, abs[cut..], i, cut);
    span := Span(|paths|, |paths| + cut, |paths + abs|, i == 0);
  }

  lemma SpanMatches(roots: seq<Bytes>, w: nat, rel: Bytes, paths: Bytes, all: Bytes, abs: Bytes, name: Bytes, i: nat,
                    cut: nat)
    requires w < |roots| && abs == FullPath(roots[w], rel) && all == paths + abs && cut <= |abs| && name == abs[cut..]
    requires FirstToMatch(roots, i, abs, name)
    ensures WellMatched(roots, all, Span(|paths|, |paths| + cut, |all|, i == 0), (w, rel))
  {
    TailOfBoth(paths, abs, 0);
    TailOfBoth(paths, abs, cut);
    assert all[|paths|..|all|] == abs && all[|paths| + cut..|all|] == name;
    assert MatchedBy(roots, abs, name, i == 0);
  }

  method NameListing(roots: seq<Bytes>, w: nat, rels: seq<Bytes>, paths: Bytes, spans: seq<Span>,
                     ghost before: seq<(nat, Bytes)>)
    returns (paths': Bytes, spans': seq<Span>)
    requires w < |roots| && Cleaned(roots[w]) && (forall k :: 0 <= k < |rels| ==> CleanRel(rels[k]))
    requires AllWellMatched(roots, paths, spans, before)
    ensures AllWellMatched(roots, paths', spans', FlatOne(before, w, rels, |rels|))
  {
    paths', spans' := paths, spans;
    for n := 0 to |rels|
      invariant AllWellMatched(roots, paths', spans', FlatOne(before, w, rels, n))
    {
      var abs, span := NameOne(roots, w, rels[n], paths');
      OneMoreMatched(roots, paths', abs, spans', FlatOne(before, w, rels, n), span, (w, rels[n]));
      paths', spans' := paths' + abs, spans' + [span];
    }
  }

  ghost predicate Listings(roots: seq<Bytes>, listings: seq<seq<Bytes>>) {
    && |listings| == |roots| && (forall w :: 0 <= w < |roots| ==> Cleaned(roots[w]))
    && forall w :: 0 <= w < |listings| ==> forall k :: 0 <= k < |listings[w]| ==> CleanRel(listings[w][k])
  }

  lemma {:induction false} FlatIsClean(roots: seq<Bytes>, before: seq<(nat, Bytes)>, w: nat, rels: seq<Bytes>, n: nat)
    requires w < |roots| && n <= |rels| && (forall k :: 0 <= k < |rels| ==> CleanRel(rels[k]))
    requires forall k :: 0 <= k < |before| ==> before[k].0 < |roots| && CleanRel(before[k].1)
    ensures forall k :: 0 <= k < |FlatOne(before, w, rels, n)| ==>
      FlatOne(before, w, rels, n)[k].0 < |roots| && CleanRel(FlatOne(before, w, rels, n)[k].1)
    decreases n
  {
    if n > 0 {
      FlatIsClean(roots, before, w, rels, n - 1);
    }
  }

  /** Builds every path into one buffer and names each. The walked root always contains what its own walk
      found, so there is always a root to name it. */
  method NameRepositories(roots: seq<Bytes>, listings: seq<seq<Bytes>>) returns (paths: Bytes, spans: seq<Span>)
    requires Listings(roots, listings)
    ensures |spans| == |Flat(listings)|
    ensures forall k :: 0 <= k < |spans| ==> WellNamed(roots, paths, spans[k], Flat(listings)[k])
  {
    paths, spans := [], [];
    for w := 0 to |roots|
      invariant AllWellMatched(roots, paths, spans, Flat(listings[..w]))
      invariant forall k :: 0 <= k < |Flat(listings[..w])| ==>
        Flat(listings[..w])[k].0 < |roots| && CleanRel(Flat(listings[..w])[k].1)
    {
      paths, spans := NameListing(roots, w, listings[w], paths, spans, Flat(listings[..w]));
      FlatIsClean(roots, Flat(listings[..w]), w, listings[w], |listings[w]|);
      assert listings[..w + 1][..w] == listings[..w];
    }
    assert listings[..|roots|] == listings;
    forall k | 0 <= k < |spans| ensures WellNamed(roots, paths, spans[k], Flat(listings)[k]) {
      MatchedIsNamed(roots, paths, spans[k], Flat(listings)[k]);
    }
  }

  lemma MatchedIsNamed(roots: seq<Bytes>, paths: Bytes, span: Span, found: (nat, Bytes))
    requires (forall w :: 0 <= w < |roots| ==> Cleaned(roots[w])) && CleanRel(found.1)
    requires WellMatched(roots, paths, span, found)
    ensures WellNamed(roots, paths, span, found)
  {
    FoundPathIsHeld(roots[found.0], found.1);
    MatchingIsNaming(roots, paths[span.start..span.end], paths[span.rel..span.end], span.underPrimary);
  }

  /** A name and its root determine the path, so under one naming root no two repositories share a name. */
  lemma NamesAreInvertible(root: seq<Bytes>, a: seq<Bytes>, b: seq<Bytes>)
    requires Names(root) && Names(a) && Names(b) && Contains(root, a) && Contains(root, b)
    requires Relative(a[|root|..]) == Relative(b[|root|..])
    ensures Absolute(a) == Absolute(b)
  {
    var x, y := a[|root|..], b[|root|..];
    assert a == root + x && b == root + y;
    FullPathJoins(root, x);
    FullPathJoins(root, y);
  }
}
