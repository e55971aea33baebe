/** The hand-written CodeCommit recogniser against the pattern it stands for:
    `^(codecommit):(?::([a-z][a-z0-9-]+):)?//(?:([^]]+)@)?([\w\.-]+)$`, with an ASCII `\w`. */
module CodeCommit {
  import opened Bytes

  const COLON: byte := 0x3a
  const AT_SIGN: byte := 0x40
  const DASH: byte := 0x2d
  const UNDERSCORE: byte := 0x5f
  const BRACKET: byte := 0x5d
  const SLASHES: Bytes := [SLASH, SLASH]

  /** "codecommit:" */
  const SCHEME: Bytes := [0x63, 0x6f, 0x64, 0x65, 0x63, 0x6f, 0x6d, 0x6d, 0x69, 0x74, 0x3a]

  datatype Ref = Ref(region: Option<Bytes>, user: Option<Bytes>, name: Bytes)

  predicate IsLower(b: byte) { 0x61 <= b <= 0x7a }
  predicate IsUpper(b: byte) { 0x41 <= b <= 0x5a }
  predicate IsDigit(b: byte) { 0x30 <= b <= 0x39 }

  predicate IsRegionByte(b: byte) {
    IsLower(b) || IsDigit(b) || b == DASH
  }

  predicate IsNameByte(b: byte) {
    IsLower(b) || IsUpper(b) || IsDigit(b) || b == UNDERSCORE || b == DOT || b == DASH
  }

  // ---- The pattern ----

  /** `[a-z][a-z0-9-]+` */
  predicate IsRegion(r: Bytes) {
    |r| >= 2 && IsLower(r[0]) && forall k :: 1 <= k < |r| ==> IsRegionByte(r[k])
  }

  /** `[^]]+` */
  predicate IsUser(u: Bytes) {
    u != [] && BRACKET !in u
  }

  /** `[\w\.-]+` */
  predicate IsHost(n: Bytes) {
    n != [] && forall k :: 0 <= k < |n| ==> IsNameByte(n[k])
  }

  /** The pattern's language, with what each group captures. */
  predicate Matches(input: Bytes, ref: Ref) {
    && (ref.region.Some? ==> IsRegion(ref.region.value))
    && (ref.user.Some? ==> IsUser(ref.user.value))
    && IsHost(ref.name)
    && input == SCHEME + (RegionPart(ref) + (SLASHES + Authority(ref)))
  }

  function RegionPart(ref: Ref): Bytes {
    if ref.region.Some? then [COLON] + ref.region.value + [COLON] else []
  }

  function Authority(ref: Ref): Bytes {
    if ref.user.Some? then ref.user.value + [AT_SIGN] + ref.name else ref.name
  }

  // ---- The recogniser ----

  function StripPrefix(s: Bytes, prefix: Bytes): (rest: Option<Bytes>)
    ensures rest.Some? <==> StartsWith(s, prefix)
    ensures rest.Some? ==> s == prefix + rest.value
  {
    if StartsWith(s, prefix) then Some(s[|prefix|..]) else None
  }

  /** The optional `:<region>:` and what follows it; nothing when a region is begun but not one. */
  function TakeRegion(rest: Bytes): Option<(Option<Bytes>, Bytes)> {
    match StripPrefix(rest, [COLON])
    case None => Some((None, rest))
    case Some(withRegion) =>
      var end := FirstIndexOf(withRegion, COLON);
      if end == |withRegion| || !IsRegion(withRegion[..end]) then None
      else Some((Some(withRegion[..end]), withRegion[end + 1..]))
  }

  /** The user before the last `@`, if there is one, and the name. */
  function TakeUser(authority: Bytes): (Option<Bytes>, Bytes) {
    var at := LastIndexOf(authority, AT_SIGN);
    if at < 0 then (None, authority) else (Some(authority[..at]), authority[at + 1..])
  }

  function ParseCodecommit(input: Bytes): Option<Ref> {
    match StripPrefix(input, SCHEME)
    case None => None
    case Some(rest) =>
      match TakeRegion(rest)
      case None => None
      case Some((region, afterRegion)) =>
        match StripPrefix(afterRegion, SLASHES)
        case None => None
        case Some(authority) =>
          var (user, name) := TakeUser(authority);
          if (user.Some? && !IsUser(user.value)) || !IsHost(name) then None
          else Some(Ref(region, user, name))
  }

  lemma StripUndoes(prefix: Bytes, rest: Bytes)
    ensures StripPrefix(prefix + rest, prefix) == Some(rest)
  {
    assert (prefix + rest)[..|prefix|] == prefix;
  }

  lemma RegionFound(ref: Ref, rest: Bytes)
    requires ref.region.Some? ==> IsRegion(ref.region.value)
    requires StartsWith(rest, SLASHES)
    ensures TakeRegion(RegionPart(ref) + rest) == Some((ref.region, rest))
  {
    if ref.region.Some? {
      var r := ref.region.value;
      var tail := r + [COLON] + rest;
      assert RegionPart(ref) + rest == [COLON] + tail;
      StripUndoes([COLON], tail);
      assert forall k :: 0 <= k < |r| ==> tail[k] == r[k] && tail[k] != COLON;
      assert tail[|r|] == COLON;
      assert FirstIndexOf(tail, COLON) == |r|;
      assert tail[..|r|] == r && tail[|r| + 1..] == rest;
    } else {
      assert RegionPart(ref) + rest == rest;
      assert rest[..2][0] == SLASH;
      assert !StartsWith(rest, [COLON]) by {
        assert rest[..1][0] == SLASH;
      }
    }
  }

  lemma UserFound(ref: Ref)
    requires IsHost(ref.name)
    ensures TakeUser(Authority(ref)) == (ref.user, ref.name)
  {
    var a, n := Authority(ref), ref.name;
    assert forall k :: 0 <= k < |n| ==> n[k] != AT_SIGN;
    if ref.user.Some? {
      var u := ref.user.value;
      assert a[|u|] == AT_SIGN;
      assert forall k :: |u| < k < |a| ==> a[k] == n[k - |u| - 1];
      assert LastIndexOf(a, AT_SIGN) == |u|;
      assert a[..|u|] == u && a[|u| + 1..] == n;
    }
  }

  lemma ParseTakesMatches(input: Bytes, ref: Ref)
    requires Matches(input, ref)
    ensures ParseCodecommit(input) == Some(ref)
  {
    var rest := RegionPart(ref) + (SLASHES + Authority(ref));
    StripUndoes(SCHEME, rest);
    StripUndoes(SLASHES, Authority(ref));
    RegionFound(ref, SLASHES + Authority(ref));
    UserFound(ref);
  }

  lemma RegionTaken(ref: Ref, rest: Bytes, after: Bytes)
    requires TakeRegion(rest) == Some((ref.region, after))
    ensures rest == RegionPart(ref) + after && (ref.region.Some? ==> IsRegion(ref.region.value))
  {
    if ref.region.Some? {
      var withRegion := StripPrefix(rest, [COLON]).value;
      var end := FirstIndexOf(withRegion, COLON);
      assert withRegion == withRegion[..end] + [COLON] + withRegion[end + 1..];
    }
  }

  lemma UserTaken(ref: Ref, authority: Bytes)
    requires TakeUser(authority) == (ref.user, ref.name)
    ensures authority == Authority(ref)
  {
    var at := LastIndexOf(authority, AT_SIGN);
    if at >= 0 {
      assert authority == authority[..at] + [AT_SIGN] + authority[at + 1..];
    }
  }

  lemma ParsedMatches(input: Bytes, ref: Ref)
    requires ParseCodecommit(input) == Some(ref)
    ensures Matches(input, ref)
  {
    var rest := StripPrefix(input, SCHEME).value;
    var after := TakeRegion(rest).value.1;
    var authority := StripPrefix(after, SLASHES).value;
    PartsMatch(input, ref, rest, after, authority);
  }

  lemma PartsMatch(input: Bytes, ref: Ref, rest: Bytes, after: Bytes, authority: Bytes)
    requires StripPrefix(input, SCHEME) == Some(rest) && TakeRegion(rest) == Some((ref.region, after))
    requires StripPrefix(after, SLASHES) == Some(authority) && TakeUser(authority) == (ref.user, ref.name)
    requires (ref.user.Some? ==> IsUser(ref.user.value)) && IsHost(ref.name)
    ensures Matches(input, ref)
  {
    RegionTaken(ref, rest, after);
    UserTaken(ref, authority);
  }

  /** The recogniser accepts exactly the pattern's language and returns its groups; so the groups of a
      match are unique. */
  lemma RecogniserIsThePattern(input: Bytes, ref: Ref)
    ensures ParseCodecommit(input) == Some(ref) <==> Matches(input, ref)
  {
    if Matches(input, ref) {
      ParseTakesMatches(input, ref);
    }
    if ParseCodecommit(input) == Some(ref) {
      ParsedMatches(input, ref);
    }
  }

  /** Whether some reading of the input matches. */
  predicate IsCodecommitInput(input: Bytes) {
    ParseCodecommit(input).Some?
  }

  lemma InputIsInTheLanguage(input: Bytes)
    ensures IsCodecommitInput(input) <==> exists ref :: Matches(input, ref)
  {
    if ref :| Matches(input, ref) {
      RecogniserIsThePattern(input, ref);
    }
    if ParseCodecommit(input).Some? {
      RecogniserIsThePattern(input, ParseCodecommit(input).value);
    }
  }

  lemma GroupsAreForced(input: Bytes, a: Ref, b: Ref)
    requires Matches(input, a) && Matches(input, b)
    ensures a == b
  {
    RecogniserIsThePattern(input, a);
    RecogniserIsThePattern(input, b);
  }
}
