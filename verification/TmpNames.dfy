/** The names of temporary directories, and the sweep that takes some of them for leftovers. */
module TmpNames {
  import opened Bytes

  // ---- Names ----

  const MINUS: byte := 0x2d
  const PLUS: byte := 0x2b

  /** ".tmp-" */
  const TMP: Bytes := [0x2e, 0x74, 0x6d, 0x70, 0x2d]

  const I32_MAX: int := 0x7fff_ffff
  const I32_MIN: int := -0x8000_0000

  predicate IsDigit(b: byte) {
    0x30 <= b <= 0x39
  }

  predicate AllDigits(s: Bytes) {
    s != [] && forall k :: 0 <= k < |s| ==> IsDigit(s[k])
  }

  /** Digits, perhaps after a sign. */
  predicate IsInteger(s: Bytes) {
    AllDigits(s) || (s != [] && (s[0] == MINUS || s[0] == PLUS) && AllDigits(s[1..]))
  }

  function Digit(d: int): (b: byte)
    requires 0 <= d < 10
    ensures IsDigit(b) && b as int == 0x30 + d
  {
    (0x30 + d) as byte
  }

  function Decimal(n: nat): (s: Bytes)
    ensures AllDigits(s)
  {
    if n < 10 then [Digit(n)] else Decimal(n / 10) + [Digit(n % 10)]
  }

  function DigitsValue(s: Bytes): nat
    requires forall k :: 0 <= k < |s| ==> IsDigit(s[k])
  {
    if s == [] then 0
    else
      assert IsDigit(s[|s| - 1]);
      10 * DigitsValue(s[..|s| - 1]) + (s[|s| - 1] as int - 0x30)
  }

  function IntegerValue(s: Bytes): int
    requires IsInteger(s)
  {
    if s[0] == MINUS then var v: int := DigitsValue(s[1..]); -v
    else if s[0] == PLUS then DigitsValue(s[1..])
    else DigitsValue(s)
  }

  /** `parse::<i32>()` */
  function ParseI32(s: Bytes): Option<int> {
    if IsInteger(s) && I32_MIN <= IntegerValue(s) <= I32_MAX then Some(IntegerValue(s)) else None
  }

  function TmpName(dest: Bytes, suffix: Bytes): Bytes {
    dest + TMP + suffix
  }

  function TmpOf(dest: Bytes, pid: nat): Bytes {
    TmpName(dest, Decimal(pid))
  }

  /** The process a sweep for `dest` takes `name` to belong to. */
  function SweptPid(dest: Bytes, name: Bytes): Option<int> {
    if StartsWith(name, dest + TMP) then ParseI32(name[|dest + TMP|..]) else None
  }

  lemma {:induction false} ValueOfDecimal(n: nat)
    ensures DigitsValue(Decimal(n)) == n
  {
    if n >= 10 {
      ValueOfDecimal(n / 10);
      var s := Decimal(n);
      assert s[..|s| - 1] == Decimal(n / 10);
    }
  }

  lemma {:induction false} DecimalParses(n: nat)
    ensures IsInteger(Decimal(n)) && ParseI32(Decimal(n)) == if n <= I32_MAX then Some(n) else None
  {
    ValueOfDecimal(n);
    assert IsDigit(Decimal(n)[0]);
  }

  /** A temporary name is made of one destination and one number. */
  lemma TmpNamesSplit(a: Bytes, s: Bytes, b: Bytes, t: Bytes)
    requires IsInteger(s) && IsInteger(t) && TmpName(a, s) == TmpName(b, t) && |s| <= |t|
    ensures a == b && s == t
  {
    var x, y := TmpName(a, s), TmpName(b, t);
    var extra := |t| - |s|;
    assert |a| == |b| + extra;
    assert x[|a| + 4] == MINUS && x[|a| + 3] == 0x70;
    assert forall k :: 0 <= k < |t| ==> y[|b| + 5 + k] == t[k];
    assert y[|b| + 4] == MINUS;
    assert forall k :: 1 <= k < |t| ==> t[k] == t[1..][k - 1] && t[k] != MINUS;
    assert extra == 0;
    assert a == x[..|a|] && b == y[..|a|];
    assert s == x[|a| + 5..] && t == y[|a| + 5..];
  }

  lemma TmpNamesAreUnique(a: Bytes, s: Bytes, b: Bytes, t: Bytes)
    requires IsInteger(s) && IsInteger(t) && TmpName(a, s) == TmpName(b, t)
    ensures a == b && s == t
  {
    if |s| <= |t| {
      TmpNamesSplit(a, s, b, t);
    } else {
      TmpNamesSplit(b, t, a, s);
    }
  }

  lemma SweptName(dest: Bytes, name: Bytes)
    requires SweptPid(dest, name).Some?
    ensures exists s :: IsInteger(s) && name == TmpName(dest, s) && ParseI32(s) == SweptPid(dest, name)
  {
    var s := name[|dest + TMP|..];
    assert name == TmpName(dest, s);
  }

  lemma SweptOfTmp(dest: Bytes, suffix: Bytes)
    ensures SweptPid(dest, TmpName(dest, suffix)) == ParseI32(suffix)
  {
    var name := TmpName(dest, suffix);
    assert name[|dest + TMP|..] == suffix && name[..|dest + TMP|] == dest + TMP;
  }

  /** A sweep for any destination takes a process's temporary directory to be that process's. */
  lemma SweepReadsTheOwner(dest: Bytes, owner: Bytes, pid: nat)
    requires SweptPid(dest, TmpOf(owner, pid)).Some?
    ensures dest == owner && SweptPid(dest, TmpOf(owner, pid)) == Some(pid)
  {
    SweptName(dest, TmpOf(owner, pid));
    var s :| IsInteger(s) && TmpOf(owner, pid) == TmpName(dest, s) && ParseI32(s) == SweptPid(dest, TmpOf(owner, pid));
    DecimalParses(pid);
    TmpNamesAreUnique(dest, s, owner, Decimal(pid));
  }

  lemma TmpOfIsInjective(a: Bytes, p: nat, b: Bytes, q: nat)
    requires TmpOf(a, p) == TmpOf(b, q)
    ensures a == b && p == q
  {
    DecimalParses(p);
    DecimalParses(q);
    TmpNamesAreUnique(a, Decimal(p), b, Decimal(q));
    ValueOfDecimal(p);
    ValueOfDecimal(q);
  }

  // ---- Finding leftovers ----

  /** What `kill(pid, 0)` reports. */
  datatype Signalled = Permitted | NotPermitted | NoSuchProcess

  /** A process that may not be signalled exists all the same; a number no process can have does not. */
  predicate PidIsAlive(pid: int, kill: int -> Signalled) {
    pid > 0 && kill(pid) != NoSuchProcess
  }

  predicate IsLeftover(dest: Bytes, name: Bytes, kill: int -> Signalled) {
    SweptPid(dest, name).Some? && !PidIsAlive(SweptPid(dest, name).value, kill)
  }

  /** The entries that are leftovers of processes no longer alive, each as often as it is listed: no process
      that exists has its directory listed, be it another user's; one that does not, has; and so has a number
      that is no process's. */
  method StaleTmpPaths(dest: Bytes, entries: seq<Bytes>, kill: int -> Signalled) returns (out: seq<Bytes>)
    ensures forall name :: multiset(out)[name] == if IsLeftover(dest, name, kill) then multiset(entries)[name] else 0
    ensures forall owner, pid: nat :: 0 < pid && (kill(pid) == Permitted || kill(pid) == NotPermitted) ==>
      multiset(out)[TmpOf(owner, pid)] == 0
    ensures forall pid: nat :: 0 < pid <= I32_MAX && kill(pid) == NoSuchProcess ==>
      multiset(out)[TmpOf(dest, pid)] == multiset(entries)[TmpOf(dest, pid)]
    ensures forall suffix :: ParseI32(suffix).Some? && ParseI32(suffix).value <= 0 ==>
      multiset(out)[TmpName(dest, suffix)] == multiset(entries)[TmpName(dest, suffix)]
  {
    out := [];
    for i := 0 to |entries|
      invariant forall name ::
        multiset(out)[name] == if IsLeftover(dest, name, kill) then multiset(entries[..i])[name] else 0
    {
      assert entries[..i + 1] == entries[..i] + [entries[i]];
      var pid := SweptPid(dest, entries[i]);
      if pid.Some? && !PidIsAlive(pid.value, kill) {
        out := out + [entries[i]];
      }
    }
    assert entries[..|entries|] == entries;
    forall owner, pid: nat | 0 < pid && (kill(pid) == Permitted || kill(pid) == NotPermitted)
      ensures !IsLeftover(dest, TmpOf(owner, pid), kill)
    {
      LivingAreNotLeftovers(dest, owner, pid, kill);
    }
    forall pid: nat | 0 < pid <= I32_MAX && kill(pid) == NoSuchProcess
      ensures IsLeftover(dest, TmpOf(dest, pid), kill)
    {
      DeadAreLeftovers(dest, pid, kill);
    }
    forall suffix | ParseI32(suffix).Some? && ParseI32(suffix).value <= 0
      ensures IsLeftover(dest, TmpName(dest, suffix), kill)
    {
      SweptOfTmp(dest, suffix);
    }
  }

  /** A living process's own temporary directory is never among them, whatever destination is swept for, and
      whether or not it may be signalled. */
  lemma LivingAreNotLeftovers(dest: Bytes, owner: Bytes, pid: nat, kill: int -> Signalled)
    requires 0 < pid && (kill(pid) == Permitted || kill(pid) == NotPermitted)
    ensures !IsLeftover(dest, TmpOf(owner, pid), kill)
  {
    if SweptPid(dest, TmpOf(owner, pid)).Some? {
      SweepReadsTheOwner(dest, owner, pid);
    }
  }

  /** That of a process that does not exist is, when its destination is swept for. */
  lemma DeadAreLeftovers(dest: Bytes, pid: nat, kill: int -> Signalled)
    requires 0 < pid <= I32_MAX && kill(pid) == NoSuchProcess
    ensures IsLeftover(dest, TmpOf(dest, pid), kill)
  {
    DecimalParses(pid);
    SweptOfTmp(dest, Decimal(pid));
  }
}
