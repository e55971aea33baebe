/** Many paths in one growing buffer, each a 32-bit range, so that a worker's arena can be appended to
    another's by shifting. */
module Arenas {
  import opened Bytes

  newtype u32 = x: int | 0 <= x < 0x1_0000_0000

  const FOUR_GIB: nat := 0x1_0000_0000

  datatype Range = Range(start: u32, end: u32)

  predicate InBuffer(bytes: Bytes, r: Range) {
    r.start <= r.end && r.end as int <= |bytes|
  }

  function PathAt(bytes: Bytes, r: Range): Bytes
    requires InBuffer(bytes, r)
  {
    bytes[r.start as int..r.end as int]
  }

  function PathsIn(bytes: Bytes, repos: seq<Range>): seq<Bytes>
    requires forall k :: 0 <= k < |repos| ==> InBuffer(bytes, repos[k])
  {
    seq(|repos|, k requires 0 <= k < |repos| => PathAt(bytes, repos[k]))
  }

  class Arena {
    var bytes: Bytes
    var repos: seq<Range>

    /** Ranges lie in the buffer, and the buffer fits the ranges. */
    ghost predicate Valid()
      reads this
    {
      |bytes| < FOUR_GIB && forall k :: 0 <= k < |repos| ==> InBuffer(bytes, repos[k])
    }

    /** The paths held, in order. */
    ghost function Paths(): seq<Bytes>
      reads this
      requires Valid()
    {
      PathsIn(bytes, repos)
    }

    constructor ()
      ensures Valid() && Paths() == [] && bytes == []
    {
      bytes, repos := [], [];
    }

    /** Appends one path. Growing past four gibibytes is a panic. */
    method Push(path: Bytes)
      requires Valid() && |bytes| + |path| < FOUR_GIB
      modifies this
      ensures Valid() && Paths() == old(Paths()) + [path] && bytes == old(bytes) + path
    {
      var start := |bytes| as u32;
      bytes := bytes + path;
      var end := |bytes| as u32;
      repos := repos + [Range(start, end)];
      assert forall k :: 0 <= k < |old(repos)| ==> PathAt(bytes, repos[k]) == PathAt(old(bytes), old(repos)[k]);
      assert PathAt(bytes, repos[|repos| - 1]) == path;
      assert Paths() == old(Paths()) + [path];
    }

    /** Appends every path `other` holds, its ranges shifted by the length this buffer had. */
    method Merge(other: Arena)
      requires Valid() && other.Valid() && other != this && |bytes| + |other.bytes| < FOUR_GIB
      modifies this
      ensures Valid() && Paths() == old(Paths()) + other.Paths() && bytes == old(bytes) + other.bytes
      ensures other.Valid() && other.Paths() == old(other.Paths())
    {
      var shift := |bytes| as u32;
      ghost var own := |repos|;
      bytes := bytes + other.bytes;
      var shifted: seq<Range> := [];
      for i := 0 to |other.repos|
        invariant |shifted| == i
        invariant forall k :: 0 <= k < i ==>
          shifted[k].start as int == other.repos[k].start as int + shift as int &&
          shifted[k].end as int == other.repos[k].end as int + shift as int
      {
        shifted := shifted + [Range(other.repos[i].start + shift, other.repos[i].end + shift)];
      }
      repos := repos + shifted;
      forall k | 0 <= k < own ensures PathAt(bytes, repos[k]) == PathAt(old(bytes), old(repos)[k]) {
        assert repos[k] == old(repos)[k];
      }
      forall k | own <= k < |repos| ensures PathAt(bytes, repos[k]) == PathAt(other.bytes, other.repos[k - own]) {
        var r := other.repos[k - own];
        assert bytes[r.start as int + shift as int..r.end as int + shift as int] ==
               other.bytes[r.start as int..r.end as int];
      }
      assert Paths() == old(Paths()) + other.Paths();
    }

    /** Every path, in the order they were pushed. */
    method All() returns (paths: seq<Bytes>)
      requires Valid()
      ensures paths == Paths()
    {
      paths := [];
      for i := 0 to |repos|
        invariant |paths| == i && forall k :: 0 <= k < i ==> paths[k] == PathAt(bytes, repos[k])
      {
        paths := paths + [PathAt(bytes, repos[i])];
      }
    }
  }
}
