/** The part of a file system a listing looks at: directories with a modification time, two
    permission bits and an entry list, symbolic links seen through `stat`, and everything else. */
module FileTree {
  import opened Bytes
  import opened Paths

  /** What a following `stat` of a link finds; `git` says whether `<link>/.git` stats too. */
  datatype Target = Nowhere | NotDirectory | Directory(git: bool)

  datatype Node =
    | Dir(mtime: int, read: bool, search: bool, intact: bool, entries: seq<Entry>)
    | Link(target: Target)
    | File

  /** One directory entry. `typed` says whether `readdir` reported its type. */
  datatype Entry = Entry(name: Bytes, typed: bool, node: Node)

  /** Where `name` first occurs, or |entries|. */
  function IndexOf(entries: seq<Entry>, name: Bytes): (i: nat)
    ensures i <= |entries|
    ensures i < |entries| ==> entries[i].name == name
    ensures forall k :: 0 <= k < i ==> entries[k].name != name
  {
    if entries == [] then 0
    else if entries[0].name == name then 0
    else 1 + IndexOf(entries[1..], name)
  }

  predicate DistinctNames(entries: seq<Entry>) {
    && (forall i :: 0 <= i < |entries| ==> IsName(entries[i].name))
    && (forall i, j :: 0 <= i < j < |entries| ==> entries[i].name != entries[j].name)
  }

  ghost predicate WellFormed(node: Node) {
    node.Dir? ==>
      && DistinctNames(node.entries)
      && forall i :: 0 <= i < |node.entries| ==> WellFormed(node.entries[i].node)
  }

  /** Every directory has its search bit, so `stat` and `openat` reach everything. */
  ghost predicate Searchable(node: Node) {
    node.Dir? ==>
      && node.search
      && forall i :: 0 <= i < |node.entries| ==> Searchable(node.entries[i].node)
  }

  /** Every directory can also be opened and read to its end. */
  ghost predicate Readable(node: Node) {
    node.Dir? ==>
      && node.read && node.intact
      && forall i :: 0 <= i < |node.entries| ==> Readable(node.entries[i].node)
  }

  lemma {:induction false} IndexOfEntry(entries: seq<Entry>, i: nat)
    requires DistinctNames(entries) && i < |entries|
    ensures IndexOf(entries, entries[i].name) == i
  {
  }

  /** Whether a following `stat` of this node succeeds. */
  predicate Stats(node: Node) {
    !(node.Link? && node.target.Nowhere?)
  }

  /** Whether `.git` is among the entries and stats. */
  predicate HasGit(entries: seq<Entry>) {
    var i := IndexOf(entries, DOT_GIT);
    i < |entries| && Stats(entries[i].node)
  }

  /** `stat <dir>/.git`, which needs the directory's search bit. */
  predicate StatsGit(dir: Node)
    requires dir.Dir?
  {
    dir.search && HasGit(dir.entries)
  }

  datatype Resolution = Found(node: Node) | Denied | Absent

  /** Looks `rel` up from the root without following links, as `statat` with NOFOLLOW does once
      every intermediate component is a real directory. */
  function Resolve(root: Node, rel: Bytes): Resolution
    decreases |rel|
  {
    if rel == [] then Found(root)
    else
      match Resolve(root, ParentOf(rel))
      case Found(dir) =>
        if !dir.Dir? then Absent
        else if !dir.search then Denied
        else
          var i := IndexOf(dir.entries, Basename(rel));
          if i < |dir.entries| then Found(dir.entries[i].node) else Absent
      case failed => failed
  }

  datatype Opening = Opened(dir: Node) | Refused | Gone

  /** `openat` from the root with `O_DIRECTORY | O_NOFOLLOW`: `Refused` is a permission error,
      `Gone` covers ENOENT, ENOTDIR and ELOOP. */
  function OpenAt(root: Node, rel: Bytes): (o: Opening)
    ensures o.Opened? ==> o.dir.Dir? && Resolve(root, rel) == Found(o.dir)
  {
    match Resolve(root, rel)
    case Found(node) => if !node.Dir? then Gone else if node.read then Opened(node) else Refused
    case Denied => Refused
    case Absent => Gone
  }

  lemma {:induction false} ResolveChild(root: Node, rel: Bytes, dir: Node, i: nat)
    requires dir.Dir? && DistinctNames(dir.entries) && i < |dir.entries|
    requires Resolve(root, rel) == Found(dir)
    ensures Resolve(root, JoinRel(rel, dir.entries[i].name)) ==
            if dir.search then Found(dir.entries[i].node) else Denied
  {
    JoinSplits(rel, dir.entries[i].name);
    IndexOfEntry(dir.entries, i);
  }
}
