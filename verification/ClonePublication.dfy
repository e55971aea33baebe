/** How a clone reaches its destination: into a temporary directory named after the process, then one
    rename. Any number of processes run any number of threads, sweep each other's leftovers, make parent
    directories, take and lose lock files, and die anywhere. */
module ClonePublication {
  import opened Bytes
  import opened TmpNames
  import opened CloneTree

  /** Where a thread is in one clone. `found` is what its sweep has listed; `id` is the lock file it has open,
      which it holds the lock on from `Ready` to `Unlocking`. */
  datatype Pc =
    | Sweeping(found: set<Path>)
    | Opening
    | Locking(id: nat)
    | Ready(id: nat)
    | Cloning(id: nat)
    | Cloned(id: nat)
    | CleaningUp(id: nat)
    | Unlocking(id: nat)
    | Unlinking
    | Over

  datatype Task = Task(pid: nat, dest: Path, pc: Pc)

  /** `live` are the processes there are, of this program or any other, and the user each belongs to. */
  datatype State = State(tree: Tree, live: map<nat, nat>, tasks: map<nat, Task>)

  datatype Step =
    | Spawn(pid: nat, user: nat)
    | Exit(pid: nat)
    | Start(me: nat, pid: nat, dest: Path)
    | Find(me: nat, p: Path)
    | Remove(me: nat, p: Path, left: Tree)
    | SweepDone(me: nat)
    | OpenLock(me: nat, id: nat)
    | TryLock(me: nat)
    | BeginClone(me: nat)
    | EndClone(me: nat, ok: bool)
    | Rename(me: nat)
    | CleanUp(me: nat, left: Tree, done: bool)
    | Unlock(me: nat)
    | Unlink(me: nat)

  predicate Running(s: State, k: nat) {
    k in s.tasks && !s.tasks[k].pc.Over? && s.tasks[k].dest != []
  }

  function Tmp(s: State, k: nat): Path
    requires Running(s, k)
  {
    TmpPath(s.tasks[k].dest, s.tasks[k].pid)
  }

  predicate HoldsLock(pc: Pc, id: nat) {
    (pc.Ready? || pc.Cloning? || pc.Cloned? || pc.CleaningUp? || pc.Unlocking?) && pc.id == id
  }

  predicate LockIsFree(s: State, k: nat, id: nat) {
    forall j :: j in s.tasks && j != k ==> !HoldsLock(s.tasks[j].pc, id)
  }

  /** No file has this identity, and nobody has one open that has. */
  ghost predicate IsFresh(s: State, id: nat) {
    && (forall p :: p in s.tree ==> s.tree[p] != File(id))
    && (forall j :: j in s.tasks ==> s.tasks[j].pc != Locking(id) && !HoldsLock(s.tasks[j].pc, id))
  }

  /** What `kill(pid, 0)` says to a process of this user: others' processes may not be signalled. */
  function Kill(s: State, user: nat): int -> Signalled {
    pid => if pid > 0 && pid in s.live then (if s.live[pid] == user then Permitted else NotPermitted) else NoSuchProcess
  }

  function UserOf(s: State, pid: nat): nat {
    if pid in s.live then s.live[pid] else 0
  }

  /** An entry beside its destination that a thread's sweep lists. */
  predicate SweepsUp(s: State, k: nat, p: Path)
    requires Running(s, k)
  {
    var dest, user := s.tasks[k].dest, UserOf(s, s.tasks[k].pid);
    SweptFor(dest, p).Some? && IsLeftover(Name(dest), Name(p), Kill(s, user))
  }

  ghost predicate Enabled(s: State, a: Step) {
    match a
    // A number is not given out while a sweep that has listed its leftover goes on.
    case Spawn(pid, _) =>
      && 0 < pid <= I32_MAX && pid !in s.live
      && forall k, p :: Running(s, k) && s.tasks[k].pc.Sweeping? && p in s.tasks[k].pc.found ==>
           SweptFor(s.tasks[k].dest, p) != Some(pid)
    case Exit(pid) => pid in s.live
    // A destination that is already a repository is left alone, so nothing starts.
    case Start(k, pid, dest) =>
      k !in s.tasks && pid in s.live && dest != [] && !(dest in s.tree && s.tree[dest].Whole?)
    case Find(k, p) => Running(s, k) && s.tasks[k].pc.Sweeping? && p in s.tree && SweepsUp(s, k, p)
    case Remove(k, p, left) =>
      Running(s, k) && s.tasks[k].pc.Sweeping? && p in s.tasks[k].pc.found && Removes(s.tree, left, p)
    case SweepDone(k) => Running(s, k) && s.tasks[k].pc.Sweeping?
    case OpenLock(k, id) => Running(s, k) && s.tasks[k].pc.Opening? && IsFresh(s, id)
    case TryLock(k) => Running(s, k) && s.tasks[k].pc.Locking?
    case BeginClone(k) => Running(s, k) && s.tasks[k].pc.Ready?
    case EndClone(k, ok) => Running(s, k) && s.tasks[k].pc.Cloning? && (ok ==> IsDirectory(s.tree, Tmp(s, k)))
    case Rename(k) => Running(s, k) && s.tasks[k].pc.Cloned?
    case CleanUp(k, left, _) => Running(s, k) && s.tasks[k].pc.CleaningUp? && Removes(s.tree, left, Tmp(s, k))
    case Unlock(k) => Running(s, k) && s.tasks[k].pc.Unlocking?
    case Unlink(k) => Running(s, k) && s.tasks[k].pc.Unlinking?
  }

  function At(s: State, k: nat, pc: Pc): State
    requires k in s.tasks
  {
    s.(tasks := s.tasks[k := s.tasks[k].(pc := pc)])
  }

  /** A process dies with all its threads. */
  function Killed(s: State, pid: nat): State {
    s.(live := s.live - {pid},
       tasks := map k | k in s.tasks :: if s.tasks[k].pid == pid then s.tasks[k].(pc := Over) else s.tasks[k])
  }

  /** Making the parents, then opening the lock file beside the destination, which a directory in its place
      forbids. */
  function Opened(s: State, k: nat, id: nat): State
    requires Running(s, k)
  {
    var dest := s.tasks[k].dest;
    if !CanMake(s.tree, Parent(dest)) then At(s, k, Over)
    else
      var made, lock := Made(s.tree, Parent(dest)), LockPath(dest);
      if IsDirectory(made, lock) then At(s, k, Over).(tree := made)
      else if lock in made then At(s, k, Locking(made[lock].id)).(tree := made)
      else At(s, k, Locking(id)).(tree := made[lock := File(id)])
  }

  /** git makes the parents and clones into nothing or an empty directory. */
  ghost function Begun(s: State, k: nat, id: nat): State
    requires Running(s, k)
  {
    var up := Parent(s.tasks[k].dest);
    if !CanMake(s.tree, up) then At(s, k, CleaningUp(id))
    else
      var made := Made(s.tree, up);
      if Vacant(made, Tmp(s, k)) then At(s, k, Cloning(id)).(tree := made[Tmp(s, k) := Broken])
      else At(s, k, CleaningUp(id)).(tree := made)
  }

  ghost predicate Renames(s: State, k: nat)
    requires Running(s, k)
  {
    var dest := s.tasks[k].dest;
    CanMake(s.tree, Parent(dest)) && CanMove(Made(s.tree, Parent(dest)), Tmp(s, k), dest)
  }

  ghost function Renamed(s: State, k: nat, id: nat): State
    requires Running(s, k)
  {
    var dest := s.tasks[k].dest;
    if !CanMake(s.tree, Parent(dest)) then At(s, k, CleaningUp(id))
    else
      var made := Made(s.tree, Parent(dest));
      if Renames(s, k) then At(s, k, Unlocking(id)).(tree := Moved(made, Tmp(s, k), dest))
      else At(s, k, CleaningUp(id)).(tree := made)
  }

  /** `remove_file` does nothing to a directory. */
  function Unlinked(t: Tree, lock: Path): Tree {
    if IsDirectory(t, lock) then t else t - {lock}
  }

  ghost function Apply(s: State, a: Step): State
    requires Enabled(s, a)
  {
    match a
    case Spawn(pid, user) => s.(live := s.live[pid := user])
    case Exit(pid) => Killed(s, pid)
    case Start(k, pid, dest) => s.(tasks := s.tasks[k := Task(pid, dest, Sweeping({}))])
    case Find(k, p) => At(s, k, Sweeping(s.tasks[k].pc.found + {p}))
    case Remove(k, _, left) => s.(tree := left)
    case SweepDone(k) => At(s, k, Opening)
    case OpenLock(k, id) => Opened(s, k, id)
    case TryLock(k) =>
      var id := s.tasks[k].pc.id;
      if LockIsFree(s, k, id) then At(s, k, Ready(id)) else Killed(s, s.tasks[k].pid)
    case BeginClone(k) => Begun(s, k, s.tasks[k].pc.id)
    case EndClone(k, ok) =>
      var id := s.tasks[k].pc.id;
      if ok then At(s, k, Cloned(id)).(tree := s.tree[Tmp(s, k) := Whole]) else At(s, k, CleaningUp(id))
    case Rename(k) => Renamed(s, k, s.tasks[k].pc.id)
    case CleanUp(k, left, done) =>
      var id := s.tasks[k].pc.id;
      At(s, k, if done then Unlocking(id) else CleaningUp(id)).(tree := left)
    case Unlock(k) => At(s, k, Unlinking)
    case Unlink(k) => At(s, k, Over).(tree := Unlinked(s.tree, LockPath(s.tasks[k].dest)))
  }

  predicate IsOfTask(a: Step) {
    !a.Spawn? && !a.Exit? && !a.Start?
  }

  // ---- What a step touches ----

  /** The paths a thread's step may change, given where it clones to. */
  ghost predicate Touches(s: State, a: Step, q: Path)
    requires IsOfTask(a) && Running(s, a.me)
  {
    var dest := s.tasks[a.me].dest;
    || (a.Remove? && a.p in s.tree && Within(a.p, q))
    || ((a.BeginClone? || a.EndClone? || a.CleanUp? || a.Rename?) && Within(Tmp(s, a.me), q))
    || (a.Rename? && Renames(s, a.me) && Within(dest, q))
    || ((a.OpenLock? || a.Unlink?) && q == LockPath(dest) && !IsDirectory(s.tree, q))
    || (Within(q, Parent(dest)) && q !in s.tree)
  }

  lemma MadeTouches(s: State, dest: Path, q: Path)
    requires dest != []
    ensures SameAt(s.tree, Made(s.tree, Parent(dest)), q) || (Within(q, Parent(dest)) && q !in s.tree)
  {
  }

  lemma OpeningTouches(s: State, a: Step, q: Path)
    requires Enabled(s, a) && a.OpenLock?
    ensures SameAt(s.tree, Apply(s, a).tree, q) || Touches(s, a, q)
  {
    MadeTouches(s, s.tasks[a.me].dest, q);
  }

  lemma BeginningTouches(s: State, a: Step, q: Path)
    requires Enabled(s, a) && a.BeginClone?
    ensures SameAt(s.tree, Apply(s, a).tree, q) || Touches(s, a, q)
  {
    MadeTouches(s, s.tasks[a.me].dest, q);
    assert Within(Tmp(s, a.me), Tmp(s, a.me));
  }

  lemma TmpIsBeside(dest: Path, pid: nat)
    requires dest != []
    ensures var tmp := TmpPath(dest, pid);
            tmp != [] && Parent(tmp) == Parent(dest) && Name(tmp) == TmpOf(Name(dest), pid) && tmp != dest &&
            !Within(tmp, dest) && !Within(dest, tmp) && |tmp| == |dest|
  {
    var tmp := TmpPath(dest, pid);
    assert |Name(tmp)| > |Name(dest)|;
    SiblingsAreNotWithin(tmp, dest);
  }

  lemma RenamingTouches(s: State, a: Step, q: Path)
    requires Enabled(s, a) && a.Rename?
    ensures SameAt(s.tree, Apply(s, a).tree, q) || Touches(s, a, q)
  {
    var dest := s.tasks[a.me].dest;
    MadeTouches(s, dest, q);
    if Renames(s, a.me) {
      TmpIsBeside(dest, s.tasks[a.me].pid);
      MovedHas(Made(s.tree, Parent(dest)), Tmp(s, a.me), dest, q);
    }
  }

  lemma OnlyTouchedPathsChange(s: State, a: Step, q: Path)
    requires Enabled(s, a) && IsOfTask(a)
    ensures SameAt(s.tree, Apply(s, a).tree, q) || Touches(s, a, q)
  {
    if a.OpenLock? {
      OpeningTouches(s, a, q);
    } else if a.BeginClone? {
      BeginningTouches(s, a, q);
    } else if a.Rename? {
      RenamingTouches(s, a, q);
    } else if a.EndClone? {
      assert Within(Tmp(s, a.me), Tmp(s, a.me));
    }
  }

  // ---- Destinations that keep apart ----

  /** No destination lies below another, none is or lies in what a sweep for another takes for a leftover,
      and none is named like another's lock file. */
  predicate Apart(dests: set<Path>) {
    forall d, d' :: d in dests && d' in dests ==>
      && (Within(d, d') ==> d == d')
      && (|d| <= |d'| ==> SweptFor(d, d'[..|d|]) == None)
      && (d != [] ==> d' != LockPath(d))
  }

  lemma BesideMeansBelow(d: Path, p: Path, outer: Path)
    requires d != [] && p != [] && Parent(p) == Parent(d) && Within(outer, p) && outer != p
    ensures Within(outer, d) && |outer| < |d|
  {
    assert |outer| <= |Parent(p)|;
    assert Parent(p)[..|outer|] == p[..|outer|] && Parent(d)[..|outer|] == d[..|outer|];
  }

  /** What a sweep takes for a leftover has nothing in common with a destination. */
  lemma SweptIsApart(dests: set<Path>, d: Path, p: Path, d': Path, q: Path)
    requires Apart(dests) && d in dests && d' in dests && SweptFor(d, p).Some?
    ensures !(Within(p, q) && Within(d', q))
  {
    var top := if |d| <= |d'| then d'[..|d|] else [];
    if Within(p, q) && Within(d', q) {
      OneIsWithinTheOther(p, d', q);
      if !Within(p, d') {
        BesideMeansBelow(d, p, d');
      }
    }
  }

  lemma TmpIsSwept(d: Path, pid: nat)
    requires d != [] && pid <= I32_MAX
    ensures SweptFor(d, TmpPath(d, pid)) == Some(pid)
  {
    TmpIsBeside(d, pid);
    DecimalParses(pid);
    SweptOfTmp(Name(d), Decimal(pid));
  }

  /** Nor with a temporary directory, unless it is that. */
  lemma SweptIsApartFromTmp(dests: set<Path>, d: Path, p: Path, d': Path, pid: nat, q: Path)
    requires Apart(dests) && d in dests && d' in dests && d' != [] && pid <= I32_MAX && SweptFor(d, p).Some?
    requires Within(p, q) && Within(TmpPath(d', pid), q)
    ensures p == TmpPath(d', pid) && d == d' && SweptFor(d, p) == Some(pid)
  {
    var tmp := TmpPath(d', pid);
    TmpIsBeside(d', pid);
    TmpIsSwept(d', pid);
    OneIsWithinTheOther(p, tmp, q);
    if p == tmp {
      SweepReadsTheOwner(Name(d), Name(d'), pid);
      assert d == Parent(d) + [Name(d)] && d' == Parent(d') + [Name(d')];
    } else if Within(p, tmp) {
      BesideMeansBelow(d', tmp, p);
      SweptIsApart(dests, d, p, d', d');
    } else {
      BesideMeansBelow(d, p, tmp);
      SweptIsApart(dests, d', tmp, d, d);
    }
  }

  lemma AboveMeansAbove(d: Path, q: Path)
    requires d != [] && Within(q, Parent(d))
    ensures Within(q, d) && |q| < |d|
  {
    assert d[..|q|] == Parent(d)[..|q|];
  }

  /** A directory above one destination is neither another nor anything of a thread's. */
  lemma ParentsAreApart(dests: set<Path>, d: Path, d': Path, q: Path)
    requires Apart(dests) && d in dests && d' in dests && d != [] && Within(q, Parent(d))
    ensures !Within(d', q)
  {
    AboveMeansAbove(d, q);
    if Within(d', q) {
      WithinTransitive(d', q, d);
    }
  }

  lemma ParentsAreApartFromTmp(dests: set<Path>, d: Path, d': Path, pid: nat, q: Path)
    requires Apart(dests) && d in dests && d' in dests && d != [] && d' != [] && pid <= I32_MAX && Within(q, Parent(d))
    ensures !Within(TmpPath(d', pid), q)
  {
    var tmp := TmpPath(d', pid);
    TmpIsSwept(d', pid);
    AboveMeansAbove(d, q);
    SweptIsApart(dests, d', tmp, d, d);
    if Within(tmp, q) {
      WithinTransitive(tmp, q, d);
    }
  }

  lemma LocksAreApart(dests: set<Path>, d: Path, d': Path)
    requires Apart(dests) && d in dests && d' in dests && d != []
    ensures !Within(d', LockPath(d))
  {
    if Within(d', LockPath(d)) {
      assert Parent(LockPath(d)) == Parent(d);
      BesideMeansBelow(d, LockPath(d), d');
    }
  }

  lemma LocksAreApartFromTmp(dests: set<Path>, d: Path, d': Path, pid: nat)
    requires Apart(dests) && d in dests && d' in dests && d != [] && d' != [] && pid <= I32_MAX
    ensures Within(TmpPath(d', pid), LockPath(d)) ==> TmpPath(d', pid) == LockPath(d)
  {
    var tmp := TmpPath(d', pid);
    if Within(tmp, LockPath(d)) && tmp != LockPath(d) {
      assert Parent(LockPath(d)) == Parent(d);
      BesideMeansBelow(d, LockPath(d), tmp);
      TmpIsSwept(d', pid);
      SweptIsApart(dests, d', tmp, d, d);
    }
  }

  // ---- What always holds ----

  /** Threads belong to living processes and clone to destinations. */
  ghost predicate TasksFit(s: State, dests: set<Path>) {
    && (forall pid :: pid in s.live ==> 0 < pid <= I32_MAX)
    && (forall k :: Running(s, k) ==> s.tasks[k].pid in s.live && s.tasks[k].dest in dests)
  }

  ghost predicate SweepsAreStale(s: State) {
    forall k, p :: Running(s, k) && s.tasks[k].pc.Sweeping? && p in s.tasks[k].pc.found ==>
      IsStale(s, s.tasks[k].dest, p)
  }

  /** What looks like the leftover of a process that is gone. */
  predicate IsStale(s: State, dest: Path, p: Path) {
    var q := SweptFor(dest, p);
    q.Some? && (q.value <= 0 || q.value !in s.live)
  }

  ghost predicate ClonesAreTheirs(s: State) {
    forall k :: Running(s, k) ==>
      && (s.tasks[k].pc.Cloning? ==> IsDirectory(s.tree, Tmp(s, k)))
      && (s.tasks[k].pc.Cloned? ==> Tmp(s, k) in s.tree && s.tree[Tmp(s, k)].Whole?)
  }

  ghost predicate Inv(s: State, dests: set<Path>) {
    && Apart(dests) && TasksFit(s, dests) && SweepsAreStale(s) && ClonesAreTheirs(s)
  }

  /** No process clones to one destination twice at a time. */
  ghost predicate NoTwins(s: State) {
    forall j, k ::
      Running(s, j) && Running(s, k) && s.tasks[j].pid == s.tasks[k].pid && s.tasks[j].dest == s.tasks[k].dest ==>
        j == k
  }

  /** What a sweep may remove holds no destination and nothing of a running thread's. */
  lemma StaleIsNobodys(s: State, dests: set<Path>, dest: Path, p: Path, q: Path)
    requires Inv(s, dests) && dest in dests && IsStale(s, dest, p) && Within(p, q)
    ensures forall d :: d in dests ==> !Within(d, q)
    ensures forall k :: Running(s, k) ==> !Within(Tmp(s, k), q)
  {
    forall d | d in dests ensures !Within(d, q) {
      SweptIsApart(dests, dest, p, d, q);
    }
    forall k | Running(s, k) ensures !Within(Tmp(s, k), q) {
      if Within(Tmp(s, k), q) {
        SweptIsApartFromTmp(dests, dest, p, s.tasks[k].dest, s.tasks[k].pid, q);
        assert false;
      }
    }
  }

  // ---- Every step ----

  /** How one step may change a destination: not at all, nor anything in it; or from nothing, or an empty
      directory, to a whole clone. */
  ghost predicate Published(before: Tree, after: Tree, d: Path) {
    SameWithin(before, after, d) || (Vacant(before, d) && d in after && after[d].Whole?)
  }

  /** What a step touches in a destination, it touches by renaming to it. */
  lemma TouchedDestination(s: State, dests: set<Path>, a: Step, d: Path, q: Path)
    requires Inv(s, dests) && Enabled(s, a) && IsOfTask(a) && d in dests && Touches(s, a, q) && Within(d, q)
    ensures a.Rename? && Renames(s, a.me) && s.tasks[a.me].dest == d
  {
    var dest, pid := s.tasks[a.me].dest, s.tasks[a.me].pid;
    TmpIsSwept(dest, pid);
    SweptIsApart(dests, dest, Tmp(s, a.me), d, q);
    LocksAreApart(dests, dest, d);
    if Within(q, Parent(dest)) {
      ParentsAreApart(dests, dest, d, q);
    }
    if a.Remove? && Within(a.p, q) {
      StaleIsNobodys(s, dests, dest, a.p, q);
    }
    if Within(dest, q) {
      OneIsWithinTheOther(dest, d, q);
    }
  }

  /** What a step touches in another thread's temporary directory is at most a lock file in its place. */
  lemma TouchedTmp(s: State, dests: set<Path>, a: Step, k: nat, q: Path)
    requires Inv(s, dests) && NoTwins(s) && Enabled(s, a) && IsOfTask(a) && Running(s, k) && k != a.me
    requires Touches(s, a, q) && Within(Tmp(s, k), q)
    ensures (a.OpenLock? || a.Unlink?) && q == LockPath(s.tasks[a.me].dest) && !IsDirectory(s.tree, q)
  {
    var dest, pid := s.tasks[a.me].dest, s.tasks[a.me].pid;
    var dest', pid' := s.tasks[k].dest, s.tasks[k].pid;
    TmpIsSwept(dest, pid);
    TmpIsSwept(dest', pid');
    if Within(Tmp(s, a.me), q) {
      SweptIsApartFromTmp(dests, dest, Tmp(s, a.me), dest', pid', q);
      assert false;
    }
    if Within(q, Parent(dest)) {
      ParentsAreApartFromTmp(dests, dest, dest', pid', q);
    }
    if a.Remove? && Within(a.p, q) {
      StaleIsNobodys(s, dests, dest, a.p, q);
    }
    if Within(dest, q) {
      SweptIsApart(dests, dest', Tmp(s, k), dest, q);
    }
  }

  lemma RenamePublishes(s: State, dests: set<Path>, a: Step)
    requires Inv(s, dests) && Enabled(s, a) && a.Rename? && Renames(s, a.me)
    ensures Published(s.tree, Apply(s, a).tree, s.tasks[a.me].dest)
  {
    var dest := s.tasks[a.me].dest;
    var made := Made(s.tree, Parent(dest));
    TmpIsBeside(dest, s.tasks[a.me].pid);
    MovedHas(made, Tmp(s, a.me), dest, dest);
    assert Tmp(s, a.me) + dest[|dest|..] == Tmp(s, a.me);
    if dest in s.tree {
      assert dest in made && Vacant(made, dest);
    }
  }

  /** A clone is refused a destination that is in use, which stays as it is. */
  lemma OccupiedIsRefused(s: State, a: Step)
    requires Enabled(s, a) && a.Rename? && s.tasks[a.me].dest in s.tree && !Vacant(s.tree, s.tasks[a.me].dest)
    ensures var dest := s.tasks[a.me].dest;
            Apply(s, a).tasks[a.me].pc.CleaningUp? && SameWithin(s.tree, Apply(s, a).tree, dest)
  {
    var dest := s.tasks[a.me].dest;
    var made := Made(s.tree, Parent(dest));
    assert dest in made && made[dest] == s.tree[dest];
    if made[dest].Folder? {
      var q :| q in s.tree && Within(dest, q) && q != dest;
      assert q in made;
    }
    forall q | Within(dest, q) ensures SameAt(s.tree, Apply(s, a).tree, q) {
      MadeTouches(s, dest, q);
    }
  }

  /** A destination only ever goes from nothing, or an empty directory, to a whole clone. */
  lemma StepPublishes(s: State, dests: set<Path>, a: Step, d: Path)
    requires Inv(s, dests) && Enabled(s, a) && d in dests
    ensures Published(s.tree, Apply(s, a).tree, d)
  {
    if IsOfTask(a) {
      if a.Rename? && Renames(s, a.me) && s.tasks[a.me].dest == d {
        RenamePublishes(s, dests, a);
      } else {
        forall q | Within(d, q) ensures SameAt(s.tree, Apply(s, a).tree, q) {
          OnlyTouchedPathsChange(s, a, q);
          if Touches(s, a, q) {
            TouchedDestination(s, dests, a, d, q);
          }
        }
      }
    }
  }

  lemma LockStepsMakeNoDirectory(s: State, a: Step)
    requires Enabled(s, a) && (a.OpenLock? || a.Unlink?)
    ensures var lock := LockPath(s.tasks[a.me].dest);
            !IsDirectory(s.tree, lock) ==> !IsDirectory(Apply(s, a).tree, lock)
  {
    var dest := s.tasks[a.me].dest;
    assert |LockPath(dest)| == |dest|;
  }

  /** A running thread's temporary directory is touched by nobody else. */
  lemma StepSparesOthers(s: State, dests: set<Path>, a: Step, k: nat)
    requires Inv(s, dests) && NoTwins(s) && Enabled(s, a) && Running(s, k) && (IsOfTask(a) ==> k != a.me)
    ensures SameDirectoriesWithin(s.tree, Apply(s, a).tree, Tmp(s, k))
  {
    if IsOfTask(a) {
      forall q | Within(Tmp(s, k), q) ensures SameDirectory(s.tree, Apply(s, a).tree, q) {
        OnlyTouchedPathsChange(s, a, q);
        if Touches(s, a, q) {
          TouchedTmp(s, dests, a, k, q);
          LockStepsMakeNoDirectory(s, a);
        }
      }
    }
  }

  lemma StepKeepsClones(s: State, dests: set<Path>, a: Step, k: nat)
    requires Inv(s, dests) && NoTwins(s) && Enabled(s, a) && Running(Apply(s, a), k)
    ensures var s' := Apply(s, a);
            && (s'.tasks[k].pc.Cloning? ==> IsDirectory(s'.tree, Tmp(s', k)))
            && (s'.tasks[k].pc.Cloned? ==> Tmp(s', k) in s'.tree && s'.tree[Tmp(s', k)].Whole?)
  {
    if Running(s, k) && (IsOfTask(a) ==> k != a.me) {
      OthersStay(s, a, k);
      StepSparesOthers(s, dests, a, k);
      assert SameDirectory(s.tree, Apply(s, a).tree, Tmp(s, k));
    }
  }

  /** A thread's place changes only by its own step, or with its process. */
  lemma OthersStay(s: State, a: Step, k: nat)
    requires Enabled(s, a) && Running(Apply(s, a), k) && Running(s, k) && (IsOfTask(a) ==> k != a.me)
    ensures Apply(s, a).tasks[k] == s.tasks[k]
  {
  }

  lemma StepKeepsTasks(s: State, dests: set<Path>, a: Step)
    requires TasksFit(s, dests) && Enabled(s, a) && (a.Start? ==> a.dest in dests)
    ensures TasksFit(Apply(s, a), dests)
  {
    if a.Exit? {
      KillingKeepsTasks(s, dests, a.pid);
    } else if a.TryLock? {
      KillingKeepsTasks(s, dests, s.tasks[a.me].pid);
    } else if IsOfTask(a) && !a.Find? {
      MovesItsThread(s, a);
      StaysItself(s, a);
      MovingKeepsTasks(s, Apply(s, a), dests, a.me);
    }
  }

  lemma StaysItself(s: State, a: Step)
    requires Enabled(s, a) && IsOfTask(a) && !a.TryLock? && !a.Find?
    ensures Running(s, a.me) && a.me in Apply(s, a).tasks
    ensures Apply(s, a).tasks[a.me].pid == s.tasks[a.me].pid && Apply(s, a).tasks[a.me].dest == s.tasks[a.me].dest
  {
  }

  lemma MovingKeepsTasks(s: State, s': State, dests: set<Path>, k: nat)
    requires TasksFit(s, dests) && Running(s, k) && k in s'.tasks && s'.tasks == s.tasks[k := s'.tasks[k]]
    requires s'.live == s.live && s'.tasks[k].pid == s.tasks[k].pid && s'.tasks[k].dest == s.tasks[k].dest
    ensures TasksFit(s', dests)
  {
  }

  lemma KillingKeepsTasks(s: State, dests: set<Path>, pid: nat)
    requires TasksFit(s, dests)
    ensures TasksFit(Killed(s, pid), dests)
  {
  }

  /** Whoever is gone stays gone while a sweep that has listed it goes on. */
  lemma StepKeepsSweeps(s: State, dests: set<Path>, a: Step)
    requires SweepsAreStale(s) && Enabled(s, a)
    ensures SweepsAreStale(Apply(s, a))
  {
    if a.Exit? {
      KillingKeepsSweeps(s, a.pid);
    } else if a.TryLock? {
      KillingKeepsSweeps(s, s.tasks[a.me].pid);
    } else if a.Find? {
      FoundIsStale(s, a);
      ListingKeepsSweeps(s, a.me, a.p);
    } else if IsOfTask(a) {
      OtherStepsListNothing(s, a);
      SameSweepsAreStale(s, Apply(s, a));
    }
  }

  lemma ListingKeepsSweeps(s: State, k: nat, p: Path)
    requires SweepsAreStale(s) && Running(s, k) && s.tasks[k].pc.Sweeping? && IsStale(s, s.tasks[k].dest, p)
    ensures SweepsAreStale(At(s, k, Sweeping(s.tasks[k].pc.found + {p})))
  {
  }

  /** Whoever sweeps afterwards swept before, for the same destination and with the same list. */
  ghost predicate NoNewSweeps(s: State, s': State) {
    forall k :: Running(s', k) && s'.tasks[k].pc.Sweeping? ==> Running(s, k) && s.tasks[k] == s'.tasks[k]
  }

  lemma OtherStepsListNothing(s: State, a: Step)
    requires Enabled(s, a) && IsOfTask(a) && !a.TryLock? && !a.Find?
    ensures NoNewSweeps(s, Apply(s, a)) && Apply(s, a).live == s.live
  {
    MovesItsThread(s, a);
    MovedThreadsListNothing(s, Apply(s, a), a.me);
  }

  /** A thread's step moves that thread, and it starts no sweep. */
  lemma MovesItsThread(s: State, a: Step)
    requires Enabled(s, a) && IsOfTask(a) && !a.TryLock? && !a.Find?
    ensures var s' := Apply(s, a);
            && s'.live == s.live && a.me in s'.tasks && s'.tasks == s.tasks[a.me := s'.tasks[a.me]]
            && (s'.tasks[a.me].pc.Sweeping? ==> s'.tasks[a.me] == s.tasks[a.me])
  {
    if a.Remove? {
      assert s.tasks[a.me := s.tasks[a.me]] == s.tasks;
    }
  }

  lemma MovedThreadsListNothing(s: State, s': State, k: nat)
    requires Running(s, k) && k in s'.tasks && s'.tasks == s.tasks[k := s'.tasks[k]]
    requires s'.tasks[k].pc.Sweeping? ==> s'.tasks[k] == s.tasks[k]
    ensures NoNewSweeps(s, s')
  {
  }

  lemma SameSweepsAreStale(s: State, s': State)
    requires SweepsAreStale(s) && NoNewSweeps(s, s') && s'.live == s.live
    ensures SweepsAreStale(s')
  {
  }

  lemma KillingKeepsSweeps(s: State, pid: nat)
    requires SweepsAreStale(s)
    ensures SweepsAreStale(Killed(s, pid))
  {
  }

  /** What a sweep lists is the leftover of a process that is gone, whoever's it was. */
  lemma FoundIsStale(s: State, a: Step)
    requires Enabled(s, a) && a.Find?
    ensures IsStale(s, s.tasks[a.me].dest, a.p)
  {
  }

  lemma StepKeepsInv(s: State, dests: set<Path>, a: Step)
    requires Inv(s, dests) && NoTwins(s) && Enabled(s, a) && (a.Start? ==> a.dest in dests)
    ensures Inv(Apply(s, a), dests)
  {
    StepKeepsTasks(s, dests, a);
    StepKeepsSweeps(s, dests, a);
    forall k | Running(Apply(s, a), k)
      ensures var s' := Apply(s, a);
              && (s'.tasks[k].pc.Cloning? ==> IsDirectory(s'.tree, Tmp(s', k)))
              && (s'.tasks[k].pc.Cloned? ==> Tmp(s', k) in s'.tree && s'.tree[Tmp(s', k)].Whole?)
    {
      StepKeepsClones(s, dests, a, k);
    }
  }

  // ---- The tree stays a tree ----

  lemma OpeningKeepsClosed(s: State, a: Step)
    requires Closed(s.tree) && Enabled(s, a) && a.OpenLock?
    ensures Closed(Apply(s, a).tree)
  {
    var dest := s.tasks[a.me].dest;
    if CanMake(s.tree, Parent(dest)) {
      MadeIsClosed(s.tree, Parent(dest));
      var made, lock := Made(s.tree, Parent(dest)), LockPath(dest);
      assert Parent(lock) == Parent(dest);
      if lock !in made {
        PutIsClosed(made, lock, File(a.id));
      }
    }
  }

  lemma BeginningKeepsClosed(s: State, a: Step)
    requires Closed(s.tree) && Enabled(s, a) && a.BeginClone?
    ensures Closed(Apply(s, a).tree)
  {
    var dest := s.tasks[a.me].dest;
    if CanMake(s.tree, Parent(dest)) {
      MadeIsClosed(s.tree, Parent(dest));
      TmpIsBeside(dest, s.tasks[a.me].pid);
      PutIsClosed(Made(s.tree, Parent(dest)), Tmp(s, a.me), Broken);
    }
  }

  lemma RenamingKeepsClosed(s: State, a: Step)
    requires Closed(s.tree) && Enabled(s, a) && a.Rename?
    ensures Closed(Apply(s, a).tree)
  {
    var dest := s.tasks[a.me].dest;
    if CanMake(s.tree, Parent(dest)) {
      MadeIsClosed(s.tree, Parent(dest));
      TmpIsBeside(dest, s.tasks[a.me].pid);
      if Renames(s, a.me) {
        MovedIsClosed(Made(s.tree, Parent(dest)), Tmp(s, a.me), dest);
      }
    }
  }

  /** Whatever the steps do, what there is stays a tree of directories. */
  lemma StepKeepsClosed(s: State, a: Step)
    requires Closed(s.tree) && Enabled(s, a)
    ensures Closed(Apply(s, a).tree)
  {
    match a
    case OpenLock(_, _) => OpeningKeepsClosed(s, a);
    case BeginClone(_) => BeginningKeepsClosed(s, a);
    case Rename(_) => RenamingKeepsClosed(s, a);
    case EndClone(k, ok) =>
      TmpIsBeside(s.tasks[k].dest, s.tasks[k].pid);
      if ok {
        PutIsClosed(s.tree, Tmp(s, k), Whole);
      }
    case Unlink(k) =>
      if !IsDirectory(s.tree, LockPath(s.tasks[k].dest)) {
        FileGoes(s.tree, LockPath(s.tasks[k].dest));
      }
    case _ =>
  }

  // ---- Every history ----

  ghost predicate MayStep(dests: set<Path>, s: State, a: Step) {
    Enabled(s, a) && (a.Start? ==> a.dest in dests)
  }

  ghost predicate IsHistory(dests: set<Path>, states: seq<State>, steps: seq<Step>) {
    && |states| == |steps| + 1
    && forall k :: 0 <= k < |steps| ==>
      MayStep(dests, states[k], steps[k]) && states[k + 1] == Apply(states[k], steps[k])
  }

  ghost predicate NeverTwins(states: seq<State>) {
    forall k :: 0 <= k < |states| ==> NoTwins(states[k])
  }

  /** No thread clones yet. Anything may lie around: leftovers, half clones, whole ones. */
  ghost predicate Starts(s: State) {
    s.tasks == map[] && Closed(s.tree) && forall pid :: pid in s.live ==> 0 < pid <= I32_MAX
  }

  lemma {:induction false} HistoryKeepsInv(dests: set<Path>, states: seq<State>, steps: seq<Step>, k: nat)
    requires Apart(dests) && IsHistory(dests, states, steps) && NeverTwins(states) && Starts(states[0]) && k < |states|
    ensures Inv(states[k], dests)
    decreases k
  {
    if k > 0 {
      HistoryKeepsInv(dests, states, steps, k - 1);
      assert MayStep(dests, states[k - 1], steps[k - 1]);
      StepKeepsInv(states[k - 1], dests, steps[k - 1]);
    }
  }

  /** What one step may do: publish at most, and spare every other running thread. */
  ghost predicate IsSafe(dests: set<Path>, before: State, a: Step, after: State) {
    && (forall d :: d in dests ==> Published(before.tree, after.tree, d))
    && (forall k :: Running(before, k) && (IsOfTask(a) ==> k != a.me) ==>
          SameDirectoriesWithin(before.tree, after.tree, Tmp(before, k)))
  }

  /** In every history, whoever dies whenever, a destination and all that is in it changes only from absent or
      empty to a whole clone, and a running thread's temporary directory changes only at its own hands. */
  lemma EveryStepIsSafe(dests: set<Path>, states: seq<State>, steps: seq<Step>, k: nat)
    requires Apart(dests) && IsHistory(dests, states, steps) && NeverTwins(states) && Starts(states[0]) && k < |steps|
    ensures IsSafe(dests, states[k], steps[k], states[k + 1])
  {
    HistoryKeepsInv(dests, states, steps, k);
    assert MayStep(dests, states[k], steps[k]) && states[k + 1] == Apply(states[k], steps[k]);
    forall d | d in dests ensures Published(states[k].tree, states[k + 1].tree, d) {
      StepPublishes(states[k], dests, steps[k], d);
    }
    forall j | Running(states[k], j) && (IsOfTask(steps[k]) ==> j != steps[k].me)
      ensures SameDirectoriesWithin(states[k].tree, states[k + 1].tree, Tmp(states[k], j))
    {
      StepSparesOthers(states[k], dests, steps[k], j);
    }
  }

  lemma SameStaysSame(a: Tree, b: Tree, c: Tree, d: Path)
    requires SameWithin(a, b, d) && SameWithin(b, c, d)
    ensures SameWithin(a, c, d)
  {
    forall q | Within(d, q) ensures SameAt(a, c, q) {
      assert SameAt(a, b, q) && SameAt(b, c, q);
    }
  }

  lemma StepKeepsClone(dests: set<Path>, states: seq<State>, steps: seq<Step>, d: Path, k: nat)
    requires Apart(dests) && IsHistory(dests, states, steps) && NeverTwins(states) && Starts(states[0]) && k < |steps|
    requires d in dests && d in states[k].tree && states[k].tree[d].Whole?
    ensures SameWithin(states[k].tree, states[k + 1].tree, d)
  {
    EveryStepIsSafe(dests, states, steps, k);
    assert Published(states[k].tree, states[k + 1].tree, d);
  }

  lemma SameIsThere(a: Tree, b: Tree, d: Path)
    requires SameWithin(a, b, d) && d in a
    ensures d in b && b[d] == a[d]
  {
    assert Within(d, d) && SameAt(a, b, d);
  }

  /** What every step keeps, a run of steps keeps. */
  lemma {:induction false} KeptAlong(trees: seq<Tree>, d: Path, j: nat, k: nat)
    requires j <= k < |trees| && d in trees[j] && trees[j][d].Whole?
    requires forall i {:trigger KeepsAt(trees, d, i)} :: 0 <= i < |trees| - 1 ==> KeepsAt(trees, d, i)
    ensures SameWithin(trees[j], trees[k], d)
    decreases k
  {
    if j < k {
      KeptAlong(trees, d, j, k - 1);
      assert KeepsAt(trees, d, k - 1);
      SameIsThere(trees[j], trees[k - 1], d);
      SameStaysSame(trees[j], trees[k - 1], trees[k], d);
    }
  }

  ghost predicate KeepsAt(trees: seq<Tree>, d: Path, i: int)
    requires 0 <= i < |trees| - 1
  {
    d in trees[i] && trees[i][d].Whole? ==> SameWithin(trees[i], trees[i + 1], d)
  }

  /** In every history a published clone is kept, with all that is in it. */
  lemma ClonesAreKept(dests: set<Path>, states: seq<State>, steps: seq<Step>, d: Path, j: nat, k: nat)
    requires Apart(dests) && IsHistory(dests, states, steps) && NeverTwins(states) && Starts(states[0])
    requires d in dests && j <= k < |states| && d in states[j].tree && states[j].tree[d].Whole?
    ensures SameWithin(states[j].tree, states[k].tree, d)
  {
    var trees := seq(|states|, i requires 0 <= i < |states| => states[i].tree);
    forall i | 0 <= i < |trees| - 1 ensures KeepsAt(trees, d, i) {
      if d in trees[i] && trees[i][d].Whole? {
        StepKeepsClone(dests, states, steps, d, i);
      }
    }
    KeptAlong(trees, d, j, k);
  }

  // ---- The exact condition ----

  /** In every history in which no process clones to one destination twice at a time, every step is safe. */
  ghost predicate AlwaysSafe(dests: set<Path>) {
    forall states, steps, k ::
      IsHistory(dests, states, steps) && NeverTwins(states) && Starts(states[0]) && 0 <= k < |steps| ==>
        IsSafe(dests, states[k], steps[k], states[k + 1])
  }

  const EMPTY_TREE: Tree := map[[] := Folder]

  /** A whole clone at `d`, in the directories it takes, and nothing else. */
  function Alone(d: Path): Tree
    requires d != []
  {
    Made(EMPTY_TREE, Parent(d))[d := Whole]
  }

  lemma AloneIsClosed(d: Path)
    requires d != []
    ensures Closed(Alone(d)) && (forall q :: q in Alone(d) <==> Within(q, d)) && Closed(EMPTY_TREE)
    ensures forall q :: q in Alone(d) && Alone(d)[q].Whole? ==> q == d
    ensures forall q :: Within(q, d) ==> IsDirectory(Alone(d), q)
  {
    var up := Parent(d);
    assert Closed(EMPTY_TREE) && CanMake(EMPTY_TREE, up);
    MadeIsClosed(EMPTY_TREE, up);
    PutIsClosed(Made(EMPTY_TREE, up), d, Whole);
    forall q ensures q in Alone(d) <==> Within(q, d) {
      AboveOrItself(d, q);
    }
  }

  lemma AboveOrItself(d: Path, q: Path)
    requires d != []
    ensures Within(q, d) <==> q == d || Within(q, Parent(d))
  {
    if Within(q, d) && q != d {
      assert q == d[..|q|] == Parent(d)[..|q|];
    } else if Within(q, Parent(d)) {
      AboveMeansAbove(d, q);
    }
  }

  lemma ThreeSteps(dests: set<Path>, s: State, t: State, u: State, v: State, a: Step, b: Step, c: Step)
    requires MayStep(dests, s, a) && t == Apply(s, a) && MayStep(dests, t, b) && u == Apply(t, b)
    requires MayStep(dests, u, c) && v == Apply(u, c) && NoTwins(s) && NoTwins(t) && NoTwins(u) && NoTwins(v)
    ensures IsHistory(dests, [s, t, u, v], [a, b, c]) && NeverTwins([s, t, u, v])
  {
    var states, steps := [s, t, u, v], [a, b, c];
    forall k | 0 <= k < |steps|
      ensures MayStep(dests, states[k], steps[k]) && states[k + 1] == Apply(states[k], steps[k])
    {
      assert k == 0 || k == 1 || k == 2;
    }
  }

  /** The start of a history: one process, no thread yet. */
  function Dawn(t: Tree, pid: nat): State {
    State(t, map[pid := 0], map[])
  }

  function One(t: Tree, pid: nat, dest: Path, pc: Pc): State {
    State(t, map[pid := 0], map[0 := Task(pid, dest, pc)])
  }

  lemma OneHasNoTwin(t: Tree, pid: nat, dest: Path, pc: Pc)
    ensures NoTwins(One(t, pid, dest, pc)) && NoTwins(Dawn(t, pid))
  {
  }

  lemma DawnStarts(t: Tree, pid: nat, d: Path)
    requires Closed(t) && 0 < pid <= I32_MAX && d != [] && !(d in t && t[d].Whole?)
    ensures Starts(Dawn(t, pid)) && Enabled(Dawn(t, pid), Start(0, pid, d))
    ensures Apply(Dawn(t, pid), Start(0, pid, d)) == One(t, pid, d, Sweeping({}))
  {
  }

  lemma SweepRemoves(t: Tree, pid: nat, d: Path, p: Path)
    requires d != [] && p != [] && IsDirectory(t, p) && SweptFor(d, p).Some? && SweptFor(d, p) != Some(pid)
    ensures var s, found := One(t, pid, d, Sweeping({})), One(t, pid, d, Sweeping({p}));
            && Enabled(s, Find(0, p)) && Apply(s, Find(0, p)) == found
            && Enabled(found, Remove(0, p, Without(t, p)))
            && Apply(found, Remove(0, p, Without(t, p))) == One(Without(t, p), pid, d, Sweeping({p}))
  {
    WithoutIsRemoved(t, p);
    var none: set<Path> := {};
    assert none + {p} == {p};
  }

  lemma OpeningMakes(t: Tree, pid: nat, d: Path)
    requires d != [] && (forall q :: q in t ==> !t[q].File?)
    requires CanMake(t, Parent(d)) && LockPath(d) !in Made(t, Parent(d))
    ensures var s, opening := One(t, pid, d, Sweeping({})), One(t, pid, d, Opening);
            && Enabled(s, SweepDone(0)) && Apply(s, SweepDone(0)) == opening
            && Enabled(opening, OpenLock(0, 0))
            && Apply(opening, OpenLock(0, 0)) == One(Made(t, Parent(d))[LockPath(d) := File(0)], pid, d, Locking(0))
  {
  }

  /** A destination that is or lies in what a sweep for another takes for a leftover: a process that only
      wants to clone the other deletes its clone. */
  lemma LookalikesAreSwept(dests: set<Path>, d: Path, d': Path) returns (states: seq<State>, steps: seq<Step>)
    requires d in dests && d' in dests && |d| <= |d'| && SweptFor(d, d'[..|d|]).Some?
    ensures IsHistory(dests, states, steps) && Starts(states[0]) && NeverTwins(states) && |steps| == 3
    ensures d' in states[2].tree && states[2].tree[d'].Whole? && d' !in states[3].tree
  {
    var p, t := d'[..|d|], Alone(d');
    var pid := if SweptFor(d, p) == Some(1) then 2 else 1;
    SweptIsNotItself(d, p);
    AloneIsClosed(d');
    assert Within(p, d') && IsDirectory(t, p) && d' !in Without(t, p);
    states, steps := SweepHistory(dests, t, pid, d, p);
  }

  /** A first process finds what looks like a leftover, and removes it. */
  lemma SweepHistory(dests: set<Path>, t: Tree, pid: nat, d: Path, p: Path)
    returns (states: seq<State>, steps: seq<Step>)
    requires d in dests && d != [] && p != [] && Closed(t) && 0 < pid <= I32_MAX && !(d in t && t[d].Whole?)
    requires IsDirectory(t, p) && SweptFor(d, p).Some? && SweptFor(d, p) != Some(pid)
    ensures IsHistory(dests, states, steps) && Starts(states[0]) && NeverTwins(states) && |steps| == 3
    ensures states[2].tree == t && states[3].tree == Without(t, p)
  {
    DawnStarts(t, pid, d);
    SweepRemoves(t, pid, d, p);
    OneHasNoTwin(t, pid, d, Sweeping({}));
    OneHasNoTwin(t, pid, d, Sweeping({p}));
    OneHasNoTwin(Without(t, p), pid, d, Sweeping({p}));
    var s, sweeping := Dawn(t, pid), One(t, pid, d, Sweeping({}));
    var found, removed := One(t, pid, d, Sweeping({p})), One(Without(t, p), pid, d, Sweeping({p}));
    var a, b, c := Start(0, pid, d), Find(0, p), Remove(0, p, Without(t, p));
    ThreeSteps(dests, s, sweeping, found, removed, a, b, c);
    states, steps := [s, sweeping, found, removed], [a, b, c];
  }

  lemma SweptIsNotItself(d: Path, p: Path)
    requires SweptFor(d, p).Some?
    ensures d != [] && p != [] && d != p && |d| == |p|
  {
    SweptName(Name(d), Name(p));
    assert |Parent(d)| == |d| - 1 && |Parent(p)| == |p| - 1;
  }

  /** What a first clone makes, up to its lock file. */
  lemma FirstClone(dests: set<Path>, d: Path) returns (states: seq<State>, steps: seq<Step>)
    requires d in dests && d != []
    ensures IsHistory(dests, states, steps) && Starts(states[0]) && NeverTwins(states) && |steps| == 3
    ensures states[2].tree == EMPTY_TREE
    ensures states[3] == One(Made(EMPTY_TREE, Parent(d))[LockPath(d) := File(0)], 1, d, Locking(0))
  {
    var t := EMPTY_TREE;
    var made := Made(t, Parent(d))[LockPath(d) := File(0)];
    AloneIsClosed(d);
    assert |LockPath(d)| == |d| && d !in t && LockPath(d) !in Made(t, Parent(d));
    DawnStarts(t, 1, d);
    OpeningMakes(t, 1, d);
    OneHasNoTwin(t, 1, d, Sweeping({}));
    OneHasNoTwin(t, 1, d, Opening);
    OneHasNoTwin(made, 1, d, Locking(0));
    var s, sweeping := Dawn(t, 1), One(t, 1, d, Sweeping({}));
    var opening, locking := One(t, 1, d, Opening), One(made, 1, d, Locking(0));
    ThreeSteps(dests, s, sweeping, opening, locking, Start(0, 1, d), SweepDone(0), OpenLock(0, 0));
    states, steps := [s, sweeping, opening, locking], [Start(0, 1, d), SweepDone(0), OpenLock(0, 0)];
  }

  /** A destination below another: cloning it first makes the other a directory that is no clone. */
  lemma NestedClonesCollide(dests: set<Path>, d: Path, d': Path) returns (states: seq<State>, steps: seq<Step>)
    requires d in dests && d' in dests && d != d' && d' != [] && Within(d', d)
    ensures IsHistory(dests, states, steps) && Starts(states[0]) && NeverTwins(states) && |steps| == 3
    ensures d' !in states[2].tree && d' in states[3].tree && states[3].tree[d'].Folder? && !Vacant(states[3].tree, d')
  {
    states, steps := FirstClone(dests, d);
    assert d' == d[..|d'|] == Parent(d)[..|d'|];
    assert Within(d', LockPath(d)) && |LockPath(d)| == |d|;
  }

  /** A destination named like another's lock file becomes that file. */
  lemma LocksCollide(dests: set<Path>, d: Path) returns (states: seq<State>, steps: seq<Step>)
    requires d in dests && d != [] && LockPath(d) in dests
    ensures IsHistory(dests, states, steps) && Starts(states[0]) && NeverTwins(states) && |steps| == 3
    ensures LockPath(d) !in states[2].tree && LockPath(d) in states[3].tree && states[3].tree[LockPath(d)].File?
  {
    states, steps := FirstClone(dests, d);
    assert LockPath(d) != [];
  }

  /** Destinations are only ever published to, with nothing in them changed, and running threads spared, in
      every history, if and only if the destinations keep apart. */
  lemma SafeExactlyWhenApart(dests: set<Path>)
    requires [] !in dests
    ensures AlwaysSafe(dests) <==> Apart(dests)
  {
    if Apart(dests) {
      forall states, steps, k
        | IsHistory(dests, states, steps) && NeverTwins(states) && Starts(states[0]) && 0 <= k < |steps|
        ensures IsSafe(dests, states[k], steps[k], states[k + 1])
      {
        EveryStepIsSafe(dests, states, steps, k);
      }
    } else {
      var states, steps, d := SomeStepIsUnsafe(dests);
    }
  }

  lemma SomeStepIsUnsafe(dests: set<Path>) returns (states: seq<State>, steps: seq<Step>, d: Path)
    requires [] !in dests && !Apart(dests)
    ensures IsHistory(dests, states, steps) && Starts(states[0]) && NeverTwins(states) && |steps| == 3
    ensures d in dests && !Published(states[2].tree, states[2 + 1].tree, d)
    ensures !IsSafe(dests, states[2], steps[2], states[2 + 1])
  {
    var a, b :| a in dests && b in dests &&
      ((Within(a, b) && a != b) || (|a| <= |b| && SweptFor(a, b[..|a|]).Some?) || b == LockPath(a));
    if Within(a, b) && a != b {
      states, steps := NestedClonesCollide(dests, b, a);
      d := a;
    } else if b == LockPath(a) {
      states, steps := LocksCollide(dests, a);
      d := b;
    } else {
      states, steps := LookalikesAreSwept(dests, a, b);
      d := b;
    }
    assert Within(d, d);
  }
}
