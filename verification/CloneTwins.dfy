/** Three threads of one process cloning one repository: the lock file keeps two of them apart only until it
    is removed, and the third then damages what the second is about to publish. */
module CloneTwins {
  import opened Bytes
  import opened TmpNames
  import opened CloneTree
  import opened ClonePublication

  ghost predicate Reaches(dests: set<Path>, s: State, t: State) {
    exists states, steps :: IsHistory(dests, states, steps) && states[0] == s && states[|steps|] == t
  }

  lemma ReachesItself(dests: set<Path>, s: State)
    ensures Reaches(dests, s, s)
  {
    var states, steps: seq<Step> := [s], [];
    assert IsHistory(dests, states, steps) && states[|steps|] == s;
  }

  lemma ReachesNext(dests: set<Path>, s: State, t: State, a: Step, u: State)
    requires Reaches(dests, s, t) && MayStep(dests, t, a) && Apply(t, a) == u
    ensures Reaches(dests, s, u)
  {
    var states, steps :| IsHistory(dests, states, steps) && states[0] == s && states[|steps|] == t;
    OneMoreStep(dests, states, steps, a, u);
  }

  lemma OneMoreStep(dests: set<Path>, states: seq<State>, steps: seq<Step>, a: Step, u: State)
    requires IsHistory(dests, states, steps) && MayStep(dests, states[|steps|], a) && Apply(states[|steps|], a) == u
    ensures IsHistory(dests, states + [u], steps + [a])
    ensures (states + [u])[0] == states[0] && (states + [u])[|steps + [a]|] == u
    ensures Reaches(dests, states[0], u)
  {
    var states', steps' := states + [u], steps + [a];
    forall k | 0 <= k < |steps'|
      ensures MayStep(dests, states'[k], steps'[k]) && states'[k + 1] == Apply(states'[k], steps'[k])
    {
      if k < |steps| {
        assert MayStep(dests, states[k], steps[k]);
      }
    }
    assert states'[0] == states[0] && states'[|steps'|] == u;
  }

  /** `R` goes on holding, whatever step is taken. */
  ghost predicate GoesOn(R: State -> bool, d: Path) {
    forall s, a {:trigger MayStep({d}, s, a)} :: R(s) && MayStep({d}, s, a) ==> R(Apply(s, a))
  }

  lemma ReachingGoesOn(d: Path, start: State)
    ensures GoesOn(s => Reaches({d}, start, s), d)
  {
    forall s, a | Reaches({d}, start, s) && MayStep({d}, s, a) ensures Reaches({d}, start, Apply(s, a)) {
      ReachesNext({d}, start, s, a, Apply(s, a));
    }
  }

  // ---- Single steps ----

  /** The directories above `d` are there. */
  ghost predicate IsBased(t: Tree, d: Path)
    requires d != []
  {
    forall q :: Within(q, Parent(d)) ==> q in t && t[q].Folder?
  }

  lemma NothingToMake(t: Tree, d: Path)
    requires d != [] && IsBased(t, d)
    ensures CanMake(t, Parent(d)) && Made(t, Parent(d)) == t
  {
  }

  lemma BesideIsNotAbove(t: Tree, d: Path, p: Path, e: Entry)
    requires d != [] && IsBased(t, d) && |p| == |d|
    ensures IsBased(t[p := e], d) && IsBased(t - {p}, d)
  {
  }

  lemma ThreePaths(d: Path)
    requires d != []
    ensures var tmp, lock := TmpPath(d, 1), LockPath(d);
            && tmp != lock && tmp != d && lock != d && |tmp| == |lock| == |d|
            && !Within(tmp, d) && !Within(d, tmp) && !Within(tmp, lock) && !Within(d, lock)
  {
    TmpIsBeside(d, 1);
    assert Parent(LockPath(d)) == Parent(d) && Name(LockPath(d)) == LOCK + Name(d);
    assert Decimal(1) == [Digit(1)];
    assert |Name(LockPath(d))| == |Name(d)| + 11 && |Name(TmpPath(d, 1))| == |Name(d)| + 6;
    SiblingsAreNotWithin(TmpPath(d, 1), LockPath(d));
    SiblingsAreNotWithin(d, LockPath(d));
  }

  lemma Sweeps(R: State -> bool, d: Path, s: State, me: nat)
    requires GoesOn(R, d) && R(s) && Running(s, me) && s.tasks[me].pc.Sweeping?
    ensures R(At(s, me, Opening))
  {
    assert MayStep({d}, s, SweepDone(me));
  }

  /** Making the lock file. */
  lemma Opens(R: State -> bool, d: Path, s: State, me: nat, id: nat)
    requires GoesOn(R, d) && R(s) && Running(s, me) && s.tasks[me].pc.Opening? && s.tasks[me].dest == d
    requires IsBased(s.tree, d) && LockPath(d) !in s.tree && IsFresh(s, id)
    ensures R(At(s, me, Locking(id)).(tree := s.tree[LockPath(d) := File(id)]))
  {
    NothingToMake(s.tree, d);
    assert MayStep({d}, s, OpenLock(me, id));
  }

  /** Opening one that is there. */
  lemma Reopens(R: State -> bool, d: Path, s: State, me: nat, fresh': nat)
    requires GoesOn(R, d) && R(s) && Running(s, me) && s.tasks[me].pc.Opening? && s.tasks[me].dest == d
    requires IsBased(s.tree, d) && LockPath(d) in s.tree && s.tree[LockPath(d)].File? && IsFresh(s, fresh')
    ensures R(At(s, me, Locking(s.tree[LockPath(d)].id)))
  {
    NothingToMake(s.tree, d);
    assert MayStep({d}, s, OpenLock(me, fresh'));
    assert Apply(s, OpenLock(me, fresh')) == At(s, me, Locking(s.tree[LockPath(d)].id));
  }

  lemma Locks(R: State -> bool, d: Path, s: State, me: nat)
    requires GoesOn(R, d) && R(s) && Running(s, me) && s.tasks[me].pc.Locking? && LockIsFree(s, me, s.tasks[me].pc.id)
    ensures R(At(s, me, Ready(s.tasks[me].pc.id)))
  {
    assert MayStep({d}, s, TryLock(me));
  }

  lemma Begins(R: State -> bool, d: Path, s: State, me: nat)
    requires GoesOn(R, d) && R(s) && Running(s, me) && s.tasks[me].pc.Ready? && s.tasks[me].dest == d
    requires IsBased(s.tree, d) && Tmp(s, me) !in s.tree
    ensures R(At(s, me, Cloning(s.tasks[me].pc.id)).(tree := s.tree[Tmp(s, me) := Broken]))
  {
    NothingToMake(s.tree, d);
    assert MayStep({d}, s, BeginClone(me));
  }

  lemma IsRefused(R: State -> bool, d: Path, s: State, me: nat)
    requires GoesOn(R, d) && R(s) && Running(s, me) && s.tasks[me].pc.Ready? && s.tasks[me].dest == d
    requires IsBased(s.tree, d) && Tmp(s, me) in s.tree && s.tree[Tmp(s, me)].Whole?
    ensures R(At(s, me, CleaningUp(s.tasks[me].pc.id)))
  {
    NothingToMake(s.tree, d);
    assert MayStep({d}, s, BeginClone(me));
    assert Apply(s, BeginClone(me)) == At(s, me, CleaningUp(s.tasks[me].pc.id));
  }

  lemma Clones(R: State -> bool, d: Path, s: State, me: nat)
    requires GoesOn(R, d) && R(s) && Running(s, me) && s.tasks[me].pc.Cloning? && IsDirectory(s.tree, Tmp(s, me))
    ensures R(At(s, me, Cloned(s.tasks[me].pc.id)).(tree := s.tree[Tmp(s, me) := Whole]))
  {
    assert MayStep({d}, s, EndClone(me, true));
  }

  lemma Fails(R: State -> bool, d: Path, s: State, me: nat)
    requires GoesOn(R, d) && R(s) && Running(s, me) && s.tasks[me].pc.Cloning?
    ensures R(At(s, me, CleaningUp(s.tasks[me].pc.id)))
  {
    assert MayStep({d}, s, EndClone(me, false));
  }

  lemma CleansUp(R: State -> bool, d: Path, s: State, me: nat, left: Tree, done: bool)
    requires GoesOn(R, d) && R(s) && Running(s, me) && s.tasks[me].pc.CleaningUp? && Removes(s.tree, left, Tmp(s, me))
    ensures var id := s.tasks[me].pc.id;
            R(At(s, me, if done then Unlocking(id) else CleaningUp(id)).(tree := left))
  {
    assert MayStep({d}, s, CleanUp(me, left, done));
  }

  lemma Unlocks(R: State -> bool, d: Path, s: State, me: nat)
    requires GoesOn(R, d) && R(s) && Running(s, me) && s.tasks[me].pc.Unlocking?
    ensures R(At(s, me, Unlinking))
  {
    assert MayStep({d}, s, Unlock(me));
  }

  lemma Unlinks(R: State -> bool, d: Path, s: State, me: nat)
    requires GoesOn(R, d) && R(s) && Running(s, me) && s.tasks[me].pc.Unlinking? && s.tasks[me].dest == d
    ensures R(At(s, me, Over).(tree := Unlinked(s.tree, LockPath(d))))
  {
    assert MayStep({d}, s, Unlink(me));
  }

  lemma Publishes(R: State -> bool, d: Path, s: State, me: nat)
    requires GoesOn(R, d) && R(s) && Running(s, me) && s.tasks[me].pc.Cloned? && s.tasks[me].dest == d
    requires IsBased(s.tree, d) && d !in s.tree && Tmp(s, me) in s.tree
    ensures R(At(s, me, Unlocking(s.tasks[me].pc.id)).(tree := Moved(s.tree, Tmp(s, me), d)))
  {
    NothingToMake(s.tree, d);
    assert MayStep({d}, s, Rename(me));
  }

  // ---- The history ----

  /** Process 1 and its three threads. */
  function Trio(t: Tree, d: Path, a: Pc, b: Pc, c: Pc): State {
    State(t, map[1 := 0], Threads(d, a, b, c))
  }

  function Threads(d: Path, a: Pc, b: Pc, c: Pc): map<nat, Task> {
    map[0 := Task(1, d, a), 1 := Task(1, d, b), 2 := Task(1, d, c)]
  }

  lemma FirstMoves(d: Path, a: Pc, b: Pc, c: Pc, pc: Pc)
    ensures Threads(d, a, b, c)[0 := Task(1, d, pc)] == Threads(d, pc, b, c)
  {
  }

  lemma SecondMoves(d: Path, a: Pc, b: Pc, c: Pc, pc: Pc)
    ensures Threads(d, a, b, c)[1 := Task(1, d, pc)] == Threads(d, a, pc, c)
  {
  }

  lemma ThirdMoves(d: Path, a: Pc, b: Pc, c: Pc, pc: Pc)
    ensures Threads(d, a, b, c)[2 := Task(1, d, pc)] == Threads(d, a, b, pc)
  {
  }

  lemma TrioMoves(t: Tree, d: Path, a: Pc, b: Pc, c: Pc, pc: Pc, t': Tree)
    ensures var s := Trio(t, d, a, b, c);
            && At(s, 0, pc) == Trio(t, d, pc, b, c)
            && At(s, 1, pc) == Trio(t, d, a, pc, c)
            && At(s, 2, pc) == Trio(t, d, a, b, pc)
            && At(s, 0, pc).(tree := t') == Trio(t', d, pc, b, c)
            && At(s, 1, pc).(tree := t') == Trio(t', d, a, pc, c)
            && At(s, 2, pc).(tree := t') == Trio(t', d, a, b, pc)
  {
    FirstMoves(d, a, b, c, pc);
    SecondMoves(d, a, b, c, pc);
    ThirdMoves(d, a, b, c, pc);
  }

  function Waiting(): Pc {
    Sweeping({})
  }

  lemma TrioStarts(R: State -> bool, d: Path, t: Tree)
    requires d != [] && d !in t && GoesOn(R, d) && R(Dawn(t, 1))
    ensures R(Trio(t, d, Waiting(), Waiting(), Waiting()))
  {
    var one := Dawn(t, 1).(tasks := map[0 := Task(1, d, Waiting())]);
    var two := Dawn(t, 1).(tasks := map[0 := Task(1, d, Waiting()), 1 := Task(1, d, Waiting())]);
    assert MayStep({d}, Dawn(t, 1), Start(0, 1, d)) && Apply(Dawn(t, 1), Start(0, 1, d)) == one;
    assert MayStep({d}, one, Start(1, 1, d)) && Apply(one, Start(1, 1, d)) == two;
    assert MayStep({d}, two, Start(2, 1, d));
    assert Apply(two, Start(2, 1, d)) == Trio(t, d, Waiting(), Waiting(), Waiting());
  }

  predicate NoFiles(t: Tree) {
    forall q :: q in t ==> !t[q].File?
  }

  /** The first thread takes the lock. */
  lemma FirstLocks(R: State -> bool, d: Path, t: Tree, w: Pc)
    requires d != [] && IsBased(t, d) && LockPath(d) !in t && NoFiles(t) && GoesOn(R, d) && w.Sweeping?
    requires R(Trio(t, d, w, w, w))
    ensures R(Trio(t[LockPath(d) := File(0)], d, Ready(0), w, w))
  {
    var locked := t[LockPath(d) := File(0)];
    Sweeps(R, d, Trio(t, d, w, w, w), 0);
    TrioMoves(t, d, w, w, w, Opening, t);
    Opens(R, d, Trio(t, d, Opening, w, w), 0, 0);
    TrioMoves(t, d, Opening, w, w, Locking(0), locked);
    Locks(R, d, Trio(locked, d, Locking(0), w, w), 0);
    TrioMoves(locked, d, Locking(0), w, w, Ready(0), locked);
  }

  /** Its clone fails, and it has yet to unlock. */
  lemma FirstFails(R: State -> bool, d: Path, t: Tree, w: Pc)
    requires d != [] && IsBased(t, d) && GoesOn(R, d) && (forall q :: q in t ==> !Within(TmpPath(d, 1), q))
    requires R(Trio(t, d, Ready(0), w, w))
    ensures R(Trio(t, d, Unlocking(0), w, w))
  {
    var tmp := TmpPath(d, 1);
    var begun := t[tmp := Broken];
    assert Within(tmp, tmp);
    Begins(R, d, Trio(t, d, Ready(0), w, w), 0);
    TrioMoves(t, d, Ready(0), w, w, Cloning(0), begun);
    Fails(R, d, Trio(begun, d, Cloning(0), w, w), 0);
    TrioMoves(begun, d, Cloning(0), w, w, CleaningUp(0), begun);
    ThreePaths(d);
    WithoutIsRemoved(begun, tmp);
    assert Without(begun, tmp) == t;
    CleansUp(R, d, Trio(begun, d, CleaningUp(0), w, w), 0, t, true);
    TrioMoves(begun, d, CleaningUp(0), w, w, Unlocking(0), t);
  }

  /** The second opens the same file. */
  lemma SecondOpens(R: State -> bool, d: Path, t: Tree, w: Pc)
    requires d != [] && IsBased(t, d) && LockPath(d) !in t && NoFiles(t) && GoesOn(R, d) && w.Sweeping?
    requires R(Trio(t[LockPath(d) := File(0)], d, Unlocking(0), w, w))
    ensures R(Trio(t[LockPath(d) := File(0)], d, Unlocking(0), Locking(0), w))
  {
    var locked := t[LockPath(d) := File(0)];
    BesideIsNotAbove(t, d, LockPath(d), File(0));
    Sweeps(R, d, Trio(locked, d, Unlocking(0), w, w), 1);
    TrioMoves(locked, d, Unlocking(0), w, w, Opening, locked);
    Reopens(R, d, Trio(locked, d, Unlocking(0), Opening, w), 1, 1);
    TrioMoves(locked, d, Unlocking(0), Opening, w, Locking(0), locked);
  }

  /** It locks it between the first's unlocking and removing it. */
  lemma SecondLocks(R: State -> bool, d: Path, t: Tree, w: Pc)
    requires d != [] && LockPath(d) !in t && GoesOn(R, d) && w.Sweeping?
    requires R(Trio(t[LockPath(d) := File(0)], d, Unlocking(0), Locking(0), w))
    ensures R(Trio(t, d, Over, Ready(0), w))
  {
    var locked := t[LockPath(d) := File(0)];
    Unlocks(R, d, Trio(locked, d, Unlocking(0), Locking(0), w), 0);
    TrioMoves(locked, d, Unlocking(0), Locking(0), w, Unlinking, locked);
    Locks(R, d, Trio(locked, d, Unlinking, Locking(0), w), 1);
    TrioMoves(locked, d, Unlinking, Locking(0), w, Ready(0), locked);
    Unlinks(R, d, Trio(locked, d, Unlinking, Ready(0), w), 0);
    assert Unlinked(locked, LockPath(d)) == t;
    TrioMoves(locked, d, Unlinking, Ready(0), w, Over, t);
  }

  /** The third makes a lock file of its own. */
  lemma ThirdLocks(R: State -> bool, d: Path, t: Tree, w: Pc)
    requires d != [] && IsBased(t, d) && LockPath(d) !in t && NoFiles(t) && GoesOn(R, d) && w.Sweeping?
    requires R(Trio(t, d, Over, Ready(0), w))
    ensures R(Trio(t[LockPath(d) := File(1)], d, Over, Ready(0), Ready(1)))
  {
    var locked := t[LockPath(d) := File(1)];
    Sweeps(R, d, Trio(t, d, Over, Ready(0), w), 2);
    TrioMoves(t, d, Over, Ready(0), w, Opening, t);
    Opens(R, d, Trio(t, d, Over, Ready(0), Opening), 2, 1);
    TrioMoves(t, d, Over, Ready(0), Opening, Locking(1), locked);
    Locks(R, d, Trio(locked, d, Over, Ready(0), Locking(1)), 2);
    TrioMoves(locked, d, Over, Ready(0), Locking(1), Ready(1), locked);
  }

  lemma SecondClones(R: State -> bool, d: Path, t: Tree)
    requires d != [] && IsBased(t, d) && TmpPath(d, 1) !in t && GoesOn(R, d)
    requires R(Trio(t, d, Over, Ready(0), Ready(1)))
    ensures R(Trio(t[TmpPath(d, 1) := Whole], d, Over, Cloned(0), Ready(1)))
  {
    var tmp := TmpPath(d, 1);
    var begun, whole := t[tmp := Broken], t[tmp := Whole];
    Begins(R, d, Trio(t, d, Over, Ready(0), Ready(1)), 1);
    TrioMoves(t, d, Over, Ready(0), Ready(1), Cloning(0), begun);
    Clones(R, d, Trio(begun, d, Over, Cloning(0), Ready(1)), 1);
    assert begun[tmp := Whole] == whole;
    TrioMoves(begun, d, Over, Cloning(0), Ready(1), Cloned(0), whole);
  }

  /** The third is refused its directory and starts cleaning it up. */
  lemma ThirdCleansUp(R: State -> bool, d: Path, t: Tree)
    requires d != [] && IsBased(t, d) && TmpPath(d, 1) in t && t[TmpPath(d, 1)].Whole? && GoesOn(R, d)
    requires R(Trio(t, d, Over, Cloned(0), Ready(1)))
    ensures R(Trio(t[TmpPath(d, 1) := Broken], d, Over, Cloned(0), CleaningUp(1)))
  {
    var tmp := TmpPath(d, 1);
    var part := t[tmp := Broken];
    IsRefused(R, d, Trio(t, d, Over, Cloned(0), Ready(1)), 2);
    TrioMoves(t, d, Over, Cloned(0), Ready(1), CleaningUp(1), t);
    PartIsRemoved(t, part, tmp);
    CleansUp(R, d, Trio(t, d, Over, Cloned(0), CleaningUp(1)), 2, part, false);
    TrioMoves(t, d, Over, Cloned(0), CleaningUp(1), CleaningUp(1), part);
  }

  /** A removal under way. */
  lemma PartIsRemoved(whole: Tree, part: Tree, p: Path)
    requires p in whole && whole[p].Whole? && part == whole[p := Broken]
    ensures Removes(whole, part, p)
  {
    assert Within(p, p);
  }

  lemma UpToTheLocks(R: State -> bool, d: Path, t: Tree)
    requires d != [] && IsBased(t, d) && NoFiles(t) && GoesOn(R, d) && (forall q :: q in t ==> |q| < |d|)
    requires R(Dawn(t, 1))
    ensures R(Trio(t[LockPath(d) := File(1)], d, Over, Ready(0), Ready(1)))
  {
    var w, locked := Waiting(), t[LockPath(d) := File(0)];
    ThreePaths(d);
    TrioStarts(R, d, t);
    FirstLocks(R, d, t, w);
    BesideIsNotAbove(t, d, LockPath(d), File(0));
    FirstFails(R, d, locked, w);
    SecondOpens(R, d, t, w);
    SecondLocks(R, d, t, w);
    ThirdLocks(R, d, t, w);
  }

  lemma FromTheLocks(R: State -> bool, d: Path, t: Tree) returns (last: State)
    requires d != [] && IsBased(t, d) && GoesOn(R, d) && (forall q :: q in t && |q| >= |d| ==> q == LockPath(d))
    requires R(Trio(t, d, Over, Ready(0), Ready(1)))
    ensures R(last) && d in last.tree && last.tree[d].Broken? && 1 in last.tasks && last.tasks[1].pc.Unlocking?
  {
    var tmp := TmpPath(d, 1);
    ThreePaths(d);
    SecondClones(R, d, t);
    BesideIsNotAbove(t, d, tmp, Whole);
    ThirdCleansUp(R, d, t[tmp := Whole]);
    var part := t[tmp := Whole][tmp := Broken];
    BesideIsNotAbove(t[tmp := Whole], d, tmp, Broken);
    Publishes(R, d, Trio(part, d, Over, Cloned(0), CleaningUp(1)), 1);
    TrioMoves(part, d, Over, Cloned(0), CleaningUp(1), Unlocking(0), Moved(part, tmp, d));
    last := Trio(Moved(part, tmp, d), d, Over, Unlocking(0), CleaningUp(1));
    MovedHas(part, tmp, d, d);
    assert tmp + d[|d|..] == tmp;
  }

  /** Three threads cloning to one destination can publish a damaged clone, and the one that does takes it for
      a success. */
  lemma TwinsPublishDamage(d: Path) returns (start: State, last: State)
    requires d != []
    ensures Starts(start) && d !in start.tree && Reaches({d}, start, last)
    ensures d in last.tree && last.tree[d].Broken? && 1 in last.tasks && last.tasks[1].pc.Unlocking?
  {
    var t := Made(EMPTY_TREE, Parent(d));
    start := Dawn(t, 1);
    AloneIsClosed(d);
    MadeIsClosed(EMPTY_TREE, Parent(d));
    ReachesItself({d}, start);
    ReachingGoesOn(d, start);
    ghost var R := (s: State) => Reaches({d}, start, s);
    last := FromDawn(R, d, t);
  }

  lemma FromDawn(R: State -> bool, d: Path, t: Tree) returns (last: State)
    requires d != [] && IsBased(t, d) && NoFiles(t) && GoesOn(R, d) && (forall q :: q in t ==> |q| < |d|)
    requires R(Dawn(t, 1))
    ensures R(last) && d in last.tree && last.tree[d].Broken? && 1 in last.tasks && last.tasks[1].pc.Unlocking?
  {
    UpToTheLocks(R, d, t);
    BesideIsNotAbove(t, d, LockPath(d), File(1));
    last := FromTheLocks(R, d, t[LockPath(d) := File(1)]);
  }
}
