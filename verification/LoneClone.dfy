/** One thread with nobody in its way: where its clone ends, whether git succeeds or fails. */
module LoneClone {
  import opened Bytes
  import opened TmpNames
  import opened CloneTree
  import opened ClonePublication

  /** Nothing is at the destination or at the thread's temporary directory but perhaps an empty directory,
      parents can be made, and no directory is in the lock file's place. */
  ghost predicate IsClear(t: Tree, d: Path, pid: nat)
    requires d != []
  {
    HasRoom(t, d) && Vacant(t, d) && Vacant(t, TmpPath(d, pid))
  }

  ghost predicate HasRoom(t: Tree, d: Path)
    requires d != []
  {
    CanMake(t, Parent(d)) && !IsDirectory(t, LockPath(d))
  }

  predicate IsFile(t: Tree, p: Path) {
    p in t && t[p].File?
  }

  ghost predicate NothingWithin(t: Tree, p: Path) {
    forall q :: Within(p, q) ==> q !in t
  }

  ghost predicate NothingElseWithin(t: Tree, p: Path) {
    forall q :: Within(p, q) && q != p ==> q !in t
  }

  /** The thread's own steps, git succeeding or not; and cleaning up is done when nothing is left. */
  ghost predicate IsOwn(a: Step, k: nat, tmp: Path, ok: bool) {
    && IsOfTask(a) && a.me == k && (a.EndClone? ==> a.ok == ok)
    && (a.CleanUp? && a.done ==> NothingWithin(a.left, tmp))
  }

  /** What the tree looks like when the thread is at this point, given what was there before. */
  ghost predicate Looks(before: Tree, t: Tree, d: Path, pid: nat, pc: Pc, ok: bool)
    requires d != []
  {
    var tmp, lock := TmpPath(d, pid), LockPath(d);
    match pc
    case Sweeping(found) =>
      && IsClear(t, d, pid) && SameWithin(before, t, d)
      && forall p :: p in found ==> SweptFor(d, p).Some? && SweptFor(d, p) != Some(pid)
    case Opening => IsClear(t, d, pid) && SameWithin(before, t, d)
    case Locking(_) => IsClear(t, d, pid) && SameWithin(before, t, d)
    case Ready(_) => IsClear(t, d, pid) && SameWithin(before, t, d)
    case Cloning(_) =>
      HasRoom(t, d) && Vacant(t, d) && SameWithin(before, t, d) && IsDirectory(t, tmp) && NothingElseWithin(t, tmp)
    case Cloned(_) =>
      HasRoom(t, d) && Vacant(t, d) && ok && tmp in t && t[tmp].Whole? && NothingElseWithin(t, tmp)
    case CleaningUp(_) => !ok && HasRoom(t, d) && SameWithin(before, t, d) && !IsFile(t, tmp)
    case Unlocking(_) => Settled(before, t, d, pid, ok) && !IsDirectory(t, lock)
    case Unlinking => Settled(before, t, d, pid, ok) && !IsDirectory(t, lock)
    case Over => Settled(before, t, d, pid, ok) && lock !in t
  }

  /** The destination is whole, or as it was; and the temporary directory is gone. */
  ghost predicate Settled(before: Tree, t: Tree, d: Path, pid: nat, ok: bool)
    requires d != []
  {
    && NothingWithin(t, TmpPath(d, pid))
    && if ok then d in t && t[d].Whole? && NothingElseWithin(t, d) else SameWithin(before, t, d)
  }

  ghost predicate IsAlone(s: State, k: nat, d: Path, pid: nat) {
    && k in s.tasks && s.tasks[k].dest == d && s.tasks[k].pid == pid && 0 < pid <= I32_MAX && pid in s.live
    && forall j :: j in s.tasks && j != k ==> s.tasks[j].pc.Over?
  }

  ghost predicate Goes(before: Tree, s: State, k: nat, d: Path, pid: nat, ok: bool)
    requires d != []
  {
    IsAlone(s, k, d, pid) && Closed(s.tree) && Looks(before, s.tree, d, pid, s.tasks[k].pc, ok)
  }

  // ---- Three paths beside each other ----

  lemma {:induction false} NoDigitInLocks(name: Bytes, i: nat)
    requires i < |LOCK + name| && (LOCK + name)[..|name|] == name
    ensures !IsDigit((LOCK + name)[i])
    decreases i
  {
    if i >= |LOCK| {
      NoDigitInLocks(name, i - |LOCK|);
      assert (LOCK + name)[i] == name[i - |LOCK|] == (LOCK + name)[..|name|][i - |LOCK|];
    }
  }

  /** A temporary name ends in a digit; a lock file's name that began like it would hold none. */
  lemma TmpIsNoLock(name: Bytes, pid: nat)
    ensures TmpOf(name, pid) != LOCK + name
  {
    var tmp := TmpOf(name, pid);
    assert IsDigit(Decimal(pid)[|Decimal(pid)| - 1]);
    assert tmp[|tmp| - 1] == Decimal(pid)[|Decimal(pid)| - 1];
    if tmp == LOCK + name {
      assert tmp[..|name|] == name;
      NoDigitInLocks(name, |tmp| - 1);
    }
  }

  lemma ThreeSiblings(d: Path, pid: nat)
    requires d != []
    ensures var tmp, lock := TmpPath(d, pid), LockPath(d);
            && |tmp| == |lock| == |d| && tmp != d && lock != d && tmp != lock
            && !Within(tmp, lock) && !Within(lock, tmp)
            && !Within(tmp, d) && !Within(d, tmp) && !Within(lock, d) && !Within(d, lock)
            && (forall q :: Within(q, Parent(d)) ==> |q| < |d|)
            && (forall q :: !(Within(tmp, q) && Within(d, q)))
  {
    var tmp, lock := TmpPath(d, pid), LockPath(d);
    TmpIsBeside(d, pid);
    assert Parent(lock) == Parent(d) && Name(lock) == LOCK + Name(d);
    assert |Name(lock)| > |Name(d)|;
    TmpIsNoLock(Name(d), pid);
    SiblingsAreNotWithin(lock, d);
    SiblingsAreNotWithin(lock, tmp);
    forall q ensures !(Within(tmp, q) && Within(d, q)) {
      if Within(tmp, q) && Within(d, q) {
        OneIsWithinTheOther(tmp, d, q);
      }
    }
  }

  /** A sweep removes nothing of the thread's own. */
  lemma SweepSpares(before: Tree, t: Tree, left: Tree, d: Path, pid: nat, p: Path)
    requires d != [] && 0 < pid <= I32_MAX && IsClear(t, d, pid) && SameWithin(before, t, d) && Removes(t, left, p)
    requires SweptFor(d, p).Some? && SweptFor(d, p) != Some(pid)
    ensures IsClear(left, d, pid) && SameWithin(before, left, d)
  {
    var tmp := TmpPath(d, pid);
    ThreeSiblings(d, pid);
    SweptIsNotItself(d, p);
    TmpIsSwept(d, pid);
    forall q | Within(d, q) || Within(tmp, q) || Within(q, Parent(d)) ensures SameAt(t, left, q) {
      if Within(p, q) {
        if Within(d, q) {
          OneIsWithinTheOther(p, d, q);
        } else if Within(tmp, q) {
          OneIsWithinTheOther(p, tmp, q);
        }
      }
    }
  }

  /** Making parents that are missing is seen by none of the three. */
  lemma MakingSpares(t: Tree, d: Path, pid: nat)
    requires d != [] && CanMake(t, Parent(d))
    ensures var made := Made(t, Parent(d));
            && CanMake(made, Parent(d)) && SameWithin(t, made, d) && SameWithin(t, made, TmpPath(d, pid))
            && SameAt(t, made, LockPath(d))
  {
    ThreeSiblings(d, pid);
  }

  lemma StillVacant(a: Tree, b: Tree, p: Path)
    requires Vacant(a, p) && SameWithin(a, b, p)
    ensures Vacant(b, p)
  {
    assert Within(p, p) && SameAt(a, b, p);
    forall q | q in b && Within(p, q) ensures p in b && b[p].Folder? ==> q == p {
      assert SameAt(a, b, q);
    }
  }

  // ---- Each of its steps ----

  lemma SweepingGoes(before: Tree, s: State, k: nat, d: Path, pid: nat, ok: bool, a: Step)
    requires d != [] && Goes(before, s, k, d, pid, ok) && Enabled(s, a) && IsOwn(a, k, TmpPath(d, pid), ok)
    requires s.tasks[k].pc.Sweeping?
    ensures Goes(before, Apply(s, a), k, d, pid, ok)
  {
    StepKeepsClosed(s, a);
    if a.Remove? {
      SweepSpares(before, s.tree, a.left, d, pid, a.p);
    }
  }

  /** A file beside the three is seen by none of the other two. */
  lemma LockSpares(t: Tree, t': Tree, d: Path, pid: nat)
    requires d != [] && CanMake(t, Parent(d)) && (forall q :: q != LockPath(d) ==> SameAt(t, t', q))
    ensures CanMake(t', Parent(d)) && SameWithin(t, t', d) && SameWithin(t, t', TmpPath(d, pid))
  {
    ThreeSiblings(d, pid);
    forall q | q in Prefixes(Parent(d)) ensures SameAt(t, t', q) {
      assert Within(q, Parent(d));
    }
  }

  lemma ClearAlong(before: Tree, t: Tree, t': Tree, d: Path, pid: nat)
    requires d != [] && IsClear(t, d, pid) && SameWithin(before, t, d)
    requires SameWithin(t, t', d) && SameWithin(t, t', TmpPath(d, pid)) && HasRoom(t', d)
    ensures IsClear(t', d, pid) && SameWithin(before, t', d)
  {
    SameStaysSame(before, t, t', d);
    StillVacant(t, t', d);
    StillVacant(t, t', TmpPath(d, pid));
  }

  lemma OpeningGoes(before: Tree, s: State, k: nat, d: Path, pid: nat, ok: bool, a: Step)
    requires d != [] && Goes(before, s, k, d, pid, ok) && Enabled(s, a) && IsOwn(a, k, TmpPath(d, pid), ok)
    requires s.tasks[k].pc.Opening?
    ensures Goes(before, Apply(s, a), k, d, pid, ok) && Apply(s, a).tasks[k].pc.Locking?
  {
    StepKeepsClosed(s, a);
    if a.OpenLock? {
      var made, t' := Made(s.tree, Parent(d)), Apply(s, a).tree;
      MakingSpares(s.tree, d, pid);
      LockSpares(made, t', d, pid);
      SameStaysSame(s.tree, made, t', d);
      SameStaysSame(s.tree, made, t', TmpPath(d, pid));
      ClearAlong(before, s.tree, t', d, pid);
    }
  }

  lemma LockingGoes(before: Tree, s: State, k: nat, d: Path, pid: nat, ok: bool, a: Step)
    requires d != [] && Goes(before, s, k, d, pid, ok) && Enabled(s, a) && IsOwn(a, k, TmpPath(d, pid), ok)
    requires s.tasks[k].pc.Locking?
    ensures Goes(before, Apply(s, a), k, d, pid, ok) && Apply(s, a).tasks[k].pc.Ready?
  {
    assert forall j, id :: j in s.tasks && j != k ==> !HoldsLock(s.tasks[j].pc, id);
  }

  lemma PuttingSpares(before: Tree, t: Tree, d: Path, pid: nat, e: Entry)
    requires d != [] && HasRoom(t, d) && Vacant(t, d) && SameWithin(before, t, d)
    requires NothingElseWithin(t, TmpPath(d, pid)) && !e.File?
    ensures var t' := t[TmpPath(d, pid) := e];
            && HasRoom(t', d) && Vacant(t', d) && SameWithin(before, t', d)
            && NothingElseWithin(t', TmpPath(d, pid))
  {
    var t' := t[TmpPath(d, pid) := e];
    ThreeSiblings(d, pid);
    assert SameWithin(t, t', d);
    SameStaysSame(before, t, t', d);
    StillVacant(t, t', d);
  }

  lemma BeginningGoes(before: Tree, s: State, k: nat, d: Path, pid: nat, ok: bool, a: Step)
    requires d != [] && Goes(before, s, k, d, pid, ok) && Enabled(s, a) && IsOwn(a, k, TmpPath(d, pid), ok)
    requires s.tasks[k].pc.Ready?
    ensures Goes(before, Apply(s, a), k, d, pid, ok) && Apply(s, a).tasks[k].pc.Cloning?
  {
    var made, tmp := Made(s.tree, Parent(d)), TmpPath(d, pid);
    StepKeepsClosed(s, a);
    MadeIsClosed(s.tree, Parent(d));
    MakingSpares(s.tree, d, pid);
    ClearAlong(before, s.tree, made, d, pid);
    VacantIsEmpty(made, tmp);
    PuttingSpares(before, made, d, pid, Broken);
  }

  lemma CloningGoes(before: Tree, s: State, k: nat, d: Path, pid: nat, ok: bool, a: Step)
    requires d != [] && Goes(before, s, k, d, pid, ok) && Enabled(s, a) && IsOwn(a, k, TmpPath(d, pid), ok)
    requires s.tasks[k].pc.Cloning?
    ensures Goes(before, Apply(s, a), k, d, pid, ok)
    ensures if ok then Apply(s, a).tasks[k].pc.Cloned? else Apply(s, a).tasks[k].pc.CleaningUp?
  {
    StepKeepsClosed(s, a);
    if ok {
      PuttingSpares(before, s.tree, d, pid, Whole);
    }
  }

  /** The rename takes the clone, and only it, to the destination. */
  lemma RenamingGoes(before: Tree, s: State, k: nat, d: Path, pid: nat, ok: bool, a: Step)
    requires d != [] && Goes(before, s, k, d, pid, ok) && Enabled(s, a) && IsOwn(a, k, TmpPath(d, pid), ok)
    requires s.tasks[k].pc.Cloned?
    ensures Goes(before, Apply(s, a), k, d, pid, ok) && Apply(s, a).tasks[k].pc.Unlocking?
  {
    StepKeepsClosed(s, a);
    ReadyToMove(s.tree, d, pid);
    MovingSettles(before, Made(s.tree, Parent(d)), d, pid);
  }

  lemma ReadyToMove(t: Tree, d: Path, pid: nat)
    requires d != [] && Closed(t) && HasRoom(t, d) && Vacant(t, d)
    requires TmpPath(d, pid) in t && t[TmpPath(d, pid)].Whole? && NothingElseWithin(t, TmpPath(d, pid))
    ensures var made, tmp := Made(t, Parent(d)), TmpPath(d, pid);
            && Vacant(made, d) && NothingElseWithin(made, d) && !IsDirectory(made, LockPath(d))
            && tmp in made && made[tmp].Whole? && NothingElseWithin(made, tmp)
  {
    var made, tmp := Made(t, Parent(d)), TmpPath(d, pid);
    MadeIsClosed(t, Parent(d));
    MakingSpares(t, d, pid);
    StillVacant(t, made, d);
    VacantIsEmpty(made, d);
    forall q | Within(tmp, q) ensures SameAt(t, made, q) {}
    assert Within(tmp, tmp);
  }

  lemma MovingSettles(before: Tree, t: Tree, d: Path, pid: nat)
    requires d != [] && Vacant(t, d) && NothingElseWithin(t, d) && !IsDirectory(t, LockPath(d))
    requires TmpPath(d, pid) in t && t[TmpPath(d, pid)].Whole? && NothingElseWithin(t, TmpPath(d, pid))
    ensures var t' := Moved(t, TmpPath(d, pid), d);
            CanMove(t, TmpPath(d, pid), d) && Settled(before, t', d, pid, true) && !IsDirectory(t', LockPath(d))
  {
    var tmp := TmpPath(d, pid);
    var t' := Moved(t, tmp, d);
    ThreeSiblings(d, pid);
    MovedHas(t, tmp, d, d);
    assert tmp + d[|d|..] == tmp;
    MovedHas(t, tmp, d, LockPath(d));
    forall q | Within(tmp, q) ensures q !in t' {
      MovedHas(t, tmp, d, q);
    }
    forall q | Within(d, q) && q != d ensures q !in t' {
      MovedHas(t, tmp, d, q);
      var r := tmp + q[|d|..];
      assert r[..|tmp|] == tmp && |r| > |tmp|;
    }
  }

  lemma CleaningGoes(before: Tree, s: State, k: nat, d: Path, pid: nat, ok: bool, a: Step)
    requires d != [] && Goes(before, s, k, d, pid, ok) && Enabled(s, a) && IsOwn(a, k, TmpPath(d, pid), ok)
    requires s.tasks[k].pc.CleaningUp?
    ensures Goes(before, Apply(s, a), k, d, pid, ok)
    ensures if a.done then Apply(s, a).tasks[k].pc.Unlocking? else Apply(s, a).tasks[k].pc.CleaningUp?
  {
    StepKeepsClosed(s, a);
    ThreeSiblings(d, pid);
    assert SameWithin(s.tree, a.left, d);
    SameStaysSame(before, s.tree, a.left, d);
  }

  lemma UnlockingGoes(before: Tree, s: State, k: nat, d: Path, pid: nat, ok: bool, a: Step)
    requires d != [] && Goes(before, s, k, d, pid, ok) && Enabled(s, a) && IsOwn(a, k, TmpPath(d, pid), ok)
    requires s.tasks[k].pc.Unlocking?
    ensures Goes(before, Apply(s, a), k, d, pid, ok) && Apply(s, a).tasks[k].pc.Unlinking?
  {
  }

  lemma UnlinkingGoes(before: Tree, s: State, k: nat, d: Path, pid: nat, ok: bool, a: Step)
    requires d != [] && Goes(before, s, k, d, pid, ok) && Enabled(s, a) && IsOwn(a, k, TmpPath(d, pid), ok)
    requires s.tasks[k].pc.Unlinking?
    ensures Goes(before, Apply(s, a), k, d, pid, ok) && Apply(s, a).tasks[k].pc.Over?
  {
    StepKeepsClosed(s, a);
    UnlinkingSettles(before, s.tree, d, pid, ok);
  }

  lemma UnlinkingSettles(before: Tree, t: Tree, d: Path, pid: nat, ok: bool)
    requires d != [] && Settled(before, t, d, pid, ok) && !IsDirectory(t, LockPath(d))
    ensures var t' := Unlinked(t, LockPath(d)); Settled(before, t', d, pid, ok) && LockPath(d) !in t'
  {
    ThreeSiblings(d, pid);
    var t' := Unlinked(t, LockPath(d));
    assert SameWithin(t, t', d);
    if !ok {
      SameStaysSame(before, t, t', d);
    }
  }

  lemma StepGoes(before: Tree, s: State, k: nat, d: Path, pid: nat, ok: bool, a: Step)
    requires d != [] && Goes(before, s, k, d, pid, ok) && Enabled(s, a) && IsOwn(a, k, TmpPath(d, pid), ok)
    ensures Goes(before, Apply(s, a), k, d, pid, ok)
  {
    match s.tasks[k].pc
    case Sweeping(_) => SweepingGoes(before, s, k, d, pid, ok, a);
    case Opening => OpeningGoes(before, s, k, d, pid, ok, a);
    case Locking(_) => LockingGoes(before, s, k, d, pid, ok, a);
    case Ready(_) => BeginningGoes(before, s, k, d, pid, ok, a);
    case Cloning(_) => CloningGoes(before, s, k, d, pid, ok, a);
    case Cloned(_) => RenamingGoes(before, s, k, d, pid, ok, a);
    case CleaningUp(_) => CleaningGoes(before, s, k, d, pid, ok, a);
    case Unlocking(_) => UnlockingGoes(before, s, k, d, pid, ok, a);
    case Unlinking => UnlinkingGoes(before, s, k, d, pid, ok, a);
    case Over =>
  }

  /** An absent path has nothing below it either, in a tree. */
  lemma VacantIsEmpty(t: Tree, p: Path)
    requires Closed(t) && Vacant(t, p)
    ensures NothingElseWithin(t, p)
  {
    forall q | Within(p, q) && q != p ensures q !in t {
      if q in t {
        HeldFromAbove(t, p, q);
      }
    }
  }

  // ---- Whole clones ----

  /** From a start at which there is room, only this thread takes steps, and no other is in the middle of
      anything. */
  ghost predicate IsLoneHistory(states: seq<State>, steps: seq<Step>, k: nat, pid: nat, d: Path, ok: bool) {
    && d != [] && IsHistory({d}, states, steps) && steps != []
    && IsClear(states[0].tree, d, pid) && Closed(states[0].tree)
    && 0 < pid <= I32_MAX && (forall j :: j in states[0].tasks ==> states[0].tasks[j].pc.Over?)
    && steps[0] == Start(k, pid, d)
    && forall i :: 0 < i < |steps| ==> IsOwn(steps[i], k, TmpPath(d, pid), ok)
  }

  lemma {:induction false} LoneHistoryGoes(states: seq<State>, steps: seq<Step>, k: nat, pid: nat, d: Path, ok: bool,
                                           i: nat)
    requires IsLoneHistory(states, steps, k, pid, d, ok) && 0 < i <= |steps|
    ensures Goes(states[0].tree, states[i], k, d, pid, ok)
    decreases i
  {
    assert MayStep({d}, states[i - 1], steps[i - 1]) && states[i - 1 + 1] == Apply(states[i - 1], steps[i - 1]);
    if i > 1 {
      LoneHistoryGoes(states, steps, k, pid, d, ok, i - 1);
      StepGoes(states[0].tree, states[i - 1], k, d, pid, ok, steps[i - 1]);
    }
  }

  /** A lone thread whose git succeeds ends with its destination whole, whether it was absent or an empty
      directory; one whose git fails, with the destination as it was. Either way its temporary directory and
      its lock file are gone. */
  lemma LoneClonesEnd(states: seq<State>, steps: seq<Step>, k: nat, pid: nat, d: Path, ok: bool)
    requires IsLoneHistory(states, steps, k, pid, d, ok)
    requires k in states[|steps|].tasks && states[|steps|].tasks[k].pc.Over?
    ensures var t := states[|steps|].tree;
            && (if ok then d in t && t[d].Whole? else SameWithin(states[0].tree, t, d))
            && NothingWithin(t, TmpPath(d, pid)) && LockPath(d) !in t
  {
    LoneHistoryGoes(states, steps, k, pid, d, ok, |steps|);
    OverMeans(states[0].tree, states[|steps|], k, d, pid, ok);
  }

  lemma OverMeans(before: Tree, s: State, k: nat, d: Path, pid: nat, ok: bool)
    requires d != [] && Goes(before, s, k, d, pid, ok) && s.tasks[k].pc.Over?
    ensures if ok then d in s.tree && s.tree[d].Whole? else SameWithin(before, s.tree, d)
    ensures NothingWithin(s.tree, TmpPath(d, pid)) && LockPath(d) !in s.tree
  {
  }

  function StepsLeft(pc: Pc): nat {
    match pc
    case Sweeping(_) => 9
    case Opening => 8
    case Locking(_) => 7
    case Ready(_) => 6
    case Cloning(_) => 5
    case Cloned(_) => 4
    case CleaningUp(_) => 3
    case Unlocking(_) => 2
    case Unlinking => 1
    case Over => 0
  }

  /** One of its own steps that brings it nearer to the end. */
  ghost predicate TakesFarther(s: State, a: Step, k: nat, tmp: Path, ok: bool) {
    && Enabled(s, a) && IsOwn(a, k, tmp, ok) && k in s.tasks && k in Apply(s, a).tasks
    && StepsLeft(Apply(s, a).tasks[k].pc) < StepsLeft(s.tasks[k].pc)
  }

  /** And it does end: until then it always has such a step. */
  lemma LoneThreadsMove(states: seq<State>, steps: seq<Step>, k: nat, pid: nat, d: Path, ok: bool) returns (a: Step)
    requires IsLoneHistory(states, steps, k, pid, d, ok)
    requires k in states[|steps|].tasks && !states[|steps|].tasks[k].pc.Over?
    ensures MayStep({d}, states[|steps|], a) && TakesFarther(states[|steps|], a, k, TmpPath(d, pid), ok)
  {
    LoneHistoryGoes(states, steps, k, pid, d, ok, |steps|);
    a := NextOwn(states[0].tree, states[|steps|], k, d, pid, ok);
  }

  lemma NextOwn(before: Tree, s: State, k: nat, d: Path, pid: nat, ok: bool) returns (a: Step)
    requires d != [] && Goes(before, s, k, d, pid, ok) && !s.tasks[k].pc.Over?
    ensures TakesFarther(s, a, k, TmpPath(d, pid), ok)
  {
    match s.tasks[k].pc
    case Opening => a := OpensNext(before, s, k, d, pid, ok);
    case Locking(_) => a := LocksNext(before, s, k, d, pid, ok);
    case Ready(_) => a := BeginsNext(before, s, k, d, pid, ok);
    case Cloning(_) => a := ClonesNext(before, s, k, d, pid, ok);
    case Cloned(_) => a := RenamesNext(before, s, k, d, pid, ok);
    case CleaningUp(_) => a := CleansNext(before, s, k, d, pid, ok);
    case _ => a := EasyNext(s, k, d, pid, ok);
  }

  lemma EasyNext(s: State, k: nat, d: Path, pid: nat, ok: bool) returns (a: Step)
    requires d != [] && Running(s, k)
    requires s.tasks[k].pc.Sweeping? || s.tasks[k].pc.Unlocking? || s.tasks[k].pc.Unlinking?
    ensures TakesFarther(s, a, k, TmpPath(d, pid), ok)
  {
    var pc := s.tasks[k].pc;
    a := if pc.Sweeping? then SweepDone(k) else if pc.Unlocking? then Unlock(k) else Unlink(k);
  }

  lemma OpensNext(before: Tree, s: State, k: nat, d: Path, pid: nat, ok: bool) returns (a: Step)
    requires d != [] && Goes(before, s, k, d, pid, ok) && s.tasks[k].pc.Opening?
    ensures TakesFarther(s, a, k, TmpPath(d, pid), ok)
  {
    var id := FreshId(s, k);
    a := OpenLock(k, id);
    OpeningGoes(before, s, k, d, pid, ok, a);
  }

  lemma LocksNext(before: Tree, s: State, k: nat, d: Path, pid: nat, ok: bool) returns (a: Step)
    requires d != [] && Goes(before, s, k, d, pid, ok) && s.tasks[k].pc.Locking?
    ensures TakesFarther(s, a, k, TmpPath(d, pid), ok)
  {
    a := TryLock(k);
    LockingGoes(before, s, k, d, pid, ok, a);
  }

  lemma BeginsNext(before: Tree, s: State, k: nat, d: Path, pid: nat, ok: bool) returns (a: Step)
    requires d != [] && Goes(before, s, k, d, pid, ok) && s.tasks[k].pc.Ready?
    ensures TakesFarther(s, a, k, TmpPath(d, pid), ok)
  {
    a := BeginClone(k);
    BeginningGoes(before, s, k, d, pid, ok, a);
  }

  lemma ClonesNext(before: Tree, s: State, k: nat, d: Path, pid: nat, ok: bool) returns (a: Step)
    requires d != [] && Goes(before, s, k, d, pid, ok) && s.tasks[k].pc.Cloning?
    ensures TakesFarther(s, a, k, TmpPath(d, pid), ok)
  {
    a := EndClone(k, ok);
    CloningGoes(before, s, k, d, pid, ok, a);
  }

  lemma RenamesNext(before: Tree, s: State, k: nat, d: Path, pid: nat, ok: bool) returns (a: Step)
    requires d != [] && Goes(before, s, k, d, pid, ok) && s.tasks[k].pc.Cloned?
    ensures TakesFarther(s, a, k, TmpPath(d, pid), ok)
  {
    a := Rename(k);
    RenamingGoes(before, s, k, d, pid, ok, a);
  }

  lemma CleansNext(before: Tree, s: State, k: nat, d: Path, pid: nat, ok: bool) returns (a: Step)
    requires d != [] && Goes(before, s, k, d, pid, ok) && s.tasks[k].pc.CleaningUp?
    ensures TakesFarther(s, a, k, TmpPath(d, pid), ok)
  {
    var tmp := TmpPath(d, pid);
    ThreeSiblings(d, pid);
    var left := s.tree;
    if IsDirectory(s.tree, tmp) {
      WithoutIsRemoved(s.tree, tmp);
      left := Without(s.tree, tmp);
    } else {
      NothingBelow(s.tree, tmp);
    }
    a := CleanUp(k, left, true);
    CleansWith(s, k, d, pid, left, ok);
  }

  lemma CleansWith(s: State, k: nat, d: Path, pid: nat, left: Tree, ok: bool)
    requires d != [] && Running(s, k) && s.tasks[k].dest == d && s.tasks[k].pid == pid && s.tasks[k].pc.CleaningUp?
    requires Removes(s.tree, left, TmpPath(d, pid)) && NothingWithin(left, TmpPath(d, pid))
    ensures TakesFarther(s, CleanUp(k, left, true), k, TmpPath(d, pid), ok)
  {
  }

  lemma NothingBelow(t: Tree, p: Path)
    requires Closed(t) && p !in t
    ensures NothingWithin(t, p)
  {
    forall q | Within(p, q) ensures q !in t {
      if q in t {
        HeldFromAbove(t, p, q);
      }
    }
  }

  /** Some identity no file has and nobody has open. */
  lemma FreshId(s: State, k: nat) returns (id: nat)
    requires k in s.tasks && s.tasks[k].pc.Opening? && forall j :: j in s.tasks && j != k ==> s.tasks[j].pc.Over?
    ensures IsFresh(s, id)
  {
    id := AboveAll(s.tree, s.tree.Keys);
  }

  lemma AboveAll(t: Tree, ps: set<Path>) returns (id: nat)
    requires forall p :: p in ps ==> p in t
    ensures forall p :: p in ps && t[p].File? ==> t[p].id < id
    decreases |ps|
  {
    if ps == {} {
      id := 0;
    } else {
      var p :| p in ps;
      id := AboveAll(t, ps - {p});
      if t[p].File? && t[p].id >= id {
        id := t[p].id + 1;
      }
    }
  }

  /** What a dead process left beside the destination, its sweep can find, and remove with all that is in it. */
  lemma LeftoversCanGo(s: State, k: nat, pid: nat)
    requires Running(s, k) && s.tasks[k].pc.Sweeping? && Closed(s.tree)
    requires 0 < pid <= I32_MAX && pid !in s.live && IsDirectory(s.tree, TmpPath(s.tasks[k].dest, pid))
    ensures var p := TmpPath(s.tasks[k].dest, pid);
            var found, removal := Find(k, p), Remove(k, p, Without(s.tree, p));
            && Enabled(s, found) && Enabled(Apply(s, found), removal)
            && NothingWithin(Apply(Apply(s, found), removal).tree, p)
  {
    var d := s.tasks[k].dest;
    var p := TmpPath(d, pid);
    TmpIsBeside(d, pid);
    TmpIsSwept(d, pid);
    DecimalParses(pid);
    SweptOfTmp(Name(d), Decimal(pid));
    WithoutIsRemoved(s.tree, p);
  }
}
