/** The shared count of parked descriptors. Checking it and opening a child are separate steps, so
    workers can overshoot the cap together; this is by how much. */
module DescriptorBudget {

  /** Where a worker is in the steps that touch the count. */
  datatype Pc =
    | Idle
    | Taken       // holds a job with a descriptor, not yet subtracted
    | Reading
    | Checked     // saw the count below the cap
    | Opened      // has opened a child, not yet added

  /** `parked` is how many descriptors wait in queues and in workers' lists of children. */
  datatype State = State(live: int, parked: nat, workers: seq<Pc>)

  datatype Step =
    | TakeDescriptor(me: nat)
    | TakePath(me: nat)
    | Subtract(me: nat)
    | Check(me: nat)
    | Open(me: nat, ok: bool)
    | Add(me: nat)
    | Finish(me: nat)

  predicate Enabled(s: State, a: Step) {
    && a.me < |s.workers|
    && match a
       case TakeDescriptor(me) => s.workers[me].Idle? && s.parked > 0
       case TakePath(me) => s.workers[me].Idle?
       case Subtract(me) => s.workers[me].Taken?
       case Check(me) => s.workers[me].Reading?
       case Open(me, _) => s.workers[me].Checked?
       case Add(me) => s.workers[me].Opened?
       case Finish(me) => s.workers[me].Reading?
  }

  function Moved(s: State, me: nat, pc: Pc): State
    requires me < |s.workers|
  {
    s.(workers := s.workers[me := pc])
  }

  function Apply(s: State, cap: nat, a: Step): State
    requires Enabled(s, a)
  {
    match a
    case TakeDescriptor(me) => Moved(s, me, Taken).(parked := s.parked - 1)
    case TakePath(me) => Moved(s, me, Reading)
    case Subtract(me) => Moved(s, me, Reading).(live := s.live - 1)
    case Check(me) => if s.live >= cap then s else Moved(s, me, Checked)
    case Open(me, ok) => Moved(s, me, if ok then Opened else Reading)
    case Add(me) => Moved(s, me, Reading).(live := s.live + 1, parked := s.parked + 1)
    case Finish(me) => Moved(s, me, Idle)
  }

  function CountOf(p: Pc -> bool, workers: seq<Pc>): nat {
    if workers == [] then 0
    else CountOf(p, workers[..|workers| - 1]) + if p(workers[|workers| - 1]) then 1 else 0
  }

  predicate IsTaken(pc: Pc) { pc.Taken? }

  predicate IsCommitted(pc: Pc) { pc.Checked? || pc.Opened? }

  function Untold(s: State): nat {
    CountOf(IsTaken, s.workers)
  }

  /** Workers that have passed the check and not yet added. */
  function Committed(s: State): nat {
    CountOf(IsCommitted, s.workers)
  }

  /** The count is exactly the parked descriptors and those just taken; those about to be added fit
      under the cap and one per other worker. */
  predicate Inv(s: State, cap: nat) {
    && s.live == s.parked + Untold(s)
    && s.live + Committed(s) <= cap + |s.workers| - 1
  }

  lemma {:induction false} CountMoves(p: Pc -> bool, workers: seq<Pc>, me: nat, pc: Pc)
    requires me < |workers|
    ensures CountOf(p, workers[me := pc]) + (if p(workers[me]) then 1 else 0) ==
            CountOf(p, workers) + (if p(pc) then 1 else 0)
    decreases |workers|
  {
    var last := |workers| - 1;
    if me < last {
      CountMoves(p, workers[..last], me, pc);
      assert workers[me := pc][..last] == workers[..last][me := pc];
    } else {
      assert workers[me := pc][..last] == workers[..last];
    }
  }

  lemma {:induction false} CountBounded(p: Pc -> bool, workers: seq<Pc>)
    ensures CountOf(p, workers) <= |workers|
  {
    if workers != [] {
      CountBounded(p, workers[..|workers| - 1]);
    }
  }

  lemma StepKeepsInv(s: State, cap: nat, a: Step)
    requires Inv(s, cap) && Enabled(s, a)
    ensures Inv(Apply(s, cap, a), cap)
    ensures Apply(s, cap, a).live >= 0
  {
    var s' := Apply(s, cap, a);
    assert s'.workers == s.workers[a.me := s'.workers[a.me]];
    CountMoves(IsTaken, s.workers, a.me, s'.workers[a.me]);
    CountMoves(IsCommitted, s.workers, a.me, s'.workers[a.me]);
    CountBounded(IsCommitted, s'.workers);
  }

  // ---- Whole runs ----

  predicate IsRun(cap: nat, states: seq<State>, steps: seq<Step>) {
    && |states| == |steps| + 1
    && forall k :: 0 <= k < |steps| ==> Enabled(states[k], steps[k]) && states[k + 1] == Apply(states[k], cap, steps[k])
  }

  /** The pool starts with what reading the root parked, which stayed under the cap. */
  predicate Starts(s: State, cap: nat) {
    && s.workers != [] && (forall i :: 0 <= i < |s.workers| ==> s.workers[i].Idle?)
    && s.live == s.parked <= cap
  }

  lemma {:induction false} NobodyCounts(p: Pc -> bool, workers: seq<Pc>)
    requires forall i :: 0 <= i < |workers| ==> !p(workers[i])
    ensures CountOf(p, workers) == 0
  {
    if workers != [] {
      NobodyCounts(p, workers[..|workers| - 1]);
    }
  }

  lemma {:induction false} RunKeepsInv(cap: nat, states: seq<State>, steps: seq<Step>, k: nat)
    requires IsRun(cap, states, steps) && Starts(states[0], cap) && k < |states|
    ensures Inv(states[k], cap) && |states[k].workers| == |states[0].workers|
    decreases k
  {
    if k == 0 {
      NobodyCounts(IsTaken, states[0].workers);
      NobodyCounts(IsCommitted, states[0].workers);
    } else {
      RunKeepsInv(cap, states, steps, k - 1);
      StepKeepsInv(states[k - 1], cap, steps[k - 1]);
    }
  }

  /** In every run the count never goes below zero or above the cap plus one per other worker; it counts
      the parked descriptors and the ones just taken; and it is zero once all workers are idle with
      nothing parked. */
  lemma BudgetHolds(cap: nat, states: seq<State>, steps: seq<Step>, k: nat)
    requires IsRun(cap, states, steps) && Starts(states[0], cap) && k < |states|
    ensures 0 <= states[k].live <= cap + |states[0].workers| - 1
    ensures states[k].live == states[k].parked + Untold(states[k])
    ensures states[k].parked == 0 && (forall i :: 0 <= i < |states[k].workers| ==> states[k].workers[i].Idle?) ==>
      states[k].live == 0
  {
    RunKeepsInv(cap, states, steps, k);
    if forall i :: 0 <= i < |states[k].workers| ==> states[k].workers[i].Idle? {
      NobodyCounts(IsTaken, states[k].workers);
    }
  }

  /** With a cap of zero everything is queued by path, and the count stays at zero. */
  lemma {:induction false} ZeroCapParksNothing(states: seq<State>, steps: seq<Step>, k: nat)
    requires IsRun(0, states, steps) && Starts(states[0], 0) && k < |states|
    ensures states[k].live == 0 && states[k].parked == 0
    ensures forall i :: 0 <= i < |states[k].workers| ==> states[k].workers[i].Idle? || states[k].workers[i].Reading?
    decreases k
  {
    if k > 0 {
      ZeroCapParksNothing(states, steps, k - 1);
      assert Enabled(states[k - 1], steps[k - 1]) && states[k] == Apply(states[k - 1], 0, steps[k - 1]);
    }
  }

  // ---- The bound is reached ----

  function Race(cap: nat, n: nat, checked: nat, added: nat): State
    requires added <= checked <= n && 0 < cap
  {
    State(cap - 1 + added, cap - 1 + added,
          seq(n, i requires 0 <= i < n => if i < added then Reading else if i < checked then Checked else Reading))
  }

  /** `t` can be reached from `s`. */
  ghost predicate Reaches(cap: nat, s: State, t: State) {
    exists states, steps :: IsRun(cap, states, steps) && states[0] == s && states[|steps|] == t
  }

  lemma OneMoreStep(cap: nat, s: State, t: State, a: Step)
    requires Reaches(cap, s, t) && Enabled(t, a)
    ensures Reaches(cap, s, Apply(t, cap, a))
  {
    var states, steps :| IsRun(cap, states, steps) && states[0] == s && states[|steps|] == t;
    var states', steps' := states + [Apply(t, cap, a)], steps + [a];
    assert IsRun(cap, states', steps') && states'[0] == s && states'[|steps'|] == Apply(t, cap, a);
  }

  lemma NoSteps(cap: nat, s: State)
    ensures Reaches(cap, s, s)
  {
    var states, steps: seq<Step> := [s], [];
    assert IsRun(cap, states, steps) && states[0] == s && states[|steps|] == s;
  }

  lemma {:induction false} EverybodyChecks(cap: nat, n: nat, k: nat)
    requires 0 < cap && k <= n
    ensures Reaches(cap, Race(cap, n, 0, 0), Race(cap, n, k, 0))
    decreases k
  {
    if k == 0 {
      NoSteps(cap, Race(cap, n, 0, 0));
    } else {
      EverybodyChecks(cap, n, k - 1);
      OneMoreStep(cap, Race(cap, n, 0, 0), Race(cap, n, k - 1, 0), Check(k - 1));
      assert Apply(Race(cap, n, k - 1, 0), cap, Check(k - 1)) == Race(cap, n, k, 0);
    }
  }

  lemma {:induction false} EverybodyAdds(cap: nat, n: nat, k: nat)
    requires 0 < cap && k <= n
    ensures Reaches(cap, Race(cap, n, 0, 0), Race(cap, n, n, k))
    decreases k
  {
    if k == 0 {
      EverybodyChecks(cap, n, n);
    } else {
      EverybodyAdds(cap, n, k - 1);
      var s := Race(cap, n, n, k - 1);
      OneMoreStep(cap, Race(cap, n, 0, 0), s, Open(k - 1, true));
      var t := Apply(s, cap, Open(k - 1, true));
      OneMoreStep(cap, Race(cap, n, 0, 0), t, Add(k - 1));
      assert Apply(t, cap, Add(k - 1)) == Race(cap, n, n, k);
    }
  }

  lemma {:induction false} EverybodyReads(cap: nat, n: nat, k: nat, s: State)
    requires 0 < cap && k <= n
    requires s == State(cap - 1, cap - 1, seq(n, i requires 0 <= i < n => if i < k then Reading else Idle))
    ensures Reaches(cap, State(cap - 1, cap - 1, seq(n, i requires 0 <= i < n => Idle)), s)
    decreases k
  {
    var start := State(cap - 1, cap - 1, seq(n, i requires 0 <= i < n => Idle));
    if k == 0 {
      NoSteps(cap, start);
      assert s == start;
    } else {
      var before := State(cap - 1, cap - 1, seq(n, i requires 0 <= i < n => if i < k - 1 then Reading else Idle));
      EverybodyReads(cap, n, k - 1, before);
      OneMoreStep(cap, start, before, TakePath(k - 1));
      assert Apply(before, cap, TakePath(k - 1)) == s;
    }
  }

  lemma {:induction false} RunsJoin(cap: nat, s: State, t: State, u: State)
    requires Reaches(cap, s, t) && Reaches(cap, t, u)
    ensures Reaches(cap, s, u)
  {
    var states, steps :| IsRun(cap, states, steps) && states[0] == t && states[|steps|] == u;
    JoinUpTo(cap, s, t, states, steps, |steps|);
  }

  lemma {:induction false} JoinUpTo(cap: nat, s: State, t: State, states: seq<State>, steps: seq<Step>, k: nat)
    requires Reaches(cap, s, t) && IsRun(cap, states, steps) && states[0] == t && k <= |steps|
    ensures Reaches(cap, s, states[k])
    decreases k
  {
    if k > 0 {
      JoinUpTo(cap, s, t, states, steps, k - 1);
      OneMoreStep(cap, s, states[k - 1], steps[k - 1]);
    }
  }

  /** No smaller bound holds for a positive cap: with any number of workers, some run gets there. */
  lemma BoundIsReached(cap: nat, n: nat) returns (start: State, s: State)
    requires 0 < cap && 0 < n
    ensures Starts(start, cap) && |start.workers| == n && Reaches(cap, start, s) && s.live == cap + n - 1
  {
    start := State(cap - 1, cap - 1, seq(n, i requires 0 <= i < n => Idle));
    var reading := State(cap - 1, cap - 1, seq(n, i requires 0 <= i < n => if i < n then Reading else Idle));
    EverybodyReads(cap, n, n, reading);
    assert reading == Race(cap, n, 0, 0);
    EverybodyAdds(cap, n, n);
    s := Race(cap, n, n, n);
    RunsJoin(cap, start, reading, s);
  }
}
