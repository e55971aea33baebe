/** The pool together with the descriptor count its workers share: every run of both is a run of each, so
    the count's bound holds on the pool, and the count is back at zero when the pool has ended. */
module BudgetedPool {
  import Pool
  import B = DescriptorBudget

  /** A job is only whether it carries a descriptor. `found` are the children a worker has so far. */
  datatype State = State(pool: Pool.State<bool>, live: int, at: seq<B.Pc>, found: seq<seq<bool>>)

  datatype Action =
    | Schedule(a: Pool.Action<bool>)
    | Touch(b: B.Step)      // a step on the count, in the middle of a job
    | QueueByPath(me: nat)
    | Finish(me: nat)

  predicate Touches(b: B.Step, at: B.Pc) {
    match b
    case Subtract(_) => at.Taken?
    case Check(_) => at.Reading?
    case Open(_, _) => at.Checked?
    case Add(_) => at.Opened?
    case _ => false
  }

  predicate Can(s: State, x: Action) {
    |s.at| == |s.found| == |s.pool.workers| &&
    match x
    case Schedule(a) => Pool.Enabled(s.pool, a) && !a.RunJob? && !a.Panic?
    case Touch(b) => b.me < |s.at| && Touches(b, s.at[b.me])
    case QueueByPath(me) => me < |s.at| && s.at[me].Reading?
    case Finish(me) => me < |s.at| && s.at[me].Reading? && s.pool.workers[me].pc.Holding?
  }

  /** Where a scheduling step leaves its worker: with a job it took, or as it was. */
  function AfterSchedule(s: State, a: Pool.Action<bool>): B.Pc
    requires Can(s, Schedule(a))
  {
    var pc := Pool.Apply(s.pool, a).workers[a.me].pc;
    if pc.Holding? then (if pc.job then B.Taken else B.Reading) else s.at[a.me]
  }

  function Do(s: State, cap: nat, x: Action): State
    requires Can(s, x)
  {
    match x
    case Schedule(a) => s.(pool := Pool.Apply(s.pool, a), at := s.at[a.me := AfterSchedule(s, a)])
    case Touch(Subtract(me)) => s.(live := s.live - 1, at := s.at[me := B.Reading])
    case Touch(Check(me)) => if s.live >= cap then s else s.(at := s.at[me := B.Checked])
    case Touch(Open(me, ok)) => s.(at := s.at[me := if ok then B.Opened else B.Reading])
    case Touch(Add(me)) =>
      s.(live := s.live + 1, at := s.at[me := B.Reading], found := s.found[me := s.found[me] + [true]])
    case Touch(_) => s
    case QueueByPath(me) => s.(found := s.found[me := s.found[me] + [false]])
    case Finish(me) =>
      s.(pool := Pool.Apply(s.pool, Pool.RunJob(me, s.found[me])), at := s.at[me := B.Idle], found := s.found[me := []])
  }

  // ---- The descriptors waiting somewhere ----

  function Held(w: Pool.Worker<bool>): nat {
    if w.pc == Pool.Holding(true) then 1 else 0
  }

  function AllHeld(ws: seq<Pool.Worker<bool>>): nat {
    if ws == [] then 0 else AllHeld(ws[..|ws| - 1]) + Held(ws[|ws| - 1])
  }

  function AllFound(found: seq<seq<bool>>): nat {
    if found == [] then 0 else AllFound(found[..|found| - 1]) + multiset(found[|found| - 1])[true]
  }

  lemma {:induction false} ReplaceHeld(ws: seq<Pool.Worker<bool>>, i: nat, w: Pool.Worker<bool>)
    requires i < |ws|
    ensures AllHeld(ws[i := w]) + Held(ws[i]) == AllHeld(ws) + Held(w)
  {
    var last := |ws| - 1;
    if i == last {
      assert ws[i := w][..last] == ws[..last];
    } else {
      ReplaceHeld(ws[..last], i, w);
      assert ws[i := w][..last] == ws[..last][i := w];
    }
  }

  lemma {:induction false} ReplaceFound(found: seq<seq<bool>>, i: nat, jobs: seq<bool>)
    requires i < |found|
    ensures AllFound(found[i := jobs]) + multiset(found[i])[true] == AllFound(found) + multiset(jobs)[true]
  {
    var last := |found| - 1;
    if i == last {
      assert found[i := jobs][..last] == found[..last];
    } else {
      ReplaceFound(found[..last], i, jobs);
      assert found[i := jobs][..last] == found[..last][i := jobs];
    }
  }

  lemma {:induction false} HeldIsLive(ws: seq<Pool.Worker<bool>>)
    ensures AllHeld(ws) <= Pool.Jobs(ws)[true]
  {
    if ws != [] {
      HeldIsLive(ws[..|ws| - 1]);
    }
  }

  /** Descriptors in queues and in workers' lists of children. */
  function Parked(s: State): nat {
    HeldIsLive(s.pool.workers);
    Pool.LiveJobs(s.pool)[true] - AllHeld(s.pool.workers) + AllFound(s.found)
  }

  /** What of it the count is about. */
  function View(s: State): B.State {
    B.State(s.live, Parked(s), s.at)
  }

  // ---- Every step ----

  predicate WorkerFits(w: Pool.Worker<bool>, at: B.Pc, found: seq<bool>) {
    && (w.pc.Holding? <==> !at.Idle?)
    && (at.Taken? ==> w.pc == Pool.Holding(true))
    && (at.Idle? ==> found == [])
  }

  predicate AllFit(ws: seq<Pool.Worker<bool>>, at: seq<B.Pc>, found: seq<seq<bool>>) {
    && |at| == |found| == |ws|
    && forall i :: 0 <= i < |at| ==> WorkerFits(ws[i], at[i], found[i])
  }

  ghost predicate Inv(s: State, cap: nat) {
    && AllFit(s.pool.workers, s.at, s.found)
    && Pool.Inv(s.pool) && Pool.NobodyLeftEarly(s.pool)
    && B.Inv(View(s), cap)
  }

  /** What a scheduling step does to descriptors in hand: only the worker that took a job has one more. */
  lemma ScheduleHolds(s: Pool.State<bool>, a: Pool.Action<bool>)
    requires Pool.Enabled(s, a) && !a.RunJob? && !a.Panic?
    ensures var s' := Pool.Apply(s, a);
            && !s.workers[a.me].pc.Holding?
            && |s'.workers| == |s.workers| && AllHeld(s'.workers) == AllHeld(s.workers) + Held(s'.workers[a.me])
            && (forall i :: 0 <= i < |s.workers| && i != a.me ==> s'.workers[i].pc == s.workers[i].pc)
  {
    var ws, s' := s.workers, Pool.Apply(s, a);
    if a.StealFrom? {
      var robbed := ws[a.victim].(local := ws[a.victim].local[a.batch..]);
      ReplaceHeld(ws, a.victim, robbed);
      ws := ws[a.victim := robbed];
    }
    ReplaceHeld(ws, a.me, s'.workers[a.me]);
    assert s'.workers == ws[a.me := s'.workers[a.me]];
  }

  lemma ScheduleParks(s: State, cap: nat, a: Pool.Action<bool>)
    requires Pool.Inv(s.pool) && Can(s, Schedule(a))
    ensures Parked(Do(s, cap, Schedule(a))) == Parked(s) - Held(Pool.Apply(s.pool, a).workers[a.me])
  {
    ScheduleHolds(s.pool, a);
    Pool.StepKeepsInv(s.pool, a);
  }

  lemma ScheduleFits(ws: seq<Pool.Worker<bool>>, ws': seq<Pool.Worker<bool>>, at: seq<B.Pc>, found: seq<seq<bool>>,
                     me: nat, pc: B.Pc)
    requires AllFit(ws, at, found) && me < |ws| == |ws'| && !ws[me].pc.Holding?
    requires forall i :: 0 <= i < |ws| && i != me ==> ws'[i].pc == ws[i].pc
    requires var now := ws'[me].pc;
             pc == if now.Holding? then (if now.job then B.Taken else B.Reading) else at[me]
    ensures AllFit(ws', at[me := pc], found)
  {
    assert WorkerFits(ws[me], at[me], found[me]);
    var at' := at[me := pc];
    forall i | 0 <= i < |at'| ensures WorkerFits(ws'[i], at'[i], found[i]) {
      assert WorkerFits(ws[i], at[i], found[i]);
    }
  }

  /** The step of the count's own machine that this one amounts to, if any. */
  function StepOf(s: State, x: Action): (b: B.Step)
    requires Can(s, x)
  {
    match x
    case Schedule(a) =>
      var pc := Pool.Apply(s.pool, a).workers[a.me].pc;
      if pc == Pool.Holding(true) then B.TakeDescriptor(a.me) else B.TakePath(a.me)
    case Touch(b) => b
    case QueueByPath(me) => B.Check(me)
    case Finish(me) => B.Finish(me)
  }

  /** Steps that only concern the pool, or only a worker's list. */
  predicate IsSilent(s: State, x: Action)
    requires Can(s, x)
  {
    x.QueueByPath? || (x.Schedule? && !Pool.Apply(s.pool, x.a).workers[x.a.me].pc.Holding?)
  }

  /** Every step of both is a step of the count's own machine, or none to it. */
  lemma ScheduleRefines(s: State, cap: nat, a: Pool.Action<bool>)
    requires Inv(s, cap) && Can(s, Schedule(a))
    ensures Refines(s, cap, Schedule(a))
  {
    ScheduleParks(s, cap, a);
    ScheduleHolds(s.pool, a);
    WasIdle(s, a.me);
    TakingMoves(View(s), View(Do(s, cap, Schedule(a))), cap, a.me, Pool.Apply(s.pool, a).workers[a.me]);
  }

  lemma WasIdle(s: State, me: nat)
    requires AllFit(s.pool.workers, s.at, s.found) && me < |s.at| && !s.pool.workers[me].pc.Holding?
    ensures s.at[me].Idle? && s.found[me] == []
  {
    assert WorkerFits(s.pool.workers[me], s.at[me], s.found[me]);
  }

  /** Taking a job, on the count's side. */
  lemma TakingMoves(v: B.State, v': B.State, cap: nat, me: nat, w: Pool.Worker<bool>)
    requires me < |v.workers| && v.workers[me].Idle? && v'.live == v.live && v'.parked == v.parked - Held(w)
    requires v'.workers ==
             v.workers[me := if w.pc.Holding? then (if w.pc.job then B.Taken else B.Reading) else v.workers[me]]
    ensures if !w.pc.Holding? then v' == v
            else var b := if w.pc == Pool.Holding(true) then B.TakeDescriptor(me) else B.TakePath(me);
                 B.Enabled(v, b) && v' == B.Apply(v, cap, b)
  {
    if !w.pc.Holding? {
      assert v'.workers == v.workers;
    }
  }

  ghost predicate Refines(s: State, cap: nat, x: Action)
    requires Can(s, x)
  {
    var v, v' := View(s), View(Do(s, cap, x));
    if IsSilent(s, x) then v' == v else B.Enabled(v, StepOf(s, x)) && v' == B.Apply(v, cap, StepOf(s, x))
  }

  lemma RefiningKeeps(s: State, cap: nat, x: Action)
    requires Can(s, x) && B.Inv(View(s), cap) && Refines(s, cap, x)
    ensures B.Inv(View(Do(s, cap, x)), cap)
  {
    if !IsSilent(s, x) {
      B.StepKeepsInv(View(s), cap, StepOf(s, x));
    }
  }

  lemma ScheduleKeepsInv(s: State, cap: nat, a: Pool.Action<bool>)
    requires Inv(s, cap) && Can(s, Schedule(a))
    ensures Inv(Do(s, cap, Schedule(a)), cap)
  {
    ScheduleRefines(s, cap, a);
    RefiningKeeps(s, cap, Schedule(a));
    Pool.StepKeepsInv(s.pool, a);
    Pool.StepKeepsNobodyLeftEarly(s.pool, a);
    ScheduleHolds(s.pool, a);
    ScheduleFits(s.pool.workers, Pool.Apply(s.pool, a).workers, s.at, s.found, a.me, AfterSchedule(s, a));
  }

  lemma TouchRefines(s: State, cap: nat, b: B.Step)
    requires Can(s, Touch(b))
    ensures Refines(s, cap, Touch(b))
  {
    var s' := Do(s, cap, Touch(b));
    if b.Add? {
      AddParks(s, s', b.me);
    } else {
      assert s'.pool == s.pool && s'.found == s.found;
    }
  }

  lemma AddParks(s: State, s': State, me: nat)
    requires me < |s.found| && s'.pool == s.pool && s'.found == s.found[me := s.found[me] + [true]]
    ensures Parked(s') == Parked(s) + 1
  {
    ReplaceFound(s.found, me, s.found[me] + [true]);
  }

  /** A worker in the middle of a job goes on with it. */
  lemma GoingOnFits(ws: seq<Pool.Worker<bool>>, at: seq<B.Pc>, found: seq<seq<bool>>, me: nat, pc: B.Pc,
                    jobs: seq<bool>)
    requires AllFit(ws, at, found) && me < |at| && !at[me].Idle? && !pc.Idle? && !pc.Taken?
    ensures AllFit(ws, at[me := pc], found[me := jobs])
  {
    var at', found' := at[me := pc], found[me := jobs];
    forall i | 0 <= i < |at'| ensures WorkerFits(ws[i], at'[i], found'[i]) {
      assert WorkerFits(ws[i], at[i], found[i]);
    }
  }

  lemma TouchKeepsInv(s: State, cap: nat, b: B.Step)
    requires Inv(s, cap) && Can(s, Touch(b))
    ensures Inv(Do(s, cap, Touch(b)), cap)
  {
    TouchRefines(s, cap, b);
    RefiningKeeps(s, cap, Touch(b));
    TouchFits(s, cap, b);
  }

  lemma TouchFits(s: State, cap: nat, b: B.Step)
    requires AllFit(s.pool.workers, s.at, s.found) && Can(s, Touch(b))
    ensures var s' := Do(s, cap, Touch(b)); AllFit(s'.pool.workers, s'.at, s'.found)
  {
    var s' := Do(s, cap, Touch(b));
    if s' != s {
      GoingOnFits(s.pool.workers, s.at, s.found, b.me, s'.at[b.me], s'.found[b.me]);
      assert s'.at == s.at[b.me := s'.at[b.me]] && s'.found == s.found[b.me := s'.found[b.me]];
    }
  }

  lemma QueueByPathKeepsInv(s: State, cap: nat, me: nat)
    requires Inv(s, cap) && Can(s, QueueByPath(me))
    ensures Inv(Do(s, cap, QueueByPath(me)), cap)
  {
    ReplaceFound(s.found, me, s.found[me] + [false]);
    GoingOnFits(s.pool.workers, s.at, s.found, me, s.at[me], s.found[me] + [false]);
    assert s.at[me := s.at[me]] == s.at;
  }

  lemma FinishParks(s: State, cap: nat, me: nat)
    requires Pool.Inv(s.pool) && Can(s, Finish(me))
    ensures Parked(Do(s, cap, Finish(me))) == Parked(s)
  {
    var ws := s.pool.workers;
    RunHandsOver(s.pool, me, s.found[me]);
    ReplaceHeld(ws, me, ws[me].(pc := Pool.Counting(s.found[me])));
    ReplaceFound(s.found, me, []);
    assert Do(s, cap, Finish(me)).pool.workers == ws[me := ws[me].(pc := Pool.Counting(s.found[me]))];
  }

  lemma RunHandsOver(s: Pool.State<bool>, me: nat, found: seq<bool>)
    requires Pool.Inv(s) && Pool.Enabled(s, Pool.RunJob(me, found))
    ensures Pool.LiveJobs(Pool.Apply(s, Pool.RunJob(me, found)))[true] + (if s.workers[me].pc.job then 1 else 0) ==
            Pool.LiveJobs(s)[true] + multiset(found)[true]
  {
    Pool.StepKeepsInv(s, Pool.RunJob(me, found));
    Pool.EachLives(s.workers, me);
    assert s.workers[me].pc.job in Pool.Live(s.workers[me]);
    HandedOver(Pool.LiveJobs(s), s.workers[me].pc.job, multiset(found));
  }

  lemma HandedOver(live: multiset<bool>, job: bool, found: multiset<bool>)
    requires job in live
    ensures (live - multiset{job} + found)[true] == live[true] - (if job then 1 else 0) + found[true]
  {
  }

  lemma FinishFits(ws: seq<Pool.Worker<bool>>, w: Pool.Worker<bool>, at: seq<B.Pc>, found: seq<seq<bool>>, me: nat)
    requires AllFit(ws, at, found) && me < |at| && !w.pc.Holding?
    ensures AllFit(ws[me := w], at[me := B.Idle], found[me := []])
  {
    var ws', at', found' := ws[me := w], at[me := B.Idle], found[me := []];
    forall i | 0 <= i < |at'| ensures WorkerFits(ws'[i], at'[i], found'[i]) {
      assert WorkerFits(ws[i], at[i], found[i]);
    }
  }

  lemma FinishKeepsInv(s: State, cap: nat, me: nat)
    requires Inv(s, cap) && Can(s, Finish(me))
    ensures Inv(Do(s, cap, Finish(me)), cap)
  {
    var run := Pool.RunJob(me, s.found[me]);
    FinishParks(s, cap, me);
    RefiningKeeps(s, cap, Finish(me));
    Pool.StepKeepsInv(s.pool, run);
    Pool.StepKeepsNobodyLeftEarly(s.pool, run);
    FinishFits(s.pool.workers, s.pool.workers[me].(pc := Pool.Counting(s.found[me])), s.at, s.found, me);
  }

  lemma StepKeepsInv(s: State, cap: nat, x: Action)
    requires Inv(s, cap) && Can(s, x)
    ensures Inv(Do(s, cap, x), cap)
  {
    match x
    case Schedule(a) => ScheduleKeepsInv(s, cap, a);
    case Touch(b) => TouchKeepsInv(s, cap, b);
    case QueueByPath(me) => QueueByPathKeepsInv(s, cap, me);
    case Finish(me) => FinishKeepsInv(s, cap, me);
  }

  // ---- Whole runs ----

  ghost predicate IsRun(cap: nat, states: seq<State>, actions: seq<Action>) {
    && |states| == |actions| + 1
    && forall k :: 0 <= k < |actions| ==> Can(states[k], actions[k]) && states[k + 1] == Do(states[k], cap, actions[k])
  }

  /** The pool starts with what reading the root queued; the descriptors among it are counted. */
  function Start(jobs: seq<bool>, threads: nat): State {
    State(Pool.Init(jobs, threads), multiset(jobs)[true], seq(threads, _ => B.Idle), seq(threads, _ => []))
  }

  lemma {:induction false} NothingYet(ws: seq<Pool.Worker<bool>>, found: seq<seq<bool>>)
    requires forall i :: 0 <= i < |ws| ==> !ws[i].pc.Holding?
    requires forall i :: 0 <= i < |found| ==> found[i] == []
    ensures AllHeld(ws) == 0 && AllFound(found) == 0
    decreases |ws| + |found|
  {
    if ws != [] {
      NothingYet(ws[..|ws| - 1], found);
    } else if found != [] {
      NothingYet(ws, found[..|found| - 1]);
    }
  }

  lemma StartInv(jobs: seq<bool>, threads: nat, cap: nat)
    requires threads > 0 && multiset(jobs)[true] <= cap
    ensures Inv(Start(jobs, threads), cap)
  {
    var s := Start(jobs, threads);
    Pool.InitInv(jobs, threads);
    NothingYet(s.pool.workers, s.found);
    B.NobodyCounts(B.IsTaken, s.at);
    B.NobodyCounts(B.IsCommitted, s.at);
  }

  lemma {:induction false} RunKeepsInv(jobs: seq<bool>, threads: nat, cap: nat, states: seq<State>,
                                       actions: seq<Action>, k: nat)
    requires threads > 0 && multiset(jobs)[true] <= cap
    requires IsRun(cap, states, actions) && states[0] == Start(jobs, threads) && k < |states|
    ensures Inv(states[k], cap) && |states[k].at| == threads
    decreases k
  {
    if k == 0 {
      StartInv(jobs, threads, cap);
    } else {
      RunKeepsInv(jobs, threads, cap, states, actions, k - 1);
      OneStep(cap, states, actions, k - 1);
    }
  }

  lemma OneStep(cap: nat, states: seq<State>, actions: seq<Action>, k: nat)
    requires IsRun(cap, states, actions) && k < |actions| && Inv(states[k], cap)
    ensures Inv(states[k + 1], cap) && |states[k + 1].at| == |states[k].at|
  {
    assert Can(states[k], actions[k]) && states[k + 1] == Do(states[k], cap, actions[k]);
    StepKeepsInv(states[k], cap, actions[k]);
    KeepsWorkers(states[k], cap, actions[k]);
  }

  lemma KeepsWorkers(s: State, cap: nat, x: Action)
    requires Can(s, x)
    ensures |Do(s, cap, x).at| == |s.at|
  {
  }

  /** With nobody working and nothing queued, no descriptor is anywhere. */
  lemma QuietCountsNothing(s: State, cap: nat)
    requires Inv(s, cap) && Pool.Quiet(s.pool)
    ensures s.live == 0
  {
    forall i | 0 <= i < |s.at| ensures s.at[i].Idle? && s.found[i] == [] && !s.pool.workers[i].pc.Holding? {
      assert Pool.Idle(s.pool.workers[i]);
      WasIdle(s, i);
    }
    Pool.QuietOwnsNothing(s.pool.workers);
    NothingYet(s.pool.workers, s.found);
    B.NobodyCounts(B.IsTaken, s.at);
  }

  /** In every run of the pool with its descriptor count, at every moment, the count is between zero and the
      cap plus one for every other worker; and once any worker has left it is zero. */
  lemma CountEndsAtZero(jobs: seq<bool>, threads: nat, cap: nat, states: seq<State>, actions: seq<Action>, k: nat)
    requires threads > 0 && multiset(jobs)[true] <= cap
    requires IsRun(cap, states, actions) && states[0] == Start(jobs, threads) && k < |states|
    ensures 0 <= states[k].live <= cap + threads - 1
    ensures (exists i :: 0 <= i < |states[k].pool.workers| && states[k].pool.workers[i].pc.Left?) ==>
      states[k].live == 0
  {
    RunKeepsInv(jobs, threads, cap, states, actions, k);
    var s := states[k];
    if i: nat :| i < |s.pool.workers| && s.pool.workers[i].pc.Left? {
      Pool.CountIsZeroWhenQuiet(s.pool);
      QuietCountsNothing(s, cap);
    }
  }
}
