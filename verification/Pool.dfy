/** The work-stealing pool as a transition system, for any kind of job and any outcome of running
    one. Each step is one access to shared state. */
module Pool {
  /** Where a worker is in its loop. */
  datatype Pc<J> =
    | Seeking                         // looking for a job, spinning, or about to test the count
    | Holding(job: J)                 // took a job, Retire guard armed
    | Counting(children: seq<J>)      // ran it; the children are not counted yet
    | Pushing(children: seq<J>)       // counted; these are not pushed yet
    | Parked                          // registered as a sleeper
    | Left                            // returned its output
    | Unwinding                       // panicked; only the guard still runs
    | Dead

  datatype Worker<J> = Worker(pc: Pc<J>, local: seq<J>)

  /** `ran` and `queued` are history: every job run, and every job ever put in a queue. */
  datatype State<J(==)> = State(injector: seq<J>, workers: seq<Worker<J>>, inFlight: int, sleepers: int,
                                ran: multiset<J>, queued: multiset<J>)

  datatype Action<J> =
    | Pop(me: nat)
    | StealSeeds(me: nat, batch: nat)
    | StealFrom(me: nat, victim: nat, batch: nat)
    | RunJob(me: nat, children: seq<J>)
    | Panic(me: nat)
    | Count(me: nat)
    | Push(me: nat)
    | Retire(me: nat)
    | Park(me: nat)
    | Wake(me: nat)
    | Leave(me: nat)

  function Init<J>(jobs: seq<J>, threads: nat): State<J> {
    State(jobs, seq(threads, _ => Worker(Seeking, [])), |jobs|, 0, multiset{}, multiset(jobs))
  }

  predicate Enabled<J>(s: State<J>, a: Action<J>) {
    a.me < |s.workers| &&
    var w := s.workers[a.me];
    match a
    case Pop(_) => w.pc.Seeking? && w.local != []
    case StealSeeds(_, batch) => w.pc.Seeking? && 0 < batch <= |s.injector|
    case StealFrom(_, victim, batch) =>
      w.pc.Seeking? && victim < |s.workers| && victim != a.me && 0 < batch <= |s.workers[victim].local|
    case RunJob(_, _) => w.pc.Holding?
    case Panic(_) => w.pc.Holding?
    case Count(_) => w.pc.Counting? && w.pc.children != []
    case Push(_) => w.pc.Pushing? && w.pc.children != []
    case Retire(_) => w.pc == Counting([]) || w.pc == Pushing([]) || w.pc.Unwinding?
    case Park(_) => w.pc.Seeking?
    case Wake(_) => w.pc.Parked?
    case Leave(_) => (w.pc.Seeking? || w.pc.Parked?) && s.inFlight == 0
  }

  function Put<J>(s: State<J>, i: nat, w: Worker<J>): State<J>
    requires i < |s.workers|
  {
    s.(workers := s.workers[i := w])
  }

  function Apply<J>(s: State<J>, a: Action<J>): State<J>
    requires Enabled(s, a)
  {
    var me := a.me;
    var w := s.workers[me];
    match a
    case Pop(_) =>
      var last := |w.local| - 1;
      Put(s, me, Worker(Holding(w.local[last]), w.local[..last]))
    case StealSeeds(_, batch) =>
      Put(s, me, Worker(Holding(s.injector[0]), w.local + s.injector[1..batch])).(injector := s.injector[batch..])
    case StealFrom(_, victim, batch) =>
      var from := s.workers[victim];
      Put(Put(s, victim, from.(local := from.local[batch..])), me,
          Worker(Holding(from.local[0]), w.local + from.local[1..batch]))
    case RunJob(_, children) =>
      Put(s, me, w.(pc := Counting(children)))
        .(ran := s.ran + multiset{w.pc.job}, queued := s.queued + multiset(children))
    case Panic(_) =>
      Put(s, me, w.(pc := Unwinding)).(ran := s.ran + multiset{w.pc.job})
    case Count(_) =>
      Put(s, me, w.(pc := Pushing(w.pc.children))).(inFlight := s.inFlight + |w.pc.children|)
    case Push(_) =>
      Put(s, me, Worker(Pushing(w.pc.children[1..]), w.local + [w.pc.children[0]]))
    case Retire(_) =>
      Put(s, me, w.(pc := if w.pc.Unwinding? then Dead else Seeking)).(inFlight := s.inFlight - 1)
    case Park(_) =>
      Put(s, me, w.(pc := Parked)).(sleepers := s.sleepers + 1)
    case Wake(_) =>
      Put(s, me, w.(pc := Seeking)).(sleepers := s.sleepers - 1)
    case Leave(_) =>
      Put(s, me, w.(pc := Left)).(sleepers := if w.pc.Parked? then s.sleepers - 1 else s.sleepers)
  }

  // ---- What a worker owns ----

  /** The jobs in a worker's hands: queued locally, held, or handed back by the job it ran. */
  function Live<J>(w: Worker<J>): multiset<J> {
    multiset(w.local) +
    match w.pc
    case Holding(job) => multiset{job}
    case Counting(children) => multiset(children)
    case Pushing(children) => multiset(children)
    case _ => multiset{}
  }

  /** Its share of the in-flight count. */
  function Share<J>(w: Worker<J>): nat {
    |w.local| +
    match w.pc
    case Holding(_) => 1
    case Counting(_) => 1
    case Pushing(children) => 1 + |children|
    case Unwinding => 1
    case _ => 0
  }

  function Asleep<J>(w: Worker<J>): nat {
    if w.pc.Parked? then 1 else 0
  }

  function Jobs<J>(ws: seq<Worker<J>>): multiset<J> {
    if ws == [] then multiset{} else Jobs(ws[..|ws| - 1]) + Live(ws[|ws| - 1])
  }

  function Shares<J>(ws: seq<Worker<J>>): nat {
    if ws == [] then 0 else Shares(ws[..|ws| - 1]) + Share(ws[|ws| - 1])
  }

  function Sleeping<J>(ws: seq<Worker<J>>): nat {
    if ws == [] then 0 else Sleeping(ws[..|ws| - 1]) + Asleep(ws[|ws| - 1])
  }

  /** Replacing one worker changes each total by what that worker gained or gave up. */
  lemma {:induction false} ReplaceCounts<J>(ws: seq<Worker<J>>, i: nat, w: Worker<J>)
    requires i < |ws|
    ensures Shares(ws[i := w]) + Share(ws[i]) == Shares(ws) + Share(w)
    ensures Sleeping(ws[i := w]) + Asleep(ws[i]) == Sleeping(ws) + Asleep(w)
  {
    var last := |ws| - 1;
    if i == last {
      assert ws[i := w][..last] == ws[..last];
    } else {
      ReplaceCounts(ws[..last], i, w);
      assert ws[i := w][..last] == ws[..last][i := w];
    }
  }

  lemma AddToBoth<J>(a: multiset<J>, b: multiset<J>, a': multiset<J>, b': multiset<J>, x: multiset<J>)
    requires a' + b == a + b'
    ensures (a' + x) + b == (a + x) + b'
  {
    forall j ensures ((a' + x) + b)[j] == ((a + x) + b')[j] {
      assert (a' + b)[j] == (a + b')[j];
    }
  }

  lemma {:induction false} ReplaceJobs<J>(ws: seq<Worker<J>>, i: nat, w: Worker<J>)
    requires i < |ws|
    ensures Jobs(ws[i := w]) + Live(ws[i]) == Jobs(ws) + Live(w)
  {
    var last := |ws| - 1;
    if i == last {
      assert ws[i := w][..last] == ws[..last];
      var front := Jobs(ws[..last]);
      assert (front + Live(w)) + Live(ws[i]) == (front + Live(ws[i])) + Live(w);
    } else {
      var ws' := ws[i := w];
      ReplaceJobs(ws[..last], i, w);
      assert ws'[..last] == ws[..last][i := w];
      AddToBoth(Jobs(ws[..last]), Live(ws[i]), Jobs(ws'[..last]), Live(w), Live(ws[last]));
    }
  }

  lemma {:induction false} EachLives<J>(ws: seq<Worker<J>>, i: nat)
    requires i < |ws|
    ensures Live(ws[i]) <= Jobs(ws)
  {
    if i < |ws| - 1 {
      EachLives(ws[..|ws| - 1], i);
    }
  }

  // ---- The invariant ----

  function LiveJobs<J>(s: State<J>): multiset<J> {
    multiset(s.injector) + Jobs(s.workers)
  }

  ghost predicate NoPanic<J>(s: State<J>) {
    forall i :: 0 <= i < |s.workers| ==> !s.workers[i].pc.Unwinding? && !s.workers[i].pc.Dead?
  }

  /** The count is what is queued, held, or counted but not pushed; and history adds up. */
  ghost predicate Inv<J>(s: State<J>) {
    && s.inFlight == |s.injector| + Shares(s.workers)
    && s.sleepers == Sleeping(s.workers)
    && s.queued == s.ran + LiveJobs(s)
  }

  lemma {:induction false} IdleHoldNothing<J>(ws: seq<Worker<J>>)
    requires forall i :: 0 <= i < |ws| ==> ws[i] == Worker(Seeking, [])
    ensures Jobs(ws) == multiset{} && Shares(ws) == 0 && Sleeping(ws) == 0
  {
    if ws != [] {
      IdleHoldNothing(ws[..|ws| - 1]);
    }
  }

  lemma InitInv<J>(jobs: seq<J>, threads: nat)
    ensures Inv(Init(jobs, threads)) && NoPanic(Init(jobs, threads))
    ensures LiveJobs(Init(jobs, threads)) == multiset(jobs)
  {
    IdleHoldNothing(Init(jobs, threads).workers);
  }

  // ---- Every step keeps it ----

  /** What a step does to the jobs in circulation: only running one changes them. */
  function LiveAfter<J>(s: State<J>, a: Action<J>): multiset<J>
    requires Enabled(s, a)
  {
    match a
    case RunJob(me, children) => LiveJobs(s) - multiset{s.workers[me].pc.job} + multiset(children)
    case Panic(me) => LiveJobs(s) - multiset{s.workers[me].pc.job}
    case _ => LiveJobs(s)
  }

  lemma StepKeepsInv<J>(s: State<J>, a: Action<J>)
    requires Inv(s) && Enabled(s, a)
    ensures Inv(Apply(s, a)) && LiveJobs(Apply(s, a)) == LiveAfter(s, a)
  {
    match a {
      case StealSeeds(me, batch) => SeedStealKeepsInv(s, me, batch);
      case StealFrom(me, victim, batch) => StealKeepsInv(s, me, victim, batch);
      case RunJob(me, children) => RunKeepsInv(s, me, children);
      case Panic(me) => PanicKeepsInv(s, me);
      case _ => LocalStepKeepsInv(s, a);
    }
  }

  lemma LocalStepKeepsInv<J>(s: State<J>, a: Action<J>)
    requires Inv(s) && Enabled(s, a)
    requires !a.StealSeeds? && !a.StealFrom? && !a.RunJob? && !a.Panic?
    ensures Inv(Apply(s, a)) && LiveJobs(Apply(s, a)) == LiveJobs(s)
  {
    LocalStepIsLocal(s, a);
    LocalStepKeepsJobs(s, a);
    OneWorkerMoves(s, Apply(s, a), a.me);
  }

  /** A step that touches one worker and the counters. */
  ghost predicate Moves<J>(s: State<J>, s': State<J>, me: nat) {
    && me < |s.workers|
    && |s'.workers| == |s.workers|
    && s'.workers == s.workers[me := s'.workers[me]]
    && s'.injector == s.injector && s'.ran == s.ran && s'.queued == s.queued
    && s'.inFlight - s.inFlight == Share(s'.workers[me]) - Share(s.workers[me])
    && s'.sleepers - s.sleepers == Asleep(s'.workers[me]) - Asleep(s.workers[me])
  }

  lemma OneWorkerMoves<J>(s: State<J>, s': State<J>, me: nat)
    requires Inv(s) && Moves(s, s', me) && Live(s'.workers[me]) == Live(s.workers[me])
    ensures Inv(s') && LiveJobs(s') == LiveJobs(s)
  {
    ReplaceCounts(s.workers, me, s'.workers[me]);
    ReplaceJobs(s.workers, me, s'.workers[me]);
    CancelJobs(Jobs(s'.workers), Jobs(s.workers), Live(s.workers[me]));
  }

  lemma LocalStepIsLocal<J>(s: State<J>, a: Action<J>)
    requires Enabled(s, a)
    requires !a.StealSeeds? && !a.StealFrom? && !a.RunJob? && !a.Panic?
    ensures Moves(s, Apply(s, a), a.me)
  {
  }

  lemma LocalStepKeepsJobs<J>(s: State<J>, a: Action<J>)
    requires Enabled(s, a)
    requires !a.StealSeeds? && !a.StealFrom? && !a.RunJob? && !a.Panic?
    ensures Live(Apply(s, a).workers[a.me]) == Live(s.workers[a.me])
  {
    var w := s.workers[a.me];
    match a {
      case Pop(me) =>
        PopKeepsJobs(w, |w.local| - 1);
        assert Apply(s, a).workers[me] == Worker(Holding(w.local[|w.local| - 1]), w.local[..|w.local| - 1]);
      case Push(me) =>
        PushKeepsJobs(w);
        assert Apply(s, a).workers[me] == Worker(Pushing(w.pc.children[1..]), w.local + [w.pc.children[0]]);
      case _ =>
        OtherStepKeepsJobs(s, a);
    }
  }

  lemma OtherStepKeepsJobs<J>(s: State<J>, a: Action<J>)
    requires Enabled(s, a) && (a.Count? || a.Retire? || a.Park? || a.Wake? || a.Leave?)
    ensures Live(Apply(s, a).workers[a.me]) == Live(s.workers[a.me])
  {
  }

  lemma PopKeepsJobs<J>(w: Worker<J>, last: nat)
    requires w.pc.Seeking? && |w.local| == last + 1
    ensures Live(Worker(Holding(w.local[last]), w.local[..last])) == Live(w)
  {
    assert w.local == w.local[..last] + [w.local[last]];
  }

  lemma PushKeepsJobs<J>(w: Worker<J>)
    requires w.pc.Pushing? && w.pc.children != []
    ensures Live(Worker(Pushing(w.pc.children[1..]), w.local + [w.pc.children[0]])) == Live(w)
  {
    assert w.pc.children == [w.pc.children[0]] + w.pc.children[1..];
  }

  lemma CancelJobs<J>(a: multiset<J>, b: multiset<J>, c: multiset<J>)
    requires a + c == b + c
    ensures a == b
  {
    assert a == (a + c) - c && b == (b + c) - c;
  }

  lemma RunKeepsInv<J>(s: State<J>, me: nat, children: seq<J>)
    requires Inv(s) && Enabled(s, RunJob(me, children))
    ensures var s' := Apply(s, RunJob(me, children));
            Inv(s') && LiveJobs(s') == LiveAfter(s, RunJob(me, children))
  {
    var w := s.workers[me];
    var s' := Apply(s, RunJob(me, children));
    assert s'.workers == s.workers[me := Worker(Counting(children), w.local)];
    OneWorkerRuns(s, s', me, multiset(w.local), multiset{w.pc.job}, multiset(children));
  }

  lemma PanicKeepsInv<J>(s: State<J>, me: nat)
    requires Inv(s) && Enabled(s, Panic(me))
    ensures var s' := Apply(s, Panic(me)); Inv(s') && LiveJobs(s') == LiveAfter(s, Panic(me))
  {
    var w := s.workers[me];
    var s' := Apply(s, Panic(me));
    var none: multiset<J> := multiset{};
    assert s'.workers == s.workers[me := Worker(Unwinding, w.local)];
    NoneAdded(s.queued, multiset(w.local), none);
    OneWorkerRuns(s, s', me, multiset(w.local), multiset{w.pc.job}, none);
    NoneAdded(LiveJobs(s'), LiveJobs(s) - multiset{w.pc.job}, none);
  }

  lemma NoneAdded<J>(a: multiset<J>, b: multiset<J>, none: multiset<J>)
    requires none == multiset{}
    ensures a + none == a && b + none == b
  {
  }

  lemma OneWorkerRuns<J>(s: State<J>, s': State<J>, me: nat, kept: multiset<J>, gone: multiset<J>, come: multiset<J>)
    requires Inv(s) && me < |s.workers| == |s'.workers|
    requires s'.workers == s.workers[me := s'.workers[me]] && s'.injector == s.injector
    requires s'.inFlight == s.inFlight && Share(s'.workers[me]) == Share(s.workers[me])
    requires s'.sleepers == s.sleepers && Asleep(s'.workers[me]) == Asleep(s.workers[me])
    requires Live(s.workers[me]) == kept + gone && Live(s'.workers[me]) == kept + come
    requires s'.queued == s.queued + come && s'.ran == s.ran + gone
    ensures Inv(s') && LiveJobs(s') == LiveJobs(s) - gone + come
  {
    ReplaceCounts(s.workers, me, s'.workers[me]);
    ReplaceJobs(s.workers, me, s'.workers[me]);
    EachLives(s.workers, me);
    ExchangeJobs(Jobs(s.workers), Jobs(s'.workers), kept, gone, come);
    HistoryAddsUp(s.queued, s.ran, LiveJobs(s), gone, come);
  }

  lemma ExchangeJobs<J>(all: multiset<J>, all': multiset<J>, kept: multiset<J>, gone: multiset<J>, come: multiset<J>)
    requires all' + (kept + gone) == all + (kept + come)
    requires kept + gone <= all
    ensures gone <= all && all' == all - gone + come
  {
    assert gone <= kept + gone;
    forall j ensures all'[j] == (all - gone + come)[j] {
      assert (all' + (kept + gone))[j] == (all + (kept + come))[j];
    }
  }

  lemma HistoryAddsUp<J>(queued: multiset<J>, ran: multiset<J>, live: multiset<J>, gone: multiset<J>, come: multiset<J>)
    requires queued == ran + live && gone <= live
    ensures queued + come == (ran + gone) + (live - gone + come)
  {
  }

  lemma SeedStealKeepsInv<J>(s: State<J>, me: nat, batch: nat)
    requires Inv(s) && Enabled(s, StealSeeds(me, batch))
    ensures var s' := Apply(s, StealSeeds(me, batch)); Inv(s') && LiveJobs(s') == LiveJobs(s)
  {
    var s' := Apply(s, StealSeeds(me, batch));
    var w, w' := s.workers[me], s'.workers[me];
    var taken := s.injector[..batch];
    assert s'.workers == s.workers[me := w'];
    ReplaceCounts(s.workers, me, w');
    ReplaceJobs(s.workers, me, w');
    BatchIsOneJobAndTheRest(s.injector, batch);
    TakeBatch(w, w', s.injector, batch);
    GainJobs(Jobs(s.workers), Jobs(s'.workers), Live(w), multiset(taken));
  }

  lemma BatchIsOneJobAndTheRest<J>(queue: seq<J>, batch: nat)
    requires 0 < batch <= |queue|
    ensures multiset(queue[..batch]) == multiset{queue[0]} + multiset(queue[1..batch])
    ensures multiset(queue) == multiset(queue[..batch]) + multiset(queue[batch..])
  {
    assert queue[..batch] == [queue[0]] + queue[1..batch];
    assert queue == queue[..batch] + queue[batch..];
  }

  lemma TakeBatch<J>(w: Worker<J>, w': Worker<J>, queue: seq<J>, batch: nat)
    requires w.pc.Seeking? && 0 < batch <= |queue|
    requires w' == Worker(Holding(queue[0]), w.local + queue[1..batch])
    ensures Live(w') == Live(w) + multiset(queue[..batch]) && Share(w') == Share(w) + batch
  {
    BatchIsOneJobAndTheRest(queue, batch);
  }

  lemma GainJobs<J>(all: multiset<J>, all': multiset<J>, own: multiset<J>, taken: multiset<J>)
    requires all' + own == all + (own + taken)
    ensures all' == all + taken
  {
    assert all' + own == (all + taken) + own;
    CancelJobs(all', all + taken, own);
  }

  lemma StealKeepsInv<J>(s: State<J>, me: nat, victim: nat, batch: nat)
    requires Inv(s) && Enabled(s, StealFrom(me, victim, batch))
    ensures var s' := Apply(s, StealFrom(me, victim, batch)); Inv(s') && LiveJobs(s') == LiveJobs(s)
  {
    var s' := Apply(s, StealFrom(me, victim, batch));
    var from := s.workers[victim];
    var from' := from.(local := from.local[batch..]);
    var robbed := s.workers[victim := from'];
    var w' := s'.workers[me];
    var taken := multiset(from.local[..batch]);
    assert s'.workers == robbed[me := w'] && robbed[me] == s.workers[me];
    Rob(s.workers, victim, batch);
    ReplaceCounts(robbed, me, w');
    ReplaceJobs(robbed, me, w');
    TakeBatch(robbed[me], w', from.local, batch);
    GainJobs(Jobs(robbed), Jobs(s'.workers), Live(robbed[me]), taken);
  }

  /** A victim gives up exactly the batch. */
  lemma {:induction false} Rob<J>(ws: seq<Worker<J>>, victim: nat, batch: nat)
    requires victim < |ws| && 0 < batch <= |ws[victim].local|
    ensures var from := ws[victim];
            var robbed := ws[victim := from.(local := from.local[batch..])];
            && Jobs(ws) == Jobs(robbed) + multiset(from.local[..batch])
            && Shares(ws) == Shares(robbed) + batch
            && Sleeping(ws) == Sleeping(robbed)
  {
    var from := ws[victim];
    var from' := from.(local := from.local[batch..]);
    var taken := multiset(from.local[..batch]);
    ReplaceCounts(ws, victim, from');
    ReplaceJobs(ws, victim, from');
    RobbedLive(from, from', batch, taken);
    GainJobs(Jobs(ws[victim := from']), Jobs(ws), Live(from'), taken);
  }

  lemma RobbedLive<J>(from: Worker<J>, from': Worker<J>, batch: nat, taken: multiset<J>)
    requires 0 < batch <= |from.local| && from' == from.(local := from.local[batch..])
    requires taken == multiset(from.local[..batch])
    ensures Live(from) == Live(from') + taken
    ensures Share(from) == Share(from') + batch && Asleep(from) == Asleep(from')
  {
    BatchIsOneJobAndTheRest(from.local, batch);
  }

  // ---- Termination detection ----

  predicate Idle<J>(w: Worker<J>) {
    w.local == [] && (w.pc.Seeking? || w.pc.Parked? || w.pc.Left? || w.pc.Dead?)
  }

  /** No work anywhere: nothing queued, nobody holding a job or about to queue one. */
  ghost predicate Quiet<J>(s: State<J>) {
    s.injector == [] && forall i :: 0 <= i < |s.workers| ==> Idle(s.workers[i])
  }

  lemma {:induction false} ZeroShares<J>(ws: seq<Worker<J>>)
    ensures Shares(ws) == 0 <==> forall i :: 0 <= i < |ws| ==> Idle(ws[i])
  {
    if ws != [] {
      var last := |ws| - 1;
      ZeroShares(ws[..last]);
      assert Share(ws[last]) == 0 <==> Idle(ws[last]);
      assert forall i :: 0 <= i < last ==> ws[..last][i] == ws[i];
    }
  }

  /** The count is zero exactly when there is no work anywhere. */
  lemma CountIsZeroWhenQuiet<J>(s: State<J>)
    requires Inv(s)
    ensures s.inFlight >= 0
    ensures s.inFlight == 0 <==> Quiet(s)
  {
    ZeroShares(s.workers);
  }

  /** Zero is stable: no step brings work back. */
  lemma ZeroIsStable<J>(s: State<J>, a: Action<J>)
    requires Inv(s) && Enabled(s, a) && s.inFlight == 0
    ensures Apply(s, a).inFlight == 0
  {
    CountIsZeroWhenQuiet(s);
    assert Idle(s.workers[a.me]);
  }

  ghost predicate NobodyLeftEarly<J>(s: State<J>) {
    s.inFlight != 0 ==> forall i :: 0 <= i < |s.workers| ==> !s.workers[i].pc.Left?
  }

  lemma StepKeepsNobodyLeftEarly<J>(s: State<J>, a: Action<J>)
    requires Inv(s) && Enabled(s, a) && NobodyLeftEarly(s)
    ensures NobodyLeftEarly(Apply(s, a))
  {
    if s.inFlight == 0 {
      ZeroIsStable(s, a);
    } else {
      OnlyLeavingLeaves(s, a);
      KeepsWorkers(s, a);
    }
  }

  lemma KeepsWorkers<J>(s: State<J>, a: Action<J>)
    requires Enabled(s, a)
    ensures |Apply(s, a).workers| == |s.workers|
  {
  }

  lemma OnlyLeavingLeaves<J>(s: State<J>, a: Action<J>)
    requires Enabled(s, a) && !a.Leave?
    ensures forall i :: 0 <= i < |s.workers| && Apply(s, a).workers[i].pc.Left? ==> s.workers[i].pc.Left?
  {
  }

  // ---- Whole runs ----

  ghost predicate IsRun<J>(states: seq<State<J>>, actions: seq<Action<J>>) {
    && |states| == |actions| + 1
    && forall k :: 0 <= k < |actions| ==>
      Enabled(states[k], actions[k]) && states[k + 1] == Apply(states[k], actions[k])
  }

  lemma {:induction false} RunKeepsInvariant<J>(states: seq<State<J>>, actions: seq<Action<J>>, k: nat)
    requires IsRun(states, actions) && k <= |actions|
    requires Inv(states[0]) && NobodyLeftEarly(states[0])
    ensures Inv(states[k]) && NobodyLeftEarly(states[k])
  {
    if k != 0 {
      RunKeepsInvariant(states, actions, k - 1);
      var s, a := states[k - 1], actions[k - 1];
      assert Enabled(s, a) && states[k - 1 + 1] == Apply(s, a);
      StepKeepsInv(s, a);
      StepKeepsNobodyLeftEarly(s, a);
    }
  }

  /** In any run of the pool on any number of threads, panics included: whenever a worker has left,
      there is no work anywhere, every job ever queued has been run, each as often as it was queued. */
  lemma WhoeverLeavesLeavesNothing<J>(jobs: seq<J>, threads: nat, states: seq<State<J>>, actions: seq<Action<J>>,
                                      i: nat)
    requires IsRun(states, actions) && states[0] == Init(jobs, threads)
    requires i < |states[|actions|].workers| && states[|actions|].workers[i].pc.Left?
    ensures Quiet(states[|actions|])
    ensures states[|actions|].ran == states[|actions|].queued
  {
    var last := states[|actions|];
    InitInv(jobs, threads);
    RunKeepsInvariant(states, actions, |actions|);
    CountIsZeroWhenQuiet(last);
    QuietOwnsNothing(last.workers);
  }

  lemma {:induction false} QuietOwnsNothing<J>(ws: seq<Worker<J>>)
    requires forall i :: 0 <= i < |ws| ==> Idle(ws[i])
    ensures Jobs(ws) == multiset{}
  {
    if ws != [] {
      assert Idle(ws[|ws| - 1]);
      QuietOwnsNothing(ws[..|ws| - 1]);
    }
  }

  // ---- Progress ----

  /** In the middle of a job: its next step waits for nobody. */
  predicate MidJob<J>(pc: Pc<J>) {
    pc.Holding? || pc.Counting? || pc.Pushing? || pc.Unwinding?
  }

  /** Nobody waits for work that cannot come. A worker that has not left or died has a step of its own,
      other than parking; only one that looks for work while none is to be had has to wait for another,
      which is then in the middle of a job and has a step; and one that is parked may have to wake first. */
  lemma SomebodyCanMove<J>(s: State<J>, me: nat) returns (a: Action<J>)
    requires Inv(s) && me < |s.workers| && !s.workers[me].pc.Left? && !s.workers[me].pc.Dead?
    ensures Enabled(s, a) && !a.Park? && !a.Panic?
    ensures a.me == me || (s.workers[me].pc.Seeking? && MidJob(s.workers[a.me].pc))
    ensures a.Wake? ==> a.me == me && s.inFlight != 0
  {
    var w := s.workers[me];
    if MidJob(w.pc) {
      a := NextOf(s, me);
    } else {
      CountIsZeroWhenQuiet(s);
      if s.inFlight == 0 {
        a := Leave(me);
      } else if w.pc.Parked? {
        a := Wake(me);
      } else {
        a := SeekerCanMove(s, me);
      }
    }
  }

  lemma NextOf<J>(s: State<J>, me: nat) returns (a: Action<J>)
    requires me < |s.workers| && MidJob(s.workers[me].pc)
    ensures Enabled(s, a) && a.me == me && !a.Park? && !a.Panic? && !a.Wake?
  {
    var pc := s.workers[me].pc;
    if pc.Holding? {
      a := RunJob(me, []);
    } else if pc.Counting? && pc.children != [] {
      a := Count(me);
    } else if pc.Pushing? && pc.children != [] {
      a := Push(me);
    } else {
      a := Retire(me);
    }
  }

  lemma SeekerCanMove<J>(s: State<J>, me: nat) returns (a: Action<J>)
    requires Inv(s) && s.inFlight != 0 && me < |s.workers| && s.workers[me].pc.Seeking?
    ensures Enabled(s, a) && !a.Park? && !a.Panic? && !a.Wake?
    ensures a.me == me || MidJob(s.workers[a.me].pc)
  {
    CountIsZeroWhenQuiet(s);
    if s.injector != [] {
      a := StealSeeds(me, 1);
    } else {
      var i :| 0 <= i < |s.workers| && !Idle(s.workers[i]);
      if s.workers[i].local != [] {
        a := if i == me then Pop(me) else StealFrom(me, i, 1);
      } else {
        a := NextOf(s, i);
      }
    }
  }

  /** How far a worker is from taking its next job or leaving. */
  function Rank<J>(w: Worker<J>): nat {
    match w.pc
    case Seeking => 1
    case Parked => 1
    case Unwinding => 1
    case Pushing(children) => 2 + |children|
    case Counting(children) => 3 + |children|
    case _ => 0
  }

  function Ranks<J>(ws: seq<Worker<J>>): nat {
    if ws == [] then 0 else Ranks(ws[..|ws| - 1]) + Rank(ws[|ws| - 1])
  }

  lemma {:induction false} ReplaceRanks<J>(ws: seq<Worker<J>>, i: nat, w: Worker<J>)
    requires i < |ws|
    ensures Ranks(ws[i := w]) + Rank(ws[i]) == Ranks(ws) + Rank(w)
  {
    var last := |ws| - 1;
    if i == last {
      assert ws[i := w][..last] == ws[..last];
    } else {
      ReplaceRanks(ws[..last], i, w);
      assert ws[i := w][..last] == ws[..last][i := w];
    }
  }

  /** Every step but running a job, panicking, parking and waking brings its worker nearer to its next
      job or to leaving, and every other worker no farther. */
  lemma StepsMakeProgress<J>(s: State<J>, a: Action<J>)
    requires Enabled(s, a) && !a.RunJob? && !a.Panic? && !a.Park? && !a.Wake?
    ensures Ranks(Apply(s, a).workers) < Ranks(s.workers)
  {
    var s' := Apply(s, a);
    var ws := s.workers;
    if a.StealFrom? {
      var robbed := ws[a.victim].(local := ws[a.victim].local[a.batch..]);
      ReplaceRanks(ws, a.victim, robbed);
      ws := ws[a.victim := robbed];
    }
    ReplaceRanks(ws, a.me, s'.workers[a.me]);
    assert s'.workers == ws[a.me := s'.workers[a.me]];
  }
}
