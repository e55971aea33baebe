/** The memo of `git config --get-urlmatch` answers: a map of slots under one lock, and each slot under its
    own, held while git runs. Threads interleave freely, and any of them may panic. */
module UrlMemo {
  import opened Bytes

  type Url = Bytes

  /** The matched root, or that nothing matched. */
  type Answer = Option<Bytes>

  datatype Slot = Slot(owner: Option<nat>, answer: Option<Answer>)

  /** Where a thread is inside one lookup. */
  datatype Pc =
    | Idle
    | WantMap(url: Url)
    | InMap(url: Url)      // holds the map's lock
    | HasSlot(url: Url)    // has found or made the slot, still holds the map's lock
    | WantSlot(url: Url)   // has let go of the map
    | InSlot(url: Url)     // holds the slot's lock
    | Running(url: Url)    // holds the slot's lock, git is running
    | Dead

  /** `ran` and `told` are history: the runs that produced an answer, and the lookups that succeeded. */
  datatype State = State(mapOwner: Option<nat>, slots: map<Url, Slot>, threads: seq<Pc>,
                         ran: seq<(Url, Answer)>, told: seq<(Url, Answer)>)

  datatype Step =
    | Ask(me: nat, url: Url)
    | LockMap(me: nat)
    | FindSlot(me: nat)
    | UnlockMap(me: nat)
    | LockSlot(me: nat)
    | Recall(me: nat)
    | Run(me: nat)
    | Answered(me: nat, answer: Answer)
    | Failed(me: nat)
    | Panic(me: nat)

  predicate HoldsMap(pc: Pc) {
    pc.InMap? || pc.HasSlot?
  }

  predicate HoldsSlot(pc: Pc, url: Url) {
    (pc.InSlot? || pc.Running?) && pc.url == url
  }

  predicate Enabled(s: State, a: Step) {
    && a.me < |s.threads|
    && var pc := s.threads[a.me];
       match a
       case Ask(_, _) => pc.Idle?
       case LockMap(_) => pc.WantMap? && s.mapOwner == None
       case FindSlot(_) => pc.InMap?
       case UnlockMap(_) => pc.HasSlot?
       case LockSlot(_) => pc.WantSlot? && pc.url in s.slots && s.slots[pc.url].owner == None
       case Recall(_) => pc.InSlot? && pc.url in s.slots && s.slots[pc.url].answer.Some?
       case Run(_) => pc.InSlot? && pc.url in s.slots && s.slots[pc.url].answer.None?
       case Answered(_, _) => pc.Running? && pc.url in s.slots
       case Failed(_) => pc.Running? && pc.url in s.slots
       case Panic(_) => !pc.Dead? && ((pc.InSlot? || pc.Running?) ==> pc.url in s.slots)
  }

  function At(s: State, me: nat, pc: Pc): State
    requires me < |s.threads|
  {
    s.(threads := s.threads[me := pc])
  }

  function Release(slots: map<Url, Slot>, url: Url): map<Url, Slot>
    requires url in slots
  {
    slots[url := slots[url].(owner := None)]
  }

  function Apply(s: State, a: Step): State
    requires Enabled(s, a)
  {
    var me := a.me;
    var pc := s.threads[me];
    match a
    case Ask(_, url) => At(s, me, WantMap(url))
    case LockMap(_) => At(s, me, InMap(pc.url)).(mapOwner := Some(me))
    case FindSlot(_) =>
      At(s, me, HasSlot(pc.url)).(slots := if pc.url in s.slots then s.slots else s.slots[pc.url := Slot(None, None)])
    case UnlockMap(_) => At(s, me, WantSlot(pc.url)).(mapOwner := None)
    case LockSlot(_) => At(s, me, InSlot(pc.url)).(slots := s.slots[pc.url := s.slots[pc.url].(owner := Some(me))])
    case Recall(_) =>
      At(s, me, Idle).(slots := Release(s.slots, pc.url), told := s.told + [(pc.url, s.slots[pc.url].answer.value)])
    case Run(_) => At(s, me, Running(pc.url))
    case Answered(_, answer) =>
      At(s, me, Idle).(slots := s.slots[pc.url := Slot(None, Some(answer))],
                       ran := s.ran + [(pc.url, answer)], told := s.told + [(pc.url, answer)])
    case Failed(_) => At(s, me, Idle).(slots := Release(s.slots, pc.url))
    case Panic(_) =>
      At(s, me, Dead).(mapOwner := if HoldsMap(pc) then None else s.mapOwner,
                       slots := if pc.InSlot? || pc.Running? then Release(s.slots, pc.url) else s.slots)
  }

  // ---- The invariant ----

  /** The map's lock is held by exactly the thread that is inside. */
  predicate MapAgrees(s: State) {
    && (forall i :: 0 <= i < |s.threads| ==> (HoldsMap(s.threads[i]) <==> s.mapOwner == Some(i)))
    && (s.mapOwner.Some? ==> s.mapOwner.value < |s.threads|)
  }

  predicate OwnedBy(s: State, u: Url)
    requires u in s.slots
  {
    && (s.slots[u].owner.Some? ==> s.slots[u].owner.value < |s.threads|)
    && (forall i :: 0 <= i < |s.threads| ==> (HoldsSlot(s.threads[i], u) <==> s.slots[u].owner == Some(i)))
  }

  /** Each slot's lock is held by exactly the thread that is inside. */
  predicate SlotsAgree(s: State) {
    forall u :: u in s.slots ==> OwnedBy(s, u)
  }

  predicate SlotsExist(s: State) {
    forall i :: 0 <= i < |s.threads| ==>
      var pc := s.threads[i];
      pc.HasSlot? || pc.WantSlot? || pc.InSlot? || pc.Running? ==> pc.url in s.slots
  }

  function RunsFor(ran: seq<(Url, Answer)>, url: Url): nat {
    if ran == [] then 0
    else RunsFor(ran[..|ran| - 1], url) + if ran[|ran| - 1].0 == url then 1 else 0
  }

  /** A slot holds an answer exactly when one run has produced it, and that is the one. */
  ghost predicate RunsAgree(s: State) {
    && (forall u :: RunsFor(s.ran, u) == if u in s.slots && s.slots[u].answer.Some? then 1 else 0)
    && (forall k :: 0 <= k < |s.ran| ==> s.ran[k].0 in s.slots && s.slots[s.ran[k].0].answer == Some(s.ran[k].1))
  }

  predicate ToldAgrees(s: State) {
    forall k :: 0 <= k < |s.told| ==> s.told[k].0 in s.slots && s.slots[s.told[k].0].answer == Some(s.told[k].1)
  }

  /** Git only runs for a slot that has no answer. */
  predicate RunnersAgree(s: State) {
    forall i :: 0 <= i < |s.threads| && s.threads[i].Running? && s.threads[i].url in s.slots ==>
      s.slots[s.threads[i].url].answer == None
  }

  ghost predicate AnswersAgree(s: State) {
    RunsAgree(s) && ToldAgrees(s) && RunnersAgree(s)
  }

  ghost predicate Inv(s: State) {
    MapAgrees(s) && SlotsAgree(s) && SlotsExist(s) && AnswersAgree(s)
  }

  lemma {:induction false} RunsForMore(ran: seq<(Url, Answer)>, one: (Url, Answer), url: Url)
    ensures RunsFor(ran + [one], url) == RunsFor(ran, url) + if one.0 == url then 1 else 0
  {
    assert (ran + [one])[..|ran|] == ran;
  }

  lemma StepKeepsMapLock(s: State, a: Step)
    requires MapAgrees(s) && Enabled(s, a)
    ensures MapAgrees(Apply(s, a))
  {
  }

  lemma StepKeepsSlots(s: State, a: Step)
    requires SlotsExist(s) && Enabled(s, a)
    ensures SlotsExist(Apply(s, a))
    ensures forall u :: u in s.slots ==> u in Apply(s, a).slots
  {
  }

  lemma SameOwner(s: State, s': State, u: Url)
    requires u in s.slots && u in s'.slots && s'.slots[u].owner == s.slots[u].owner && |s'.threads| == |s.threads|
    requires forall i :: 0 <= i < |s.threads| ==> (HoldsSlot(s'.threads[i], u) <==> HoldsSlot(s.threads[i], u))
    requires OwnedBy(s, u)
    ensures OwnedBy(s', u)
  {
  }

  /** A step changes who is inside no slot but its own thread's. */
  lemma OtherSlotsStay(s: State, a: Step, u: Url)
    requires SlotsAgree(s) && SlotsExist(s) && Enabled(s, a) && u in s.slots
    requires (a.Ask? || s.threads[a.me].Idle? || s.threads[a.me].Dead? || s.threads[a.me].url != u)
    ensures OwnedBy(Apply(s, a), u)
  {
    var s' := Apply(s, a);
    assert !HoldsSlot(s.threads[a.me], u) && !HoldsSlot(s'.threads[a.me], u);
    SameOwner(s, s', u);
  }

  lemma OwnSlotAgrees(s: State, a: Step)
    requires SlotsAgree(s) && SlotsExist(s) && Enabled(s, a)
    requires !a.Ask? && !s.threads[a.me].Idle? && !s.threads[a.me].Dead?
    ensures s.threads[a.me].url in Apply(s, a).slots ==> OwnedBy(Apply(s, a), s.threads[a.me].url)
  {
    var u := s.threads[a.me].url;
    assert u in s.slots ==> OwnedBy(s, u);
    assert forall i :: 0 <= i < |s.threads| && i != a.me ==> Apply(s, a).threads[i] == s.threads[i];
  }

  lemma StepKeepsSlotLocks(s: State, a: Step)
    requires SlotsAgree(s) && SlotsExist(s) && Enabled(s, a)
    ensures SlotsAgree(Apply(s, a))
  {
    var s' := Apply(s, a);
    forall u | u in s'.slots ensures OwnedBy(s', u) {
      if a.Ask? || s.threads[a.me].Idle? || s.threads[a.me].Dead? || s.threads[a.me].url != u {
        OtherSlotsStay(s, a, u);
      } else {
        OwnSlotAgrees(s, a);
      }
    }
  }

  /** No two threads are inside one slot, and no answer exists while git runs for it. */
  lemma OnlyRunner(s: State, me: nat)
    requires Inv(s) && me < |s.threads| && s.threads[me].Running?
    ensures forall i :: 0 <= i < |s.threads| && i != me ==> !HoldsSlot(s.threads[i], s.threads[me].url)
    ensures forall k :: 0 <= k < |s.ran| ==> s.ran[k].0 != s.threads[me].url
    ensures forall k :: 0 <= k < |s.told| ==> s.told[k].0 != s.threads[me].url
  {
    var u := s.threads[me].url;
    assert OwnedBy(s, u) && HoldsSlot(s.threads[me], u);
  }

  /** What is in a slot only changes when git has answered for it. */
  lemma AnswersStay(s: State, a: Step)
    requires Inv(s) && Enabled(s, a) && !a.Answered?
    ensures Apply(s, a).ran == s.ran
    ensures forall u :: u in s.slots ==> u in Apply(s, a).slots && Apply(s, a).slots[u].answer == s.slots[u].answer
    ensures forall u :: u in Apply(s, a).slots && u !in s.slots ==> Apply(s, a).slots[u].answer == None
  {
  }

  lemma StayingAnswersAgree(s: State, a: Step)
    requires Inv(s) && Enabled(s, a) && !a.Answered?
    ensures RunsAgree(Apply(s, a)) && ToldAgrees(Apply(s, a))
  {
    AnswersStay(s, a);
  }

  lemma StayingRunnersAgree(s: State, a: Step)
    requires Inv(s) && Enabled(s, a) && !a.Answered?
    ensures RunnersAgree(Apply(s, a))
  {
    AnswersStay(s, a);
  }

  lemma AnswerAgrees(s: State, a: Step)
    requires Inv(s) && Enabled(s, a) && a.Answered?
    ensures AnswersAgree(Apply(s, a))
  {
    var s', url := Apply(s, a), s.threads[a.me].url;
    OnlyRunner(s, a.me);
    forall u ensures RunsFor(s'.ran, u) == if u in s'.slots && s'.slots[u].answer.Some? then 1 else 0 {
      RunsForMore(s.ran, (url, a.answer), u);
    }
    forall i | 0 <= i < |s'.threads| && s'.threads[i].Running? && s'.threads[i].url in s'.slots
      ensures s'.slots[s'.threads[i].url].answer == None
    {
      assert i != a.me && s'.threads[i] == s.threads[i] && HoldsSlot(s.threads[i], s.threads[i].url);
    }
  }

  lemma StepKeepsInv(s: State, a: Step)
    requires Inv(s) && Enabled(s, a)
    ensures Inv(Apply(s, a))
  {
    StepKeepsMapLock(s, a);
    StepKeepsSlots(s, a);
    StepKeepsSlotLocks(s, a);
    if a.Answered? {
      AnswerAgrees(s, a);
    } else {
      StayingAnswersAgree(s, a);
      StayingRunnersAgree(s, a);
    }
  }

  // ---- Every history ----

  predicate IsHistory(states: seq<State>, steps: seq<Step>) {
    && |states| == |steps| + 1
    && forall k :: 0 <= k < |steps| ==> Enabled(states[k], steps[k]) && states[k + 1] == Apply(states[k], steps[k])
  }

  predicate Starts(s: State) {
    s.mapOwner == None && s.slots == map[] && s.ran == [] && s.told == [] &&
    forall i :: 0 <= i < |s.threads| ==> s.threads[i].Idle?
  }

  lemma {:induction false} HistoryKeepsInv(states: seq<State>, steps: seq<Step>, k: nat)
    requires IsHistory(states, steps) && Starts(states[0]) && k < |states|
    ensures Inv(states[k])
    decreases k
  {
    if k > 0 {
      HistoryKeepsInv(states, steps, k - 1);
      StepKeepsInv(states[k - 1], steps[k - 1]);
    }
  }

  /** In every history each URL has at most one run that produced an answer, and every lookup that
      succeeded was told what that run produced. */
  lemma {:induction false} OneRunPerUrl(states: seq<State>, steps: seq<Step>, k: nat, url: Url)
    requires IsHistory(states, steps) && Starts(states[0]) && k < |states|
    ensures RunsFor(states[k].ran, url) <= 1
    ensures forall j :: 0 <= j < |states[k].told| ==> states[k].told[j] in states[k].ran
  {
    HistoryKeepsInv(states, steps, k);
    var s := states[k];
    forall j | 0 <= j < |s.told| ensures s.told[j] in s.ran {
      RunsMean(s.ran, s.told[j].0);
    }
  }

  lemma {:induction false} RunsMean(ran: seq<(Url, Answer)>, url: Url)
    ensures RunsFor(ran, url) > 0 <==> exists k :: 0 <= k < |ran| && ran[k].0 == url
  {
    if ran != [] {
      var front := ran[..|ran| - 1];
      RunsMean(front, url);
      if k :| 0 <= k < |ran| && ran[k].0 == url {
        assert k < |front| ==> front[k].0 == url;
      }
    }
  }

  predicate Remembers(s: State, url: Url, answer: Answer) {
    url in s.slots && s.slots[url].answer == Some(answer)
  }

  /** Git gave this answer in that step. */
  predicate Answers(s: State, a: Step, url: Url, answer: Answer) {
    Enabled(s, a) && a == Answered(a.me, answer) && s.threads[a.me].url == url
  }

  ghost predicate WasAnswered(states: seq<State>, steps: seq<Step>, k: nat, url: Url, answer: Answer)
    requires k < |states| == |steps| + 1
  {
    exists j :: 0 <= j < k && Answers(states[j], steps[j], url, answer)
  }

  /** A step makes the memo hold an answer only by being that answer, and makes it forget none. */
  lemma StepRemembers(s: State, a: Step, url: Url, answer: Answer)
    requires Inv(s) && Enabled(s, a)
    ensures Remembers(Apply(s, a), url, answer) <==> Remembers(s, url, answer) || Answers(s, a, url, answer)
  {
    if a.Answered? {
      OnlyRunner(s, a.me);
    } else {
      AnswersStay(s, a);
    }
  }

  lemma {:induction false} MemoHoldsWhatGitAnswered(states: seq<State>, steps: seq<Step>, k: nat, url: Url,
                                                    answer: Answer)
    requires IsHistory(states, steps) && Starts(states[0]) && k < |states|
    ensures Remembers(states[k], url, answer) <==> WasAnswered(states, steps, k, url, answer)
    decreases k
  {
    if k > 0 {
      MemoHoldsWhatGitAnswered(states, steps, k - 1, url, answer);
      HistoryKeepsInv(states, steps, k - 1);
      StepRemembers(states[k - 1], steps[k - 1], url, answer);
    }
  }

  /** Failures and panics are forgotten: in every history a thread that gets hold of a slot is told an answer
      if git has given one for that URL before, and runs git exactly if it has not, however often it failed. */
  lemma FailuresAreForgotten(states: seq<State>, steps: seq<Step>, k: nat, me: nat)
    requires IsHistory(states, steps) && Starts(states[0]) && k < |states|
    requires me < |states[k].threads| && states[k].threads[me].InSlot?
    ensures var url := states[k].threads[me].url;
            && (Enabled(states[k], Recall(me)) <==> exists answer :: WasAnswered(states, steps, k, url, answer))
            && (Enabled(states[k], Run(me)) <==> forall answer :: !WasAnswered(states, steps, k, url, answer))
  {
    var s := states[k];
    var url := s.threads[me].url;
    HistoryKeepsInv(states, steps, k);
    forall answer ensures Remembers(s, url, answer) <==> WasAnswered(states, steps, k, url, answer) {
      MemoHoldsWhatGitAnswered(states, steps, k, url, answer);
    }
    if s.slots[url].answer.Some? {
      assert Remembers(s, url, s.slots[url].answer.value);
    }
  }

  // ---- What lookups are told ----

  /** The last URL this thread has asked about before step `k`. */
  ghost predicate LastAsked(steps: seq<Step>, k: nat, me: nat, url: Url)
    requires k <= |steps|
  {
    exists j :: 0 <= j < k && steps[j] == Ask(me, url) && AskedNothingSince(steps, j + 1, k, me)
  }

  predicate AskedNothingSince(steps: seq<Step>, from: nat, k: nat, me: nat)
    requires k <= |steps|
  {
    forall i :: from <= i < k ==> !(steps[i].Ask? && steps[i].me == me)
  }

  /** A thread in the middle of a lookup is where its own last question took it. */
  lemma {:induction false} LookupsWereAsked(states: seq<State>, steps: seq<Step>, k: nat, me: nat)
    requires IsHistory(states, steps) && Starts(states[0]) && k < |states|
    requires me < |states[k].threads| && !states[k].threads[me].Idle? && !states[k].threads[me].Dead?
    ensures LastAsked(steps, k, me, states[k].threads[me].url)
    decreases k
  {
    if k > 0 {
      var s, a, url := states[k - 1], steps[k - 1], states[k].threads[me].url;
      assert Enabled(s, a) && states[k - 1 + 1] == Apply(s, a);
      if a == Ask(me, url) {
        assert AskedNothingSince(steps, k, k, me);
      } else {
        KeepsAsking(s, a, me);
        LookupsWereAsked(states, steps, k - 1, me);
        var j :| 0 <= j < k - 1 && steps[j] == Ask(me, url) && AskedNothingSince(steps, j + 1, k - 1, me);
        assert AskedNothingSince(steps, j + 1, k, me);
      }
    }
  }

  lemma KeepsAsking(s: State, a: Step, me: nat)
    requires Enabled(s, a) && me < |s.threads|
    requires var pc := Apply(s, a).threads[me]; !pc.Idle? && !pc.Dead? && a != Ask(me, pc.url)
    ensures var was, pc := s.threads[me], Apply(s, a).threads[me];
            !was.Idle? && !was.Dead? && was.url == pc.url && !(a.Ask? && a.me == me)
  {
  }

  /** What step `k` tells: the URL its thread asked about last, with an answer git gave for it. */
  ghost predicate Tells(states: seq<State>, steps: seq<Step>, k: nat, url: Url, answer: Answer)
    requires k < |steps| == |states| - 1
  {
    && states[k + 1].told == states[k].told + [(url, answer)]
    && LastAsked(steps, k, steps[k].me, url)
    && WasAnswered(states, steps, k + 1, url, answer)
  }

  /** In every history a lookup that ends is told exactly one thing: an answer git gave for the URL it asked
      about. Nothing else is told anything. */
  lemma LookupsAreToldWhatTheyAsked(states: seq<State>, steps: seq<Step>, k: nat)
    requires IsHistory(states, steps) && Starts(states[0]) && k < |steps|
    ensures if steps[k].Recall? || steps[k].Answered?
            then exists url, answer :: Tells(states, steps, k, url, answer)
            else states[k + 1].told == states[k].told
  {
    var s, a := states[k], steps[k];
    assert Enabled(s, a) && states[k + 1] == Apply(s, a);
    if a.Recall? || a.Answered? {
      var url := s.threads[a.me].url;
      var answer := if a.Answered? then a.answer else s.slots[url].answer.value;
      LookupsWereAsked(states, steps, k, a.me);
      ToldIsAnswered(states, steps, k, url, answer);
      assert Tells(states, steps, k, url, answer);
    }
  }

  lemma ToldIsAnswered(states: seq<State>, steps: seq<Step>, k: nat, url: Url, answer: Answer)
    requires IsHistory(states, steps) && Starts(states[0]) && k < |steps|
    requires Answers(states[k], steps[k], url, answer) || Remembers(states[k], url, answer)
    ensures WasAnswered(states, steps, k + 1, url, answer)
  {
    if !Answers(states[k], steps[k], url, answer) {
      MemoHoldsWhatGitAnswered(states, steps, k, url, answer);
    }
  }

  // ---- Nobody waits for long ----

  /** A step of its own that a thread can take without waiting for anyone. */
  ghost predicate CanMove(s: State, i: nat) {
    i < |s.threads| &&
    match s.threads[i]
    case Idle => true
    case WantMap(_) => Enabled(s, LockMap(i))
    case InMap(_) => Enabled(s, FindSlot(i))
    case HasSlot(_) => Enabled(s, UnlockMap(i))
    case WantSlot(_) => Enabled(s, LockSlot(i))
    case InSlot(_) => Enabled(s, Recall(i)) || Enabled(s, Run(i))
    case Running(_) => Enabled(s, Failed(i)) && forall answer :: Enabled(s, Answered(i, answer))
    case Dead => true
  }

  /** A thread that waits, waits for one that does not: for the map, a thread about to leave it; for a
      slot, a thread asking about the same URL. So there is no deadlock, and lookups of different URLs
      never wait for each other's git. */
  lemma WaitsAreShort(s: State, i: nat) returns (j: nat)
    requires Inv(s) && i < |s.threads| && !CanMove(s, i)
    ensures j < |s.threads| && CanMove(s, j)
    ensures s.threads[i].WantMap? ==> HoldsMap(s.threads[j])
    ensures s.threads[i].WantSlot? ==> HoldsSlot(s.threads[j], s.threads[i].url)
    ensures s.threads[i].WantMap? || s.threads[i].WantSlot?
  {
    match s.threads[i]
    case WantMap(_) => j := s.mapOwner.value;
    case WantSlot(u) =>
      assert OwnedBy(s, u);
      j := s.slots[u].owner.value;
  }
}
