/** The task queue of muduo/base/ThreadPool.cc with any number of submitting threads and workers.

    `stop` clears `running_` without the mutex, so a thread that holds the mutex may see the flag
    change between one look and the next. The critical sections of `run` and `take` are therefore cut
    into the steps between which `stop` can come. */
module ThreadPool {
  import opened Monitor

  type Task = int

  /** Where the holder of the mutex is: about to test the loop condition, about to wait, past the loop,
      or, having seen the pool running, about to push. */
  datatype Pc = Testing | Waiting | Past | Pushing

  datatype Holder = Nobody | Submitter(thread: Thread, task: Task, pc: Pc) | Worker(thread: Thread, pc: Pc)

  datatype State = State(
    limit: nat,                   // maxQueueSize_, where 0 means no limit
    running: bool,
    broadcast: bool,              // stop has gone through its critical section
    queue: seq<Task>,
    holder: Holder,
    pending: map<Thread, Task>,   // what each thread that waits inside `run` wants to submit
    asleepP: set<Thread>,         // on notFull_
    wokenP: set<Thread>,
    asleepW: set<Thread>,         // on notEmpty_
    wokenW: set<Thread>,
    entered: seq<Task>,           // every task that `run` was called with
    accepted: seq<Task>,
    refused: seq<Task>,           // those with which `run` returned without queueing them
    taken: seq<Task>)

  predicate IsFull(s: State) {
    |s.queue| >= s.limit && s.limit > 0
  }

  ghost predicate Init(s: State) {
    s == State(s.limit, true, false, [], Nobody, map[], {}, {}, {}, {}, [], [], [], [])
  }

  ghost predicate Outside(s: State, t: Thread) {
    t !in s.asleepP + s.wokenP + s.asleepW + s.wokenW && (s.holder == Nobody || s.holder.thread != t)
  }

  // ---------- stop ----------

  ghost predicate ClearFlag(s: State, s': State) {
    s' == s.(running := false)
  }

  ghost predicate Broadcast(s: State, s': State) {
    && !s.running && s.holder == Nobody
    && s' == s.(broadcast := true, asleepP := {}, wokenP := s.wokenP + s.asleepP,
                asleepW := {}, wokenW := s.wokenW + s.asleepW)
  }

  // ---------- run ----------

  ghost predicate EnterRun(s: State, s': State) {
    exists t, x :: s.holder == Nobody && Outside(s, t) &&
                   s' == s.(holder := Submitter(t, x, Testing), entered := s.entered + [x])
  }

  ghost predicate ResumeRun(s: State, s': State) {
    exists t :: s.holder == Nobody && t in s.wokenP && t in s.pending &&
                s' == s.(wokenP := s.wokenP - {t}, pending := s.pending - {t},
                         holder := Submitter(t, s.pending[t], Testing))
  }

  ghost predicate TestRun(s: State, s': State) {
    && s.holder.Submitter? && s.holder.pc == Testing
    && s' == s.(holder := Submitter(s.holder.thread, s.holder.task, if IsFull(s) && s.running then Waiting else Past))
  }

  ghost predicate SleepRun(s: State, s': State) {
    && s.holder.Submitter? && s.holder.pc == Waiting
    && s' == s.(holder := Nobody, asleepP := s.asleepP + {s.holder.thread},
                pending := s.pending[s.holder.thread := s.holder.task])
  }

  ghost predicate CheckRun(s: State, s': State) {
    && s.holder.Submitter? && s.holder.pc == Past
    && s' == if s.running then s.(holder := Submitter(s.holder.thread, s.holder.task, Pushing))
             else s.(holder := Nobody, refused := s.refused + [s.holder.task])
  }

  ghost predicate PushRun(s: State, s': State) {
    && s.holder.Submitter? && s.holder.pc == Pushing
    && Signalled(s.asleepW, s.wokenW, s'.asleepW, s'.wokenW)
    && s' == s.(holder := Nobody, queue := s.queue + [s.holder.task], accepted := s.accepted + [s.holder.task],
                asleepW := s'.asleepW, wokenW := s'.wokenW)
  }

  // ---------- take ----------

  ghost predicate EnterTake(s: State, s': State) {
    exists t :: s.holder == Nobody && Outside(s, t) && s' == s.(holder := Worker(t, Testing))
  }

  ghost predicate ResumeTake(s: State, s': State) {
    exists t :: s.holder == Nobody && t in s.wokenW && s' == s.(wokenW := s.wokenW - {t}, holder := Worker(t, Testing))
  }

  ghost predicate TestTake(s: State, s': State) {
    && s.holder.Worker? && s.holder.pc == Testing
    && s' == s.(holder := Worker(s.holder.thread, if s.queue == [] && s.running then Waiting else Past))
  }

  ghost predicate SleepTake(s: State, s': State) {
    && s.holder.Worker? && s.holder.pc == Waiting
    && s' == s.(holder := Nobody, asleepW := s.asleepW + {s.holder.thread})
  }

  /** A worker takes the front task if there is one. It signals nobody. */
  ghost predicate FinishTake(s: State, s': State) {
    && s.holder.Worker? && s.holder.pc == Past
    && s' == if s.queue == [] then s.(holder := Nobody)
             else s.(holder := Nobody, queue := s.queue[1..], taken := s.taken + [s.queue[0]])
  }

  ghost predicate Spurious(s: State, s': State) {
    || (exists t :: t in s.asleepP && s' == s.(asleepP := s.asleepP - {t}, wokenP := s.wokenP + {t}))
    || (exists t :: t in s.asleepW && s' == s.(asleepW := s.asleepW - {t}, wokenW := s.wokenW + {t}))
  }

  ghost predicate StopStep(s: State, s': State) {
    ClearFlag(s, s') || Broadcast(s, s')
  }

  ghost predicate RunStep(s: State, s': State) {
    EnterRun(s, s') || ResumeRun(s, s') || TestRun(s, s') || SleepRun(s, s') || CheckRun(s, s') || PushRun(s, s')
  }

  ghost predicate TakeStep(s: State, s': State) {
    EnterTake(s, s') || ResumeTake(s, s') || TestTake(s, s') || SleepTake(s, s') || FinishTake(s, s')
  }

  ghost predicate Next(s: State, s': State) {
    StopStep(s, s') || RunStep(s, s') || TakeStep(s, s') || Spurious(s, s')
  }

  ghost predicate Run(b: seq<State>) {
    |b| > 0 && Init(b[0]) && forall k :: 0 <= k < |b| - 1 ==> Next(b[k], b[k + 1])
  }

  // ---------- The invariant ----------

  ghost predicate Conserved(s: State) {
    && s.accepted == s.taken + s.queue
    && (s.limit > 0 ==> |s.queue| <= s.limit)
  }

  /** What the holder of the mutex has established at each point. */
  ghost predicate HolderKnows(s: State) {
    match s.holder
    case Nobody => true
    case Submitter(_, _, pc) =>
      && (pc == Past ==> !IsFull(s) || !s.running)
      && (pc == Pushing ==> !IsFull(s))
      && (pc == Waiting ==> IsFull(s))
    case Worker(_, pc) =>
      && pc != Pushing
      && (pc == Waiting ==> s.queue == [])
      && (pc == Past ==> s.queue != [] || !s.running)
  }

  /** Once `stop` has broadcast, nobody is asleep or about to be. */
  ghost predicate AwakeAfterStop(s: State) {
    s.broadcast ==>
      !s.running && s.asleepP == {} && s.asleepW == {} && (s.holder == Nobody || s.holder.pc != Waiting)
  }

  /** Somebody is awake for every task that a sleeping worker could take. */
  ghost predicate NoTaskMissed(s: State) {
    && s.asleepW !! s.wokenW
    && (s.asleepW != {} ==> |s.queue| <= |s.wokenW| + if s.holder.Worker? then 1 else 0)
    && (s.holder.Worker? ==> s.holder.thread !in s.asleepW + s.wokenW)
  }

  /** The task that the holder of the mutex is submitting. */
  ghost function Held(s: State): multiset<Task> {
    if s.holder.Submitter? then multiset{s.holder.task} else multiset{}
  }

  /** No task gets lost on its way into the queue, and none is turned away by a running pool. */
  ghost predicate Submitted(s: State) {
    && multiset(s.entered) == multiset(s.accepted) + multiset(s.refused) + Values(s.pending) + Held(s)
    && (s.refused != [] ==> !s.running)
  }

  /** Every thread inside is in one place, and those that wait in `run` wait with a task. */
  ghost predicate OnePlaceEach(s: State) {
    && s.asleepP + s.wokenP == s.pending.Keys && s.asleepP !! s.wokenP
    && (s.asleepP + s.wokenP !! s.asleepW + s.wokenW)
    && (s.holder.Submitter? ==> s.holder.thread !in s.asleepW + s.wokenW + s.asleepP + s.wokenP)
    && (s.holder.Worker? ==> s.holder.thread !in s.asleepP + s.wokenP)
  }

  ghost predicate Inv(s: State) {
    && Conserved(s)
    && HolderKnows(s)
    && AwakeAfterStop(s)
    && NoTaskMissed(s)
    && OnePlaceEach(s)
  }

  lemma StopKeepsInv(s: State, s': State)
    requires Inv(s) && StopStep(s, s')
    ensures Inv(s')
    ensures Submitted(s) ==> Submitted(s')
  {
  }

  lemma EnterKeeps(s: State, s': State)
    requires Inv(s) && EnterRun(s, s')
    ensures Inv(s')
    ensures Submitted(s) ==> Submitted(s')
  {
  }

  lemma TestKeeps(s: State, s': State)
    requires Inv(s) && (TestRun(s, s') || CheckRun(s, s'))
    ensures Inv(s')
    ensures Submitted(s) ==> Submitted(s')
  {
  }

  lemma ResumeKeeps(s: State, s': State)
    requires Inv(s) && ResumeRun(s, s')
    ensures Inv(s')
  {
    assert s'.asleepP + s'.wokenP == s.pending.Keys - {s'.holder.thread};
  }

  lemma SleepKeeps(s: State, s': State)
    requires Inv(s) && SleepRun(s, s')
    ensures Inv(s')
  {
    SleepKeepsPlaces(s, s');
  }

  lemma SleepKeepsPlaces(s: State, s': State)
    requires OnePlaceEach(s) && SleepRun(s, s')
    ensures OnePlaceEach(s')
  {
    assert s'.asleepP + s'.wokenP == s.pending.Keys + {s.holder.thread};
  }

  lemma SleepersSubmitted(s: State, s': State)
    requires Inv(s) && Submitted(s) && (ResumeRun(s, s') || SleepRun(s, s'))
    ensures Submitted(s')
  {
    if ResumeRun(s, s') {
      ValuesWithout(s.pending, s'.holder.thread);
    } else {
      ValuesWith(s.pending, s.holder.thread, s.holder.task);
    }
  }

  lemma PushKeeps(s: State, s': State)
    requires Inv(s) && PushRun(s, s')
    ensures Inv(s')
    ensures Submitted(s) ==> Submitted(s')
  {
    SignalCounts(s.asleepW, s.wokenW, s'.asleepW, s'.wokenW);
    assert s.taken + s.queue + [s.holder.task] == s.taken + (s.queue + [s.holder.task]);
  }

  lemma TakeKeeps(s: State, s': State)
    requires Inv(s) && TakeStep(s, s') && !FinishTake(s, s')
    ensures Inv(s')
    ensures Submitted(s) ==> Submitted(s')
  {
  }

  lemma FinishKeeps(s: State, s': State)
    requires Inv(s) && FinishTake(s, s')
    ensures Inv(s')
    ensures Submitted(s) ==> Submitted(s')
  {
    if s.queue != [] {
      assert s.taken + s.queue == s.taken + [s.queue[0]] + s.queue[1..];
    }
  }

  lemma SpuriousKeeps(s: State, s': State)
    requires Inv(s) && Spurious(s, s')
    ensures Inv(s')
    ensures Submitted(s) ==> Submitted(s')
  {
    if t :| t in s.asleepP && s' == s.(asleepP := s.asleepP - {t}, wokenP := s.wokenP + {t}) {
      SpuriousSubmitter(s, t);
    } else {
      var t :| t in s.asleepW && s' == s.(asleepW := s.asleepW - {t}, wokenW := s.wokenW + {t});
      SpuriousWorker(s, t);
    }
  }

  lemma SpuriousSubmitter(s: State, t: Thread)
    requires Inv(s) && t in s.asleepP
    ensures Inv(s.(asleepP := s.asleepP - {t}, wokenP := s.wokenP + {t}))
  {
    assert s.asleepP - {t} + (s.wokenP + {t}) == s.asleepP + s.wokenP;
  }

  lemma SpuriousWorker(s: State, t: Thread)
    requires Inv(s) && t in s.asleepW
    ensures Inv(s.(asleepW := s.asleepW - {t}, wokenW := s.wokenW + {t}))
  {
    WokenOne(s.asleepW, s.wokenW, t);
  }

  lemma NextKeepsInv(s: State, s': State)
    requires Inv(s) && Next(s, s')
    ensures Inv(s')
    ensures Submitted(s) ==> Submitted(s')
  {
    if PushRun(s, s') {
      PushKeeps(s, s');
    } else if FinishTake(s, s') {
      FinishKeeps(s, s');
    } else if ResumeRun(s, s') || SleepRun(s, s') {
      if ResumeRun(s, s') {
        ResumeKeeps(s, s');
      } else {
        SleepKeeps(s, s');
      }
      if Submitted(s) {
        SleepersSubmitted(s, s');
      }
    } else if EnterRun(s, s') {
      EnterKeeps(s, s');
    } else if RunStep(s, s') {
      TestKeeps(s, s');
    } else if TakeStep(s, s') {
      TakeKeeps(s, s');
    } else if StopStep(s, s') {
      StopKeepsInv(s, s');
    } else {
      SpuriousKeeps(s, s');
    }
  }

  lemma NextIsMonotone(s: State, s': State)
    requires Next(s, s')
    ensures s'.limit == s.limit && (s.broadcast ==> s'.broadcast)
  {
  }

  lemma {:induction false} RunKeepsInv(b: seq<State>, k: nat)
    requires Run(b) && k < |b|
    ensures Inv(b[k]) && Submitted(b[k]) && b[k].limit == b[0].limit
  {
    if k > 0 {
      RunKeepsInv(b, k - 1);
      assert Next(b[k - 1], b[k - 1 + 1]);
      NextKeepsInv(b[k - 1], b[k]);
      NextIsMonotone(b[k - 1], b[k]);
    }
  }

  // ---------- What the pool promises, over every run ----------

  /** Tasks are taken in the order in which they were accepted, none lost and none twice, and a positive
      limit is never exceeded. */
  lemma TasksConserved(b: seq<State>, k: nat)
    requires Run(b) && k < |b|
    ensures b[k].accepted == b[k].taken + b[k].queue
    ensures b[0].limit > 0 ==> |b[k].queue| <= b[0].limit
  {
    RunKeepsInv(b, k);
  }

  /** Every task submitted is accepted, refused, or still with its submitter, whatever the limit. */
  lemma TasksSubmitted(b: seq<State>, k: nat)
    requires Run(b) && k < |b|
    ensures multiset(b[k].entered) ==
            multiset(b[k].accepted) + multiset(b[k].refused) + Values(b[k].pending) + Held(b[k])
    ensures b[k].refused != [] ==> !b[k].running
  {
    RunKeepsInv(b, k);
  }

  /** The outcomes of a critical section of `run` by thread `t` with task `x`: it sleeps beside a full queue, is
      turned away by a stopped pool, or has appended its task. */
  ghost predicate SubmitSleeps(s: State, t: Thread, x: Task, s': State) {
    && 0 < s.limit <= |s.queue|
    && s' == s.(holder := Nobody, asleepP := s.asleepP + {t}, pending := s.pending[t := x])
  }

  ghost predicate SubmitRefused(s: State, x: Task, s': State) {
    !s.running && s' == s.(holder := Nobody, refused := s.refused + [x])
  }

  ghost predicate SubmitAccepted(s: State, x: Task, s': State) {
    && (s.limit == 0 || |s.queue| < s.limit)
    && (if s.asleepW == {} then s'.asleepW == {} else s'.asleepW < s.asleepW)
    && s'.wokenW == s.wokenW + (s.asleepW - s'.asleepW)
    && s' == s.(holder := Nobody, queue := s.queue + [x], accepted := s.accepted + [x],
                asleepW := s'.asleepW, wokenW := s'.wokenW)
  }

  /** Whatever `stop` does meanwhile, a submitter leaves the mutex with one of the three outcomes. */
  lemma SubmitterLeaves(s: State, s': State)
    requires Inv(s) && Next(s, s') && s.holder.Submitter? && !s'.holder.Submitter?
    ensures var Submitter(t, x, _) := s.holder;
            SubmitSleeps(s, t, x, s') || SubmitRefused(s, x, s') || SubmitAccepted(s, x, s')
  {
    assert SleepRun(s, s') || CheckRun(s, s') || PushRun(s, s');
    if PushRun(s, s') {
      PushAccepts(s, s');
    }
  }

  lemma PushAccepts(s: State, s': State)
    requires HolderKnows(s) && PushRun(s, s')
    ensures SubmitAccepted(s, s.holder.task, s')
  {
  }

  /** A worker leaves it asleep beside an empty queue, without a task when a stopped pool has none, or
      else with the front task. */
  lemma WorkerLeaves(s: State, s': State)
    requires Inv(s) && Next(s, s') && s.holder.Worker? && !s'.holder.Worker?
    ensures var t := s.holder.thread;
            || (s.queue == [] && s' == s.(holder := Nobody, asleepW := s.asleepW + {t}))
            || (s.queue == [] && !s.running && s' == s.(holder := Nobody))
            || (s.queue != [] && s'.taken == s.taken + [s.queue[0]] && [s.queue[0]] + s'.queue == s.queue &&
                s' == s.(holder := Nobody, queue := s'.queue, taken := s'.taken))
  {
  }

  /** No waiting thread is forgotten: it goes on waiting, with its task, or gets the mutex back. */
  lemma SubmittersStay(s: State, s': State, t: Thread)
    requires Inv(s) && Next(s, s') && t in s.pending
    ensures || (t in s'.pending && s'.pending[t] == s.pending[t])
            || s'.holder == Submitter(t, s.pending[t], Testing)
  {
    assert s.holder.Submitter? ==> s.holder.thread !in s.pending.Keys;
    PendingStays(s, s', t);
  }

  lemma PendingStays(s: State, s': State, t: Thread)
    requires s.holder.Submitter? ==> s.holder.thread != t
    requires Next(s, s') && t in s.pending
    ensures || (t in s'.pending && s'.pending[t] == s.pending[t])
            || s'.holder == Submitter(t, s.pending[t], Testing)
  {
  }

  lemma WorkersStay(s: State, s': State, t: Thread)
    requires Next(s, s') && t in s.asleepW + s.wokenW
    ensures t in s'.asleepW + s'.wokenW || s'.holder == Worker(t, Testing)
  {
    if PushRun(s, s') {
      assert s'.asleepW + s'.wokenW == s.asleepW + s.wokenW;
    } else if TakeStep(s, s') || Spurious(s, s') {
    } else if !Broadcast(s, s') {
      assert s'.asleepW == s.asleepW && s'.wokenW == s.wokenW;
    }
  }

  // ---------- What one thread can do alone ----------

  ghost predicate Leads(s: State, s': State) {
    exists b: seq<State> :: Path(b) && b[0] == s && b[|b| - 1] == s'
  }

  ghost predicate Path(b: seq<State>) {
    |b| > 0 && forall k :: 0 <= k < |b| - 1 ==> Next(b[k], b[k + 1])
  }

  lemma LeadsOn(s: State, m: State, s': State)
    requires s == m || Leads(s, m)
    requires Next(m, s')
    ensures Leads(s, s')
  {
    if s == m {
      assert Path([s, s']);
    } else {
      var b: seq<State> :| Path(b) && b[0] == s && b[|b| - 1] == m;
      var c := b + [s'];
      forall k | 0 <= k < |c| - 1 ensures Next(c[k], c[k + 1]) {
        assert k < |b| - 1 ==> Next(b[k], b[k + 1]);
      }
      assert Path(c);
    }
  }

  /** A call of `run` that nobody disturbs goes through: the task is queued when the running pool has room, its
      thread sleeps when there is none, and the stopped pool refuses it. */
  lemma SubmissionCompletes(s: State, t: Thread, x: Task) returns (s': State)
    requires s.holder == Nobody && Outside(s, t)
    ensures Leads(s, s')
    ensures var s0 := s.(entered := s.entered + [x]);
            if !s.running then SubmitRefused(s0, x, s')
            else if s.limit > 0 && |s.queue| >= s.limit then SubmitSleeps(s0, t, x, s')
            else SubmitAccepted(s0, x, s')
  {
    var s0 := s.(holder := Submitter(t, x, Testing), entered := s.entered + [x]);
    assert EnterRun(s, s0);
    LeadsOn(s, s, s0);
    s' := SubmitterGoes(s, s0);
  }

  /** So does the call of a submitter once it is woken. */
  lemma ResumptionCompletes(s: State, t: Thread) returns (s': State)
    requires Inv(s) && s.holder == Nobody && t in s.wokenP
    ensures Leads(s, s')
    ensures var s0, x := s.(wokenP := s.wokenP - {t}, pending := s.pending - {t}), s.pending[t];
            if !s.running then SubmitRefused(s0, x, s')
            else if s.limit > 0 && |s.queue| >= s.limit then SubmitSleeps(s0, t, x, s')
            else SubmitAccepted(s0, x, s')
  {
    var s0 := s.(wokenP := s.wokenP - {t}, pending := s.pending - {t}, holder := Submitter(t, s.pending[t], Testing));
    assert ResumeRun(s, s0);
    LeadsOn(s, s, s0);
    s' := SubmitterGoes(s, s0);
  }

  /** A worker that nobody disturbs, fresh or woken, gets the front task; without one it sleeps while the pool
      runs and returns empty-handed when it does not. */
  lemma TakeCompletes(s: State, t: Thread) returns (s': State)
    requires s.holder == Nobody && (Outside(s, t) || t in s.wokenW)
    ensures Leads(s, s')
    ensures var s0 := s.(wokenW := s.wokenW - {t});
            if s.queue != [] then
              s' == s0.(queue := s'.queue, taken := s.taken + [s.queue[0]]) && [s.queue[0]] + s'.queue == s.queue
            else if s.running then s' == s0.(asleepW := s.asleepW + {t})
            else s' == s0
  {
    var s0 := s.(wokenW := s.wokenW - {t}, holder := Worker(t, Testing));
    assert t !in s.wokenW ==> s.wokenW - {t} == s.wokenW;
    assert if t in s.wokenW then ResumeTake(s, s0) else EnterTake(s, s0);
    LeadsOn(s, s, s0);
    s' := WorkerGoes(s, s0);
  }

  lemma WorkerGoes(s: State, s0: State) returns (s': State)
    requires Leads(s, s0) && s0.holder.Worker? && s0.holder.pc == Testing
    ensures Leads(s, s')
    ensures var s1, t := s0.(holder := Nobody), s0.holder.thread;
            if s0.queue != [] then
              s' == s1.(queue := s'.queue, taken := s0.taken + [s0.queue[0]]) && [s0.queue[0]] + s'.queue == s0.queue
            else if s0.running then s' == s1.(asleepW := s0.asleepW + {t})
            else s' == s1
  {
    var t := s0.holder.thread;
    var s1 := s0.(holder := Worker(t, if s0.queue == [] && s0.running then Waiting else Past));
    assert TestTake(s0, s1);
    LeadsOn(s, s0, s1);
    s' := if s1.holder.pc == Waiting then s1.(holder := Nobody, asleepW := s0.asleepW + {t})
          else if s0.queue == [] then s1.(holder := Nobody)
          else s1.(holder := Nobody, queue := s0.queue[1..], taken := s0.taken + [s0.queue[0]]);
    assert if s1.holder.pc == Waiting then SleepTake(s1, s') else FinishTake(s1, s');
    LeadsOn(s, s1, s');
  }

  /** The flag may be cleared at any moment, and any sleeper may wake without cause. */
  lemma AnyMoment(s: State, t: Thread)
    ensures Next(s, s.(running := false))
    ensures t in s.asleepP ==> Next(s, s.(asleepP := s.asleepP - {t}, wokenP := s.wokenP + {t}))
    ensures t in s.asleepW ==> Next(s, s.(asleepW := s.asleepW - {t}, wokenW := s.wokenW + {t}))
  {
  }

  /** `stop` clears the flag and, once the mutex is free, wakes everybody. */
  lemma StopCompletes(s: State)
    requires s.holder == Nobody
    ensures Leads(s, s.(running := false, broadcast := true, asleepP := {}, wokenP := s.wokenP + s.asleepP,
                        asleepW := {}, wokenW := s.wokenW + s.asleepW))
  {
    var s0 := s.(running := false);
    var s' := s0.(broadcast := true, asleepP := {}, wokenP := s.wokenP + s.asleepP,
                  asleepW := {}, wokenW := s.wokenW + s.asleepW);
    assert ClearFlag(s, s0) && Broadcast(s0, s');
    LeadsOn(s, s, s0);
    LeadsOn(s, s0, s');
  }

  lemma SubmitterGoes(s: State, s0: State) returns (s': State)
    requires Leads(s, s0) && s0.holder.Submitter? && s0.holder.pc == Testing
    ensures Leads(s, s')
    ensures var Submitter(t, x, _) := s0.holder;
            if !s0.running then SubmitRefused(s0, x, s')
            else if s0.limit > 0 && |s0.queue| >= s0.limit then SubmitSleeps(s0, t, x, s')
            else SubmitAccepted(s0, x, s')
  {
    var Submitter(t, x, _) := s0.holder;
    var s1 := s0.(holder := Submitter(t, x, if IsFull(s0) && s0.running then Waiting else Past));
    assert TestRun(s0, s1);
    LeadsOn(s, s0, s1);
    if s1.holder.pc == Waiting {
      s' := s1.(holder := Nobody, asleepP := s1.asleepP + {t}, pending := s1.pending[t := x]);
      assert SleepRun(s1, s');
    } else if !s1.running {
      s' := s1.(holder := Nobody, refused := s1.refused + [x]);
      assert CheckRun(s1, s');
    } else {
      var s2 := s1.(holder := Submitter(t, x, Pushing));
      assert CheckRun(s1, s2);
      LeadsOn(s, s1, s2);
      s1, s' := s2, s2.(holder := Nobody, queue := s2.queue + [x], accepted := s2.accepted + [x],
                        asleepW := {}, wokenW := s2.wokenW + s2.asleepW);
      assert s2.asleepW - {} == s2.asleepW;
      assert PushRun(s2, s');
    }
    LeadsOn(s, s1, s');
  }

  /** The assertion before the push in `run` never fails, whenever `stop` comes. */
  lemma PushFindsRoom(b: seq<State>, k: nat)
    requires Run(b) && k < |b| && b[k].holder.Submitter? && b[k].holder.pc == Pushing
    ensures !IsFull(b[k])
  {
    RunKeepsInv(b, k);
  }

  lemma {:induction false} BroadcastStays(b: seq<State>, j: nat, k: nat)
    requires Run(b) && j <= k < |b| && b[j].broadcast
    ensures b[k].broadcast
  {
    if j < k {
      BroadcastStays(b, j, k - 1);
      assert Next(b[k - 1], b[k - 1 + 1]);
      NextIsMonotone(b[k - 1], b[k]);
    }
  }

  /** From the broadcast of `stop` on, no submitter and no worker is asleep, and none will ever sleep. */
  lemma NobodySleepsAfterStop(b: seq<State>, j: nat, k: nat)
    requires Run(b) && j <= k < |b| && b[j].broadcast
    ensures b[k].asleepP == {} && b[k].asleepW == {} && (b[k].holder == Nobody || b[k].holder.pc != Waiting)
  {
    BroadcastStays(b, j, k);
    RunKeepsInv(b, k);
  }

  /** While a worker sleeps and the mutex is free, every queued task has a woken worker to take it. */
  lemma NoLostTask(b: seq<State>, k: nat)
    requires Run(b) && k < |b| && b[k].asleepW != {} && b[k].holder == Nobody
    ensures |b[k].queue| <= |b[k].wokenW|
  {
    RunKeepsInv(b, k);
  }

  // ---------- Submitters are not woken by workers ----------

  ghost predicate Reachable(s: State) {
    exists b: seq<State> :: Run(b) && b[|b| - 1] == s
  }

  lemma ReachableOn(s: State, s': State)
    requires Reachable(s) && Next(s, s')
    ensures Reachable(s')
  {
    var b: seq<State> :| Run(b) && b[|b| - 1] == s;
    var c := b + [s'];
    forall k | 0 <= k < |c| - 1 ensures Next(c[k], c[k + 1]) {
      if k < |b| - 1 {
        assert Next(b[k], b[k + 1]);
      }
    }
    assert Run(c) && c[|c| - 1] == s';
  }

  /** A submitter asleep although the running pool has room, with nobody on the way to wake it. */
  ghost predicate Stranded(s: State) {
    s.running && s.asleepP != {} && s.wokenP == {} && s.holder == Nobody && !IsFull(s)
  }

  /** The idle pool with `n` tasks queued and nobody inside. */
  ghost function Loaded(limit: nat, n: nat): State {
    State(limit, true, false, Zeros(n), Nobody, map[], {}, {}, {}, {}, Zeros(n), Zeros(n), [], [])
  }

  function Zeros(n: nat): seq<Task> {
    seq(n, _ => 0)
  }

  lemma {:induction false} LoadedIsReachable(limit: nat, n: nat)
    requires n <= limit
    ensures Reachable(Loaded(limit, n))
  {
    if n == 0 {
      var s := Loaded(limit, 0);
      assert s.queue == [] && s.accepted == [];
      assert Run([s]) && [s][|[s]| - 1] == s;
    } else {
      LoadedIsReachable(limit, n - 1);
      var s := Loaded(limit, n - 1);
      var s1 := s.(holder := Submitter(1, 0, Testing), entered := s.entered + [0]);
      var s2 := s1.(holder := Submitter(1, 0, Past));
      var s3 := s1.(holder := Submitter(1, 0, Pushing));
      assert Zeros(n - 1) + [0] == Zeros(n);
      assert Outside(s, 1) && EnterRun(s, s1);
      ReachableOn(s, s1);
      assert TestRun(s1, s2);
      ReachableOn(s1, s2);
      assert CheckRun(s2, s3);
      ReachableOn(s2, s3);
      assert PushRun(s3, Loaded(limit, n));
      ReachableOn(s3, Loaded(limit, n));
    }
  }

  lemma StrandingRun(limit: nat)
    requires limit > 0
    ensures exists s :: Reachable(s) && s.limit == limit && Stranded(s)
  {
    LoadedIsReachable(limit, limit);
    var s := Loaded(limit, limit);
    var s1 := s.(holder := Submitter(1, 0, Testing), entered := s.entered + [0]);
    var s2 := s1.(holder := Submitter(1, 0, Waiting));
    var s3 := s1.(holder := Nobody, asleepP := {1}, pending := map[1 := 0]);
    assert Outside(s, 1) && EnterRun(s, s1);
    ReachableOn(s, s1);
    assert TestRun(s1, s2);
    ReachableOn(s1, s2);
    assert SleepRun(s2, s3);
    ReachableOn(s2, s3);
    var s4 := s3.(holder := Worker(2, Testing));
    var s5 := s3.(holder := Worker(2, Past));
    var s6 := s3.(queue := s.queue[1..], taken := [s.queue[0]]);
    assert Outside(s3, 2) && EnterTake(s3, s4);
    ReachableOn(s3, s4);
    assert TestTake(s4, s5);
    ReachableOn(s4, s5);
    assert s3.taken + [s.queue[0]] == s6.taken;
    assert FinishTake(s5, s6);
    ReachableOn(s5, s6);
    assert Stranded(s6);
  }

  lemma {:induction false} NeverSleepsWithoutLimit(b: seq<State>, k: nat)
    requires Run(b) && k < |b| && b[0].limit == 0
    ensures b[k].asleepP == {} && b[k].limit == 0 && (b[k].holder.Submitter? ==> b[k].holder.pc != Waiting)
  {
    if k > 0 {
      NeverSleepsWithoutLimit(b, k - 1);
      assert Next(b[k - 1], b[k - 1 + 1]);
    }
  }

  /** A submitter can be left asleep beside a free slot exactly when the pool has a limit: `take` never
      signals `notFull_`. */
  lemma StrandedOnlyWithLimit(limit: nat)
    ensures (exists s :: Reachable(s) && s.limit == limit && Stranded(s)) <==> limit > 0
  {
    if limit > 0 {
      StrandingRun(limit);
    } else if s :| Reachable(s) && s.limit == limit && Stranded(s) {
      var b: seq<State> :| Run(b) && b[|b| - 1] == s;
      RunKeepsInv(b, |b| - 1);
      NeverSleepsWithoutLimit(b, |b| - 1);
    }
  }
}
