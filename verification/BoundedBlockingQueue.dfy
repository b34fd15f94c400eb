/** The two-condition monitor of muduo/base/BoundedBlockingQueue.h with any number of producers and
    consumers.

    `put` and `take` hold the mutex from one end to the other except while they wait, so each stretch
    between acquiring the mutex and releasing it is one step. A thread that was woken competes for the
    mutex with threads that have just arrived, and may be overtaken by them. */
module BoundedBlockingQueue {
  import opened Monitor

  datatype State = State(
    capacity: nat,
    queue: seq<int>,
    item: map<Thread, int>,       // what each producer that waits inside `put` wants to put
    asleepP: set<Thread>,         // on notFull_
    wokenP: set<Thread>,
    asleepC: set<Thread>,         // on notEmpty_
    wokenC: set<Thread>,
    entered: seq<int>,            // everything that `put` was called with
    puts: seq<int>,               // everything put so far, in order
    takes: seq<int>)              // everything taken so far, in order

  ghost predicate Init(s: State) {
    s == State(s.capacity, [], map[], {}, {}, {}, {}, [], [], [])
  }

  ghost predicate Outside(s: State, t: Thread) {
    t !in s.asleepP + s.wokenP + s.asleepC + s.wokenC
  }

  /** `put` from the moment it has the mutex: wait while the queue is full, else push and signal. */
  ghost predicate Put(s: State, s': State, t: Thread, x: int) {
    if |s.queue| == s.capacity then
      s' == s.(asleepP := s.asleepP + {t}, item := s.item[t := x])
    else
      && Signalled(s.asleepC, s.wokenC, s'.asleepC, s'.wokenC)
      && s' == s.(queue := s.queue + [x], puts := s.puts + [x], asleepC := s'.asleepC, wokenC := s'.wokenC)
  }

  ghost predicate Take(s: State, s': State, t: Thread) {
    if s.queue == [] then
      s' == s.(asleepC := s.asleepC + {t})
    else
      && Signalled(s.asleepP, s.wokenP, s'.asleepP, s'.wokenP)
      && s' == s.(queue := s.queue[1..], takes := s.takes + [s.queue[0]], asleepP := s'.asleepP, wokenP := s'.wokenP)
  }

  ghost predicate EnterPut(s: State, s': State) {
    exists t, x :: Outside(s, t) && Put(s.(entered := s.entered + [x]), s', t, x)
  }

  /** A woken producer has the mutex back. */
  function Awake(s: State, t: Thread): State {
    s.(wokenP := s.wokenP - {t}, item := s.item - {t})
  }

  ghost predicate ResumePut(s: State, s': State) {
    exists t :: t in s.wokenP && t in s.item && Put(Awake(s, t), s', t, s.item[t])
  }

  ghost predicate EnterTake(s: State, s': State) {
    exists t :: Outside(s, t) && Take(s, s', t)
  }

  ghost predicate ResumeTake(s: State, s': State) {
    exists t :: t in s.wokenC && Take(s.(wokenC := s.wokenC - {t}), s', t)
  }

  ghost predicate Spurious(s: State, s': State) {
    || (exists t :: t in s.asleepP && s' == s.(asleepP := s.asleepP - {t}, wokenP := s.wokenP + {t}))
    || (exists t :: t in s.asleepC && s' == s.(asleepC := s.asleepC - {t}, wokenC := s.wokenC + {t}))
  }

  ghost predicate Next(s: State, s': State) {
    EnterPut(s, s') || ResumePut(s, s') || EnterTake(s, s') || ResumeTake(s, s') || Spurious(s, s')
  }

  ghost predicate Run(b: seq<State>) {
    |b| > 0 && Init(b[0]) && forall k :: 0 <= k < |b| - 1 ==> Next(b[k], b[k + 1])
  }

  // ---------- The invariant ----------

  ghost predicate Apart(s: State) {
    s.asleepP !! s.wokenP && s.asleepC !! s.wokenC && s.asleepP + s.wokenP !! s.asleepC + s.wokenC
  }

  /** Nobody sleeps through an opportunity: for every item that a sleeping consumer could take, and every
      slot that a sleeping producer could fill, another thread is awake to do it. */
  ghost predicate NoOpportunityMissed(s: State) {
    && (s.asleepC != {} ==> |s.queue| <= |s.wokenC|)
    && (s.asleepP != {} ==> s.capacity - |s.queue| <= |s.wokenP|)
  }

  ghost predicate Inv(s: State) {
    && |s.queue| <= s.capacity
    && s.puts == s.takes + s.queue
    && Apart(s)
    && s.asleepP + s.wokenP == s.item.Keys
    && NoOpportunityMissed(s)
  }

  /** No item gets lost on its way into the queue. */
  ghost predicate Entered(s: State) {
    multiset(s.entered) == multiset(s.puts) + Values(s.item)
  }

  /** What `Put` needs of the state in which thread `t` holds the mutex. */
  ghost predicate PutReady(s: State, t: Thread) {
    && Outside(s, t) && Apart(s) && s.asleepP + s.wokenP == s.item.Keys
    && |s.queue| <= s.capacity && s.puts == s.takes + s.queue
    && (s.asleepC != {} ==> |s.queue| <= |s.wokenC|)
    && (s.asleepP != {} ==> s.capacity - |s.queue| <= |s.wokenP| + 1)
  }

  lemma PutKeepsInv(s: State, s': State, t: Thread, x: int)
    requires PutReady(s, t) && Put(s, s', t, x)
    ensures Inv(s') && s'.capacity == s.capacity
    ensures multiset(s.entered) == multiset(s.puts) + Values(s.item) + multiset{x} ==> Entered(s')
  {
    if |s.queue| == s.capacity {
      WaitKeepsInv(s, s', t, x);
      ValuesWith(s.item, t, x);
    } else {
      SignalCounts(s.asleepC, s.wokenC, s'.asleepC, s'.wokenC);
      assert s.takes + s.queue + [x] == s.takes + (s.queue + [x]);
    }
  }

  lemma WaitKeepsInv(s: State, s': State, t: Thread, x: int)
    requires PutReady(s, t) && |s.queue| == s.capacity
    requires s' == s.(asleepP := s.asleepP + {t}, item := s.item[t := x])
    ensures Inv(s')
  {
    KeysWith(s.asleepP, s.wokenP, s.item, t, x);
  }

  lemma AwakeIsReady(s: State, t: Thread)
    requires Inv(s) && t in s.wokenP
    ensures PutReady(Awake(s, t), t)
  {
    KeysWithout(s.asleepP, s.wokenP, s.item, t);
    assert |s.wokenP - {t}| + 1 == |s.wokenP|;
  }

  lemma AwakeBringsItem(s: State, t: Thread)
    requires Entered(s) && t in s.item
    ensures multiset(s.entered) == multiset(s.puts) + Values(Awake(s, t).item) + multiset{s.item[t]}
  {
    ValuesWithout(s.item, t);
  }

  lemma KeysWithout(asleep: set<Thread>, woken: set<Thread>, item: map<Thread, int>, t: Thread)
    requires asleep !! woken && asleep + woken == item.Keys && t in woken
    ensures asleep + (woken - {t}) == (item - {t}).Keys
  {
    assert (item - {t}).Keys == item.Keys - {t};
  }

  lemma KeysWith(asleep: set<Thread>, woken: set<Thread>, item: map<Thread, int>, t: Thread, x: int)
    requires asleep + woken == item.Keys
    ensures (asleep + {t}) + woken == item[t := x].Keys
  {
    assert item[t := x].Keys == item.Keys + {t};
  }

  lemma TakeKeepsInv(s: State, s': State, t: Thread)
    requires Outside(s, t) && Apart(s) && s.asleepP + s.wokenP == s.item.Keys
    requires |s.queue| <= s.capacity && s.puts == s.takes + s.queue
    requires s.asleepC != {} ==> |s.queue| <= |s.wokenC| + 1
    requires s.asleepP != {} ==> s.capacity - |s.queue| <= |s.wokenP|
    requires Take(s, s', t)
    ensures Inv(s')
    ensures Entered(s) ==> Entered(s')
  {
    if s.queue != [] {
      SignalCounts(s.asleepP, s.wokenP, s'.asleepP, s'.wokenP);
      assert s.takes + s.queue == s.takes + [s.queue[0]] + s.queue[1..];
    }
  }

  lemma ResumePutKeepsInv(s: State, s': State)
    requires Inv(s) && ResumePut(s, s')
    ensures Inv(s') && s'.capacity == s.capacity
    ensures Entered(s) ==> Entered(s')
  {
    var t :| t in s.wokenP && t in s.item && Put(Awake(s, t), s', t, s.item[t]);
    AwakeIsReady(s, t);
    if Entered(s) {
      AwakeBringsItem(s, t);
    }
    PutKeepsInv(Awake(s, t), s', t, s.item[t]);
  }

  lemma ResumeTakeKeepsInv(s: State, s': State)
    requires Inv(s) && ResumeTake(s, s')
    ensures Inv(s') && s'.capacity == s.capacity
    ensures Entered(s) ==> Entered(s')
  {
    var t :| t in s.wokenC && Take(s.(wokenC := s.wokenC - {t}), s', t);
    TakeKeepsInv(s.(wokenC := s.wokenC - {t}), s', t);
  }

  lemma SpuriousKeepsInv(s: State, s': State)
    requires Inv(s) && Spurious(s, s')
    ensures Inv(s') && s'.capacity == s.capacity
    ensures Entered(s) ==> Entered(s')
  {
    if t :| t in s.asleepP && s' == s.(asleepP := s.asleepP - {t}, wokenP := s.wokenP + {t}) {
      WokenOne(s.asleepP, s.wokenP, t);
    } else {
      var t :| t in s.asleepC && s' == s.(asleepC := s.asleepC - {t}, wokenC := s.wokenC + {t});
      WokenOne(s.asleepC, s.wokenC, t);
    }
  }

  lemma NextKeepsInv(s: State, s': State)
    requires Inv(s) && Next(s, s')
    ensures Inv(s') && s'.capacity == s.capacity
    ensures Entered(s) ==> Entered(s')
  {
    if ResumePut(s, s') {
      ResumePutKeepsInv(s, s');
    } else if ResumeTake(s, s') {
      ResumeTakeKeepsInv(s, s');
    } else if Spurious(s, s') {
      SpuriousKeepsInv(s, s');
    } else if EnterPut(s, s') {
      var t, x :| Outside(s, t) && Put(s.(entered := s.entered + [x]), s', t, x);
      PutKeepsInv(s.(entered := s.entered + [x]), s', t, x);
    } else {
      var t :| Outside(s, t) && Take(s, s', t);
      TakeKeepsInv(s, s', t);
    }
  }

  lemma {:induction false} RunKeepsInv(b: seq<State>, k: nat)
    requires Run(b) && k < |b|
    ensures Inv(b[k]) && Entered(b[k]) && b[k].capacity == b[0].capacity
  {
    if k > 0 {
      RunKeepsInv(b, k - 1);
      assert Next(b[k - 1], b[k - 1 + 1]);
      NextKeepsInv(b[k - 1], b[k]);
    }
  }

  // ---------- What the queue promises, over every run ----------

  /** Takes come out in put order, none lost and none twice, and the size stays within capacity. */
  lemma FirstInFirstOut(b: seq<State>, k: nat)
    requires Run(b) && k < |b|
    ensures b[k].takes + b[k].queue == b[k].puts && |b[k].queue| <= b[0].capacity
  {
    RunKeepsInv(b, k);
  }

  /** Every item that `put` was called with has been put or is still with its producer, which waits. */
  lemma ItemsConserved(b: seq<State>, k: nat)
    requires Run(b) && k < |b|
    ensures multiset(b[k].entered) == multiset(b[k].puts) + Values(b[k].item)
    ensures b[k].item.Keys == b[k].asleepP + b[k].wokenP
  {
    RunKeepsInv(b, k);
  }

  /** The next step of some woken consumer takes the item at the front. */
  ghost predicate SomeoneTakes(s: State) {
    s.queue != [] &&
    exists t, s' :: t in s.wokenC && Take(s.(wokenC := s.wokenC - {t}), s', t) && s'.takes == s.takes + [s.queue[0]]
  }

  /** The next step of some woken producer puts its item. */
  ghost predicate SomeonePuts(s: State) {
    exists t, s' :: t in s.wokenP && t in s.item && Put(Awake(s, t), s', t, s.item[t]) &&
                    s'.puts == s.puts + [s.item[t]]
  }

  /** A consumer that sleeps although there is an item, or a producer that sleeps although there is a slot,
      is never left to itself: some thread of its kind is awake, and its next step uses the opportunity. */
  lemma NoLostWakeup(b: seq<State>, k: nat)
    requires Run(b) && k < |b|
    ensures b[k].asleepC != {} && b[k].queue != [] ==> SomeoneTakes(b[k])
    ensures b[k].asleepP != {} && |b[k].queue| < b[k].capacity ==> SomeonePuts(b[k])
  {
    RunKeepsInv(b, k);
    var s := b[k];
    if s.asleepC != {} && s.queue != [] {
      var t :| t in s.wokenC;
      TakeIsPossible(s, t);
    }
    if s.asleepP != {} && |s.queue| < s.capacity {
      var t :| t in s.wokenP;
      PutIsPossible(s, t);
    }
  }

  lemma TakeIsPossible(s: State, t: Thread)
    requires s.queue != [] && t in s.wokenC
    ensures SomeoneTakes(s)
  {
    var held := s.(wokenC := s.wokenC - {t});
    var s' := held.(queue := s.queue[1..], takes := s.takes + [s.queue[0]],
                    asleepP := {}, wokenP := s.wokenP + s.asleepP);
    assert Take(held, s', t);
  }

  lemma PutIsPossible(s: State, t: Thread)
    requires |s.queue| < s.capacity && t in s.wokenP && t in s.item
    ensures SomeonePuts(s)
  {
    var held := Awake(s, t);
    var s' := held.(queue := s.queue + [s.item[t]], puts := s.puts + [s.item[t]],
                    asleepC := {}, wokenC := s.wokenC + s.asleepC);
    assert Put(held, s', t, s.item[t]);
  }

  // ---------- One call ----------

  /** A producer that gets the mutex, on its arrival or after a wait, puts its item exactly when there is room, and
      then wakes a consumer if one sleeps; otherwise it waits with its item. `s` is the state while it holds it. */
  ghost predicate PutDone(s: State, s': State, t: Thread, x: int) {
    if |s.queue| < s.capacity then
      && s'.queue == s.queue + [x] && s'.puts == s.puts + [x]
      && (if s.asleepC == {} then s'.asleepC == {} else s'.asleepC < s.asleepC)
      && s'.wokenC == s.wokenC + (s.asleepC - s'.asleepC)
      && s' == s.(queue := s'.queue, puts := s'.puts, asleepC := s'.asleepC, wokenC := s'.wokenC)
    else s' == s.(asleepP := s.asleepP + {t}, item := s.item[t := x])
  }

  /** A consumer takes the front item exactly when there is one, and then wakes a producer if one sleeps. */
  ghost predicate TakeDone(s: State, s': State, t: Thread) {
    if s.queue != [] then
      && [s.queue[0]] + s'.queue == s.queue && s'.takes == s.takes + [s.queue[0]]
      && (if s.asleepP == {} then s'.asleepP == {} else s'.asleepP < s.asleepP)
      && s'.wokenP == s.wokenP + (s.asleepP - s'.asleepP)
      && s' == s.(queue := s'.queue, takes := s'.takes, asleepP := s'.asleepP, wokenP := s'.wokenP)
    else s' == s.(asleepC := s.asleepC + {t})
  }

  lemma PutMeans(s: State, s': State, t: Thread, x: int)
    requires |s.queue| <= s.capacity && Put(s, s', t, x)
    ensures PutDone(s, s', t, x)
  {
  }

  lemma TakeMeans(s: State, s': State, t: Thread)
    requires Take(s, s', t)
    ensures TakeDone(s, s', t)
  {
  }

  ghost predicate IsPut(s: State, s': State) {
    || (exists t, x :: Outside(s, t) && PutDone(s.(entered := s.entered + [x]), s', t, x))
    || (exists t :: t in s.wokenP && t in s.item && PutDone(Awake(s, t), s', t, s.item[t]))
  }

  ghost predicate IsTake(s: State, s': State) {
    || (exists t :: Outside(s, t) && TakeDone(s, s', t))
    || (exists t :: t in s.wokenC && TakeDone(s.(wokenC := s.wokenC - {t}), s', t))
  }

  /** Nothing happens but these, on arrival or after a wait, and wakeups without cause. */
  lemma OnlyCalls(s: State, s': State)
    requires Inv(s) && Next(s, s')
    ensures || IsPut(s, s') || IsTake(s, s')
            || (exists t :: t in s.asleepP && s' == s.(asleepP := s.asleepP - {t}, wokenP := s.wokenP + {t}))
            || (exists t :: t in s.asleepC && s' == s.(asleepC := s.asleepC - {t}, wokenC := s.wokenC + {t}))
  {
    if EnterPut(s, s') {
      var t, x :| Outside(s, t) && Put(s.(entered := s.entered + [x]), s', t, x);
      PutMeans(s.(entered := s.entered + [x]), s', t, x);
    } else if ResumePut(s, s') {
      var t :| t in s.wokenP && t in s.item && Put(Awake(s, t), s', t, s.item[t]);
      PutMeans(Awake(s, t), s', t, s.item[t]);
    } else if EnterTake(s, s') {
      var t :| Outside(s, t) && Take(s, s', t);
      TakeMeans(s, s', t);
    } else if ResumeTake(s, s') {
      var t :| t in s.wokenC && Take(s.(wokenC := s.wokenC - {t}), s', t);
      TakeMeans(s.(wokenC := s.wokenC - {t}), s', t);
    }
  }

  lemma SomePut(s: State, t: Thread, x: int) returns (s': State)
    ensures Put(s, s', t, x)
  {
    if |s.queue| == s.capacity {
      s' := s.(asleepP := s.asleepP + {t}, item := s.item[t := x]);
    } else {
      s' := s.(queue := s.queue + [x], puts := s.puts + [x], asleepC := {}, wokenC := s.wokenC + s.asleepC);
      assert s.asleepC - {} == s.asleepC;
    }
  }

  lemma SomeTake(s: State, t: Thread) returns (s': State)
    ensures Take(s, s', t)
  {
    if s.queue == [] {
      s' := s.(asleepC := s.asleepC + {t});
    } else {
      s' := s.(queue := s.queue[1..], takes := s.takes + [s.queue[0]], asleepP := {}, wokenP := s.wokenP + s.asleepP);
      assert s.asleepP - {} == s.asleepP;
    }
  }

  /** A thread outside can call `put`, and a woken producer can go on. */
  lemma PutPossible(s: State, t: Thread, x: int) returns (s': State)
    requires Inv(s) && (Outside(s, t) || t in s.wokenP)
    ensures Next(s, s')
    ensures if t in s.wokenP then PutDone(Awake(s, t), s', t, s.item[t])
            else PutDone(s.(entered := s.entered + [x]), s', t, x)
  {
    if t in s.wokenP {
      s' := SomePut(Awake(s, t), t, s.item[t]);
      assert ResumePut(s, s');
      PutMeans(Awake(s, t), s', t, s.item[t]);
    } else {
      s' := SomePut(s.(entered := s.entered + [x]), t, x);
      assert EnterPut(s, s');
      PutMeans(s.(entered := s.entered + [x]), s', t, x);
    }
  }

  /** A thread outside can call `take`, and a woken consumer can go on. */
  lemma TakePossible(s: State, t: Thread) returns (s': State)
    requires Outside(s, t) || t in s.wokenC
    ensures Next(s, s')
    ensures TakeDone(if t in s.wokenC then s.(wokenC := s.wokenC - {t}) else s, s', t)
  {
    if t in s.wokenC {
      s' := SomeTake(s.(wokenC := s.wokenC - {t}), t);
      assert ResumeTake(s, s');
      TakeMeans(s.(wokenC := s.wokenC - {t}), s', t);
    } else {
      s' := SomeTake(s, t);
      assert EnterTake(s, s');
      TakeMeans(s, s', t);
    }
  }

  /** Any sleeper may wake without cause. */
  lemma WakeupPossible(s: State, t: Thread)
    ensures t in s.asleepP ==> Next(s, s.(asleepP := s.asleepP - {t}, wokenP := s.wokenP + {t}))
    ensures t in s.asleepC ==> Next(s, s.(asleepC := s.asleepC - {t}, wokenC := s.wokenC + {t}))
  {
  }

  /** Producers and consumers asleep together with nobody on the way to wake them. */
  ghost predicate Deadlocked(s: State) {
    s.asleepP != {} && s.asleepC != {} && s.wokenP == {} && s.wokenC == {}
  }

  ghost predicate CanDeadlock(capacity: nat) {
    exists b: seq<State> :: Run(b) && b[0].capacity == capacity && Deadlocked(b[|b| - 1])
  }

  /** A queue can deadlock exactly when it was made with no capacity. */
  lemma DeadlocksOnlyWithoutCapacity(capacity: nat)
    ensures CanDeadlock(capacity) <==> capacity == 0
  {
    if capacity == 0 {
      var s0 := State(0, [], map[], {}, {}, {}, {}, [], [], []);
      var s1 := s0.(asleepP := {1}, item := map[1 := 7], entered := [7]);
      var s2 := s1.(asleepC := {2});
      assert Outside(s0, 1) && Put(s0.(entered := [7]), s1, 1, 7);
      assert Outside(s1, 2) && Take(s1, s2, 2);
      assert s0.entered + [7] == [7];
      var b := [s0, s1, s2];
      assert Run(b) && Deadlocked(b[|b| - 1]);
    } else if b: seq<State> :| Run(b) && b[0].capacity == capacity && Deadlocked(b[|b| - 1]) {
      RunKeepsInv(b, |b| - 1);
    }
  }
}
