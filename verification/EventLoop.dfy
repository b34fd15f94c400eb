/** How work is handed to an event loop from other threads: the functor queue, the eventfd counter and
    the loop of muduo/net/EventLoop.cc, with any number of posting threads. */
module EventLoop {

  type Thread = nat

  /** Who queued a functor: another thread, or the loop's own thread in an event handler or in a functor. */
  datatype Origin = Foreign(thread: Thread) | OwnHandler | OwnFunctor

  datatype Post = Post(id: nat, origin: Origin)

  /** `Handling` is everything between the return of poll and the swap of the queue; `sawWakeup` says that
      the eventfd is among the active channels and has not been read yet. */
  datatype Phase = Polling | Handling(sawWakeup: bool) | Draining(functors: seq<Post>)

  datatype State = State(
    phase: Phase,
    pending: seq<Post>,              // pendingFunctors_
    counter: nat,                    // the eventfd
    unfinished: map<Thread, Post>,   // posters that have pushed and not yet written the eventfd
    posted: seq<Post>,               // every functor ever queued, in order
    executed: seq<Post>)

  ghost predicate Init(s: State) {
    s == State(Polling, [], 0, map[], [], [])
  }

  /** `queueInLoop` from another thread: push under the lock, then write the eventfd. */
  ghost predicate ForeignPush(s: State, s': State) {
    exists t ::
      && t !in s.unfinished
      && var p := Post(|s.posted|, Foreign(t));
      && s' == s.(pending := s.pending + [p], posted := s.posted + [p], unfinished := s.unfinished[t := p])
  }

  ghost predicate ForeignWrite(s: State, s': State) {
    exists t :: t in s.unfinished && s' == s.(counter := s.counter + 1, unfinished := s.unfinished - {t})
  }

  /** `queueInLoop` from the loop's own thread: no wakeup is written. */
  ghost predicate OwnPush(s: State, s': State) {
    && !s.phase.Polling?
    && var p := Post(|s.posted|, if s.phase.Handling? then OwnHandler else OwnFunctor);
    && s' == s.(pending := s.pending + [p], posted := s.posted + [p])
  }

  /** Poll may return for any reason; it reports the eventfd only if the counter is positive. */
  ghost predicate PollReturn(s: State, s': State) {
    && s.phase.Polling? && s'.phase.Handling?
    && (s'.phase.sawWakeup ==> s.counter > 0)
    && s' == s.(phase := s'.phase)
  }

  ghost predicate ReadWakeup(s: State, s': State) {
    && s.phase == Handling(true)
    && s' == s.(phase := Handling(false), counter := 0)
  }

  ghost predicate Swap(s: State, s': State) {
    && s.phase == Handling(false)
    && s' == s.(phase := Draining(s.pending), pending := [])
  }

  ghost predicate RunFunctor(s: State, s': State) {
    && s.phase.Draining? && s.phase.functors != []
    && s' == s.(phase := Draining(s.phase.functors[1..]), executed := s.executed + [s.phase.functors[0]])
  }

  ghost predicate EndDrain(s: State, s': State) {
    && s.phase == Draining([])
    && s' == s.(phase := Polling)
  }

  ghost predicate Next(s: State, s': State) {
    || ForeignPush(s, s') || ForeignWrite(s, s') || OwnPush(s, s') || PollReturn(s, s')
    || ReadWakeup(s, s') || Swap(s, s') || RunFunctor(s, s') || EndDrain(s, s')
  }

  ghost predicate Run(b: seq<State>) {
    |b| > 0 && Init(b[0]) && forall k :: 0 <= k < |b| - 1 ==> Next(b[k], b[k + 1])
  }

  // ---------- The invariant ----------

  function Rest(s: State): seq<Post> {
    if s.phase.Draining? then s.phase.functors else []
  }

  /** The poster of `p` is between its push and its write. */
  ghost predicate Unfinished(s: State, p: Post) {
    p.origin.Foreign? && p.origin.thread in s.unfinished && s.unfinished[p.origin.thread] == p
  }

  ghost predicate InOrder(s: State) {
    && s.posted == s.executed + Rest(s) + s.pending
    && forall i :: 0 <= i < |s.posted| ==> s.posted[i].id == i
  }

  /** Outside the handling phase, a pending functor either has the eventfd raised for it, or is about to,
      or was queued by a functor of the loop itself. */
  ghost predicate Announced(s: State) {
    s.phase.Handling? || s.counter > 0 ||
    forall i :: 0 <= i < |s.pending| ==> Unfinished(s, s.pending[i]) || s.pending[i].origin == OwnFunctor
  }

  /** The eventfd is read only when there is something to read. */
  ghost predicate ReadsNoEmpty(s: State) {
    s.phase == Handling(true) ==> s.counter > 0
  }

  lemma NextKeepsOrder(s: State, s': State)
    requires InOrder(s) && Next(s, s')
    ensures InOrder(s')
  {
    if ForeignPush(s, s') || OwnPush(s, s') {
      var p := s'.posted[|s.posted|];
      assert s.executed + Rest(s) + s.pending + [p] == s.executed + Rest(s) + (s.pending + [p]);
    } else if RunFunctor(s, s') {
      var f := s.phase.functors;
      assert s.executed + f + s.pending == s.executed + [f[0]] + f[1..] + s.pending;
    }
  }

  lemma NextKeepsAnnounced(s: State, s': State)
    requires Announced(s) && Next(s, s')
    ensures Announced(s')
  {
    if ForeignPush(s, s') {
      var t :| t !in s.unfinished && s'.unfinished == s.unfinished[t := Post(|s.posted|, Foreign(t))] &&
               s'.pending == s.pending + [Post(|s.posted|, Foreign(t))];
      assert forall p :: Unfinished(s, p) ==> Unfinished(s', p);
    } else if OwnPush(s, s') {
      assert forall p :: Unfinished(s, p) ==> Unfinished(s', p);
    } else if RunFunctor(s, s') || EndDrain(s, s') {
      assert forall p :: Unfinished(s, p) ==> Unfinished(s', p);
    }
  }

  lemma {:induction false} RunKeepsInv(b: seq<State>, k: nat)
    requires Run(b) && k < |b|
    ensures InOrder(b[k]) && Announced(b[k]) && ReadsNoEmpty(b[k])
  {
    if k > 0 {
      RunKeepsInv(b, k - 1);
      assert Next(b[k - 1], b[k - 1 + 1]);
      NextKeepsOrder(b[k - 1], b[k]);
      NextKeepsAnnounced(b[k - 1], b[k]);
    }
  }

  // ---------- What the loop promises, over every run ----------

  /** No lost wakeup: when another thread has finished posting and its functor is still pending, the eventfd
      counter is positive, or the loop is between the return of poll and the swap that will pick it up. */
  lemma NoLostWakeup(b: seq<State>, k: nat, i: nat)
    requires Run(b) && k < |b| && i < |b[k].pending|
    requires b[k].pending[i].origin.Foreign? && !Unfinished(b[k], b[k].pending[i])
    ensures b[k].counter > 0 || b[k].phase.Handling?
  {
    RunKeepsInv(b, k);
  }

  /** Functors run exactly once each and in posting order. */
  lemma ExactlyOnceInOrder(b: seq<State>, k: nat)
    requires Run(b) && k < |b|
    ensures b[k].executed <= b[k].posted
    ensures forall i, j :: 0 <= i < j < |b[k].executed| ==> b[k].executed[i].id < b[k].executed[j].id
    ensures b[k].posted == b[k].executed + Rest(b[k]) + b[k].pending
  {
    RunKeepsInv(b, k);
    var s := b[k];
    assert s.executed == s.posted[..|s.executed|];
    assert forall i :: 0 <= i < |s.executed| ==> s.executed[i] == s.posted[i];
  }

  /** Every functor queued before the swap, by whomever, is in the batch that the swap takes. */
  lemma SwapTakesAll(b: seq<State>, k: nat, i: nat)
    requires Run(b) && k + 1 < |b| && Swap(b[k], b[k + 1]) && i < |b[k].posted|
    ensures i < |b[k].executed| || b[k].posted[i] in b[k + 1].phase.functors
  {
    RunKeepsInv(b, k);
    var s := b[k];
    assert s.posted == s.executed + s.pending;
  }

  /** The loop never reads the eventfd while its counter is zero. */
  lemma WakeupIsReadable(b: seq<State>, k: nat)
    requires Run(b) && k < |b| && b[k].phase == Handling(true)
    ensures b[k].counter > 0
  {
    RunKeepsInv(b, k);
  }

  /** Who can post, and when: one functor at a time, from another thread at any moment but before it has finished the
      last, from the loop's own handlers while they run and from its own functors while those do. */
  lemma WhoPosts(s: State, s': State)
    requires Next(s, s') && s'.posted != s.posted
    ensures |s'.posted| == |s.posted| + 1 && s.posted <= s'.posted
    ensures var p := s'.posted[|s.posted|];
            && p.id == |s.posted| && s'.pending == s.pending + [p]
            && match p.origin
               case Foreign(t) => t !in s.unfinished && s'.unfinished == s.unfinished[t := p]
               case OwnHandler => s.phase.Handling?
               case OwnFunctor => s.phase.Draining?
  {
  }

  // ---------- What can happen ----------

  ghost predicate Path(b: seq<State>) {
    |b| > 0 && forall k :: 0 <= k < |b| - 1 ==> Next(b[k], b[k + 1])
  }

  ghost predicate Leads(s: State, s': State) {
    exists b: seq<State> :: Path(b) && b[0] == s && b[|b| - 1] == s'
  }

  lemma LeadsOn(s: State, m: State, s': State)
    requires s == m || Leads(s, m)
    requires Next(m, s')
    ensures Leads(s, s')
  {
    if s == m {
      assert Path([s, s']);
    } else {
      var b: seq<State> :| Path(b) && b[0] == s && b[|b| - 1] == m;
      var c := b + [s'];
      forall k | 0 <= k < |c| - 1 ensures Next(c[k], c[k + 1]) {
        assert k < |b| - 1 ==> Next(b[k], b[k + 1]);
      }
      assert Path(c);
    }
  }

  /** Another thread can post at any moment, and has then raised the eventfd. */
  lemma PostCompletes(s: State, t: Thread)
    requires t !in s.unfinished
    ensures var p := Post(|s.posted|, Foreign(t));
            Leads(s, s.(pending := s.pending + [p], posted := s.posted + [p], counter := s.counter + 1))
  {
    var p := Post(|s.posted|, Foreign(t));
    var s1 := s.(pending := s.pending + [p], posted := s.posted + [p], unfinished := s.unfinished[t := p]);
    var s2 := s1.(counter := s.counter + 1, unfinished := s.unfinished);
    assert s1.unfinished - {t} == s.unfinished;
    assert ForeignPush(s, s1) && ForeignWrite(s1, s2);
    LeadsOn(s, s, s1);
    LeadsOn(s, s1, s2);
  }

  lemma {:induction false} DrainCompletes(s: State, m: State)
    requires m.phase.Draining? && Leads(s, m)
    ensures Leads(s, m.(phase := Polling, executed := m.executed + m.phase.functors))
    decreases |Rest(m)|
  {
    var functors := m.phase.functors;
    if functors == [] {
      assert m.executed + functors == m.executed;
      LeadsOn(s, m, m.(phase := Polling));
    } else {
      var m' := m.(phase := Draining(functors[1..]), executed := m.executed + [functors[0]]);
      assert RunFunctor(m, m');
      LeadsOn(s, m, m');
      DrainCompletes(s, m');
      assert m'.executed + functors[1..] == m.executed + functors;
    }
  }

  /** An iteration that nobody disturbs reads the eventfd if it was raised, runs everything that was queued, and
      polls again. */
  lemma IterationCompletes(s: State)
    requires s.phase.Polling? && InOrder(s)
    ensures Leads(s, s.(counter := 0, pending := [], executed := s.posted))
  {
    var s1 := s.(phase := Handling(s.counter > 0));
    assert PollReturn(s, s1);
    LeadsOn(s, s, s1);
    var s2 := s.(phase := Handling(false), counter := 0);
    if s.counter > 0 {
      assert ReadWakeup(s1, s2);
      LeadsOn(s, s1, s2);
    }
    var s3 := s2.(phase := Draining(s.pending), pending := []);
    assert Swap(s2, s3);
    LeadsOn(s, s2, s3);
    DrainCompletes(s, s3);
    assert s.executed + s.pending == s.posted;
  }

  /** While a handler or a functor runs, the loop's own thread can post, and poll may return without cause. */
  lemma OwnPostCompletes(s: State)
    ensures s.phase.Handling? ==>
              var p := Post(|s.posted|, OwnHandler); Next(s, s.(pending := s.pending + [p], posted := s.posted + [p]))
    ensures s.phase.Draining? ==>
              var p := Post(|s.posted|, OwnFunctor); Next(s, s.(pending := s.pending + [p], posted := s.posted + [p]))
    ensures s.phase.Polling? ==> Next(s, s.(phase := Handling(false)))
  {
  }

  // ---------- Functors the loop queues for itself ----------

  /** The loop polls, nothing will wake it, and a functor whose poster has finished is waiting. */
  ghost predicate SleepsOn(s: State, p: Post) {
    s.phase.Polling? && s.counter == 0 && p in s.pending && !Unfinished(s, p)
  }

  ghost predicate CanSleepOn(origin: Origin) {
    exists b: seq<State>, p :: Run(b) && SleepsOn(b[|b| - 1], p) && p.origin == origin
  }

  /** The loop can go to sleep on a functor exactly when one of its own functors queued it. */
  lemma SleepsOnlyOnOwnFunctors(origin: Origin)
    ensures CanSleepOn(origin) <==> origin == OwnFunctor
  {
    if origin == OwnFunctor {
      var p := Post(0, OwnFunctor);
      var s0 := State(Polling, [], 0, map[], [], []);
      var s1 := s0.(phase := Handling(false));
      var s2 := s0.(phase := Draining([]));
      var s3 := s2.(pending := [p], posted := [p]);
      var s4 := s3.(phase := Polling);
      var b := [s0, s1, s2, s3, s4];
      assert PollReturn(s0, s1) && Swap(s1, s2) && EndDrain(s3, s4);
      assert OwnPush(s2, s3) by {
        assert [] + [p] == [p];
      }
      assert Run(b) && SleepsOn(b[|b| - 1], p);
    } else if b: seq<State>, p :| Run(b) && SleepsOn(b[|b| - 1], p) && p.origin == origin {
      RunKeepsInv(b, |b| - 1);
    }
  }
}
