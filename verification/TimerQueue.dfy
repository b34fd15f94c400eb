/** The timer queue object itself: the loops of muduo/net/TimerQueue.cc over the array heap, each
    proved to be steps of `TimerProtocol`. */
module TimerQueues {
  import opened MinHeaps
  import opened TimerProtocol

  /** A round loses no entry: the storage that its pops leave fits what the heap holds at its end. */
  ghost predicate RoundFits(s: State, now: int, script: seq<seq<Action>>, st: Store) {
    forall m {:trigger Expire(s, m)} :: Expire(s, m) && m.phase.now == now ==>
      Fits(PoppedStore(st, |s.heap|, |m.phase.batch|), |Processed(m, script).heap|)
  }

  /** The storage after a round that loses no entry. */
  ghost predicate RoundStores(s: State, now: int, st: Store, s': State, st': Store) {
    forall m {:trigger Expire(s, m)} :: Expire(s, m) && m.phase.now == now ==>
      st' == PushedStore(PoppedStore(st, |s.heap|, |m.phase.batch|), |s'.heap|)
  }

  predicate AsksNothingNegative(a: Action) {
    a.Add? ==> a.when >= 0
  }

  predicate NothingNegative(actions: seq<Action>) {
    forall a <- actions :: AsksNothingNegative(a)
  }

  predicate ScriptNotNegative(script: seq<seq<Action>>) {
    forall actions <- script :: NothingNegative(actions)
  }

  /** Entries that each occur once are pairwise distinct. */
  lemma OnceMeansDistinct(s: seq<Entry>)
    requires forall e <- s :: multiset(s)[e] == 1
    ensures Distinct(s)
  {
    forall i, j | 0 <= i < j < |s| ensures s[i] != s[j] {
      if s[i] == s[j] {
        Repeated(s, i, j);
      }
    }
  }

  /** Appending the root of a heap to a sorted batch that lies below the heap. */
  lemma TakeRoot(batch: seq<Entry>, s: seq<Entry>, rest: multiset<Entry>)
    requires s != [] && HeapOrdered(s) && Distinct(s)
    requires Sorted(batch) && forall r, e :: r in batch && e in s ==> Less(r, e)
    requires rest == multiset(s) - multiset{s[0]}
    ensures Sorted(batch + [s[0]])
    ensures forall r, e :: r in batch + [s[0]] && e in rest ==> Less(r, e)
  {
    forall e <- rest ensures Less(s[0], e) {
      assert e in multiset(s);
      var k :| 0 <= k < |s| && s[k] == e;
      RootIsMinimum(s, k);
      assert e != s[0] by {
        CountOnce(s, s[0]);
      }
    }
  }

  lemma SubmultisetDistinct(s: seq<Entry>, t: seq<Entry>)
    requires Distinct(s) && multiset(t) <= multiset(s)
    ensures Distinct(t)
  {
    forall i, j | 0 <= i < j < |t| ensures t[i] != t[j] {
      if t[i] == t[j] {
        Repeated(t, i, j);
        CountOnce(s, t[i]);
      }
    }
  }

  lemma {:induction false} CountOnce(s: seq<Entry>, e: Entry)
    requires Distinct(s)
    ensures multiset(s)[e] <= 1
  {
    if s != [] {
      assert s == [s[0]] + s[1..];
      CountOnce(s[1..], e);
      assert e == s[0] ==> e !in s[1..];
    }
  }

  /** The loop of `getExpired` so far: `ret` is out of `heap`, sorted and below what is left. */
  ghost predicate Extracted(heap: multiset<Entry>, now: int, ret: seq<Entry>, live: seq<Entry>) {
    && heap == multiset(ret) + multiset(live)
    && Distinct(live) && Sorted(ret)
    && (forall r, e :: r in ret && e in live ==> Less(r, e))
    && (forall k :: 0 <= k < |ret| ==> ret[k].when <= now)
  }

  lemma ExtractRoot(heap: multiset<Entry>, now: int, ret: seq<Entry>, live: seq<Entry>, live': seq<Entry>)
    requires Extracted(heap, now, ret, live) && HeapOrdered(live) && live != [] && live[0].when <= now
    requires multiset(live') == multiset(live) - multiset{live[0]}
    ensures Extracted(heap, now, ret + [live[0]], live')
  {
    TakeRoot(ret, live, multiset(live'));
    SubmultisetDistinct(live, live');
    assert multiset(live) == multiset{live[0]} + multiset(live') by {
      assert live[0] in live;
    }
    forall r, e | r in ret + [live[0]] && e in live' ensures Less(r, e) {
      assert e in multiset(live');
    }
  }

  lemma ExtractionDone(heap: multiset<Entry>, now: int, ret: seq<Entry>, live: seq<Entry>)
    requires Extracted(heap, now, ret, live) && HeapOrdered(live)
    requires forall e <- heap :: e.timer < UINTPTR_MAX
    requires live == [] || !Less(live[0], Entry(now, UINTPTR_MAX))
    ensures SplitAt(heap, now, ret, multiset(live))
  {
    forall e <- multiset(live) ensures e.when > now {
      var k :| 0 <= k < |live| && live[k] == e;
      RootIsMinimum(live, k);
      assert live[0] in heap;
    }
  }

  lemma ActReaches(s: State, a: Action)
    requires Reachable(s) && !s.phase.Resetting? && Allowed(s.timers, a)
    ensures Reachable(Act(s, a))
  {
    assert ActStep(s, Act(s, a));
    ReachableOn(s, Act(s, a));
  }

  lemma ResetReaches(s: State, s': State)
    requires Reachable(s) && MayResetNext(s) && s' == DidReset(s)
    ensures Reachable(s')
  {
    assert ResetNext(s, s');
    ReachableOn(s, s');
  }

  /** Adding a timer, field by field. */
  lemma Added(s: State, s': State, addr: nat, when: int, interval: nat)
    requires Reachable(s) && !s.phase.Resetting? && Allowed(s.timers, Add(addr, when, interval))
    requires s'.heap == s.heap + multiset{Entry(when, addr)} && s'.phase == s.phase && s'.log == s.log
    requires s'.timers == s.timers[addr := Timer(s.created + 1, when, interval, interval > 0, false)]
    requires s'.created == s.created + 1 && s'.armed == if Precedes(when, s.heap) then when else s.armed
    ensures s' == Act(s, Add(addr, when, interval)) && Reachable(s')
  {
    ActReaches(s, Add(addr, when, interval));
  }

  lemma ExpireReaches(s: State, now: int, ret: seq<Entry>, rest: multiset<Entry>)
    requires Reachable(s) && s.phase.Idle? && SplitAt(s.heap, now, ret, rest)
    ensures var s' := s.(heap := rest, phase := Running(now, ret, 0)); Expire(s, s') && Reachable(s')
  {
    ReachableOn(s, s.(heap := rest, phase := Running(now, ret, 0)));
  }

  /** There is one way to split, so whether a round fits can be judged once the split is made. */
  lemma FitsAfterSplit(s: State, now: int, script: seq<seq<Action>>, m: State, st: Store)
    requires Expire(s, m) && m.phase.now == now
    ensures |m.heap| + |m.phase.batch| == |s.heap|
    ensures RoundFits(s, now, script, st) <==>
              Fits(PoppedStore(st, |s.heap|, |m.phase.batch|), |Processed(m, script).heap|)
  {
    OneSplit(s, now, m);
  }

  lemma OneSplit(s: State, now: int, m: State)
    requires Expire(s, m) && m.phase.now == now
    ensures forall n :: Expire(s, n) && n.phase.now == now ==> n == m
    ensures |m.heap| + |m.phase.batch| == |s.heap|
  {
    forall n | Expire(s, n) && n.phase.now == now ensures n == m {
      SplitUnique(s.heap, now, m.phase.batch, m.heap, n.phase.batch, n.heap);
    }
    assert |s.heap| == |multiset(m.phase.batch)| + |m.heap|;
  }

  /** The facts about a reachable state that the queue's own code relies on. */
  lemma ReachableEntries(s: State)
    requires Reachable(s)
    ensures forall e <- s.heap :: s.heap[e] == 1 && e.timer < UINTPTR_MAX && e.timer in s.timers
    ensures forall k :: 0 <= k < |Pending(s)| ==> Pending(s)[k].timer in s.timers && Pending(s)[k].timer > 0
  {
    ReachableInv(s);
    forall e <- s.heap ensures s.heap[e] == 1 && e.timer < UINTPTR_MAX && e.timer in s.timers {
      assert e in Held(s);
    }
    forall k | 0 <= k < |Pending(s)| ensures Pending(s)[k].timer in s.timers && Pending(s)[k].timer > 0 {
      assert Pending(s)[k] in Held(s);
    }
  }

  /** The array `live` is a heap of just the entries it ought to hold. */
  ghost predicate Faithful(live: seq<Entry>, entries: multiset<Entry>) {
    HeapOrdered(live) && multiset(live) == entries
  }

  /** What is kept even when a push has lost entries: their number, and a null entry that shows the loss. */
  ghost predicate Kept(live: seq<Entry>, entries: multiset<Entry>, epochal: bool) {
    && |live| == |entries| && NULL_ENTRY !in entries
    && (Faithful(live, entries) || NullInside(live))
    && (epochal ==> forall e <- multiset(live) :: e.when >= 0)
  }

  lemma FaithfulOrNull(live: seq<Entry>, entries: multiset<Entry>)
    requires NULL_ENTRY !in entries && Faithful(live, entries)
    ensures !NullInside(live)
  {
    forall p | 0 < p < |live| ensures live[p] != NULL_ENTRY {
      assert live[p] in multiset(live);
    }
  }

  lemma PoppedKept(live: seq<Entry>, entries: multiset<Entry>, ret: seq<Entry>, live': seq<Entry>, epochal: bool)
    requires Kept(live, entries, epochal) && entries == multiset(ret) + multiset(live')
    requires Faithful(live, entries) && HeapOrdered(live')
    ensures Kept(live', multiset(live'), epochal) && Faithful(live', multiset(live'))
  {
  }

  /** What `Push` says of its entries, for the entries that ought to be there. */
  lemma PushKeeps(live: seq<Entry>, live': seq<Entry>, entries: multiset<Entry>, e: Entry, epochal: bool, roomy: bool)
    requires Kept(live, entries, epochal) && e != NULL_ENTRY && (epochal ==> e.when >= 0) && |live'| == |live| + 1
    requires roomy && HeapOrdered(live) ==> HeapOrdered(live')
    requires roomy ==> multiset(live') == multiset(live) + multiset{e}
    requires NullInside(live) || !roomy ==> NullInside(live')
    requires forall x <- multiset(live') :: x == e || x == NULL_ENTRY || x in multiset(live)
    ensures Kept(live', entries + multiset{e}, epochal)
    ensures Faithful(live', entries + multiset{e}) <==> Faithful(live, entries) && roomy
  {
    if Faithful(live', entries + multiset{e}) {
      FaithfulOrNull(live', entries + multiset{e});
    }
  }

  class TimerQueue {
    const heap: MinHeap
    var timers: map<nat, Timer>
    var created: nat
    var armed: int
    ghost var phase: Phase
    ghost var log: seq<Event>
    ghost var entries: multiset<Entry>   // the entries that ought to be in the heap
    ghost var deadline: int              // what ought to be armed
    ghost var epochal: bool              // no time before the epoch was ever given

    ghost function View(): State
      reads this
    {
      State(entries, timers, created, deadline, phase, log)
    }

    /** No push has lost entries. */
    ghost predicate Intact()
      requires heap.size <= |heap.mem|
      reads this`entries, heap
    {
      Faithful(heap.Live(), entries)
    }

    ghost predicate Held()
      reads this`entries, this`epochal, heap
    {
      heap.Stored() && |heap.mem| > 1 && Kept(heap.Live(), entries, epochal)
    }

    /** The queue ought to be in a state that a run of the protocol reaches, and is unless a push has lost entries. */
    ghost predicate Valid()
      reads this, heap
    {
      Held() && Reachable(View()) && (Intact() ==> armed == deadline)
    }

    /** Nothing but pushes since the storage was `st`; `intact` says whether the heap was intact then. */
    ghost predicate Pushed(intact: bool, st: Store)
      requires heap.size <= |heap.mem|
      reads this`entries, heap
    {
      PushedTo(intact, st, Intact(), heap.Storage(), heap.size)
    }

    constructor ()
      ensures Valid() && Intact() && Init(View()) && epochal && fresh(heap)
      ensures heap.Storage() == Store(true, INIT_SIZE, INIT_SIZE)
    {
      heap := new MinHeap();
      timers, created, armed := map[], 0, 0;
      phase, log, entries, deadline, epochal := Idle, [], multiset{}, 0, true;
      new;
      assert Run([View()]);
    }

    lemma TopIsMin()
      requires heap.Stored() && Intact() && !heap.Empty()
      ensures IsMin(entries, heap.Top())
    {
      assert heap.Top() == heap.Live()[0];
      forall o <- entries ensures !Less(o, heap.Top()) {
        var k :| 0 <= k < heap.size && heap.Live()[k] == o;
        RootIsMinimum(heap.Live(), k);
      }
    }

    method Insert(e: Entry)
      requires Held() && e != NULL_ENTRY && (epochal ==> e.when >= 0)
      modifies this`entries, heap
      ensures Held() && entries == old(entries) + multiset{e} && heap.size == old(heap.size) + 1
      ensures Pushed(old(Intact()), old(heap.Storage()))
      ensures !old(heap.Roomy()) ==> forall j :: old(heap.vsize) <= j < heap.size ==> heap.Live()[j] == NULL_ENTRY
      ensures heap.size < old(|heap.mem|) ==> heap.vsize == old(heap.vsize) && |heap.mem| == old(|heap.mem|)
    {
      var i := heap.Push(e);
      entries := entries + multiset{e};
      PushKeeps(old(heap.Live()), heap.Live(), old(entries), e, epochal, old(heap.Roomy()));
      OnePush(old(heap.Storage()), heap.size);
    }

    method EarlierThanAll(when: int) returns (earlier: bool)
      requires heap.Stored()
      ensures Intact() ==> (earlier <==> Precedes(when, entries))
    {
      earlier := heap.Empty() || when < heap.Top().when;
      if Intact() && !heap.Empty() {
        TopIsMin();
      }
    }

    /** `addTimer` with `addTimerInLoop`, at the address the allocator picked. */
    method AddTimer(addr: nat, when: int, interval: nat)
      requires Valid() && !phase.Resetting? && Allowed(timers, Add(addr, when, interval))
      modifies this, heap
      ensures Valid() && View() == Act(old(View()), Add(addr, when, interval))
      ensures Pushed(old(Intact()), old(heap.Storage()))
      ensures epochal <==> old(epochal) && when >= 0
      ensures heap.size == old(heap.size) + 1
      ensures !old(heap.Roomy()) ==> forall j :: old(heap.vsize) <= j < heap.size ==> heap.Live()[j] == NULL_ENTRY
      ensures heap.size < old(|heap.mem|) ==> heap.vsize == old(heap.vsize) && |heap.mem| == old(|heap.mem|)
    {
      ghost var s := View();
      NewTimer(addr, when, interval);
      AddEntry(Entry(when, addr));
      Added(s, View(), addr, when, interval);
    }

    /** `new Timer`. */
    method NewTimer(addr: nat, when: int, interval: nat)
      modifies this`timers, this`created
      ensures timers == old(timers)[addr := Timer(created, when, interval, interval > 0, false)]
      ensures created == old(created) + 1
    {
      created := created + 1;
      timers := timers[addr := Timer(created, when, interval, interval > 0, false)];
    }

    /** `addTimerInLoop`: push the entry, and arm the timerfd for it if it is the earliest. */
    method AddEntry(e: Entry)
      requires Held() && e.timer > 0 && (Intact() ==> armed == deadline)
      modifies this`entries, this`epochal, this`armed, this`deadline, heap
      ensures Held() && entries == old(entries) + multiset{e}
      ensures deadline == if Precedes(e.when, old(entries)) then e.when else old(deadline)
      ensures Intact() ==> armed == deadline
      ensures heap.size == old(heap.size) + 1 && Pushed(old(Intact()), old(heap.Storage()))
      ensures epochal <==> old(epochal) && e.when >= 0
      ensures !old(heap.Roomy()) ==> forall j :: old(heap.vsize) <= j < heap.size ==> heap.Live()[j] == NULL_ENTRY
      ensures heap.size < old(|heap.mem|) ==> heap.vsize == old(heap.vsize) && |heap.mem| == old(|heap.mem|)
    {
      var earliestChanged := EarlierThanAll(e.when);
      epochal := epochal && e.when >= 0;
      deadline := if Precedes(e.when, entries) then e.when else deadline;
      Insert(e);
      if earliestChanged {
        armed := e.when;
      }
    }

    method CancelInLoop(addr: nat)
      requires Valid() && !phase.Resetting? && addr in timers
      modifies this`timers, this`log
      ensures Valid() && View() == Act(old(View()), Cancel(addr))
    {
      ghost var s := View();
      log := log + [Canceled(timers[addr].index)];
      timers := timers[addr := timers[addr].Cancel()];
      ActReaches(s, Cancel(addr));
    }

    /** The calls of `assertOrder` in `getExpired` and `reset`: they fail exactly when entries have been lost. */
    method AssertOrder() returns (passed: bool)
      requires Valid()
      ensures Intact() ==> passed
      ensures epochal && passed ==> Intact()
    {
      passed := heap.AssertOrder();
      if Intact() {
        ReachableEntries(View());
        OnceMeansDistinct(heap.Live());
        DistinctHeapIsStrict(heap.Live());
      } else if epochal {
        NullFailsOrder(heap.Live());
      }
    }

    /** The loop of `getExpired`. */
    method PopExpired(now: int, ghost all: multiset<Entry>) returns (ret: seq<Entry>)
      requires heap.Valid() && Extracted(all, now, [], heap.Live())
      modifies heap
      ensures heap.Valid() && heap.size + |ret| == old(heap.size)
      ensures Extracted(all, now, ret, heap.Live())
      ensures heap.Storage() == PoppedStore(old(heap.Storage()), old(heap.size), |ret|)
      ensures heap.Empty() && ret != [] ==> heap.vsize == 0
      ensures heap.Live() == [] || !Less(heap.Live()[0], Entry(now, UINTPTR_MAX))
    {
      ret := [];
      var lowerBoundEntry := Entry(now, UINTPTR_MAX);
      while !heap.Empty() && Less(heap.Top(), lowerBoundEntry)
        invariant heap.Valid() && heap.size + |ret| == old(heap.size)
        invariant Extracted(all, now, ret, heap.Live())
        invariant heap.Storage() == PoppedStore(old(heap.Storage()), old(heap.size), |ret|)
        invariant heap.Empty() && ret != [] ==> heap.vsize == 0
        invariant ret == [] || heap.size > old(heap.capacity) / 2 ==>
                    heap.vsize == old(heap.vsize) && heap.capacity == old(heap.capacity)
        decreases heap.size
      {
        ghost var live := heap.Live();
        var top := heap.Top();
        heap.Pop();
        ExtractRoot(all, now, ret, live, heap.Live());
        ret := ret + [top];
      }
    }

    /** The pops of `getExpired`. */
    method PopDue(now: int) returns (ret: seq<Entry>)
      requires Held() && Intact() && Distinct(heap.Live()) && forall e <- entries :: e.timer < UINTPTR_MAX
      modifies this`entries, heap
      ensures Held() && Intact() && SplitAt(old(entries), now, ret, entries)
      ensures heap.size + |ret| == old(heap.size)
      ensures heap.Storage() == PoppedStore(old(heap.Storage()), old(heap.size), |ret|)
      ensures heap.Empty() && ret != [] ==> heap.vsize == 0
    {
      ret := PopExpired(now, entries);
      ExtractionDone(entries, now, ret, heap.Live());
      PoppedKept(old(heap.Live()), entries, ret, heap.Live(), epochal);
      entries := multiset(heap.Live());
    }

    /** Pop every expired entry, in order. */
    method GetExpired(now: int) returns (ret: seq<Entry>)
      requires Valid() && Intact() && phase.Idle?
      modifies this`phase, this`entries, heap
      ensures Valid() && Intact() && Expire(old(View()), View()) && phase == Running(now, ret, 0)
      ensures heap.size + |ret| == old(heap.size)
      ensures heap.Storage() == PoppedStore(old(heap.Storage()), old(heap.size), |ret|)
      ensures heap.Empty() && ret != [] ==> heap.vsize == 0
    {
      ghost var s := View();
      ReachableEntries(s);
      OnceMeansDistinct(heap.Live());
      ret := PopDue(now);
      phase := Running(now, ret, 0);
      ExpireReaches(s, now, ret, entries);
    }

    /** Do one thing that a callback asks for. */
    method RunAction(a: Action)
      requires Valid() && !phase.Resetting?
      modifies this, heap
      ensures Valid() && View() == Acts(old(View()), [a])
      ensures heap.size >= old(heap.size) && Pushed(old(Intact()), old(heap.Storage()))
      ensures old(epochal) && AsksNothingNegative(a) ==> epochal
      ensures heap.size == old(heap.size) ==> heap.vsize == old(heap.vsize)
    {
      if Allowed(timers, a) {
        match a {
          case Add(addr, when, interval) => AddTimer(addr, when, interval);
          case Cancel(addr) => CancelInLoop(addr);
        }
      }
    }

    /** Do what one callback asks for, in order. */
    method RunActions(actions: seq<Action>)
      requires Valid() && phase.Running?
      modifies this, heap
      ensures Valid() && View() == Acts(old(View()), actions)
      ensures heap.size >= old(heap.size) && Pushed(old(Intact()), old(heap.Storage()))
      ensures old(epochal) && NothingNegative(actions) ==> epochal
      ensures heap.size == old(heap.size) ==> heap.vsize == old(heap.vsize)
      decreases |actions|
    {
      if actions != [] {
        RunAction(actions[0]);
        ghost var i1, st1, size1 := Intact(), heap.Storage(), heap.size;
        RunActions(actions[1..]);
        PushedOn(old(Intact()), old(heap.Storage()), i1, st1, size1, Intact(), heap.Storage(), heap.size);
      }
    }

    /** The callback loop of `handleRead`. */
    method RunCallbacks(expired: seq<Entry>, now: int, script: seq<seq<Action>>)
      requires Valid() && phase == Running(now, expired, 0)
      modifies this, heap
      ensures Valid() && phase == Running(now, expired, |expired|) && View() == CallAll(old(View()), script)
      ensures heap.size >= old(heap.size) && Pushed(old(Intact()), old(heap.Storage()))
      ensures old(epochal) && ScriptNotNegative(script) ==> epochal
      ensures heap.size == old(heap.size) ==> heap.vsize == old(heap.vsize)
    {
      ghost var m := View();
      var todo := script;
      for k := 0 to |expired|
        invariant Valid() && phase == Running(now, expired, k) && CallAll(View(), todo) == CallAll(m, script)
        invariant heap.size >= old(heap.size) && Pushed(old(Intact()), old(heap.Storage()))
        invariant old(epochal) && ScriptNotNegative(script) ==> epochal && ScriptNotNegative(todo)
        invariant heap.size == old(heap.size) ==> heap.vsize == old(heap.vsize)
      {
        ghost var i1, st1, size1 := Intact(), heap.Storage(), heap.size;
        todo := RunTurn(expired, now, k, todo);
        PushedOn(old(Intact()), old(heap.Storage()), i1, st1, size1, Intact(), heap.Storage(), heap.size);
      }
    }

    /** One round of the callback loop and what its callback, if it is called, asks for. */
    method RunTurn(expired: seq<Entry>, now: int, k: nat, todo: seq<seq<Action>>) returns (rest: seq<seq<Action>>)
      requires Valid() && k < |expired| && phase == Running(now, expired, k)
      modifies this, heap
      ensures Valid() && phase == Running(now, expired, k + 1) && CallAll(View(), rest) == old(CallAll(View(), todo))
      ensures heap.size >= old(heap.size) && Pushed(old(Intact()), old(heap.Storage()))
      ensures old(epochal) && ScriptNotNegative(todo) ==> epochal && ScriptNotNegative(rest)
      ensures heap.size == old(heap.size) ==> heap.vsize == old(heap.vsize)
    {
      rest := todo;
      var called := RunOne(expired, now, k);
      if called && todo != [] {
        RunActions(todo[0]);
        rest := todo[1..];
      }
    }

    /** One round of the callback loop: the callback is called unless its timer was cancelled. */
    method RunOne(expired: seq<Entry>, now: int, k: nat) returns (called: bool)
      requires Valid() && k < |expired| && phase == Running(now, expired, k)
      modifies this`phase, this`log
      ensures Valid() && phase == Running(now, expired, k + 1)
      ensures old(MayRunNext(View())) && View() == old(RanNext(View()))
      ensures called <==> !timers[expired[k].timer].canceled
    {
      ghost var s := View();
      ReachableEntries(s);
      assert Pending(s)[k] == expired[k];
      var t := timers[expired[k].timer];
      called := !t.canceled;
      phase := Running(now, expired, k + 1);
      if called {
        log := log + [Ran(t.index, now, expired[k].when, t.interval == 0)];
      }
      assert RunNext(s, View());
      ReachableOn(s, View());
    }

    /** Run the callbacks of the expired timers, then re-arm or delete them. `script` holds what the callbacks ask
        for, in the order in which they are invoked. The assertions on the way pass exactly when no entry was lost
        before and none is lost in this round, and then this is one round of the protocol. Of an entry that is
        lost it matters that no time lies before the epoch. */
    method HandleRead(now: int, script: seq<seq<Action>>) returns (passed: bool)
      requires Valid() && phase.Idle?
      requires || (Intact() && RoundFits(View(), now, script, heap.Storage()))
               || (epochal && now >= 0 && ScriptNotNegative(script))
      modifies this, heap
      ensures Valid() && (passed <==> Intact())
      ensures passed <==> old(Intact() && RoundFits(View(), now, script, heap.Storage()))
      ensures passed ==> phase.Idle? && Round(old(View()), now, script, View())
      ensures passed ==> RoundStores(old(View()), now, old(heap.Storage()), View(), heap.Storage())
      ensures passed && heap.Empty() && old(!heap.Empty()) ==> heap.vsize == 0
      ensures old(epochal) && now >= 0 && ScriptNotNegative(script) ==> epochal
    {
      ghost var s, st := View(), heap.Storage();
      passed := AssertOrder();
      if passed {
        var expired := GetExpired(now);
        FitsAfterSplit(s, now, script, View(), st);
        OneSplit(s, now, View());
        passed := Process(expired, now, script);
      }
    }

    /** `handleRead` once the expired timers are split off. */
    method Process(expired: seq<Entry>, now: int, script: seq<seq<Action>>) returns (passed: bool)
      requires Valid() && Intact() && phase == Running(now, expired, 0)
      requires || Fits(heap.Storage(), |Processed(View(), script).heap|)
               || (epochal && now >= 0 && ScriptNotNegative(script))
      modifies this, heap
      ensures Valid() && (passed <==> Intact())
      ensures passed ==> phase.Idle? && FinishReset(Processed(old(View()), script), View())
      ensures heap.size == |Processed(old(View()), script).heap| && Pushed(true, old(heap.Storage()))
      ensures old(epochal) && now >= 0 && ScriptNotNegative(script) ==> epochal
      ensures heap.size >= old(heap.size) && (heap.size == old(heap.size) ==> heap.vsize == old(heap.vsize))
    {
      RunCallbacks(expired, now, script);
      BeginReset(expired, now);
      ghost var i1, st1, size1 := Intact(), heap.Storage(), heap.size;
      passed := Reset(expired, now);
      PushedOn(true, old(heap.Storage()), i1, st1, size1, Intact(), heap.Storage(), heap.size);
    }

    /** Nothing happens between the two loops. */
    ghost method BeginReset(expired: seq<Entry>, now: int)
      requires Valid() && phase == Running(now, expired, |expired|)
      modifies this`phase
      ensures Valid() && View() == old(View()).(phase := Resetting(now, expired))
    {
      ghost var s := View();
      phase := Resetting(now, expired);
      assert StartReset(s, View());
      ReachableOn(s, View());
    }

    /** One round of the loop of `reset`: restart the timer and push it back, or delete it. */
    method ResetOne(rest: seq<Entry>, now: int)
      requires Valid() && rest != [] && phase == Resetting(now, rest)
      modifies this, heap
      ensures Valid() && phase == Resetting(now, rest[1..])
      ensures old(MayResetNext(View())) && View() == old(DidReset(View()))
      ensures heap.size >= old(heap.size) && Pushed(old(Intact()), old(heap.Storage()))
      ensures old(epochal) && now >= 0 ==> epochal
      ensures heap.size == old(heap.size) ==> heap.vsize == old(heap.vsize)
    {
      ReachableEntries(View());
      assert Pending(View())[0] == rest[0];
      var t := timers[rest[0].timer];
      if t.repeat && !t.canceled {
        RestartTimer(rest, now);
      } else {
        DeleteTimer(rest, now);
      }
    }

    method RestartTimer(rest: seq<Entry>, now: int)
      requires Valid() && rest != [] && phase == Resetting(now, rest) && rest[0].timer > 0 && rest[0].timer in timers
      requires timers[rest[0].timer].repeat && !timers[rest[0].timer].canceled
      modifies this`phase, this`timers, this`entries, this`epochal, heap
      ensures Valid() && View() == old(DidReset(View()))
      ensures heap.size > old(heap.size) && Pushed(old(Intact()), old(heap.Storage()))
      ensures epochal <==> old(epochal) && now >= 0
    {
      ghost var s := View();
      var addr := rest[0].timer;
      phase := Resetting(now, rest[1..]);
      timers := timers[addr := timers[addr].Restart(now)];
      epochal := epochal && now >= 0;
      Insert(Entry(timers[addr].expiration, addr));
      ResetReaches(s, View());
    }

    method DeleteTimer(rest: seq<Entry>, now: int)
      requires Valid() && rest != [] && phase == Resetting(now, rest) && rest[0].timer in timers
      requires !timers[rest[0].timer].repeat || timers[rest[0].timer].canceled
      modifies this`phase, this`timers, this`log
      ensures Valid() && View() == old(DidReset(View()))
    {
      ghost var s := View();
      var t := timers[rest[0].timer];
      phase := Resetting(now, rest[1..]);
      timers := timers - {rest[0].timer};
      log := log + [Deleted(t.index)];
      ResetReaches(s, View());
    }

    /** The loop of `reset`. */
    method ResetLoop(expired: seq<Entry>, now: int)
      requires Valid() && phase == Resetting(now, expired)
      modifies this, heap
      ensures Valid() && phase == Resetting(now, []) && View() == ResetAll(old(View()))
      ensures heap.size >= old(heap.size) && Pushed(old(Intact()), old(heap.Storage()))
      ensures old(epochal) && now >= 0 ==> epochal
      ensures heap.size == old(heap.size) ==> heap.vsize == old(heap.vsize)
    {
      ghost var m := View();
      for k := 0 to |expired|
        invariant Valid() && phase == Resetting(now, expired[k..]) && ResetAll(View()) == ResetAll(m)
        invariant heap.size >= old(heap.size) && Pushed(old(Intact()), old(heap.Storage()))
        invariant old(epochal) && now >= 0 ==> epochal
        invariant heap.size == old(heap.size) ==> heap.vsize == old(heap.vsize)
      {
        ghost var i1, st1, size1 := Intact(), heap.Storage(), heap.size;
        ResetOne(expired[k..], now);
        PushedOn(old(Intact()), old(heap.Storage()), i1, st1, size1, Intact(), heap.Storage(), heap.size);
      }
    }

    /** The end of `reset`: arm the timerfd for the top of the heap. */
    method ArmForTop()
      requires Valid() && Intact() && phase.Resetting? && phase.rest == []
      modifies this`armed, this`deadline, this`phase
      ensures Valid() && phase.Idle? && FinishReset(old(View()), View())
    {
      ghost var last := View();
      ReachableEntries(last);
      if !heap.Empty() {
        TopIsMin();
        var nextExpiration := timers[heap.Top().timer].expiration;
        if nextExpiration > 0 {
          armed := nextExpiration;
        }
        assert IsMin(last.heap, heap.Top()) && heap.Top().timer in last.timers;
      }
      phase, deadline := Idle, armed;
      assert FinishReset(last, View());
      ReachableOn(last, View());
    }

    /** Restart or delete every timer of the batch, then arm the timerfd unless the assertion in between fails. */
    method Reset(expired: seq<Entry>, now: int) returns (passed: bool)
      requires Valid() && phase == Resetting(now, expired)
      requires (Intact() && Fits(heap.Storage(), |ResetAll(View()).heap|)) || (epochal && now >= 0)
      modifies this, heap
      ensures Valid() && (passed <==> Intact())
      ensures passed ==> phase.Idle? && FinishReset(ResetAll(old(View())), View())
      ensures heap.size == |ResetAll(old(View())).heap| >= old(heap.size)
      ensures Pushed(old(Intact()), old(heap.Storage()))
      ensures old(epochal) && now >= 0 ==> epochal
      ensures heap.size == old(heap.size) ==> heap.vsize == old(heap.vsize)
    {
      ResetLoop(expired, now);
      passed := AssertOrder();
      if passed {
        ArmForTop();
      }
    }
  }
}
