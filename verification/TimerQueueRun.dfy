/** Whole runs of a timer queue: when they lose no timer. */
module TimerQueueRuns {
  import opened MinHeaps
  import opened TimerProtocol
  import opened TimerQueues

  /** What is done with a queue between events, or by the event of the timerfd. */
  datatype Use = Ask(action: Action) | Tick(now: int, script: seq<seq<Action>>)

  predicate NotNegative(u: Use) {
    match u
    case Ask(a) => AsksNothingNegative(a)
    case Tick(now, script) => now >= 0 && ScriptNotNegative(script)
  }

  /** `s'` is what the protocol makes of `s` by one use. */
  ghost predicate Used(s: State, u: Use, s': State) {
    match u
    case Ask(a) => s' == Acts(s, [a])
    case Tick(now, script) => Round(s, now, script, s')
  }

  /** `s'` is what the protocol makes of `s` by these uses. */
  ghost predicate AllUsed(s: State, uses: seq<Use>, s': State)
    decreases |uses|
  {
    if uses == [] then s' == s else exists m :: Used(s, uses[0], m) && AllUsed(m, uses[1..], s')
  }

  /** One use loses no entry, when the storage before it is `st`. */
  ghost predicate UseFits(s: State, u: Use, st: Store) {
    match u
    case Ask(a) => Fits(st, |Acts(s, [a]).heap|)
    case Tick(now, script) => RoundFits(s, now, script, st)
  }

  /** The storage after a use that loses none. */
  ghost predicate UseStores(s: State, u: Use, st: Store, s': State, st': Store) {
    match u
    case Ask(_) => st' == PushedStore(st, |s'.heap|)
    case Tick(now, _) => RoundStores(s, now, st, s', st')
  }

  /** No use loses an entry. */
  ghost predicate AllFit(s: State, uses: seq<Use>, st: Store)
    decreases |uses|
  {
    uses == [] || (UseFits(s, uses[0], st) && NextFit(s, uses, st))
  }

  ghost predicate NextFit(s: State, uses: seq<Use>, st: Store)
    requires uses != []
    decreases |uses|, 0
  {
    forall s': State, st': Store ::
      Used(s, uses[0], s') && UseStores(s, uses[0], st, s', st') ==> AllFit(s', uses[1..], st')
  }

  // ---------- A use has one outcome ----------

  lemma OneMinimum(heap: multiset<Entry>, e: Entry, f: Entry)
    requires IsMin(heap, e) && IsMin(heap, f)
    ensures e == f
  {
    assert !Less(e, f) && !Less(f, e);
  }

  lemma OneFinish(s: State, s1: State, s2: State)
    requires FinishReset(s, s1) && FinishReset(s, s2)
    ensures s1 == s2
  {
    if s.heap != multiset{} {
      var e :| IsMin(s.heap, e) && e.timer in s.timers &&
               s1.armed == var next := s.timers[e.timer].expiration; if next > 0 then next else s.armed;
      var f :| IsMin(s.heap, f) && f.timer in s.timers &&
               s2.armed == var next := s.timers[f.timer].expiration; if next > 0 then next else s.armed;
      OneMinimum(s.heap, e, f);
    }
  }

  lemma OneOutcome(s: State, u: Use, s1: State, s2: State)
    ensures Used(s, u, s1) && Used(s, u, s2) ==> s1 == s2
  {
    if u.Tick? && Used(s, u, s1) && Used(s, u, s2) {
      var m :| Expire(s, m) && m.phase.now == u.now && FinishReset(Processed(m, u.script), s1);
      OneSplit(s, u.now, m);
      OneFinish(Processed(m, u.script), s1, s2);
    }
  }

  lemma OneStorage(s: State, u: Use, st: Store, s': State, st1: Store, st2: Store)
    ensures Used(s, u, s') && UseStores(s, u, st, s', st1) && UseStores(s, u, st, s', st2) ==> st1 == st2
  {
    if u.Tick? && Used(s, u, s') {
      var m :| Expire(s, m) && m.phase.now == u.now && FinishReset(Processed(m, u.script), s');
    }
  }

  /** Whether the uses after the first fit can be judged by what the first has made. */
  lemma FitsAfterUse(s: State, uses: seq<Use>, st: Store, s': State, st': Store)
    requires uses != []
    requires Used(s, uses[0], s') && UseStores(s, uses[0], st, s', st')
    ensures NextFit(s, uses, st) <==> AllFit(s', uses[1..], st')
  {
    forall s1: State, st1: Store | Used(s, uses[0], s1) && UseStores(s, uses[0], st, s1, st1)
      ensures s1 == s' && st1 == st'
    {
      OneOutcome(s, uses[0], s1, s');
      OneStorage(s, uses[0], st, s', st1, st');
    }
  }

  // ---------- Driving a queue ----------

  method UseOnce(q: TimerQueue, u: Use) returns (passed: bool)
    requires q.Valid() && q.phase.Idle?
    requires (q.Intact() && UseFits(q.View(), u, q.heap.Storage())) || (q.epochal && NotNegative(u))
    modifies q, q.heap
    ensures q.Valid()
    ensures passed && q.Intact() <==> old(q.Intact() && UseFits(q.View(), u, q.heap.Storage()))
    ensures passed ==> q.phase.Idle?
    ensures passed && q.Intact() ==>
              && Used(old(q.View()), u, q.View())
              && UseStores(old(q.View()), u, old(q.heap.Storage()), q.View(), q.heap.Storage())
    ensures old(q.epochal) && NotNegative(u) ==> q.epochal
  {
    passed := true;
    match u
    case Ask(a) => q.RunAction(a);
    case Tick(now, script) => passed := q.HandleRead(now, script);
  }

  /** Over any run, the queue ends with its assertions passed and its entries intact exactly when every use fits
      the storage that the uses before it left; and then it has done what the protocol does. */
  method Drive(q: TimerQueue, uses: seq<Use>) returns (passed: bool)
    requires q.Valid() && q.phase.Idle?
    requires || (q.Intact() && AllFit(q.View(), uses, q.heap.Storage()))
             || (q.epochal && forall u <- uses :: NotNegative(u))
    modifies q, q.heap
    ensures q.Valid()
    ensures passed && q.Intact() <==> old(q.Intact() && AllFit(q.View(), uses, q.heap.Storage()))
    ensures passed && q.Intact() ==> q.phase.Idle? && AllUsed(old(q.View()), uses, q.View())
    decreases |uses|
  {
    passed := true;
    if uses != [] {
      ghost var s, st := q.View(), q.heap.Storage();
      passed := UseOnce(q, uses[0]);
      if passed {
        if q.Intact() {
          FitsAfterUse(s, uses, st, q.View(), q.heap.Storage());
        }
        passed := Drive(q, uses[1..]);
      }
    }
  }

  // ---------- Queues that stay small ----------

  lemma MinExists(heap: multiset<Entry>)
    requires heap != multiset{}
    ensures exists e :: IsMin(heap, e)
    decreases |heap|
  {
    var e :| e in heap;
    var rest := heap - multiset{e};
    assert forall o <- heap :: o == e || o in rest;
    if rest == multiset{} {
      assert IsMin(heap, e);
    } else {
      MinExists(rest);
      var f :| IsMin(rest, f);
      assert IsMin(heap, if Less(e, f) then e else f);
    }
  }

  lemma FinishExists(s: State) returns (s': State)
    requires Reachable(s) && s.phase.Resetting? && s.phase.rest == []
    ensures FinishReset(s, s')
  {
    s' := s.(phase := Idle);
    if s.heap != multiset{} {
      MinExists(s.heap);
      var top :| IsMin(s.heap, top);
      ReachableEntries(s);
      var next := s.timers[top.timer].expiration;
      s' := s.(phase := Idle, armed := if next > 0 then next else s.armed);
      assert IsMin(s.heap, top) && top.timer in s.timers && s'.armed == if next > 0 then next else s.armed;
    }
  }

  lemma ProcessedReaches(s: State, m: State, script: seq<seq<Action>>)
    requires Reachable(s) && Expire(s, m)
    ensures var r := Processed(m, script); Reachable(r) && r.phase.Resetting? && r.phase.rest == []
  {
    ReachableOn(s, m);
    CallAllLeads(m, script);
    var m1 := CallAll(m, script);
    var m2 := m1.(phase := Resetting(m.phase.now, m.phase.batch));
    assert StartReset(m1, m2);
    ReachableOn(m1, m2);
    ResetAllLeads(m2);
  }

  lemma OneAct(s: State, a: Action)
    ensures Acts(s, [a]) == if Allowed(s.timers, a) then Act(s, a) else s
  {
    var s1 := if Allowed(s.timers, a) then Act(s, a) else s;
    assert [a][1..] == [];
    assert Acts(s1, []) == s1;
  }

  lemma UseReaches(s: State, u: Use, s': State)
    requires Reachable(s) && s.phase.Idle? && Used(s, u, s')
    ensures Reachable(s') && s'.phase.Idle?
  {
    match u
    case Ask(a) =>
      OneAct(s, a);
      if Allowed(s.timers, a) {
        ActReaches(s, a);
      }
    case Tick(now, script) =>
      var m :| Expire(s, m) && m.phase.now == now && FinishReset(Processed(m, script), s');
      ProcessedReaches(s, m, script);
      ReachableOn(Processed(m, script), s');
  }

  /** Whatever the protocol makes of `s` by some of the uses, fewer than `n` entries are in the heap. */
  ghost predicate StaysBelow(s: State, uses: seq<Use>, n: nat)
    decreases |uses|
  {
    |s.heap| < n && (uses != [] ==> forall s' :: Used(s, uses[0], s') ==> StaysBelow(s', uses[1..], n))
  }

  lemma SmallUseFits(s: State, uses: seq<Use>, n: nat, st: Store)
    requires Reachable(s) && s.phase.Idle? && uses != [] && StaysBelow(s, uses, n) && n <= st.block
    ensures UseFits(s, uses[0], st)
  {
    match uses[0]
    case Ask(a) =>
      var s' := Acts(s, [a]);
      assert Used(s, uses[0], s') && StaysBelow(s', uses[1..], n);
    case Tick(now, script) =>
      forall m | Expire(s, m) && m.phase.now == now
        ensures |Processed(m, script).heap| < n
      {
        OneSplit(s, now, m);
        ProcessedReaches(s, m, script);
        var s' := FinishExists(Processed(m, script));
        assert Used(s, uses[0], s') && StaysBelow(s', uses[1..], n);
      }
  }

  lemma StorageGrows(s: State, u: Use, st: Store, s': State, st': Store)
    ensures Used(s, u, s') && UseStores(s, u, st, s', st') ==> st'.block >= st.block
  {
    if u.Tick? && Used(s, u, s') {
      var m :| Expire(s, m) && m.phase.now == u.now && FinishReset(Processed(m, u.script), s');
    }
  }

  /** A queue that never holds as many entries as its block, sixteen of a new queue, never loses one. */
  lemma {:induction false} SmallQueueLosesNothing(s: State, uses: seq<Use>, n: nat, st: Store)
    requires Reachable(s) && s.phase.Idle? && StaysBelow(s, uses, n) && 0 < n <= st.block
    ensures AllFit(s, uses, st)
    decreases |uses|
  {
    if uses != [] {
      SmallUseFits(s, uses, n, st);
      forall s': State, st': Store | Used(s, uses[0], s') && UseStores(s, uses[0], st, s', st')
        ensures AllFit(s', uses[1..], st')
      {
        UseReaches(s, uses[0], s');
        StorageGrows(s, uses[0], st, s', st');
        SmallQueueLosesNothing(s', uses[1..], n, st');
      }
    }
  }

  // ---------- A run that loses timers ----------

  /** A round in which the only timer, a one-shot, expires. */
  lemma OneShotRound(s: State, s': State)
    requires s.heap == multiset{Entry(1, 1)} && s.timers == map[1 := Timer(1, 1, 0, false, false)] && s.phase.Idle?
    requires Round(s, 1, [], s')
    ensures s'.heap == multiset{} && s'.timers == map[]
  {
    var m :| Expire(s, m) && m.phase.now == 1 && FinishReset(Processed(m, []), s');
    var batch := [Entry(1, 1)];
    assert SplitAt(s.heap, 1, batch, multiset{});
    SplitUnique(s.heap, 1, m.phase.batch, m.heap, batch, multiset{});
    OneShotProcessed(m);
  }

  lemma OneShotProcessed(m: State)
    requires m.phase == Running(1, [Entry(1, 1)], 0) && m.heap == multiset{}
    requires m.timers == map[1 := Timer(1, 1, 0, false, false)]
    ensures Processed(m, []).heap == multiset{} && Processed(m, []).timers == map[]
  {
    var m1 := RanNext(m);
    assert CallAll(m, []) == CallAll(m1, []) == m1;
    var m2 := m1.(phase := Resetting(1, [Entry(1, 1)]));
    assert DidReset(m2).phase.rest == [] && DidReset(m2).timers == map[];
    assert ResetAll(m2) == DidReset(m2);
  }

  lemma OneShotFits(s: State, st: Store)
    requires s.heap == multiset{Entry(1, 1)} && s.timers == map[1 := Timer(1, 1, 0, false, false)] && s.phase.Idle?
    requires st.block > 0
    ensures RoundFits(s, 1, [], st)
  {
    forall m | Expire(s, m) && m.phase.now == 1
      ensures |m.phase.batch| == 1 && |Processed(m, []).heap| == 0
    {
      assert SplitAt(s.heap, 1, [Entry(1, 1)], multiset{});
      SplitUnique(s.heap, 1, m.phase.batch, m.heap, [Entry(1, 1)], multiset{});
      OneShotProcessed(m);
    }
  }

  /** A queue whose only timer, a one-shot, has fired. */
  method OneShotFired() returns (q: TimerQueue)
    ensures fresh(q) && fresh(q.heap) && q.Valid() && q.Intact() && q.phase.Idle? && q.epochal && q.timers == map[]
    ensures q.heap.size == 0 == q.heap.vsize && |q.heap.mem| == INIT_SIZE
  {
    q := new TimerQueue();
    q.AddTimer(1, 1, 0);
    ghost var s := q.View();
    assert s.heap == multiset{Entry(1, 1)};
    OneShotFits(s, q.heap.Storage());
    var passed := q.HandleRead(1, []);
    OneShotRound(s, q.View());
    assert |multiset(q.heap.Live())| == q.heap.size;
  }

  /** The loss does happen to timers: one fires, sixteen are added, and none of the sixteen has an entry, so
      that `EveryTimerInOnePlace` fails of every one of them. */
  method LossyRun() returns (q: TimerQueue)
    ensures q.heap.size <= |q.heap.mem| && q.phase.Idle? && |q.timers| == INIT_SIZE
    ensures forall a <- q.timers :: Entry(q.timers[a].expiration, a) !in multiset(q.heap.Live())
  {
    q := OneShotFired();
    for k := 1 to INIT_SIZE
      invariant fresh(q) && fresh(q.heap) && q.Valid() && q.phase.Idle?
      invariant |q.timers| == k - 1 && forall a <- q.timers :: 1 <= a < k
      invariant q.heap.size == k - 1 && q.heap.vsize == 0 && |q.heap.mem| == INIT_SIZE
    {
      q.AddTimer(k, k, 0);
    }
    q.AddTimer(INIT_SIZE, INIT_SIZE, 0);
    assert forall e <- multiset(q.heap.Live()) :: e == NULL_ENTRY;
    assert forall a <- q.timers :: a > 0;
  }
}
