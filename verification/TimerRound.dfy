/** What one whole `handleRead` does to every timer, from the entries of the heap it starts with. */
module TimerRounds {
  import opened MinHeaps
  import opened TimerProtocol

  // ---------- The callback loop ----------

  /** What the callback loop leaves as it was: no timer goes away, none changes but by being cancelled,
      no entry leaves the heap. */
  ghost predicate Carried(s: State, s': State) {
    && (forall a <- s.timers :: a in s'.timers && (s'.timers[a] == s.timers[a] || s'.timers[a] == s.timers[a].Cancel()))
    && s.heap <= s'.heap
    && s.log <= s'.log
  }

  lemma {:induction false} CallbacksCarry(b: seq<State>, k: nat)
    requires PathInLoop(b) && b[0].phase.Running? && k < |b|
    ensures Carried(b[0], b[k])
  {
    if k > 0 {
      CallbacksCarry(b, k - 1);
      assert Next(b[k - 1], b[k - 1 + 1]);
      if ActStep(b[k - 1], b[k]) {
        var a :| Allowed(b[k - 1].timers, a) && b[k] == Act(b[k - 1], a);
      }
    }
  }

  /** The event `ev` is the call of the timer of the entry `e`, by its index in `s0`, in a round at `now`. */
  ghost predicate CallOf(s0: State, ev: Event, now: int, e: Entry) {
    && e.timer in s0.timers
    && var t := s0.timers[e.timer];
    && ev == Ran(t.index, now, e.when, t.interval == 0)
  }

  /** The calls in `log` from position `from` on are of the first `n` entries of the batch. */
  ghost predicate CallsAreTurns(s0: State, log: seq<Event>, from: nat, now: int, batch: seq<Entry>, n: nat) {
    forall p :: from <= p < |log| && log[p].Ran? ==>
      exists j :: 0 <= j < n && j < |batch| && CallOf(s0, log[p], now, batch[j])
  }

  /** They come in the order of the batch, and no entry's comes twice. */
  ghost predicate CallsAscend(s0: State, log: seq<Event>, from: nat, now: int, batch: seq<Entry>) {
    forall p, q, i, j ::
      (&& from <= p < q < |log| && 0 <= i < |batch| && 0 <= j < |batch|
       && CallOf(s0, log[p], now, batch[i]) && CallOf(s0, log[q], now, batch[j])) ==> i < j
  }

  /** No two entries of the batch have the same timer. */
  ghost predicate DistinctCallees(s0: State, batch: seq<Entry>) {
    forall i, j, ev, now ::
      (&& 0 <= i < |batch| && 0 <= j < |batch|
       && CallOf(s0, ev, now, batch[i]) && CallOf(s0, ev, now, batch[j])) ==> i == j
  }

  /** Since `s0`, of the batch in processing, nothing was called but timers that had their turn, each once and in
      the order of the batch. */
  ghost predicate CalledSoFar(s0: State, s: State)
    requires s.phase.Running?
  {
    && CallsAreTurns(s0, s.log, |s0.log|, s.phase.now, s.phase.batch, s.phase.next)
    && CallsAscend(s0, s.log, |s0.log|, s.phase.now, s.phase.batch)
  }

  lemma BatchCallees(s0: State)
    requires Inv(s0) && s0.phase.Running?
    ensures DistinctCallees(s0, s0.phase.batch)
  {
    var batch := s0.phase.batch;
    forall i, j, ev, now | 0 <= i < |batch| && 0 <= j < |batch|
                           && CallOf(s0, ev, now, batch[i]) && CallOf(s0, ev, now, batch[j])
      ensures i == j
    {
      if i < j {
        EntryOnce(s0, i, j);
      } else if j < i {
        EntryOnce(s0, j, i);
      }
    }
  }

  /** The call of the next entry comes after all that were called before. */
  lemma OneCallMore(s0: State, log: seq<Event>, from: nat, now: int, batch: seq<Entry>, n: nat, ev: Event)
    requires DistinctCallees(s0, batch) && from <= |log| && n < |batch| && CallOf(s0, ev, now, batch[n])
    requires CallsAreTurns(s0, log, from, now, batch, n) && CallsAscend(s0, log, from, now, batch)
    ensures CallsAreTurns(s0, log + [ev], from, now, batch, n + 1) && CallsAscend(s0, log + [ev], from, now, batch)
  {
    var log' := log + [ev];
    forall p, q, i, j | && from <= p < q < |log'| && 0 <= i < |batch| && 0 <= j < |batch|
                        && CallOf(s0, log'[p], now, batch[i]) && CallOf(s0, log'[q], now, batch[j])
      ensures i < j
    {
      assert log'[p] == log[p];
      if q == |log| {
        assert j == n;
        var k :| 0 <= k < n && k < |batch| && CallOf(s0, log[p], now, batch[k]);
        assert i == k;
      } else {
        assert log'[q] == log[q];
      }
    }
    forall p | from <= p < |log'| && log'[p].Ran?
      ensures exists j :: 0 <= j < n + 1 && j < |batch| && CallOf(s0, log'[p], now, batch[j])
    {
      if p < |log| {
        var j :| 0 <= j < n && j < |batch| && CallOf(s0, log[p], now, batch[j]);
        assert CallOf(s0, log'[p], now, batch[j]);
      }
    }
  }

  lemma NoCallMore(s0: State, log: seq<Event>, from: nat, now: int, batch: seq<Entry>, n: nat, ev: Event)
    requires !ev.Ran? && CallsAreTurns(s0, log, from, now, batch, n) && CallsAscend(s0, log, from, now, batch)
    ensures CallsAreTurns(s0, log + [ev], from, now, batch, n) && CallsAscend(s0, log + [ev], from, now, batch)
  {
    var log' := log + [ev];
    forall p, q, i, j | && from <= p < q < |log'| && 0 <= i < |batch| && 0 <= j < |batch|
                        && CallOf(s0, log'[p], now, batch[i]) && CallOf(s0, log'[q], now, batch[j])
      ensures i < j
    {
      assert q < |log| && log'[p] == log[p] && log'[q] == log[q];
    }
  }

  lemma NextCall(s0: State, s: State, s': State)
    requires RunNext(s, s') && DistinctCallees(s0, s.phase.batch) && Carried(s0, s) && CalledSoFar(s0, s)
    requires s.phase.batch[s.phase.next].timer in s0.timers
    requires s.timers[s.phase.batch[s.phase.next].timer].index == s0.timers[s.phase.batch[s.phase.next].timer].index
    ensures CalledSoFar(s0, s')
  {
    if s'.log != s.log {
      var e := s.phase.batch[s.phase.next];
      var t := s.timers[e.timer];
      var ev := Ran(t.index, s.phase.now, e.when, t.interval == 0);
      assert CallOf(s0, ev, s.phase.now, e);
      OneCallMore(s0, s.log, |s0.log|, s.phase.now, s.phase.batch, s.phase.next, ev);
    }
  }

  lemma {:induction false} LeadsReaches(b: seq<State>, k: nat)
    requires PathInLoop(b) && Reachable(b[0]) && k < |b|
    ensures Reachable(b[k])
  {
    if k > 0 {
      LeadsReaches(b, k - 1);
      assert Next(b[k - 1], b[k - 1 + 1]);
      ReachableOn(b[k - 1], b[k]);
    }
  }

  lemma {:induction false} CallsInOrder(b: seq<State>, k: nat)
    requires PathInLoop(b) && k < |b| && b[0].phase.Running? && Reachable(b[0])
    ensures SameLoop(b[0].phase, b[k].phase) && CalledSoFar(b[0], b[k])
  {
    if k > 0 {
      CallsInOrder(b, k - 1);
      CallbacksCarry(b, k - 1);
      assert Next(b[k - 1], b[k - 1 + 1]);
      assert SameLoop(b[0].phase, b[k].phase) && SameLoop(b[0].phase, b[k - 1].phase);
      StepCalls(b[0], b[k - 1], b[k]);
    }
  }

  lemma StepCalls(s0: State, s: State, s': State)
    requires Reachable(s0) && s0.phase.Running? && SameLoop(s0.phase, s.phase) && SameLoop(s0.phase, s'.phase)
    requires Carried(s0, s) && CalledSoFar(s0, s) && Next(s, s')
    ensures CalledSoFar(s0, s')
  {
    if ActStep(s, s') {
      ActCallsNothing(s0, s, s');
    } else {
      assert RunNext(s, s');
      PendingKnown(s0, s.phase.next);
      ReachableInv(s0);
      BatchCallees(s0);
      NextCall(s0, s, s');
    }
  }

  lemma ActCallsNothing(s0: State, s: State, s': State)
    requires s.phase.Running? && CalledSoFar(s0, s) && ActStep(s, s')
    ensures s'.phase == s.phase && CalledSoFar(s0, s')
  {
    var a :| Allowed(s.timers, a) && s' == Act(s, a);
    if a.Cancel? {
      var ev := Canceled(s.timers[a.addr].index);
      NoCallMore(s0, s.log, |s0.log|, s.phase.now, s.phase.batch, s.phase.next, ev);
    }
  }

  // ---------- The loop of `reset` ----------

  /** The timer `t` of a processed batch entry, which had address `a`, is re-armed if it repeats and gone if not. */
  ghost predicate Settled(s: State, now: int, a: nat, t: Timer) {
    if t.repeat && !t.canceled then
      a in s.timers && s.timers[a] == t.Restart(now) && Entry(now + t.interval, a) in s.heap
    else Deleted(t.index) in s.log
  }

  /** What the loop of `reset`, started in `s0`, has made of the timer of the `i`-th entry. */
  ghost predicate TimerSoFar(s0: State, s: State, i: nat)
    requires s0.phase.Resetting? && s.phase.Resetting? && i < |s0.phase.rest|
  {
    var a := s0.phase.rest[i].timer;
    && a in s0.timers
    && if i < |s0.phase.rest| - |s.phase.rest| then Settled(s, s.phase.now, a, s0.timers[a])
       else a in s.timers && s.timers[a] == s0.timers[a]
  }

  /** The loop of `reset`, started in `s0`, has left `s.phase.rest` to do. */
  ghost predicate ResetSoFar(s0: State, s: State) {
    && s0.phase.Resetting? && s.phase.Resetting? && s.phase.now == s0.phase.now
    && |s.phase.rest| <= |s0.phase.rest| && s.phase.rest == s0.phase.rest[|s0.phase.rest| - |s.phase.rest|..]
    && (forall i :: 0 <= i < |s0.phase.rest| ==> TimerSoFar(s0, s, i))
    && s0.heap <= s.heap && s0.log <= s.log
    && (forall p :: |s0.log| <= p < |s.log| ==> s.log[p].Deleted?)
  }

  ghost predicate DistinctTimers(b: seq<Entry>) {
    forall i, j :: 0 <= i < j < |b| ==> b[i].timer != b[j].timer
  }

  lemma SettledStays(s: State, s': State, now: int, a: nat, t: Timer)
    requires Settled(s, now, a, t) && ResetNext(s, s') && s.phase.rest[0].timer != a
    ensures Settled(s', now, a, t)
  {
  }

  lemma OneTimerMore(s0: State, s: State, s': State, i: nat)
    requires s0.phase.Resetting? && s.phase.Resetting? && s.phase.now == s0.phase.now
    requires DistinctTimers(s0.phase.rest) && i < |s0.phase.rest| && 0 < |s.phase.rest| <= |s0.phase.rest|
    requires s.phase.rest[0] == s0.phase.rest[|s0.phase.rest| - |s.phase.rest|] && ResetNext(s, s')
    requires TimerSoFar(s0, s, i)
    ensures TimerSoFar(s0, s', i)
  {
    var a := s0.phase.rest[i].timer;
    if i < |s0.phase.rest| - |s.phase.rest| {
      SettledStays(s, s', s.phase.now, a, s0.timers[a]);
    }
  }

  lemma ResetOneMore(s0: State, s: State, s': State)
    requires s0.phase.Resetting? && DistinctTimers(s0.phase.rest) && ResetSoFar(s0, s) && ResetNext(s, s')
    ensures ResetSoFar(s0, s')
  {
    var rest := s0.phase.rest;
    forall i | 0 <= i < |rest| ensures TimerSoFar(s0, s', i) {
      OneTimerMore(s0, s, s', i);
    }
  }

  lemma BatchDistinct(s: State)
    requires EntriesAgree(s)
    ensures DistinctTimers(Pending(s)) && forall e <- Pending(s) :: e.timer in s.timers
  {
    forall i, j | 0 <= i < j < |Pending(s)| ensures Pending(s)[i].timer != Pending(s)[j].timer {
      EntryOnce(s, i, j);
    }
    forall e <- Pending(s) ensures e.timer in s.timers {
      assert e in Held(s);
    }
  }

  lemma {:induction false} ResetProceeds(b: seq<State>, k: nat)
    requires PathInLoop(b) && k < |b| && b[0].phase.Resetting? && EntriesAgree(b[0])
    ensures ResetSoFar(b[0], b[k])
  {
    BatchDistinct(b[0]);
    if k > 0 {
      ResetProceeds(b, k - 1);
      assert Next(b[k - 1], b[k - 1 + 1]);
      assert SameLoop(b[0].phase, b[k].phase);
      ResetOneMore(b[0], b[k - 1], b[k]);
    }
  }

  // ---------- The whole round ----------

  lemma CallbackLoop(s: State, s': State)
    requires Reachable(s) && s.phase.Running? && Leads(s, s')
    ensures Reachable(s') && Carried(s, s')
    ensures s'.phase.Running? && s'.phase.now == s.phase.now && s'.phase.batch == s.phase.batch && CalledSoFar(s, s')
  {
    var b: seq<State> :| PathInLoop(b) && b[0] == s && b[|b| - 1] == s';
    LeadsReaches(b, |b| - 1);
    CallbacksCarry(b, |b| - 1);
    CallsInOrder(b, |b| - 1);
    assert SameLoop(b[0].phase, b[|b| - 1].phase);
  }

  lemma ResetLoop(s: State, s': State)
    requires Reachable(s) && s.phase.Resetting? && Leads(s, s')
    ensures Reachable(s') && ResetSoFar(s, s')
  {
    var b: seq<State> :| PathInLoop(b) && b[0] == s && b[|b| - 1] == s';
    ReachableInv(s);
    LeadsReaches(b, |b| - 1);
    ResetProceeds(b, |b| - 1);
  }

  /** What becomes of the entry `e` in a round at time `now`: an entry that is not due stays. The timer of
      one that is due is called, unless it has been cancelled; then it is re-armed at `now` plus its
      interval if it repeats and nobody cancelled it, and deleted otherwise. */
  ghost predicate Handled(e: Entry, t: Timer, now: int, s': State) {
    if e.when > now then e in s'.heap
    else
      && (Ran(t.index, now, e.when, t.interval == 0) in s'.log || Canceled(t.index) in s'.log)
      && if t.interval > 0 && Canceled(t.index) !in s'.log then
           e.timer in s'.timers && s'.timers[e.timer] == t.Restart(now) && Entry(now + t.interval, e.timer) in s'.heap
         else Deleted(t.index) in s'.log
  }

  /** When the callbacks are over, the log and the cancellation flag of a timer of the batch agree. */
  lemma FlagAndLog(s: State, i: nat)
    requires Reachable(s) && s.phase.Resetting? && i < |s.phase.rest|
    ensures var e := s.phase.rest[i];
            && e.timer in s.timers
            && var t := s.timers[e.timer];
            && t.expiration == e.when
            && (t.canceled <==> Canceled(t.index) in s.log)
            && (t.repeat <==> t.interval > 0 && !t.canceled)
            && (t.canceled || Ran(t.index, s.phase.now, e.when, t.interval == 0) in s.log)
  {
    var b: seq<State> :| Run(b) && b[|b| - 1] == s;
    RunKeepsInv(b, |b| - 1);
    RunDropsNone(b, |b| - 1);
    assert s.phase.rest[i] in Held(s);
    assert HadTurn(s.phase, s.phase.rest[i].timer);
    assert TurnUsed(s, s.phase.rest[i].timer);
  }

  /** The states between the parts of a round. */
  lemma RoundParts(s: State, now: int, script: seq<seq<Action>>, s': State) returns (m0: State, m2: State, m3: State)
    requires Reachable(s) && Round(s, now, script, s')
    ensures Expire(s, m0) && m0.phase.now == now && m0.log == s.log && m0.timers == s.timers && Reachable(m0)
    ensures Reachable(m2) && m2.phase == Resetting(now, m0.phase.batch)
    ensures Carried(m0, m2) && CalledSoFar(m0, m2.(phase := Running(now, m0.phase.batch, |m0.phase.batch|)))
    ensures ResetSoFar(m2, m3) && m3.phase.rest == []
    ensures s'.log == m3.log && s'.heap == m3.heap && s'.timers == m3.timers
  {
    m0 :| Expire(s, m0) && m0.phase.now == now && FinishReset(Processed(m0, script), s');
    ReachableOn(s, m0);
    CallAllLeads(m0, script);
    var m1 := CallAll(m0, script);
    CallbackLoop(m0, m1);
    m2 := m1.(phase := Resetting(now, m0.phase.batch));
    assert StartReset(m1, m2);
    ReachableOn(m1, m2);
    ResetAllLeads(m2);
    m3 := ResetAll(m2);
    ResetLoop(m2, m3);
    assert m2.(phase := Running(now, m0.phase.batch, |m0.phase.batch|)) == m1;
  }

  ghost predicate AllHandled(s: State, now: int, s': State) {
    forall e <- s.heap :: e.timer in s.timers && Handled(e, s.timers[e.timer], now, s')
  }

  /** Every entry of the heap is handled by the round. */
  lemma RoundHandles(s: State, now: int, script: seq<seq<Action>>, s': State)
    requires Reachable(s) && Round(s, now, script, s')
    ensures AllHandled(s, now, s')
  {
    var m0, m2, m3 := RoundParts(s, now, script, s');
    ReachableInv(s);
    forall e <- s.heap ensures e.timer in s.timers && Handled(e, s.timers[e.timer], now, s') {
      assert e in Held(s);
      if e.when > now {
        assert e in m0.heap;
      } else {
        DueIsHandled(m0, m2, m3, e);
      }
    }
  }

  lemma DueIsHandled(m0: State, m2: State, m3: State, e: Entry)
    requires m0.phase.Running? && e in m0.phase.batch && e.when <= m0.phase.now && e.timer in m0.timers
    requires Carried(m0, m2)
    requires m2.phase == Resetting(m0.phase.now, m0.phase.batch) && Reachable(m2)
    requires ResetSoFar(m2, m3) && m3.phase.rest == []
    ensures Handled(e, m0.timers[e.timer], m0.phase.now, m3)
  {
    var i :| 0 <= i < |m2.phase.rest| && m2.phase.rest[i] == e;
    FlagAndLog(m2, i);
    assert TimerSoFar(m2, m3, i);
  }

  /** Nothing was called between `s` and `s'` but the timers of entries that were due. */
  ghost predicate OnlyDueCalled(s: State, now: int, s': State) {
    forall p :: |s.log| <= p < |s'.log| && s'.log[p].Ran? ==>
      exists e :: e in s.heap && e.when <= now && CallOf(s, s'.log[p], now, e)
  }

  /** What was called was called in the order of its entries, and no timer twice. */
  ghost predicate CalledInOrder(s: State, now: int, s': State) {
    forall p, q, e, f ::
      (&& |s.log| <= p < q < |s'.log| && e in s.heap && f in s.heap
       && CallOf(s, s'.log[p], now, e) && CallOf(s, s'.log[q], now, f)) ==>
        Less(e, f) && s'.log[p].index != s'.log[q].index
  }

  /** A round calls nothing but the timers of entries that were due when it began. */
  lemma RoundCallsDue(s: State, now: int, script: seq<seq<Action>>, s': State)
    requires Reachable(s) && Round(s, now, script, s')
    ensures OnlyDueCalled(s, now, s')
  {
    var m0, m2, m3 := RoundParts(s, now, script, s');
    forall p | |s.log| <= p < |s'.log| && s'.log[p].Ran?
      ensures exists e :: e in s.heap && e.when <= now && CallOf(s, s'.log[p], now, e)
    {
      var i := Position(s, m0, m2, m3, p);
      assert m0.phase.batch[i] in s.heap;
    }
  }

  /** It calls each at most once, and in the order of their entries. */
  lemma RoundCallsInOrder(s: State, now: int, script: seq<seq<Action>>, s': State)
    requires Reachable(s) && Round(s, now, script, s')
    ensures CalledInOrder(s, now, s')
  {
    var m0, m2, m3 := RoundParts(s, now, script, s');
    ReachableInv(s);
    forall p, q, e, f | && |s.log| <= p < q < |s'.log| && e in s.heap && f in s.heap
                        && CallOf(s, s'.log[p], now, e) && CallOf(s, s'.log[q], now, f)
      ensures Less(e, f) && s'.log[p].index != s'.log[q].index
    {
      OneEntry(s, s'.log, p, now, e);
      OneEntry(s, s'.log, q, now, f);
      var i := EntryOfCall(s, m0, m2, m3, p, e);
      var j := EntryOfCall(s, m0, m2, m3, q, f);
      Ascend(m0, m2.log, |s.log|, now, p, q, i, j);
      if s'.log[p].index == s'.log[q].index {
        SameIndexSameEntry(s, e, f);
      }
    }
  }

  /** The entry whose timer was called is in the batch. */
  lemma EntryOfCall(s: State, m0: State, m2: State, m3: State, p: nat, e: Entry) returns (i: nat)
    requires Expire(s, m0) && m0.timers == s.timers && m0.log == s.log && OnlyEntry(s, m3.log, p, m0.phase.now, e)
    requires m2.phase.Resetting? && ResetSoFar(m2, m3) && |s.log| <= p < |m3.log|
    requires CalledSoFar(m0, m2.(phase := Running(m0.phase.now, m0.phase.batch, |m0.phase.batch|)))
    ensures i < |m0.phase.batch| && m0.phase.batch[i] == e && p < |m2.log|
    ensures CallOf(m0, m2.log[p], m0.phase.now, m0.phase.batch[i])
  {
    i := Position(s, m0, m2, m3, p);
    OldEvents(m2, m3, p);
    assert m0.phase.batch[i] in s.heap;
  }

  lemma Ascend(m0: State, log: seq<Event>, from: nat, now: int, p: nat, q: nat, i: nat, j: nat)
    requires m0.phase.Running? && Sorted(m0.phase.batch) && CallsAscend(m0, log, from, now, m0.phase.batch)
    requires from <= p < q < |log| && i < |m0.phase.batch| && j < |m0.phase.batch|
    requires CallOf(m0, log[p], now, m0.phase.batch[i]) && CallOf(m0, log[q], now, m0.phase.batch[j])
    ensures Less(m0.phase.batch[i], m0.phase.batch[j])
  {
  }

  lemma SameIndexSameEntry(s: State, e: Entry, f: Entry)
    requires Inv(s) && e in s.heap && f in s.heap && e.timer in s.timers && f.timer in s.timers
    requires s.timers[e.timer].index == s.timers[f.timer].index
    ensures e == f
  {
    assert e in Held(s) && f in Held(s);
  }

  /** The position in the batch of the entry whose timer was called. */
  lemma Position(s: State, m0: State, m2: State, m3: State, p: nat) returns (i: nat)
    requires m0.phase.Running? && m0.timers == s.timers && m0.log == s.log
    requires m2.phase.Resetting? && ResetSoFar(m2, m3) && |s.log| <= p < |m3.log| && m3.log[p].Ran?
    requires CalledSoFar(m0, m2.(phase := Running(m0.phase.now, m0.phase.batch, |m0.phase.batch|)))
    ensures i < |m0.phase.batch| && CallOf(s, m3.log[p], m0.phase.now, m0.phase.batch[i])
    ensures CallOf(m0, m3.log[p], m0.phase.now, m0.phase.batch[i])
  {
    OldEvents(m2, m3, p);
    i :| 0 <= i < |m0.phase.batch| && CallOf(m0, m2.log[p], m0.phase.now, m0.phase.batch[i]);
  }

  /** The event at `p` is the call of the entry `e` of the heap and of no other. */
  ghost predicate OnlyEntry(s: State, log: seq<Event>, p: nat, now: int, e: Entry) {
    && p < |log| && CallOf(s, log[p], now, e)
    && forall f :: f in s.heap && CallOf(s, log[p], now, f) ==> f == e
  }

  lemma OneEntry(s: State, log: seq<Event>, p: nat, now: int, e: Entry)
    requires Inv(s) && e in s.heap && p < |log| && CallOf(s, log[p], now, e)
    ensures OnlyEntry(s, log, p, now, e)
  {
    forall f | f in s.heap && CallOf(s, log[p], now, f) ensures f == e {
      SameIndexSameEntry(s, e, f);
    }
  }

  /** The loop of `reset` logs no calls. */
  lemma OldEvents(m2: State, m3: State, q: nat)
    requires ResetSoFar(m2, m3) && q < |m3.log| && m3.log[q].Ran?
    ensures q < |m2.log| && m2.log[q] == m3.log[q]
  {
  }

  // ---------- A round can always happen ----------

  ghost predicate DistinctEntries(heap: multiset<Entry>) {
    forall e <- heap :: heap[e] == 1
  }

  lemma {:induction false} SomeMin(heap: multiset<Entry>) returns (e: Entry)
    requires heap != multiset{}
    ensures IsMin(heap, e)
    decreases |heap|
  {
    e :| e in heap;
    var others := heap - multiset{e};
    assert heap == others + multiset{e};
    if others != multiset{} {
      var f := SomeMin(others);
      if Less(f, e) {
        e := f;
      }
    }
  }

  /** At any time a heap of distinct entries can be split. */
  lemma {:induction false} SplitExists(heap: multiset<Entry>, now: int)
    returns (batch: seq<Entry>, rest: multiset<Entry>)
    requires DistinctEntries(heap)
    ensures SplitAt(heap, now, batch, rest)
    decreases |heap|
  {
    if heap == multiset{} {
      batch, rest := [], heap;
      return;
    }
    var m := SomeMin(heap);
    if m.when > now {
      batch, rest := [], heap;
      assert forall e <- heap :: e.when > now;
      return;
    }
    var others := heap - multiset{m};
    var b, r := SplitExists(others, now);
    batch, rest := [m] + b, r;
    assert heap == multiset{m} + others;
    MinFirst(heap, m, b, r);
  }

  /** Due is every entry up to and including the time, and nothing else. */
  lemma SplitMeans(heap: multiset<Entry>, now: int, batch: seq<Entry>, rest: multiset<Entry>, e: Entry)
    requires SplitAt(heap, now, batch, rest) && e in heap
    ensures e in batch <==> e.when <= now
    ensures e in rest <==> e.when > now
  {
    SplitCount(heap, now, batch, rest, e);
    assert e in batch <==> e in multiset(batch);
  }

  lemma MinFirst(heap: multiset<Entry>, m: Entry, b: seq<Entry>, r: multiset<Entry>)
    requires DistinctEntries(heap) && IsMin(heap, m) && heap - multiset{m} == multiset(b) + r && Sorted(b)
    ensures Sorted([m] + b) && multiset([m] + b) == multiset{m} + multiset(b) && m !in r
  {
    forall e <- b ensures Less(m, e) {
      assert e in multiset(b) && e in heap - multiset{m};
      assert heap[e] == 1 && e != m;
    }
    assert m !in heap - multiset{m};
  }

  /** In every idle state that a run reaches, at any time and whatever its callbacks ask for, one `handleRead` is
      possible, and leaves an idle state that a run reaches. */
  lemma RoundPossible(s: State, now: int, script: seq<seq<Action>>) returns (s': State)
    requires Reachable(s) && s.phase.Idle?
    ensures Round(s, now, script, s') && Reachable(s') && s'.phase.Idle?
  {
    ReachableInv(s);
    assert Held(s) == s.heap;
    var batch, rest := SplitExists(s.heap, now);
    var m := s.(heap := rest, phase := Running(now, batch, 0));
    assert Expire(s, m);
    ReachableOn(s, m);
    CallAllLeads(m, script);
    var c := CallAll(m, script);
    var d := c.(phase := Resetting(now, batch));
    assert StartReset(c, d);
    ReachableOn(c, d);
    ResetAllLeads(d);
    s' := ResetEnds(ResetAll(d));
    ReachableOn(ResetAll(d), s');
  }

  lemma ResetEnds(s: State) returns (s': State)
    requires Reachable(s) && s.phase.Resetting? && s.phase.rest == []
    ensures FinishReset(s, s')
  {
    ReachableInv(s);
    if s.heap == multiset{} {
      s' := s.(phase := Idle);
    } else {
      var top := SomeMin(s.heap);
      assert top in Held(s);
      var next := s.timers[top.timer].expiration;
      s' := s.(phase := Idle, armed := if next > 0 then next else s.armed);
    }
  }

  /** A run begins without timers, whatever the timerfd was armed for. */
  lemma EmptyIsReachable(armed: int)
    ensures Reachable(State(multiset{}, map[], 0, armed, Idle, []))
  {
    var s := State(multiset{}, map[], 0, armed, Idle, []);
    assert Run([s]) && [s][|[s]| - 1] == s;
  }

  /** The timerfd is armed for nothing but the earliest entry of the heap, and by `reset` for a valid time only. */
  lemma ArmedOnlyForEarliest(s: State, s': State)
    requires Inv(s) && Next(s, s') && s'.armed != s.armed
    ensures exists e :: Earliest(s'.heap, e) && s'.armed == e.when
    ensures s.phase.Resetting? ==> s'.armed > 0
  {
    if FinishReset(s, s') {
      ResetArms(s, s');
    } else {
      var a :| Allowed(s.timers, a) && s' == Act(s, a);
      assert Earliest(s'.heap, Entry(a.when, a.addr));
    }
  }

  lemma ResetArms(s: State, s': State)
    requires EntriesAgree(s) && FinishReset(s, s') && s'.armed != s.armed
    ensures exists e :: Earliest(s'.heap, e) && s'.armed == e.when
    ensures s'.armed > 0
  {
    var top :| IsMin(s.heap, top) && top.timer in s.timers && s'.armed == s.timers[top.timer].expiration;
    assert top in Held(s);
    assert Earliest(s'.heap, top);
  }

  /** Outside `reset` user code can add a timer at any free address, for any time and with any interval, and cancel
      any live one. */
  lemma ActionsPossible(s: State, addr: nat, when: int, interval: nat)
    requires !s.phase.Resetting?
    ensures 0 < addr < 0xFFFF_FFFF_FFFF_FFFF && addr !in s.timers ==>
              exists s' ::
                && Next(s, s') && s'.heap == s.heap + multiset{Entry(when, addr)}
                && s'.timers == s.timers[addr := Timer(s.created + 1, when, interval, interval > 0, false)]
    ensures addr in s.timers ==>
              exists s' ::
                && Next(s, s') && s'.heap == s.heap && s'.armed == s.armed && s'.phase == s.phase
                && s'.timers == s.timers[addr := s.timers[addr].(canceled := true, repeat := false)]
  {
    if 0 < addr < UINTPTR_MAX && addr !in s.timers {
      var s' := Act(s, Add(addr, when, interval));
      assert ActStep(s, s');
    }
    if addr in s.timers {
      var s' := Act(s, Action.Cancel(addr));
      assert ActStep(s, s');
    }
  }
}
