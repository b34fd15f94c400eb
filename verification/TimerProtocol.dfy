/** What the timer queue of muduo/net/TimerQueue.cc does, step by step.

    Timer objects live in a memory that maps an address to a record; `delete` takes the address
    out, and an address may be used again afterwards. The states below also carry a log of what
    became of each timer, named by its creation index, over which the promises are stated. */
module TimerProtocol {
  import opened MinHeaps

  const UINTPTR_MAX := 0xFFFF_FFFF_FFFF_FFFF

  datatype Timer = Timer(index: nat, expiration: int, interval: nat, repeat: bool, canceled: bool)
  {
    function Cancel(): Timer {
      this.(canceled := true, repeat := false)
    }

    /** `Timestamp::invalid()` is the zero timestamp. */
    function Restart(now: int): Timer {
      this.(expiration := if repeat then now + interval else 0)
    }
  }

  datatype Event =
    | Ran(index: nat, now: int, due: int, oneShot: bool)
    | Canceled(index: nat)
    | Deleted(index: nat)

  /** `Running` is the callback loop of `handleRead`, `Resetting` the loop of `reset`. */
  datatype Phase =
    | Idle
    | Running(now: int, batch: seq<Entry>, next: nat)
    | Resetting(now: int, rest: seq<Entry>)

  datatype State = State(
    heap: multiset<Entry>,
    timers: map<nat, Timer>,
    created: nat,
    armed: int,
    phase: Phase,
    log: seq<Event>)

  /** What user code, inside a callback or between events, may ask for. The allocator picks any
      address not in use; only a live timer may be cancelled. */
  datatype Action = Add(addr: nat, when: int, interval: nat) | Cancel(addr: nat)

  predicate Allowed(timers: map<nat, Timer>, a: Action) {
    match a
    case Add(addr, _, _) => 0 < addr < UINTPTR_MAX && addr !in timers
    case Cancel(addr) => addr in timers
  }

  ghost predicate Precedes(when: int, heap: multiset<Entry>) {
    forall e <- heap :: when < e.when
  }

  /** `addTimerInLoop` and `cancelInLoop`. */
  ghost function Act(s: State, a: Action): State
    requires Allowed(s.timers, a)
  {
    match a
    case Add(addr, when, interval) =>
      s.(heap := s.heap + multiset{Entry(when, addr)},
         timers := s.timers[addr := Timer(s.created + 1, when, interval, interval > 0, false)],
         created := s.created + 1,
         armed := if Precedes(when, s.heap) then when else s.armed)
    case Cancel(addr) =>
      s.(timers := s.timers[addr := s.timers[addr].Cancel()],
         log := s.log + [Canceled(s.timers[addr].index)])
  }

  ghost predicate Sorted(b: seq<Entry>) {
    forall i, j :: 0 <= i < j < |b| ==> Less(b[i], b[j])
  }

  /** `batch` and `rest` split `heap` at time `now`. */
  ghost predicate SplitAt(heap: multiset<Entry>, now: int, batch: seq<Entry>, rest: multiset<Entry>) {
    && Sorted(batch)
    && heap == multiset(batch) + rest
    && (forall k :: 0 <= k < |batch| ==> batch[k].when <= now)
    && (forall e <- rest :: e.when > now)
  }

  ghost predicate Expire(s: State, s': State) {
    && s.phase.Idle?
    && s'.phase.Running? && s'.phase.next == 0
    && SplitAt(s.heap, s'.phase.now, s'.phase.batch, s'.heap)
    && s' == s.(heap := s'.heap, phase := s'.phase)
  }

  ghost predicate MayRunNext(s: State) {
    s.phase.Running? && s.phase.next < |s.phase.batch| && s.phase.batch[s.phase.next].timer in s.timers
  }

  /** One round of the callback loop; what the callback itself does follows as `Act` steps. */
  ghost function RanNext(s: State): State
    requires MayRunNext(s)
  {
    var e := s.phase.batch[s.phase.next];
    var t := s.timers[e.timer];
    s.(phase := s.phase.(next := s.phase.next + 1),
       log := if t.canceled then s.log else s.log + [Ran(t.index, s.phase.now, e.when, t.interval == 0)])
  }

  ghost predicate RunNext(s: State, s': State) {
    MayRunNext(s) && s' == RanNext(s)
  }

  ghost predicate StartReset(s: State, s': State) {
    && s.phase.Running? && s.phase.next == |s.phase.batch|
    && s' == s.(phase := Resetting(s.phase.now, s.phase.batch))
  }

  ghost predicate MayResetNext(s: State) {
    s.phase.Resetting? && s.phase.rest != [] && s.phase.rest[0].timer in s.timers
  }

  /** One round of the loop of `reset`. */
  ghost function DidReset(s: State): State
    requires MayResetNext(s)
  {
    var addr := s.phase.rest[0].timer;
    var t := s.timers[addr];
    if t.repeat && !t.canceled then
      s.(phase := Resetting(s.phase.now, s.phase.rest[1..]),
         timers := s.timers[addr := t.Restart(s.phase.now)],
         heap := s.heap + multiset{Entry(t.Restart(s.phase.now).expiration, addr)})
    else
      s.(phase := Resetting(s.phase.now, s.phase.rest[1..]),
         timers := s.timers - {addr},
         log := s.log + [Deleted(t.index)])
  }

  ghost predicate ResetNext(s: State, s': State) {
    MayResetNext(s) && s' == DidReset(s)
  }

  ghost predicate IsMin(heap: multiset<Entry>, e: Entry) {
    e in heap && forall o <- heap :: !Less(o, e)
  }

  ghost predicate Earliest(heap: multiset<Entry>, e: Entry) {
    e in heap && forall o <- heap :: e.when <= o.when
  }

  /** The end of `reset`: arm the timerfd for the earliest timer, unless its expiration is invalid. */
  ghost predicate FinishReset(s: State, s': State) {
    && s.phase.Resetting? && s.phase.rest == []
    && s' == s.(phase := Idle, armed := s'.armed)
    && if s.heap == multiset{} then s'.armed == s.armed
       else exists top :: IsMin(s.heap, top) && top.timer in s.timers &&
                     s'.armed == var next := s.timers[top.timer].expiration; if next > 0 then next else s.armed
  }

  ghost predicate ActStep(s: State, s': State) {
    !s.phase.Resetting? && exists a :: Allowed(s.timers, a) && s' == Act(s, a)
  }

  ghost predicate Next(s: State, s': State) {
    ActStep(s, s') || Expire(s, s') || RunNext(s, s') || StartReset(s, s') || ResetNext(s, s') || FinishReset(s, s')
  }

  ghost predicate Init(s: State) {
    s == State(multiset{}, map[], 0, s.armed, Idle, [])
  }

  ghost predicate Path(b: seq<State>) {
    forall k :: 0 <= k < |b| - 1 ==> Next(b[k], b[k + 1])
  }

  ghost predicate Run(b: seq<State>) {
    |b| > 0 && Init(b[0]) && Path(b)
  }

  // ---------- The invariant ----------

  function Pending(s: State): seq<Entry> {
    match s.phase
    case Idle => []
    case Running(_, batch, _) => batch
    case Resetting(_, rest) => rest
  }

  function Held(s: State): multiset<Entry> {
    s.heap + multiset(Pending(s))
  }

  /** Every entry, in the heap or in the batch, is there once, points at a live timer and carries that
      timer's current expiration; every live timer has such an entry. */
  ghost predicate EntriesAgree(s: State) {
    && (forall e <- Held(s) ::
          Held(s)[e] == 1 && 0 < e.timer < UINTPTR_MAX && e.timer in s.timers && s.timers[e.timer].expiration == e.when)
    && (forall a <- s.timers :: Entry(s.timers[a].expiration, a) in Held(s))
  }

  ghost predicate LiveIndex(timers: map<nat, Timer>, i: nat) {
    exists a :: a in timers && timers[a].index == i
  }

  /** Every timer ever created is either live, under exactly one address, or deleted. */
  ghost predicate Accounted(s: State) {
    && (forall a <- s.timers :: 1 <= s.timers[a].index <= s.created)
    && (forall a, b :: a in s.timers && b in s.timers && s.timers[a].index == s.timers[b].index ==> a == b)
    && (forall i {:trigger LiveIndex(s.timers, i)} :: 1 <= i <= s.created ==>
          (LiveIndex(s.timers, i) <==> Deleted(i) !in s.log))
    && (forall p :: 0 <= p < |s.log| ==> 1 <= s.log[p].index <= s.created)
  }

  /** What may follow an event about a timer: nothing after its deletion, no call of its callback after
      its cancellation, and no second call of a one-shot timer's callback. */
  ghost predicate MayFollow(e: Event, f: Event) {
    && !e.Deleted?
    && (e.Canceled? ==> !f.Ran?)
    && (e.Ran? && f.Ran? ==> !e.oneShot && !f.oneShot)
  }

  ghost predicate Orderly(log: seq<Event>) {
    && (forall p, q :: 0 <= p < q < |log| && log[p].index == log[q].index ==> MayFollow(log[p], log[q]))
    && (forall p :: 0 <= p < |log| && log[p].Ran? ==> log[p].due <= log[p].now)
  }

  /** The timer at `a` has had its turn in the batch being processed. */
  ghost predicate HadTurn(phase: Phase, a: nat) {
    match phase
    case Idle => false
    case Running(_, batch, next) => exists k :: 0 <= k < next && k < |batch| && batch[k].timer == a
    case Resetting(_, rest) => exists k :: 0 <= k < |rest| && rest[k].timer == a
  }

  /** How a live timer reflects an event about it. */
  ghost predicate Remembered(e: Event, t: Timer, hadTurn: bool) {
    && (e.Canceled? ==> t.canceled)
    && (e.Ran? ==> e.oneShot == (t.interval == 0))
    && (e.Ran? && e.oneShot ==> hadTurn)
  }

  ghost predicate LogAgrees(s: State) {
    forall p, a :: 0 <= p < |s.log| && a in s.timers && s.log[p].index == s.timers[a].index ==>
      Remembered(s.log[p], s.timers[a], HadTurn(s.phase, a))
  }

  ghost predicate BatchDue(s: State) {
    && (s.phase.Running? ==> s.phase.next <= |s.phase.batch|)
    && (s.phase.Running? ==> forall k :: 0 <= k < |s.phase.batch| ==> s.phase.batch[k].when <= s.phase.now)
  }

  /** Between events, the timerfd was last armed for the earliest entry of the heap. */
  ghost predicate ArmedForEarliest(s: State) {
    s.phase.Idle? ==> forall e :: Earliest(s.heap, e) && e.when > 0 ==> s.armed == e.when
  }

  ghost predicate Inv(s: State) {
    && EntriesAgree(s)
    && Accounted(s)
    && Orderly(s.log)
    && LogAgrees(s)
    && BatchDue(s)
    && ArmedForEarliest(s)
    && OneShotsDoNotRepeat(s)
  }

  ghost predicate OneShotsDoNotRepeat(s: State) {
    forall a <- s.timers :: s.timers[a].interval == 0 ==> !s.timers[a].repeat
  }

  lemma AddKeepsEntries(s: State, a: Action)
    requires EntriesAgree(s) && Allowed(s.timers, a) && a.Add?
    ensures EntriesAgree(Act(s, a))
  {
    var s' := Act(s, a);
    var e := Entry(a.when, a.addr);
    assert Pending(s') == Pending(s);
    assert Held(s') == Held(s) + multiset{e};
    assert e !in Held(s);
  }

  lemma AddKeepsAccounts(s: State, a: Action)
    requires Accounted(s) && Allowed(s.timers, a) && a.Add?
    ensures Accounted(Act(s, a))
  {
    var s' := Act(s, a);
    forall i | 1 <= i <= s'.created ensures LiveIndex(s'.timers, i) <==> Deleted(i) !in s.log {
      if i == s'.created {
        assert s'.timers[a.addr].index == i;
      } else {
        if b :| b in s.timers && s.timers[b].index == i {
          assert s'.timers[b].index == i;
        }
        assert LiveIndex(s'.timers, i) <==> LiveIndex(s.timers, i);
      }
    }
  }

  lemma AddKeepsArmed(s: State, a: Action)
    requires ArmedForEarliest(s) && Allowed(s.timers, a) && a.Add?
    ensures ArmedForEarliest(Act(s, a))
  {
    var s' := Act(s, a);
    if s.phase.Idle? {
      forall m | Earliest(s'.heap, m) && m.when > 0 ensures s'.armed == m.when {
        assert Entry(a.when, a.addr) in s'.heap;
        if o :| o in s.heap && o.when <= a.when {
          assert o in s'.heap;
          assert Earliest(s.heap, if m in s.heap then m else o) by {
            forall o2 <- s.heap ensures m.when <= o2.when {
              assert o2 in s'.heap;
            }
          }
        }
      }
    }
  }

  lemma AddKeepsInv(s: State, a: Action)
    requires Inv(s) && Allowed(s.timers, a) && a.Add?
    ensures Inv(Act(s, a))
  {
    AddKeepsEntries(s, a);
    AddKeepsAccounts(s, a);
    AddKeepsArmed(s, a);
    AddKeepsLog(s, a);
    AddKeepsOneShots(s, a);
  }

  lemma AddKeepsOneShots(s: State, a: Action)
    requires OneShotsDoNotRepeat(s) && Allowed(s.timers, a) && a.Add?
    ensures OneShotsDoNotRepeat(Act(s, a))
  {
  }

  lemma AddKeepsLog(s: State, a: Action)
    requires Accounted(s) && LogAgrees(s) && Allowed(s.timers, a) && a.Add?
    ensures LogAgrees(Act(s, a))
  {
  }

  lemma CancelKeepsEntries(s: State, a: Action)
    requires EntriesAgree(s) && Allowed(s.timers, a) && a.Cancel?
    ensures EntriesAgree(Act(s, a))
  {
    assert Held(Act(s, a)) == Held(s);
  }

  /** Replacing a live timer's record without touching its index changes no account. */
  lemma SameIndices(timers: map<nat, Timer>, addr: nat, t: Timer, i: nat)
    requires addr in timers && t.index == timers[addr].index
    ensures LiveIndex(timers[addr := t], i) <==> LiveIndex(timers, i)
  {
    if b :| b in timers && timers[b].index == i {
      assert timers[addr := t][b].index == i;
    }
  }

  lemma CancelKeepsAccounts(s: State, a: Action)
    requires Accounted(s) && Allowed(s.timers, a) && a.Cancel?
    ensures Accounted(Act(s, a))
  {
    var s' := Act(s, a);
    forall i | 1 <= i <= s.created ensures LiveIndex(s'.timers, i) <==> Deleted(i) !in s'.log {
      SameIndices(s.timers, a.addr, s'.timers[a.addr], i);
    }
  }

  lemma CancelKeepsLog(s: State, a: Action)
    requires Accounted(s) && Orderly(s.log) && LogAgrees(s) && Allowed(s.timers, a) && a.Cancel?
    ensures Orderly(Act(s, a).log) && LogAgrees(Act(s, a))
  {
    NotYetDeleted(s, a.addr);
  }

  lemma NotYetDeleted(s: State, a: nat)
    requires Accounted(s) && a in s.timers
    ensures forall p :: 0 <= p < |s.log| && s.log[p].index == s.timers[a].index ==> !s.log[p].Deleted?
  {
    assert LiveIndex(s.timers, s.timers[a].index);
    forall p | 0 <= p < |s.log| && s.log[p].index == s.timers[a].index ensures !s.log[p].Deleted? {
      assert s.log[p] in s.log;
    }
  }

  lemma CancelKeepsInv(s: State, a: Action)
    requires Inv(s) && Allowed(s.timers, a) && a.Cancel?
    ensures Inv(Act(s, a))
  {
    CancelKeepsEntries(s, a);
    CancelKeepsAccounts(s, a);
    CancelKeepsLog(s, a);
  }

  /** The log goes on agreeing when turns are only gained, or when there were none to lose. */
  lemma SameLog(s: State, s': State)
    requires LogAgrees(s) && s'.timers == s.timers && s'.log == s.log
    requires forall a :: HadTurn(s.phase, a) ==> HadTurn(s'.phase, a)
    ensures LogAgrees(s')
  {
  }

  lemma ExpiredHeld(s: State, s': State)
    requires Expire(s, s')
    ensures Held(s') == Held(s) && BatchDue(s') && ArmedForEarliest(s')
  {
  }

  lemma ExpireKeepsInv(s: State, s': State)
    requires Inv(s) && Expire(s, s')
    ensures Inv(s')
  {
    ExpiredHeld(s, s');
    SameHeld(s, s');
    SameLog(s, s');
  }

  lemma TurnTaken(phase: Phase)
    requires phase.Running? && phase.next < |phase.batch|
    ensures forall a :: HadTurn(phase, a) ==> HadTurn(phase.(next := phase.next + 1), a)
    ensures HadTurn(phase.(next := phase.next + 1), phase.batch[phase.next].timer)
  {
    var phase' := phase.(next := phase.next + 1);
    forall b | HadTurn(phase, b) ensures HadTurn(phase', b) {
      var j :| 0 <= j < phase.next && phase.batch[j].timer == b;
      assert phase'.batch[j].timer == b;
    }
    assert phase'.batch[phase.next].timer == phase.batch[phase.next].timer;
  }

  lemma FirstTurn(s: State)
    requires EntriesAgree(s) && s.phase.Running? && s.phase.next < |s.phase.batch|
    ensures !HadTurn(s.phase, s.phase.batch[s.phase.next].timer)
  {
    if j :| 0 <= j < s.phase.next && s.phase.batch[j].timer == s.phase.batch[s.phase.next].timer {
      EntryOnce(s, j, s.phase.next);
    }
  }

  /** The log stays orderly because a callback runs only for a live timer that is not cancelled and, if
      one-shot, has not had its turn. */
  lemma RunNextKeepsOrder(s: State, s': State)
    requires Accounted(s) && Orderly(s.log) && LogAgrees(s) && BatchDue(s) && RunNext(s, s')
    requires !HadTurn(s.phase, s.phase.batch[s.phase.next].timer)
    ensures Orderly(s'.log)
  {
    var a := s.phase.batch[s.phase.next].timer;
    NotYetDeleted(s, a);
    if !s.timers[a].canceled {
      var e := s'.log[|s.log|];
      forall p | 0 <= p < |s.log| && s.log[p].index == e.index ensures MayFollow(s.log[p], e) {
        assert Remembered(s.log[p], s.timers[a], false);
      }
    }
  }

  lemma RunNextKeepsLog(s: State, s': State)
    requires Accounted(s) && LogAgrees(s) && RunNext(s, s')
    ensures LogAgrees(s')
  {
    TurnTaken(s.phase);
    SameLog(s, s.(phase := s'.phase));
  }

  /** No timer is in the batch twice. */
  lemma EntryOnce(s: State, j: nat, k: nat)
    requires EntriesAgree(s) && j < k < |Pending(s)|
    ensures Pending(s)[j].timer != Pending(s)[k].timer
  {
    var b := Pending(s);
    assert b[j] in Held(s) && b[k] in Held(s);
    if b[j] == b[k] {
      Repeated(b, j, k);
    }
  }

  lemma Repeated(b: seq<Entry>, j: nat, k: nat)
    requires j < k < |b| && b[j] == b[k]
    ensures multiset(b)[b[k]] >= 2
  {
    assert b == b[..k] + [b[k]] + b[k + 1..];
    assert b[j] in b[..k];
    assert multiset(b) == multiset(b[..k]) + multiset{b[k]} + multiset(b[k + 1..]);
  }

  lemma RunNextKeepsAccounts(s: State, s': State)
    requires Accounted(s) && RunNext(s, s')
    ensures Accounted(s')
  {
    assert forall i :: Deleted(i) in s'.log <==> Deleted(i) in s.log;
  }

  lemma RunNextKeepsInv(s: State, s': State)
    requires Inv(s) && RunNext(s, s')
    ensures Inv(s')
  {
    FirstTurn(s);
    RunNextKeepsOrder(s, s');
    RunNextKeepsLog(s, s');
    SameHeld(s, s');
    RunNextKeepsAccounts(s, s');
  }

  lemma StartResetKeepsLog(s: State, s': State)
    requires LogAgrees(s) && StartReset(s, s')
    ensures LogAgrees(s')
  {
    forall a | HadTurn(s.phase, a) ensures HadTurn(s'.phase, a) {
      var k :| 0 <= k < s.phase.next && s.phase.batch[k].timer == a;
      assert s'.phase.rest[k].timer == a;
    }
  }

  lemma StartResetKeepsInv(s: State, s': State)
    requires Inv(s) && StartReset(s, s')
    ensures Inv(s')
  {
    StartResetKeepsLog(s, s');
    SameHeld(s, s');
  }

  lemma SameHeld(s: State, s': State)
    requires EntriesAgree(s) && Held(s') == Held(s) && s'.timers == s.timers
    ensures EntriesAgree(s')
  {
  }

  lemma ResetNextKeepsEntries(s: State, s': State)
    requires EntriesAgree(s) && ResetNext(s, s')
    ensures EntriesAgree(s')
  {
    var first := s.phase.rest[0];
    assert s.phase.rest == [first] + s.phase.rest[1..];
    var kept := s.heap + multiset(s.phase.rest[1..]);
    assert Held(s) == kept + multiset{first};
    if s'.heap == s.heap {
      EntryGone(s, s', kept, first);
    } else {
      EntryMoved(s, s', kept, first, s'.timers[first.timer]);
    }
  }

  lemma EntryGone(s: State, s': State, kept: multiset<Entry>, e: Entry)
    requires EntriesAgree(s) && Held(s) == kept + multiset{e}
    requires s'.timers == s.timers - {e.timer} && Held(s') == kept
    ensures EntriesAgree(s')
  {
    assert e in Held(s) && e !in kept;
    forall o <- kept ensures o.timer != e.timer {
      assert o in Held(s);
    }
  }

  lemma EntryMoved(s: State, s': State, kept: multiset<Entry>, e: Entry, t: Timer)
    requires EntriesAgree(s) && Held(s) == kept + multiset{e}
    requires s'.timers == s.timers[e.timer := t] && Held(s') == kept + multiset{Entry(t.expiration, e.timer)}
    ensures EntriesAgree(s')
  {
    assert e in Held(s) && e !in kept;
    forall o <- kept ensures o.timer != e.timer {
      assert o in Held(s);
    }
  }

  lemma ResetNextKeepsAccounts(s: State, s': State)
    requires Accounted(s) && ResetNext(s, s')
    ensures Accounted(s')
  {
    var addr := s.phase.rest[0].timer;
    var t := s.timers[addr];
    assert LiveIndex(s.timers, t.index);
    forall i | 1 <= i <= s.created ensures LiveIndex(s'.timers, i) <==> Deleted(i) !in s'.log {
      if t.repeat && !t.canceled {
        SameIndices(s.timers, addr, s'.timers[addr], i);
      } else {
        if b :| b in s.timers && s.timers[b].index == i && i != t.index {
          assert s'.timers[b].index == i;
        }
        assert LiveIndex(s'.timers, i) <==> LiveIndex(s.timers, i) && i != t.index;
      }
    }
  }

  lemma ResetNextKeepsOrder(s: State, s': State)
    requires Accounted(s) && Orderly(s.log) && ResetNext(s, s')
    ensures Orderly(s'.log)
  {
    NotYetDeleted(s, s.phase.rest[0].timer);
  }

  /** Timers other than the one just reset keep their turn. */
  lemma TurnKept(phase: Phase, a: nat)
    requires phase.Resetting? && phase.rest != [] && HadTurn(phase, a) && a != phase.rest[0].timer
    ensures HadTurn(Resetting(phase.now, phase.rest[1..]), a)
  {
    var k :| 0 <= k < |phase.rest| && phase.rest[k].timer == a;
    assert phase.rest[1..][k - 1].timer == a;
  }

  lemma ResetNextKeepsLog(s: State, s': State)
    requires Accounted(s) && LogAgrees(s) && OneShotsDoNotRepeat(s) && ResetNext(s, s')
    ensures LogAgrees(s')
  {
    var addr := s.phase.rest[0].timer;
    forall p, a | 0 <= p < |s'.log| && a in s'.timers && s'.log[p].index == s'.timers[a].index
      ensures Remembered(s'.log[p], s'.timers[a], HadTurn(s'.phase, a))
    {
      if a != addr && HadTurn(s.phase, a) {
        TurnKept(s.phase, a);
      }
      assert p < |s.log| ==> Remembered(s.log[p], s.timers[a], HadTurn(s.phase, a));
    }
  }

  lemma ResetNextKeepsInv(s: State, s': State)
    requires Inv(s) && ResetNext(s, s')
    ensures Inv(s')
  {
    ResetNextKeepsEntries(s, s');
    ResetNextKeepsAccounts(s, s');
    ResetNextKeepsOrder(s, s');
    ResetNextKeepsLog(s, s');
  }

  lemma FinishResetArms(s: State, s': State)
    requires EntriesAgree(s) && FinishReset(s, s')
    ensures ArmedForEarliest(s')
  {
    assert Held(s) == s.heap;
    forall e | Earliest(s.heap, e) && e.when > 0 ensures s'.armed == e.when {
      var top :| IsMin(s.heap, top) && top.timer in s.timers &&
                 s'.armed == var next := s.timers[top.timer].expiration; if next > 0 then next else s.armed;
      assert top.when == e.when;
    }
  }

  lemma FinishResetKeepsInv(s: State, s': State)
    requires Inv(s) && FinishReset(s, s')
    ensures Inv(s')
  {
    FinishResetArms(s, s');
    SameHeld(s, s');
    SameLog(s, s');
  }

  lemma NextKeepsInv(s: State, s': State)
    requires Inv(s) && Next(s, s')
    ensures Inv(s')
  {
    if ActStep(s, s') {
      var a :| Allowed(s.timers, a) && s' == Act(s, a);
      if a.Add? { AddKeepsInv(s, a); } else { CancelKeepsInv(s, a); }
    } else if Expire(s, s') {
      ExpireKeepsInv(s, s');
    } else if RunNext(s, s') {
      RunNextKeepsInv(s, s');
    } else if StartReset(s, s') {
      StartResetKeepsInv(s, s');
    } else if ResetNext(s, s') {
      ResetNextKeepsInv(s, s');
    } else {
      FinishResetKeepsInv(s, s');
    }
  }

  lemma {:induction false} PathKeepsInv(b: seq<State>, k: nat)
    requires k < |b| && Inv(b[0]) && Path(b)
    ensures Inv(b[k])
  {
    if k > 0 {
      PathKeepsInv(b, k - 1);
      assert Next(b[k - 1], b[k - 1 + 1]);
      NextKeepsInv(b[k - 1], b[k]);
    }
  }

  lemma RunKeepsInv(b: seq<State>, k: nat)
    requires Run(b) && k < |b|
    ensures Inv(b[k])
  {
    assert Held(b[0]) == multiset{};
    assert Inv(b[0]);
    PathKeepsInv(b, k);
  }

  /** The split is unique: the batch is the sorted sequence of the expired entries and nothing else. */
  lemma SplitUnique(heap: multiset<Entry>, now: int, b1: seq<Entry>, r1: multiset<Entry>,
                    b2: seq<Entry>, r2: multiset<Entry>)
    requires SplitAt(heap, now, b1, r1) && SplitAt(heap, now, b2, r2)
    ensures b1 == b2 && r1 == r2
  {
    assert multiset(b1) == multiset(b2) by {
      forall e: Entry ensures multiset(b1)[e] == multiset(b2)[e] {
        SplitCount(heap, now, b1, r1, e);
        SplitCount(heap, now, b2, r2, e);
      }
    }
    assert r1 == heap - multiset(b1);
    assert r2 == heap - multiset(b2);
    SortedUnique(b1, b2);
  }

  lemma SplitCount(heap: multiset<Entry>, now: int, b: seq<Entry>, r: multiset<Entry>, e: Entry)
    requires SplitAt(heap, now, b, r)
    ensures multiset(b)[e] == if e.when <= now then heap[e] else 0
  {
    assert e in multiset(b) ==> e in b;
    assert e in r ==> e.when > now;
  }

  lemma SortedHead(a: seq<Entry>, b: seq<Entry>)
    requires Sorted(a) && Sorted(b) && multiset(a) == multiset(b) && a != [] && b != []
    ensures a[0] == b[0]
  {
    assert a[0] in multiset(b) && b[0] in multiset(a);
    var i :| 0 <= i < |b| && b[i] == a[0];
    var j :| 0 <= j < |a| && a[j] == b[0];
  }

  lemma {:induction false} SortedUnique(a: seq<Entry>, b: seq<Entry>)
    requires Sorted(a) && Sorted(b) && multiset(a) == multiset(b)
    ensures a == b
  {
    assert |a| == |multiset(a)| == |multiset(b)| == |b|;
    if a != [] {
      SortedHead(a, b);
      assert a == [a[0]] + a[1..] && b == [b[0]] + b[1..];
      assert multiset(a[1..]) == multiset(a) - multiset{a[0]} == multiset(b[1..]);
      SortedUnique(a[1..], b[1..]);
    }
  }

  /** Both phases are in the same loop, over the same batch. */
  predicate SameLoop(p: Phase, q: Phase) {
    || (p.Running? && q.Running? && p.now == q.now && p.batch == q.batch)
    || (p.Resetting? && q.Resetting? && p.now == q.now)
  }

  ghost predicate PathInLoop(b: seq<State>) {
    b != [] && Path(b) && forall k :: 0 <= k < |b| ==> SameLoop(b[0].phase, b[k].phase)
  }

  /** Some path of steps within one loop leads from `s` to `s'`. */
  ghost predicate Leads(s: State, s': State) {
    exists b: seq<State> :: PathInLoop(b) && b[0] == s && b[|b| - 1] == s'
  }

  /** What a callback's requests amount to: those outside their precondition are never made. */
  ghost function Acts(s: State, actions: seq<Action>): (r: State)
    ensures r.phase == s.phase && |r.heap| >= |s.heap|
    decreases |actions|
  {
    if actions == [] then s
    else Acts(if Allowed(s.timers, actions[0]) then Act(s, actions[0]) else s, actions[1..])
  }

  /** The callback loop from `s` on, when the callbacks, in the order in which they are invoked, ask for what
      `script` says. */
  ghost function CallAll(s: State, script: seq<seq<Action>>): (r: State)
    ensures s.phase.Running? ==> r.phase.Running? && r.phase.now == s.phase.now && r.phase.batch == s.phase.batch
    ensures |r.heap| >= |s.heap|
    decreases if s.phase.Running? then |s.phase.batch| - s.phase.next else 0
  {
    if !MayRunNext(s) then s
    else if !s.timers[s.phase.batch[s.phase.next].timer].canceled && script != [] then
      CallAll(Acts(RanNext(s), script[0]), script[1..])
    else CallAll(RanNext(s), script)
  }

  /** The loop of `reset` from `s` on. */
  ghost function ResetAll(s: State): (r: State)
    ensures |r.heap| >= |s.heap|
    decreases if s.phase.Resetting? then |s.phase.rest| else 0
  {
    if MayResetNext(s) then ResetAll(DidReset(s)) else s
  }

  /** A round from the split on: the callback loop and the loop of `reset`, each to its end. */
  ghost function Processed(m: State, script: seq<seq<Action>>): State
    requires m.phase.Running?
  {
    ResetAll(CallAll(m, script).(phase := Resetting(m.phase.now, m.phase.batch)))
  }

  /** One `handleRead`: split off what expired, process it, and arm the timerfd. */
  ghost predicate Round(s: State, now: int, script: seq<seq<Action>>, s': State) {
    exists m :: Expire(s, m) && m.phase.now == now && FinishReset(Processed(m, script), s')
  }

  ghost predicate Reachable(s: State) {
    exists b: seq<State> :: Run(b) && b[|b| - 1] == s
  }

  lemma LeadsNowhere(s: State)
    requires !s.phase.Idle?
    ensures Leads(s, s)
  {
    assert PathInLoop([s]) && [s][0] == [s][|[s]| - 1] == s;
  }

  lemma StillSameLoop(p: Phase, q: Phase, r: Phase)
    requires SameLoop(p, q) && SameLoop(q, r)
    ensures SameLoop(p, r) && SameLoop(p, p)
  {
  }

  lemma LeadsOn(s: State, m: State, s': State)
    requires Next(s, m) && SameLoop(s.phase, m.phase) && Leads(m, s')
    ensures Leads(s, s')
  {
    var b: seq<State> :| PathInLoop(b) && b[0] == m && b[|b| - 1] == s';
    var c := [s] + b;
    forall k | 0 <= k < |c| - 1 ensures Next(c[k], c[k + 1]) {
      if k > 0 {
        assert Next(b[k - 1], b[k - 1 + 1]);
      }
    }
    forall k | 0 <= k < |c| ensures SameLoop(c[0].phase, c[k].phase) {
      if k > 0 {
        assert c[k] == b[k - 1];
        StillSameLoop(s.phase, m.phase, b[k - 1].phase);
      }
    }
    assert PathInLoop(c);
  }

  lemma {:induction false} ActsLead(s: State, actions: seq<Action>, s': State)
    requires Reachable(s) && s.phase.Running? && Leads(Acts(s, actions), s')
    ensures Leads(s, s')
    decreases |actions|
  {
    if actions != [] {
      if Allowed(s.timers, actions[0]) {
        var m := Act(s, actions[0]);
        assert ActStep(s, m);
        ReachableOn(s, m);
        ActsLead(m, actions[1..], s');
        LeadsOn(s, m, s');
      } else {
        ActsLead(s, actions[1..], s');
      }
    }
  }

  lemma PendingKnown(s: State, k: nat)
    requires Reachable(s) && k < |Pending(s)|
    ensures Pending(s)[k].timer in s.timers
  {
    ReachableInv(s);
    assert Pending(s)[k] in Held(s);
  }

  /** The callback loop is a path of steps that comes to the end of the batch. */
  lemma {:induction false} CallAllLeads(s: State, script: seq<seq<Action>>)
    requires Reachable(s) && s.phase.Running? && s.phase.next <= |s.phase.batch|
    ensures var r := CallAll(s, script);
            Leads(s, r) && Reachable(r) && r.phase.Running? && r.phase.next == |r.phase.batch|
    decreases |s.phase.batch| - s.phase.next
  {
    if s.phase.next == |s.phase.batch| {
      LeadsNowhere(s);
    } else {
      PendingKnown(s, s.phase.next);
      var m := RanNext(s);
      var r := CallAll(s, script);
      assert RunNext(s, m);
      ReachableOn(s, m);
      if !s.timers[s.phase.batch[s.phase.next].timer].canceled && script != [] {
        ActsReach(m, script[0]);
        CallAllLeads(Acts(m, script[0]), script[1..]);
        ActsLead(m, script[0], r);
      } else {
        CallAllLeads(m, script);
      }
      LeadsOn(s, m, r);
    }
  }

  lemma {:induction false} ActsReach(s: State, actions: seq<Action>)
    requires Reachable(s) && s.phase.Running?
    ensures Reachable(Acts(s, actions))
    decreases |actions|
  {
    if actions != [] {
      if Allowed(s.timers, actions[0]) {
        assert ActStep(s, Act(s, actions[0]));
        ReachableOn(s, Act(s, actions[0]));
        ActsReach(Act(s, actions[0]), actions[1..]);
      } else {
        ActsReach(s, actions[1..]);
      }
    }
  }

  /** The loop of `reset` is a path of steps that comes to the end of the batch. */
  lemma {:induction false} ResetAllLeads(s: State)
    requires Reachable(s) && s.phase.Resetting?
    ensures var r := ResetAll(s); Leads(s, r) && Reachable(r) && r.phase.Resetting? && r.phase.rest == []
    decreases |s.phase.rest|
  {
    if s.phase.rest == [] {
      LeadsNowhere(s);
    } else {
      PendingKnown(s, 0);
      assert ResetNext(s, DidReset(s));
      ReachableOn(s, DidReset(s));
      ResetAllLeads(DidReset(s));
      LeadsOn(s, DidReset(s), ResetAll(s));
    }
  }

  lemma PathExtends(b: seq<State>, s': State)
    requires b != [] && Path(b) && Next(b[|b| - 1], s')
    ensures Path(b + [s']) && (b + [s'])[0] == b[0] && (b + [s'])[|b|] == s'
  {
    var c := b + [s'];
    forall k | 0 <= k < |c| - 1 ensures Next(c[k], c[k + 1]) {
      if k < |b| - 1 {
        assert c[k] == b[k] && c[k + 1] == b[k + 1];
      }
    }
  }

  lemma ReachableOn(s: State, s': State)
    requires Reachable(s) && Next(s, s')
    ensures Reachable(s')
  {
    var b: seq<State> :| Run(b) && b[|b| - 1] == s;
    PathExtends(b, s');
    assert Run(b + [s']);
  }

  lemma ReachableInv(s: State)
    requires Reachable(s)
    ensures Inv(s)
  {
    var b: seq<State> :| Run(b) && b[|b| - 1] == s;
    RunKeepsInv(b, |b| - 1);
  }

  // ---------- No timer is dropped ----------

  /** A timer that had its turn was called, in this batch, or had been cancelled. */
  ghost predicate TurnUsed(s: State, a: nat) {
    && a in s.timers
    && (s.timers[a].canceled || Called(s, a))
  }

  ghost predicate Called(s: State, a: nat)
    requires a in s.timers
  {
    !s.phase.Idle? && var t := s.timers[a]; Ran(t.index, s.phase.now, t.expiration, t.interval == 0) in s.log
  }

  ghost predicate TurnsUsed(s: State) {
    forall a :: HadTurn(s.phase, a) ==> TurnUsed(s, a)
  }

  ghost predicate FlagsFit(s: State) {
    forall a <- s.timers ::
      && (s.timers[a].canceled ==> Canceled(s.timers[a].index) in s.log)
      && (s.timers[a].repeat <==> s.timers[a].interval > 0 && !s.timers[a].canceled)
  }

  /** Something that allows timer `i` to be deleted: it was cancelled, or it is one-shot and was called. */
  ghost predicate Expendable(log: seq<Event>, i: nat) {
    exists e :: e in log && e.index == i && (e.Canceled? || (e.Ran? && e.oneShot))
  }

  ghost predicate Justified(log: seq<Event>) {
    forall q :: 0 <= q < |log| && log[q].Deleted? ==> Expendable(log[..q], log[q].index)
  }

  ghost predicate NoneDropped(s: State) {
    TurnsUsed(s) && FlagsFit(s) && Justified(s.log)
  }

  lemma JustifiedOn(log: seq<Event>, e: Event)
    requires Justified(log) && (e.Deleted? ==> Expendable(log, e.index))
    ensures Justified(log + [e])
  {
    var log' := log + [e];
    forall q | 0 <= q < |log'| && log'[q].Deleted? ensures Expendable(log'[..q], log'[q].index) {
      assert log'[..q] == if q < |log| then log[..q] else log;
    }
  }

  lemma ActDropsNone(s: State, a: Action)
    requires NoneDropped(s) && Allowed(s.timers, a)
    ensures NoneDropped(Act(s, a))
  {
    var s' := Act(s, a);
    forall b | HadTurn(s'.phase, b) ensures TurnUsed(s', b) {
      assert TurnUsed(s, b);
    }
    if a.Cancel? {
      JustifiedOn(s.log, Canceled(s.timers[a.addr].index));
    }
  }

  lemma NextIsUsed(s: State, s': State)
    requires EntriesAgree(s) && FlagsFit(s) && RunNext(s, s')
    ensures TurnUsed(s', s.phase.batch[s.phase.next].timer)
  {
    var e := s.phase.batch[s.phase.next];
    assert e in Held(s);
  }

  lemma UsedIsUsed(s: State, s': State, a: nat)
    requires TurnUsed(s, a) && RunNext(s, s')
    ensures TurnUsed(s', a)
  {
  }

  lemma RunNextDropsNone(s: State, s': State)
    requires NoneDropped(s) && EntriesAgree(s) && RunNext(s, s')
    ensures NoneDropped(s')
  {
    forall b | HadTurn(s'.phase, b) ensures TurnUsed(s', b) {
      var j :| 0 <= j < s'.phase.next && s'.phase.batch[j].timer == b;
      if j < s.phase.next {
        assert HadTurn(s.phase, b);
        UsedIsUsed(s, s', b);
      } else {
        NextIsUsed(s, s');
      }
    }
    assert Justified(s'.log) by {
      if s'.log != s.log {
        JustifiedOn(s.log, s'.log[|s.log|]);
      }
    }
  }

  lemma ResetNextUsesTurns(s: State, s': State)
    requires TurnsUsed(s) && EntriesAgree(s) && ResetNext(s, s')
    ensures TurnsUsed(s')
  {
    var rest := s.phase.rest;
    forall b | HadTurn(s'.phase, b) ensures TurnUsed(s', b) {
      var j :| 0 <= j < |rest[1..]| && rest[1..][j].timer == b;
      assert rest[j + 1].timer == b;
      EntryOnce(s, 0, j + 1);
      assert HadTurn(s.phase, b) && TurnUsed(s, b);
    }
  }

  lemma ResetNextDropsNone(s: State, s': State)
    requires NoneDropped(s) && EntriesAgree(s) && ResetNext(s, s')
    ensures NoneDropped(s')
  {
    var addr := s.phase.rest[0].timer;
    ResetNextUsesTurns(s, s');
    assert Justified(s'.log) by {
      if s'.log != s.log {
        assert HadTurn(s.phase, addr) && TurnUsed(s, addr);
        DeletionIsJustified(s, addr);
        JustifiedOn(s.log, Deleted(s.timers[addr].index));
      }
    }
  }

  lemma DeletionIsJustified(s: State, a: nat)
    requires FlagsFit(s) && TurnUsed(s, a) && (!s.timers[a].repeat || s.timers[a].canceled)
    ensures Expendable(s.log, s.timers[a].index)
  {
    var t := s.timers[a];
    if t.canceled {
      assert Canceled(t.index) in s.log;
    } else {
      assert Ran(t.index, s.phase.now, t.expiration, true) in s.log;
    }
  }

  lemma PhaseDropsNone(s: State, s': State)
    requires NoneDropped(s) && (Expire(s, s') || StartReset(s, s') || FinishReset(s, s'))
    ensures NoneDropped(s')
  {
    forall b | HadTurn(s'.phase, b) ensures TurnUsed(s', b) {
      var j :| 0 <= j < |s'.phase.rest| && s'.phase.rest[j].timer == b;
      assert s.phase.batch[j].timer == b;
      assert HadTurn(s.phase, b) && TurnUsed(s, b);
    }
  }

  lemma InitDropsNone(s: State)
    requires Init(s)
    ensures NoneDropped(s)
  {
  }

  lemma {:induction false} RunDropsNone(b: seq<State>, k: nat)
    requires Run(b) && k < |b|
    ensures NoneDropped(b[k])
  {
    if k > 0 {
      RunDropsNone(b, k - 1);
      RunKeepsInv(b, k - 1);
      assert Next(b[k - 1], b[k - 1 + 1]);
      NextDropsNone(b[k - 1], b[k]);
    } else {
      InitDropsNone(b[0]);
    }
  }

  lemma NextDropsNone(s: State, s': State)
    requires EntriesAgree(s) && NoneDropped(s) && Next(s, s')
    ensures NoneDropped(s')
  {
    if ActStep(s, s') {
      var a :| Allowed(s.timers, a) && s' == Act(s, a);
      ActDropsNone(s, a);
    } else if RunNext(s, s') {
      RunNextDropsNone(s, s');
    } else if ResetNext(s, s') {
      ResetNextDropsNone(s, s');
    } else {
      PhaseDropsNone(s, s');
    }
  }

  // ---------- What the timer queue promises, over every run ----------

  /** A timer ever created is live or deleted, never both; if live, its one entry, with its current
      expiration, is in the heap or in the batch but not in both. */
  lemma EveryTimerInOnePlace(b: seq<State>, k: nat, i: nat)
    requires Run(b) && k < |b| && 1 <= i <= b[k].created
    ensures var s := b[k];
            LiveIndex(s.timers, i) <==> Deleted(i) !in s.log
    ensures forall a :: a in b[k].timers && b[k].timers[a].index == i ==>
              var e := Entry(b[k].timers[a].expiration, a);
              && b[k].heap[e] + multiset(Pending(b[k]))[e] == 1
              && forall o :: o in b[k].heap + multiset(Pending(b[k])) && o.timer == a ==> o == e
  {
    RunKeepsInv(b, k);
    var s := b[k];
    forall a | a in s.timers && s.timers[a].index == i
      ensures s.heap[Entry(s.timers[a].expiration, a)] + multiset(Pending(s))[Entry(s.timers[a].expiration, a)] == 1
    {
      assert Held(s)[Entry(s.timers[a].expiration, a)] == 1;
    }
    assert s.heap + multiset(Pending(s)) == Held(s);
  }

  /** Once a timer is deleted nothing more happens to it; in particular it is deleted only once. */
  lemma DeletedOnce(b: seq<State>, k: nat, p: nat, q: nat)
    requires Run(b) && k < |b| && p < q < |b[k].log|
    requires b[k].log[p].Deleted?
    ensures b[k].log[q].index != b[k].log[p].index
  {
    RunKeepsInv(b, k);
  }

  /** A callback is never invoked after its timer was cancelled, whoever cancelled it and when. */
  lemma NeverRunsAfterCancel(b: seq<State>, k: nat, p: nat, q: nat)
    requires Run(b) && k < |b| && p < q < |b[k].log|
    requires b[k].log[p].Canceled? && b[k].log[q].index == b[k].log[p].index
    ensures !b[k].log[q].Ran?
  {
    RunKeepsInv(b, k);
  }

  lemma OneShotRunsAtMostOnce(b: seq<State>, k: nat, p: nat, q: nat)
    requires Run(b) && k < |b| && p < |b[k].log| && q < |b[k].log|
    requires b[k].log[p].Ran? && b[k].log[q].Ran? && b[k].log[p].index == b[k].log[q].index
    requires b[k].log[p].oneShot || b[k].log[q].oneShot
    ensures p == q
  {
    RunKeepsInv(b, k);
  }

  lemma NeverRunsEarly(b: seq<State>, k: nat, p: nat)
    requires Run(b) && k < |b| && p < |b[k].log| && b[k].log[p].Ran?
    ensures b[k].log[p].due <= b[k].log[p].now
  {
    RunKeepsInv(b, k);
  }

  /** Between events a non-empty heap has the timerfd last armed for its earliest entry, unless that
      entry's expiration is not a valid timestamp. */
  lemma DeadlineIsArmed(b: seq<State>, k: nat, e: Entry)
    requires Run(b) && k < |b| && b[k].phase.Idle? && IsMin(b[k].heap, e) && e.when > 0
    ensures b[k].armed == e.when
  {
    RunKeepsInv(b, k);
    assert Earliest(b[k].heap, e);
  }

  /** Every timer that expired is called in its batch unless it is cancelled: once the callbacks are over,
      nothing in the batch is left out. */
  lemma EveryDueTimerIsCalled(b: seq<State>, k: nat, i: nat)
    requires Run(b) && k < |b| && b[k].phase.Resetting? && i < |b[k].phase.rest|
    ensures var a := b[k].phase.rest[i].timer;
            a in b[k].timers && (b[k].timers[a].canceled || Called(b[k], a))
  {
    RunDropsNone(b, k);
    assert HadTurn(b[k].phase, b[k].phase.rest[i].timer);
    assert TurnUsed(b[k], b[k].phase.rest[i].timer);
  }

  /** No timer is dropped: one that is deleted was cancelled before, or is one-shot and was called before.
      A repeating timer that nobody cancels therefore lives, and stays in the heap or in the batch, for ever. */
  lemma DeletionHasACause(b: seq<State>, k: nat, q: nat)
    requires Run(b) && k < |b| && q < |b[k].log| && b[k].log[q].Deleted?
    ensures exists p :: 0 <= p < q && b[k].log[p].index == b[k].log[q].index &&
                        (b[k].log[p].Canceled? || (b[k].log[p].Ran? && b[k].log[p].oneShot))
  {
    RunDropsNone(b, k);
    var log := b[k].log;
    var e :| e in log[..q] && e.index == log[q].index && (e.Canceled? || (e.Ran? && e.oneShot));
    var p :| 0 <= p < |log[..q]| && log[..q][p] == e;
    assert log[p] == e;
  }
}
