/** How a server with any number of event loops takes connections in and out: muduo/net/TcpServer.cc
    together with the phases of each loop. Loop 0 is the server's own loop.

    A connection is closed from its own handler, in its own loop; its entry in `connMap_` is erased in
    loop 0; its channel is deregistered back in its own loop. Each hand-over is a queued functor. */
module TcpServer {
  import opened Channels

  type Conn = nat

  datatype Functor = Establish(conn: Conn) | RemoveInLoop(conn: Conn) | Destroy(conn: Conn) | Other

  /** A channel that poll returned, with what was reported of it. */
  datatype Polled = Polled(conn: Conn, revents: set<Flag>)

  datatype Phase = Polling | Handling(active: seq<Polled>) | Draining(rest: seq<Functor>)

  datatype Loop = Loop(phase: Phase, pending: seq<Functor>)
  {
    function Queue(): seq<Functor> {
      (if phase.Draining? then phase.rest else []) + pending
    }
  }

  /** All that the environment puts into one event of a connection: what poll reported and how many bytes
      the read, if there is one, returned. */
  datatype Input = Input(revents: set<Flag>, bytes: nat)

  datatype State = State(
    loops: seq<Loop>,
    loopOf: map<Conn, nat>,
    connMap: set<Conn>,
    registered: set<Conn>,        // channels in the map of their loop's poller
    kernel: set<Conn>,            // descriptors in the kernel's interest set
    open: set<Conn>,              // channels that ask for events
    closes: map<Conn, nat>,       // how often handleClose ran
    removals: map<Conn, nat>,     // how often connectDestroyed ran
    handled: seq<Input>,          // every event handled so far
    removeFailed: bool)           // an assertion of removeChannel failed

  ghost predicate Init(s: State) {
    && |s.loops| > 0
    && (forall l :: 0 <= l < |s.loops| ==> s.loops[l] == Loop(Polling, []))
    && s == State(s.loops, map[], {}, {}, {}, {}, map[], map[], [], false)
  }

  /** The records hold the connection, which is served by one of the loops. */
  predicate Known(s: State, c: Conn) {
    c in s.loopOf && s.loopOf[c] < |s.loops| && c in s.closes && c in s.removals
  }

  function Enter(s: State, l: nat, phase: Phase): State
    requires l < |s.loops|
  {
    s.(loops := s.loops[l := s.loops[l].(phase := phase)])
  }

  function Queued(s: State, l: nat, f: Functor): State
    requires l < |s.loops|
  {
    s.(loops := s.loops[l := s.loops[l].(pending := s.loops[l].pending + [f])])
  }

  /** A channel that asks for no events is still reported for hang-ups and errors while the kernel has it. */
  ghost predicate MayReport(s: State, p: Polled) {
    p.conn in s.kernel && Reportable(if p.conn in s.open then {Read, Write} else {}, p.revents)
  }

  /** Poll returns channels of its own loop, each once. Whether an open channel asks for writability
      is up to the user. */
  ghost predicate PollReturn(s: State, s': State, l: nat) {
    && l < |s.loops| && s.loops[l].phase.Polling?
    && exists active: seq<Polled> ::
         && (forall i :: 0 <= i < |active| ==>
               active[i].conn in s.loopOf && s.loopOf[active[i].conn] == l && MayReport(s, active[i]))
         && (forall i, j :: 0 <= i < j < |active| ==> active[i].conn != active[j].conn)
         && s' == Enter(s, l, Handling(active))
  }

  /** `removeConnectionInLoop`. */
  function Removed(s: State, c: Conn): State
    requires Known(s, c)
  {
    Queued(s, s.loopOf[c], Destroy(c)).(connMap := s.connMap - {c})
  }

  /** `handleClose` up to `disableAll`, which takes the descriptor out of the kernel's set or, if it is not
      there, puts it back with an empty mask. */
  function Disabled(s: State, c: Conn): State
    requires Known(s, c)
  {
    s.(open := s.open - {c}, closes := s.closes[c := s.closes[c] + 1],
       kernel := if c in s.kernel then s.kernel - {c} else s.kernel + {c})
  }

  /** `handleClose` in loop `l`: disable, then `removeConnection`, which runs at once in loop 0 and is queued
      there from any other loop. */
  function Closed(s: State, l: nat, c: Conn): State
    requires Known(s, c)
  {
    if l == 0 then Removed(Disabled(s, c), c) else Queued(Disabled(s, c), 0, RemoveInLoop(c))
  }

  function ClosedTimes(s: State, l: nat, c: Conn, n: nat): State
    requires Known(s, c)
    decreases n
  {
    if n == 0 then s else ClosedTimes(Closed(s, l, c), l, c, n - 1)
  }

  /** The next active channel handles its event. */
  ghost predicate HandleNext(s: State, s': State, l: nat) {
    && l < |s.loops| && s.loops[l].phase.Handling? && s.loops[l].phase.active != []
    && var p := s.loops[l].phase.active[0];
    && Known(s, p.conn)
    && var s1 := Enter(s, l, Handling(s.loops[l].phase.active[1..]));
    && exists bytes: nat ::
         s' == ClosedTimes(s1, l, p.conn, Closes(p.revents, bytes)).(handled := s.handled + [Input(p.revents, bytes)])
  }

  /** `newConnection` up to the entry in `connMap_`. */
  function Entered(s: State, c: Conn, l: nat): State {
    s.(loopOf := s.loopOf[c := l], closes := s.closes[c := 0], removals := s.removals[c := 0],
       connMap := s.connMap + {c})
  }

  /** `newConnection`, called from the acceptor's handler in loop 0, for a connection to be served by `l`. */
  function Accepted(s: State, c: Conn, l: nat): State
    requires l < |s.loops|
  {
    if l == 0 then Established(Entered(s, c, l), c) else Queued(Entered(s, c, l), l, Establish(c))
  }

  /** `connectEstablished`. */
  function Established(s: State, c: Conn): State {
    s.(registered := s.registered + {c}, kernel := s.kernel + {c}, open := s.open + {c})
  }

  ghost predicate Accept(s: State, s': State, l: nat) {
    && l < |s.loops| && s.loops[0].phase.Handling?
    && exists c :: c !in s.loopOf && s' == Accepted(s, c, l)
  }

  ghost predicate PostOther(s: State, s': State, l: nat) {
    l < |s.loops| && s' == Queued(s, l, Other)
  }

  ghost predicate Swap(s: State, s': State, l: nat) {
    && l < |s.loops| && s.loops[l].phase == Handling([])
    && s' == s.(loops := s.loops[l := Loop(Draining(s.loops[l].pending), [])])
  }

  /** `connectDestroyed`, whose `removeChannel` asserts that the poller knows the channel and that the channel asks
      for no events. */
  function Destroyed(s: State, c: Conn): State
    requires Known(s, c)
  {
    s.(registered := s.registered - {c}, kernel := s.kernel - {c}, open := s.open - {c},
       removals := s.removals[c := s.removals[c] + 1],
       removeFailed := s.removeFailed || c !in s.registered || c in s.open)
  }

  /** What a functor does when it runs. */
  function Performed(s: State, f: Functor): State
    requires f.Other? || Known(s, f.conn)
  {
    match f
    case Establish(c) => Established(s, c)
    case RemoveInLoop(c) => Removed(s, c)
    case Destroy(c) => Destroyed(s, c)
    case Other => s
  }

  /** The state in which the front functor of loop `l` is off its queue. */
  function Popped(s: State, l: nat): State
    requires l < |s.loops| && s.loops[l].phase.Draining? && s.loops[l].phase.rest != []
  {
    Enter(s, l, Draining(s.loops[l].phase.rest[1..]))
  }

  ghost predicate RunFunctor(s: State, s': State, l: nat) {
    && l < |s.loops| && s.loops[l].phase.Draining? && s.loops[l].phase.rest != []
    && var f := s.loops[l].phase.rest[0];
    && (f.Other? || Known(s, f.conn))
    && s' == Performed(Popped(s, l), f)
  }

  ghost predicate EndDrain(s: State, s': State, l: nat) {
    && l < |s.loops| && s.loops[l].phase == Draining([])
    && s' == Enter(s, l, Polling)
  }

  ghost predicate StepOf(s: State, s': State, l: nat) {
    || PollReturn(s, s', l) || HandleNext(s, s', l) || Accept(s, s', l) || PostOther(s, s', l)
    || Swap(s, s', l) || RunFunctor(s, s', l) || EndDrain(s, s', l)
  }

  ghost predicate Next(s: State, s': State) {
    exists l :: StepOf(s, s', l)
  }

  ghost predicate Run(b: seq<State>) {
    |b| > 0 && Init(b[0]) && forall k :: 0 <= k < |b| - 1 ==> Next(b[k], b[k + 1])
  }

  // ---------- The account of one connection ----------

  /** All there is to know of a connection: the functors queued for it and what the records say. */
  datatype Account = Account(
    establish: nat, remove: nat, destroy: nat,
    closes: nat, removals: nat,
    registered: bool, kernel: bool, open: bool, mapped: bool)

  function Count(s: State, l: nat, f: Functor): nat
    requires l < |s.loops|
  {
    multiset(s.loops[l].Queue())[f]
  }

  function AccountOf(s: State, c: Conn): Account
    requires Known(s, c)
  {
    Account(Count(s, s.loopOf[c], Establish(c)), Count(s, 0, RemoveInLoop(c)), Count(s, s.loopOf[c], Destroy(c)),
            s.closes[c], s.removals[c],
            c in s.registered, c in s.kernel, c in s.open, c in s.connMap)
  }

  /** Every close is queued for removal, queued for destruction or destroyed, and everything else follows
      from how many there are of each. */
  ghost predicate Balanced(a: Account) {
    && a.establish <= 1
    && (a.establish == 1 ==> a.closes == 0)
    && a.closes == a.remove + a.destroy + a.removals
    && (a.registered <==> a.establish == 0 && a.removals == 0)
    && (a.open <==> a.establish == 0 && a.closes == 0)
    && (a.kernel ==> a.registered && a.closes != 1)
    && (a.registered && a.closes == 0 ==> a.kernel)
    && (a.mapped <==> a.destroy == 0 && a.removals == 0)
  }

  /** A functor is in the queue of the loop it is meant for. */
  predicate Belongs(s: State, l: nat, f: Functor) {
    match f
    case Other => true
    case RemoveInLoop(c) => l == 0 && Known(s, c)
    case Establish(c) => Known(s, c) && s.loopOf[c] == l
    case Destroy(c) => Known(s, c) && s.loopOf[c] == l
  }

  ghost predicate QueueFits(s: State, l: nat) {
    l < |s.loops| && forall f {:trigger Belongs(s, l, f)} :: f in s.loops[l].Queue() ==> Belongs(s, l, f)
  }

  ghost predicate AllQueuesFit(s: State) {
    forall l :: 0 <= l < |s.loops| ==> QueueFits(s, l)
  }

  ghost predicate AllBalanced(s: State) {
    forall c {:trigger AccountOf(s, c)} :: Known(s, c) ==> Balanced(AccountOf(s, c))
  }

  /** Everything is recorded of a connection that was accepted, and nothing of any other. */
  ghost predicate Recorded(s: State) {
    && |s.loops| > 0
    && (forall c <- s.loopOf :: s.loopOf[c] < |s.loops|)
    && s.closes.Keys == s.removals.Keys == s.loopOf.Keys
    && s.registered <= s.loopOf.Keys && s.kernel <= s.loopOf.Keys
    && s.open <= s.loopOf.Keys && s.connMap <= s.loopOf.Keys
  }

  ghost predicate Accounts(s: State) {
    Recorded(s) && AllQueuesFit(s) && AllBalanced(s)
  }

  /** The channels that poll returned and whose handlers have not run yet could be returned again. */
  ghost predicate ActiveFits(s: State, l: nat)
    requires l < |s.loops|
  {
    s.loops[l].phase.Handling? ==>
      var a := s.loops[l].phase.active;
      && (forall i :: 0 <= i < |a| ==> a[i].conn in s.loopOf && s.loopOf[a[i].conn] == l && MayReport(s, a[i]))
      && (forall i, j :: 0 <= i < j < |a| ==> a[i].conn != a[j].conn)
  }

  ghost predicate AllActiveFit(s: State) {
    forall l :: 0 <= l < |s.loops| ==> ActiveFits(s, l)
  }

  ghost predicate SomeTwice(m: map<Conn, nat>) {
    exists c :: c in m && m[c] >= 2
  }

  ghost predicate DoubleClosed(handled: seq<Input>) {
    exists e :: e in handled && Closes(e.revents, e.bytes) == 2
  }

  ghost predicate Verdicts(s: State) {
    && (s.removeFailed <==> SomeTwice(s.removals))
    && (SomeTwice(s.closes) <==> DoubleClosed(s.handled))
  }

  ghost predicate Inv(s: State) {
    Accounts(s) && AllActiveFit(s) && Verdicts(s)
  }

  // ---------- Queues ----------

  lemma QueuedCounts(s: State, l: nat, f: Functor, k: nat, g: Functor)
    requires l < |s.loops| && k < |s.loops|
    ensures Count(Queued(s, l, f), k, g) == Count(s, k, g) + if k == l && g == f then 1 else 0
  {
    assert Queued(s, l, f).loops[l].Queue() == s.loops[l].Queue() + [f];
  }

  lemma QueuedAccount(s: State, l: nat, f: Functor, c: Conn)
    requires l < |s.loops| && Known(s, c) && Belongs(s, l, f)
    ensures var a := AccountOf(s, c);
            AccountOf(Queued(s, l, f), c) ==
            a.(establish := a.establish + if f == Establish(c) then 1 else 0,
               remove := a.remove + if f == RemoveInLoop(c) then 1 else 0,
               destroy := a.destroy + if f == Destroy(c) then 1 else 0)
  {
    QueuedCounts(s, l, f, s.loopOf[c], Establish(c));
    QueuedCounts(s, l, f, 0, RemoveInLoop(c));
    QueuedCounts(s, l, f, s.loopOf[c], Destroy(c));
  }

  /** Queues that keep no more than they had, and one that gets `f`. */
  lemma QueuedFits(s: State, l: nat, f: Functor)
    requires AllQueuesFit(s) && l < |s.loops| && Belongs(s, l, f)
    ensures AllQueuesFit(Queued(s, l, f))
  {
    var s' := Queued(s, l, f);
    assert s'.loops[l].Queue() == s.loops[l].Queue() + [f];
    forall k | 0 <= k < |s'.loops| ensures QueueFits(s', k) {
      assert QueueFits(s, k);
      forall g <- s'.loops[k].Queue() ensures Belongs(s', k, g) {
        assert Belongs(s, k, g);
      }
    }
  }

  /** Knowing more connections takes nothing away from the queues. */
  lemma KnownFits(s: State, s': State)
    requires AllQueuesFit(s) && |s'.loops| == |s.loops|
    requires forall l :: 0 <= l < |s.loops| ==> s'.loops[l].Queue() == s.loops[l].Queue()
    requires forall c :: Known(s, c) ==> Known(s', c) && s'.loopOf[c] == s.loopOf[c]
    ensures AllQueuesFit(s')
  {
    forall k | 0 <= k < |s'.loops| ensures QueueFits(s', k) {
      assert QueueFits(s, k);
      forall g <- s'.loops[k].Queue() ensures Belongs(s', k, g) {
        assert Belongs(s, k, g);
      }
    }
  }

  lemma PoppedCounts(s: State, l: nat, k: nat, g: Functor)
    requires l < |s.loops| && k < |s.loops| && s.loops[l].phase.Draining? && s.loops[l].phase.rest != []
    ensures Count(s, k, g) == Count(Popped(s, l), k, g) + if k == l && g == s.loops[l].phase.rest[0] then 1 else 0
  {
    var rest := s.loops[l].phase.rest;
    var q := rest[1..] + s.loops[l].pending;
    assert s.loops[l].Queue() == [rest[0]] + q;
    assert Popped(s, l).loops[l].Queue() == q;
  }

  lemma PoppedAccount(s: State, l: nat, c: Conn)
    requires l < |s.loops| && s.loops[l].phase.Draining? && s.loops[l].phase.rest != [] && Known(s, c)
    requires Belongs(s, l, s.loops[l].phase.rest[0])
    ensures var f := s.loops[l].phase.rest[0];
            var a := AccountOf(Popped(s, l), c);
            AccountOf(s, c) ==
            a.(establish := a.establish + if f == Establish(c) then 1 else 0,
               remove := a.remove + if f == RemoveInLoop(c) then 1 else 0,
               destroy := a.destroy + if f == Destroy(c) then 1 else 0)
  {
    PoppedCounts(s, l, s.loopOf[c], Establish(c));
    PoppedCounts(s, l, 0, RemoveInLoop(c));
    PoppedCounts(s, l, s.loopOf[c], Destroy(c));
  }

  lemma PoppedFits(s: State, l: nat)
    requires AllQueuesFit(s) && l < |s.loops| && s.loops[l].phase.Draining? && s.loops[l].phase.rest != []
    ensures Belongs(s, l, s.loops[l].phase.rest[0])
    ensures AllQueuesFit(Popped(s, l))
  {
    var rest := s.loops[l].phase.rest;
    var s1 := Popped(s, l);
    assert QueueFits(s, l) && s.loops[l].Queue()[0] == rest[0];
    forall k | 0 <= k < |s1.loops| ensures QueueFits(s1, k) {
      assert QueueFits(s, k);
      forall g <- s1.loops[k].Queue() ensures Belongs(s1, k, g) {
        assert g in s.loops[k].Queue() && Belongs(s, k, g);
      }
    }
  }

  // ---------- Every step keeps the invariant ----------

  /** Steps that only change phases and leave every queue as it is. */
  lemma SameRecords(s: State, s': State)
    requires Accounts(s) && Verdicts(s)
    requires s' == s.(loops := s'.loops) && |s'.loops| == |s.loops|
    requires forall l :: 0 <= l < |s.loops| ==> s'.loops[l].Queue() == s.loops[l].Queue()
    ensures Accounts(s') && Verdicts(s')
  {
    KnownFits(s, s');
    forall c | Known(s', c) ensures Balanced(AccountOf(s', c)) {
      assert Known(s, c) && AccountOf(s', c) == AccountOf(s, c);
    }
  }

  /** A loop whose phase stays, and whose channels are reported as before. */
  lemma SameActive(s: State, s': State, k: nat)
    requires k < |s.loops| == |s'.loops| && ActiveFits(s, k) && s'.loops[k].phase == s.loops[k].phase
    requires forall c :: c in s.loopOf && s.loopOf[c] == k ==>
               && c in s'.loopOf && s'.loopOf[c] == k
               && (c in s.kernel ==> c in s'.kernel) && (c in s.open <==> c in s'.open)
    ensures ActiveFits(s', k)
  {
  }

  lemma PhaseActive(s: State, s': State, l: nat)
    requires AllActiveFit(s) && (PollReturn(s, s', l) || Swap(s, s', l) || EndDrain(s, s', l))
    ensures AllActiveFit(s')
  {
    forall k | 0 <= k < |s'.loops| ensures ActiveFits(s', k) {
      assert ActiveFits(s, k);
    }
  }

  lemma PhaseQueues(s: State, s': State, l: nat)
    requires PollReturn(s, s', l) || Swap(s, s', l) || EndDrain(s, s', l)
    ensures s' == s.(loops := s'.loops) && |s'.loops| == |s.loops|
    ensures forall k :: 0 <= k < |s.loops| ==> s'.loops[k].Queue() == s.loops[k].Queue()
  {
  }

  lemma PhaseKeepsInv(s: State, s': State, l: nat)
    requires Inv(s) && (PollReturn(s, s', l) || Swap(s, s', l) || EndDrain(s, s', l))
    ensures Inv(s')
  {
    PhaseQueues(s, s', l);
    SameRecords(s, s');
    PhaseActive(s, s', l);
  }

  lemma PostKeepsInv(s: State, s': State, l: nat)
    requires Inv(s) && PostOther(s, s', l)
    ensures Inv(s')
  {
    QueuedFits(s, l, Other);
    forall c | Known(s', c) ensures Balanced(AccountOf(s', c)) {
      QueuedAccount(s, l, Other, c);
    }
    forall k | 0 <= k < |s'.loops| ensures ActiveFits(s', k) {
      SameActive(s, s', k);
    }
  }

  lemma DisabledAccount(s: State, c: Conn, d: Conn)
    requires Known(s, c) && Known(s, d)
    ensures var a := AccountOf(s, d);
            AccountOf(Disabled(s, c), d) ==
            if d != c then a else a.(closes := a.closes + 1, open := false, kernel := !a.kernel)
  {
    assert Disabled(s, c).loops == s.loops;
  }

  lemma RemovedAccount(s: State, c: Conn, d: Conn)
    requires Known(s, c) && Known(s, d)
    ensures var a := AccountOf(s, d);
            AccountOf(Removed(s, c), d) == if d != c then a else a.(destroy := a.destroy + 1, mapped := false)
  {
    var s1 := Queued(s, s.loopOf[c], Destroy(c));
    QueuedAccount(s, s.loopOf[c], Destroy(c), d);
    assert Removed(s, c).loops == s1.loops;
  }

  lemma RemovedFits(s: State, c: Conn)
    requires AllQueuesFit(s) && Known(s, c)
    ensures AllQueuesFit(Removed(s, c))
  {
    QueuedFits(s, s.loopOf[c], Destroy(c));
    KnownFits(Queued(s, s.loopOf[c], Destroy(c)), Removed(s, c));
  }

  lemma ClosedFits(s: State, l: nat, c: Conn)
    requires AllQueuesFit(s) && Known(s, c)
    ensures AllQueuesFit(Closed(s, l, c))
  {
    KnownFits(s, Disabled(s, c));
    if l == 0 {
      RemovedFits(Disabled(s, c), c);
    } else {
      QueuedFits(Disabled(s, c), 0, RemoveInLoop(c));
    }
  }

  lemma ClosedRecorded(s: State, l: nat, c: Conn)
    requires Recorded(s) && Known(s, c)
    ensures Recorded(Closed(s, l, c))
  {
  }

  /** One `handleClose` and, in loop 0, the removal that it starts. */
  lemma ClosedHereBalanced(s: State, c: Conn, d: Conn)
    requires Known(s, c) && Known(s, d) && c in s.registered && Balanced(AccountOf(s, d))
    ensures Balanced(AccountOf(Removed(Disabled(s, c), c), d))
  {
    DisabledAccount(s, c, d);
    RemovedAccount(Disabled(s, c), c, d);
  }

  lemma ClosedElsewhereBalanced(s: State, c: Conn, d: Conn)
    requires Known(s, c) && Known(s, d) && c in s.registered && Balanced(AccountOf(s, d))
    ensures Balanced(AccountOf(Queued(Disabled(s, c), 0, RemoveInLoop(c)), d))
  {
    DisabledAccount(s, c, d);
    QueuedAccount(Disabled(s, c), 0, RemoveInLoop(c), d);
  }

  /** One `handleClose` on a registered connection. */
  lemma ClosedAccounts(s: State, l: nat, c: Conn)
    requires Accounts(s) && Known(s, c) && c in s.registered
    ensures Accounts(Closed(s, l, c))
  {
    ClosedRecorded(s, l, c);
    ClosedFits(s, l, c);
    ClosedAllBalanced(s, l, c);
  }

  lemma ClosedAllBalanced(s: State, l: nat, c: Conn)
    requires AllBalanced(s) && Recorded(s) && Known(s, c) && c in s.registered
    ensures AllBalanced(Closed(s, l, c))
  {
    var s' := Closed(s, l, c);
    forall d | Known(s', d) ensures Balanced(AccountOf(s', d)) {
      assert Balanced(AccountOf(s, d));
      if l == 0 {
        ClosedHereBalanced(s, c, d);
      } else {
        ClosedElsewhereBalanced(s, c, d);
      }
    }
  }

  /** What any number of closes of one connection leaves alone. */
  ghost predicate ClosedAlone(s: State, s': State, c: Conn, n: nat) {
    && |s'.loops| == |s.loops| && (forall k :: 0 <= k < |s.loops| ==> s'.loops[k].phase == s.loops[k].phase)
    && s'.loopOf == s.loopOf && s'.registered == s.registered
    && s'.removals == s.removals && s'.removeFailed == s.removeFailed
    && c in s.closes && s'.closes == s.closes[c := s.closes[c] + n]
    && s'.kernel - {c} == s.kernel - {c} && s'.open - {c} == s.open - {c}
  }

  lemma ClosedOnceAlone(s: State, l: nat, c: Conn)
    requires Known(s, c)
    ensures ClosedAlone(s, Closed(s, l, c), c, 1)
  {
  }

  lemma {:induction false} ClosedTimesAccounts(s: State, l: nat, c: Conn, n: nat)
    requires Accounts(s) && Known(s, c) && c in s.registered
    ensures Accounts(ClosedTimes(s, l, c, n))
    ensures ClosedAlone(s, ClosedTimes(s, l, c, n), c, n)
    decreases n
  {
    if n > 0 {
      ClosedAccounts(s, l, c);
      ClosedOnceAlone(s, l, c);
      ClosedTimesAccounts(Closed(s, l, c), l, c, n - 1);
    } else {
      assert s.closes[c := s.closes[c] + n] == s.closes;
    }
  }

  lemma AddedTo(m: map<Conn, nat>, c: Conn, n: nat)
    requires c in m
    ensures SomeTwice(m[c := m[c] + n]) <==> SomeTwice(m) || m[c] + n >= 2
  {
    var m' := m[c := m[c] + n];
    if SomeTwice(m) {
      var d :| d in m && m[d] >= 2;
      assert m'[d] >= 2;
    }
    if m[c] + n >= 2 {
      assert m'[c] >= 2;
    }
  }

  lemma OneMoreInput(handled: seq<Input>, e: Input)
    ensures DoubleClosed(handled + [e]) <==> DoubleClosed(handled) || Closes(e.revents, e.bytes) == 2
  {
    if DoubleClosed(handled) {
      var d :| d in handled && Closes(d.revents, d.bytes) == 2;
      assert d in handled + [e];
    }
    if Closes(e.revents, e.bytes) == 2 {
      assert e in handled + [e];
    }
  }

  lemma BalancedKernel(a: Account)
    requires Balanced(a) && a.kernel
    ensures a.closes != 1 && (a.open <==> a.closes == 0)
  {
  }

  /** Closing brings a connection to two closes exactly when one event closes it twice: a connection that
      is closed once is out of the kernel's set, and one that is closed more often was closed twice before. */
  lemma ClosedVerdicts(s: State, c: Conn, revents: set<Flag>, bytes: nat, n: nat)
    requires SomeTwice(s.closes) <==> DoubleClosed(s.handled)
    requires Known(s, c) && Balanced(AccountOf(s, c)) && MayReport(s, Polled(c, revents))
    requires n == Closes(revents, bytes)
    ensures SomeTwice(s.closes[c := s.closes[c] + n]) <==> DoubleClosed(s.handled + [Input(revents, bytes)])
  {
    AddedTo(s.closes, c, n);
    OneMoreInput(s.handled, Input(revents, bytes));
    assert s.closes[c] != 1 && (c in s.open <==> s.closes[c] == 0) by {
      BalancedKernel(AccountOf(s, c));
    }
    if s.closes[c] >= 2 {
      assert SomeTwice(s.closes);
    }
  }

  lemma HandleKeepsActive(s: State, s': State, l: nat, p: Polled, n: nat)
    requires AllActiveFit(s) && l < |s.loops| && s.loops[l].phase.Handling? && s.loops[l].phase.active != []
    requires p == s.loops[l].phase.active[0]
    requires ClosedAlone(Enter(s, l, Handling(s.loops[l].phase.active[1..])), s', p.conn, n)
    ensures AllActiveFit(s')
  {
    assert ActiveFits(s, l);
    forall k | 0 <= k < |s'.loops| ensures ActiveFits(s', k) {
      assert ActiveFits(s, k);
      if k == l {
        var a, a' := s.loops[l].phase.active, s'.loops[l].phase.active;
        forall i | 0 <= i < |a'| ensures a'[i].conn in s'.loopOf && s'.loopOf[a'[i].conn] == l && MayReport(s', a'[i]) {
          assert a'[i] == a[i + 1];
          StillReported(s, s', p.conn, a'[i]);
        }
      } else if s.loops[k].phase.Handling? {
        var a := s.loops[k].phase.active;
        forall i | 0 <= i < |a| ensures MayReport(s', a[i]) {
          StillReported(s, s', p.conn, a[i]);
        }
      }
    }
  }

  lemma StillReported(s: State, s': State, c: Conn, p: Polled)
    requires MayReport(s, p) && p.conn != c && s'.kernel - {c} == s.kernel - {c} && s'.open - {c} == s.open - {c}
    ensures MayReport(s', p)
  {
    assert p.conn in s.kernel - {c};
    assert p.conn in s.open <==> p.conn in s.open - {c};
    assert p.conn in s'.open <==> p.conn in s'.open - {c};
  }

  lemma ActiveBalanced(s: State, l: nat)
    requires Inv(s) && l < |s.loops| && s.loops[l].phase.Handling? && s.loops[l].phase.active != []
    ensures var p := s.loops[l].phase.active[0];
            Known(s, p.conn) && p.conn in s.registered && MayReport(s, p) && Balanced(AccountOf(s, p.conn))
  {
    assert ActiveFits(s, l);
    var c := s.loops[l].phase.active[0].conn;
    assert Known(s, c) && Balanced(AccountOf(s, c));
  }

  lemma HandleKeepsInv(s: State, s': State, l: nat)
    requires Inv(s) && HandleNext(s, s', l)
    ensures Inv(s')
  {
    var bytes, n := HandleEffect(s, s', l);
    EffectKeepsInv(s, s', l, bytes, n);
  }

  /** What handling an event comes to, with nothing said of how. */
  lemma HandleEffect(s: State, s': State, l: nat) returns (bytes: nat, n: nat)
    requires Inv(s) && HandleNext(s, s', l)
    ensures var a := s.loops[l].phase.active;
            && Accounts(s') && ClosedAlone(Enter(s, l, Handling(a[1..])), s', a[0].conn, n)
            && n == Closes(a[0].revents, bytes) && s'.handled == s.handled + [Input(a[0].revents, bytes)]
  {
    var a := s.loops[l].phase.active;
    bytes :| s' == ClosedTimes(Enter(s, l, Handling(a[1..])), l, a[0].conn, Closes(a[0].revents, bytes))
                     .(handled := s.handled + [Input(a[0].revents, bytes)]);
    n := Closes(a[0].revents, bytes);
    ActiveBalanced(s, l);
    HandledOnce(s, s', l, n);
  }

  lemma EffectKeepsInv(s: State, s': State, l: nat, bytes: nat, n: nat)
    requires Inv(s) && l < |s.loops| && s.loops[l].phase.Handling? && s.loops[l].phase.active != []
    requires var a := s.loops[l].phase.active;
             && Accounts(s') && ClosedAlone(Enter(s, l, Handling(a[1..])), s', a[0].conn, n)
             && n == Closes(a[0].revents, bytes) && s'.handled == s.handled + [Input(a[0].revents, bytes)]
    ensures Inv(s')
  {
    var p := s.loops[l].phase.active[0];
    ActiveBalanced(s, l);
    HandleKeepsActive(s, s', l, p, n);
    ClosedVerdicts(s, p.conn, p.revents, bytes, n);
    HandledVerdicts(s, s', p.conn, Input(p.revents, bytes), n);
  }

  lemma HandledVerdicts(s: State, s': State, c: Conn, e: Input, n: nat)
    requires Verdicts(s) && c in s.closes
    requires SomeTwice(s.closes[c := s.closes[c] + n]) <==> DoubleClosed(s.handled + [e])
    requires s'.closes == s.closes[c := s.closes[c] + n] && s'.handled == s.handled + [e]
    requires s'.removals == s.removals && s'.removeFailed == s.removeFailed
    ensures Verdicts(s')
  {
  }

  lemma HandledOnce(s: State, s': State, l: nat, n: nat)
    requires Accounts(s) && Verdicts(s) && l < |s.loops| && s.loops[l].phase.Handling? && s.loops[l].phase.active != []
    requires Known(s, s.loops[l].phase.active[0].conn) && s.loops[l].phase.active[0].conn in s.registered
    requires var s1 := Enter(s, l, Handling(s.loops[l].phase.active[1..]));
             s' == ClosedTimes(s1, l, s.loops[l].phase.active[0].conn, n).(handled := s'.handled)
    ensures Accounts(s')
    ensures ClosedAlone(Enter(s, l, Handling(s.loops[l].phase.active[1..])), s', s.loops[l].phase.active[0].conn, n)
  {
    var c := s.loops[l].phase.active[0].conn;
    var s1 := Enter(s, l, Handling(s.loops[l].phase.active[1..]));
    SameRecords(s, s1);
    ClosedTimesAccounts(s1, l, c, n);
    HandledAccounts(ClosedTimes(s1, l, c, n), s');
  }

  lemma HandledAccounts(s: State, s': State)
    requires Accounts(s) && s' == s.(handled := s'.handled)
    ensures Accounts(s')
  {
    KnownFits(s, s');
    forall c | Known(s', c) ensures Balanced(AccountOf(s', c)) {
      assert Known(s, c) && AccountOf(s', c) == AccountOf(s, c);
    }
  }

  // ---------- Accepting ----------

  lemma NothingQueued(s: State, c: Conn, l: nat, f: Functor)
    requires Accounts(s) && c !in s.loopOf && l < |s.loops| && f != Other && f.conn == c
    ensures Count(s, l, f) == 0
  {
    assert QueueFits(s, l);
    assert !Belongs(s, l, f);
  }

  /** A connection just entered in the records. */
  lemma EnteredAccount(s: State, c: Conn, l: nat, d: Conn)
    requires Accounts(s) && c !in s.loopOf && l < |s.loops| && Known(Entered(s, c, l), d)
    ensures AccountOf(Entered(s, c, l), d) ==
            if d == c then Account(0, 0, 0, 0, 0, false, false, false, true) else AccountOf(s, d)
  {
    NothingQueued(s, c, l, Establish(c));
    NothingQueued(s, c, 0, RemoveInLoop(c));
    NothingQueued(s, c, l, Destroy(c));
    assert Entered(s, c, l).loops == s.loops;
  }

  lemma AcceptedBalanced(s: State, c: Conn, l: nat, d: Conn)
    requires Accounts(s) && c !in s.loopOf && l < |s.loops| && Known(Accepted(s, c, l), d)
    ensures Balanced(AccountOf(Accepted(s, c, l), d))
  {
    var s1 := Entered(s, c, l);
    assert d != c ==> Balanced(AccountOf(s, d));
    EnteredAccount(s, c, l, d);
    if l != 0 {
      QueuedAccount(s1, l, Establish(c), d);
    } else {
      EstablishedAccount(s1, c, d);
    }
  }

  lemma AcceptedFits(s: State, c: Conn, l: nat)
    requires Recorded(s) && AllQueuesFit(s) && c !in s.loopOf && l < |s.loops|
    ensures Recorded(Accepted(s, c, l)) && AllQueuesFit(Accepted(s, c, l))
  {
    var s1 := Entered(s, c, l);
    KnownFits(s, s1);
    if l == 0 {
      KnownFits(s1, Accepted(s, c, l));
    } else {
      QueuedFits(s1, l, Establish(c));
    }
  }

  lemma AcceptedAccounts(s: State, c: Conn, l: nat)
    requires Accounts(s) && c !in s.loopOf && l < |s.loops|
    ensures Accounts(Accepted(s, c, l))
  {
    AcceptedFits(s, c, l);
    var s' := Accepted(s, c, l);
    forall d | Known(s', d) ensures Balanced(AccountOf(s', d)) {
      AcceptedBalanced(s, c, l, d);
    }
  }

  lemma AcceptedActive(s: State, c: Conn, l: nat)
    requires Recorded(s) && AllActiveFit(s) && c !in s.loopOf && l < |s.loops|
    ensures AllActiveFit(Accepted(s, c, l))
  {
    var s' := Accepted(s, c, l);
    forall k | 0 <= k < |s'.loops| ensures ActiveFits(s', k) {
      SameActive(s, s', k);
    }
  }

  lemma AcceptKeepsInv(s: State, s': State, l: nat)
    requires Inv(s) && Accept(s, s', l)
    ensures Inv(s')
  {
    var c :| c !in s.loopOf && s' == Accepted(s, c, l);
    AcceptedAccounts(s, c, l);
    AcceptedActive(s, c, l);
    ZeroAdded(s.removals, c);
    ZeroAdded(s.closes, c);
  }

  lemma ZeroAdded(m: map<Conn, nat>, c: Conn)
    requires c !in m
    ensures SomeTwice(m[c := 0]) <==> SomeTwice(m)
  {
    if SomeTwice(m) {
      var d :| d in m && m[d] >= 2;
      assert m[c := 0][d] >= 2;
    }
  }

  // ---------- Functors ----------

  /** What a functor of `c` does to the account of `d`, once it is off the queue. */
  lemma PerformedAccount(s: State, f: Functor, d: Conn)
    requires f != Other && Known(s, f.conn) && Known(s, d)
    ensures var a := AccountOf(s, d);
            AccountOf(Performed(s, f), d) ==
            if d != f.conn then a
            else match f
              case Establish(_) => a.(registered := true, kernel := true, open := true)
              case RemoveInLoop(_) => a.(destroy := a.destroy + 1, mapped := false)
              case Destroy(_) => a.(removals := a.removals + 1, registered := false, kernel := false, open := false)
  {
    match f
    case Establish(c) => EstablishedAccount(s, c, d);
    case RemoveInLoop(c) => RemovedAccount(s, c, d);
    case Destroy(c) => DestroyedAccount(s, c, d);
  }

  lemma EstablishedAccount(s: State, c: Conn, d: Conn)
    requires Known(s, d)
    ensures var a := AccountOf(s, d);
            AccountOf(Established(s, c), d) ==
            if d != c then a else a.(registered := true, kernel := true, open := true)
  {
    assert Established(s, c).loops == s.loops;
  }

  lemma DestroyedAccount(s: State, c: Conn, d: Conn)
    requires Known(s, c) && Known(s, d)
    ensures var a := AccountOf(s, d);
            AccountOf(Destroyed(s, c), d) ==
            if d != c then a else a.(removals := a.removals + 1, registered := false, kernel := false, open := false)
  {
    assert Destroyed(s, c).loops == s.loops;
  }

  lemma PerformedFits(s: State, f: Functor)
    requires AllQueuesFit(s) && f != Other && Known(s, f.conn)
    ensures AllQueuesFit(Performed(s, f))
  {
    if f.RemoveInLoop? {
      RemovedFits(s, f.conn);
    } else {
      KnownFits(s, Performed(s, f));
    }
  }

  /** A functor leaves the accounts of other connections as they are. */
  lemma RunOtherAccount(s: State, s': State, l: nat, d: Conn)
    requires AllQueuesFit(s) && RunFunctor(s, s', l) && Known(s, d)
    requires s.loops[l].phase.rest[0] == Other || s.loops[l].phase.rest[0].conn != d
    ensures Known(s', d) && AccountOf(s', d) == AccountOf(s, d)
  {
    var f := s.loops[l].phase.rest[0];
    PoppedFits(s, l);
    PoppedAccount(s, l, d);
    if f != Other {
      PerformedAccount(Popped(s, l), f, d);
    }
  }

  /** A functor of `c` balances the account of `c` again. */
  lemma EstablishBalanced(s: State, s': State, l: nat, c: Conn)
    requires AllQueuesFit(s) && RunFunctor(s, s', l) && s.loops[l].phase.rest[0] == Establish(c)
    requires Balanced(AccountOf(s, c))
    ensures Balanced(AccountOf(s', c))
  {
    PoppedFits(s, l);
    PoppedAccount(s, l, c);
    EstablishedAccount(Popped(s, l), c, c);
  }

  lemma RemoveBalanced(s: State, s': State, l: nat, c: Conn)
    requires AllQueuesFit(s) && RunFunctor(s, s', l) && s.loops[l].phase.rest[0] == RemoveInLoop(c)
    requires Balanced(AccountOf(s, c))
    ensures Balanced(AccountOf(s', c))
  {
    PoppedFits(s, l);
    PoppedAccount(s, l, c);
    RemovedAccount(Popped(s, l), c, c);
  }

  lemma DestroyBalanced(s: State, s': State, l: nat, c: Conn)
    requires AllQueuesFit(s) && RunFunctor(s, s', l) && s.loops[l].phase.rest[0] == Destroy(c)
    requires Balanced(AccountOf(s, c))
    ensures Balanced(AccountOf(s', c))
  {
    PoppedFits(s, l);
    PoppedAccount(s, l, c);
    DestroyedAccount(Popped(s, l), c, c);
  }

  lemma RunFits(s: State, s': State, l: nat)
    requires Recorded(s) && AllQueuesFit(s) && RunFunctor(s, s', l)
    ensures Recorded(s') && AllQueuesFit(s')
  {
    var f := s.loops[l].phase.rest[0];
    PoppedFits(s, l);
    if f != Other {
      PerformedFits(Popped(s, l), f);
    }
  }

  lemma RunAccounts(s: State, s': State, l: nat)
    requires Accounts(s) && RunFunctor(s, s', l)
    ensures Accounts(s')
  {
    var f := s.loops[l].phase.rest[0];
    RunFits(s, s', l);
    forall d | Known(s', d) ensures Balanced(AccountOf(s', d)) {
      assert Known(s, d) && Balanced(AccountOf(s, d));
      match f {
        case Establish(c) => if c == d { EstablishBalanced(s, s', l, c); } else { RunOtherAccount(s, s', l, d); }
        case RemoveInLoop(c) => if c == d { RemoveBalanced(s, s', l, c); } else { RunOtherAccount(s, s', l, d); }
        case Destroy(c) => if c == d { DestroyBalanced(s, s', l, c); } else { RunOtherAccount(s, s', l, d); }
        case Other => RunOtherAccount(s, s', l, d);
      }
    }
  }

  lemma RunActive(s: State, s': State, l: nat)
    requires Inv(s) && RunFunctor(s, s', l)
    ensures AllActiveFit(s')
  {
    PoppedFits(s, l);
    forall k | 0 <= k < |s'.loops| ensures ActiveFits(s', k) {
      assert ActiveFits(s, k);
      if k != l {
        SameActive(s, s', k);
      }
    }
  }

  /** The functor that destroys a connection finds its channel exactly when it is the first to do so, and finds it
      asking for nothing. */
  lemma DestroyFinds(s: State, l: nat)
    requires Accounts(s) && l < |s.loops| && s.loops[l].phase.Draining? && s.loops[l].phase.rest != []
    requires s.loops[l].phase.rest[0].Destroy? && Known(s, s.loops[l].phase.rest[0].conn)
    ensures var c := s.loops[l].phase.rest[0].conn;
            (c in s.registered <==> s.removals[c] == 0) && c !in s.open
  {
    var c := s.loops[l].phase.rest[0].conn;
    PoppedFits(s, l);
    PoppedCounts(s, l, l, Destroy(c));
    assert Balanced(AccountOf(s, c));
  }

  lemma RunVerdicts(s: State, s': State, l: nat)
    requires Accounts(s) && Verdicts(s) && RunFunctor(s, s', l)
    ensures Verdicts(s')
  {
    var f := s.loops[l].phase.rest[0];
    if f.Destroy? {
      DestroyFinds(s, l);
      AddedTo(s.removals, f.conn, 1);
    }
  }

  lemma NextKeepsInv(s: State, s': State)
    requires Inv(s) && Next(s, s')
    ensures Inv(s')
  {
    var l :| StepOf(s, s', l);
    if HandleNext(s, s', l) {
      HandleKeepsInv(s, s', l);
    } else if Accept(s, s', l) {
      AcceptKeepsInv(s, s', l);
    } else if PostOther(s, s', l) {
      PostKeepsInv(s, s', l);
    } else if RunFunctor(s, s', l) {
      RunAccounts(s, s', l);
      RunActive(s, s', l);
      RunVerdicts(s, s', l);
    } else {
      PhaseKeepsInv(s, s', l);
    }
  }

  lemma InitInv(s: State)
    requires Init(s)
    ensures Inv(s)
  {
    forall l | 0 <= l < |s.loops| ensures s.loops[l].Queue() == [] {
      assert s.loops[l] == Loop(Polling, []);
    }
  }

  lemma {:induction false} RunKeepsInv(b: seq<State>, k: nat)
    requires Run(b) && k < |b|
    ensures Inv(b[k])
  {
    if k == 0 {
      InitInv(b[0]);
    } else {
      RunKeepsInv(b, k - 1);
      RunSteps(b, k - 1);
      NextKeepsInv(b[k - 1], b[k]);
    }
  }

  lemma RunSteps(b: seq<State>, k: nat)
    requires Run(b) && k + 1 < |b|
    ensures Next(b[k], b[k + 1])
  {
  }

  // ---------- What the server promises, over every run ----------

  /** From the return of poll until its handler runs, a channel stays registered with its poller and its
      connection stays alive, whatever the other loops do meanwhile: `connMap_` holds it or, if it was closed
      before, a queued functor does. It is in `connMap_` until it is closed, and always if no event of the run
      closed a connection twice. */
  lemma ActiveStaysRegistered(b: seq<State>, k: nat, l: nat, i: nat)
    requires Run(b) && k < |b| && l < |b[k].loops|
    requires b[k].loops[l].phase.Handling? && i < |b[k].loops[l].phase.active|
    ensures var c := b[k].loops[l].phase.active[i].conn;
            && c in b[k].registered
            && (c in b[k].connMap || Destroy(c) in b[k].loops[l].Queue())
            && (c in b[k].open || !DoubleClosed(b[k].handled) ==> c in b[k].connMap)
  {
    RunKeepsInv(b, k);
    var s := b[k];
    var c := s.loops[l].phase.active[i].conn;
    assert ActiveFits(s, l) && MayReport(s, s.loops[l].phase.active[i]);
    assert Known(s, c) && Balanced(AccountOf(s, c));
    if s.closes[c] >= 2 {
      assert SomeTwice(s.closes);
    }
  }

  /** A channel is deregistered only by its own functor, in the drain phase of its own loop. */
  lemma DeregisteredOnlyInDrain(b: seq<State>, k: nat, c: Conn)
    requires Run(b) && k + 1 < |b| && c in b[k].registered && c !in b[k + 1].registered
    ensures c in b[k].loopOf && b[k].loopOf[c] < |b[k].loops|
    ensures var p := b[k].loops[b[k].loopOf[c]].phase; p.Draining? && p.rest != [] && p.rest[0] == Destroy(c)
  {
    RunKeepsInv(b, k);
    var s, s' := b[k], b[k + 1];
    assert Next(s, s');
    var l :| StepOf(s, s', l);
    if HandleNext(s, s', l) {
      var bytes, n := HandleEffect(s, s', l);
    } else {
      assert RunFunctor(s, s', l);
      PoppedFits(s, l);
    }
  }

  /** A connection that is closed is on its way out: the functor for its next stage is queued, and holds it. */
  lemma RemovalIsUnderWay(b: seq<State>, k: nat, c: Conn)
    requires Run(b) && k < |b| && c in b[k].registered && c !in b[k].open
    ensures c in b[k].loopOf && b[k].loopOf[c] < |b[k].loops|
    ensures RemoveInLoop(c) in b[k].loops[0].Queue() || Destroy(c) in b[k].loops[b[k].loopOf[c]].Queue()
  {
    RunKeepsInv(b, k);
    assert Known(b[k], c) && Balanced(AccountOf(b[k], c));
  }

  /** `connectEstablished` is queued with a plain pointer; the connection it points at is still in `connMap_`,
      and was neither established nor closed before. */
  lemma EstablishFindsConnection(b: seq<State>, k: nat, l: nat, c: Conn)
    requires Run(b) && k < |b| && l < |b[k].loops| && Establish(c) in b[k].loops[l].Queue()
    ensures c in b[k].connMap && c !in b[k].registered && c in b[k].closes && b[k].closes[c] == 0
  {
    RunKeepsInv(b, k);
    assert QueueFits(b[k], l) && Belongs(b[k], l, Establish(c));
    assert Balanced(AccountOf(b[k], c));
  }

  // ---------- What each loop does, and that it can ----------

  /** A step handles the event of the first active channel of some loop, `c` being closed as often as that says if it
      is its channel and else not at all. */
  ghost predicate HandlesOne(s: State, s': State, c: Conn, l: nat, bytes: nat) {
    && l < |s.loops| == |s'.loops| && s.loops[l].phase.Handling? && s.loops[l].phase.active != []
    && c in s.closes && c in s'.closes
    && var a := s.loops[l].phase.active;
    && s'.loops[l].phase == Handling(a[1..])
    && s'.handled == s.handled + [Input(a[0].revents, bytes)]
    && s'.closes[c] == s.closes[c] + if a[0].conn == c then Closes(a[0].revents, bytes) else 0
  }

  /** A connection is closed by the events of its own channel alone, by each as often as flags and read say. */
  lemma ClosesAreHandled(s: State, s': State, c: Conn)
    requires Inv(s) && Next(s, s') && c in s.closes
    ensures c in s'.closes
    ensures if s'.handled == s.handled then s'.closes[c] == s.closes[c]
            else exists l, bytes :: HandlesOne(s, s', c, l, bytes)
  {
    var l :| StepOf(s, s', l);
    if HandleNext(s, s', l) {
      var bytes, n := HandleEffect(s, s', l);
      assert HandlesOne(s, s', c, l, bytes);
    } else {
      OthersCloseNothing(s, s', l, c);
    }
  }

  lemma OthersCloseNothing(s: State, s': State, l: nat, c: Conn)
    requires Recorded(s) && StepOf(s, s', l) && !HandleNext(s, s', l) && c in s.closes
    ensures c in s'.closes && s'.closes[c] == s.closes[c] && s'.handled == s.handled
  {
    if Accept(s, s', l) {
      assert c in s.loopOf;
    }
  }

  /** Poll may return any channels of its loop, each once, with any flags that were asked for, errors and hang-ups
      besides, as long as the kernel has them. */
  lemma PollPossible(s: State, l: nat, active: seq<Polled>)
    requires l < |s.loops| && s.loops[l].phase == Polling
    requires forall p <- active :: p.conn in s.loopOf && s.loopOf[p.conn] == l && p.conn in s.kernel
    requires forall p <- active ::
               && (PollIn in p.revents || PollPri in p.revents || PollOut in p.revents ==> p.conn in s.open)
               && PollNval !in p.revents && PollRdhup !in p.revents
    requires forall i, j :: 0 <= i < j < |active| ==> active[i].conn != active[j].conn
    ensures Next(s, s.(loops := s.loops[l := Loop(Handling(active), s.loops[l].pending)]))
  {
    forall i | 0 <= i < |active| ensures MayReport(s, active[i]) {
      assert active[i] in active;
      ReportableFlags(if active[i].conn in s.open then {Read, Write} else {}, active[i].revents);
    }
    assert PollReturn(s, Enter(s, l, Handling(active)), l);
    assert StepOf(s, Enter(s, l, Handling(active)), l);
  }

  /** The first active channel can handle its event, whatever its read returns. */
  lemma HandlingPossible(s: State, l: nat, bytes: nat) returns (s': State)
    requires Inv(s) && l < |s.loops| && s.loops[l].phase.Handling? && s.loops[l].phase.active != []
    ensures var c := s.loops[l].phase.active[0].conn; Next(s, s') && HandlesOne(s, s', c, l, bytes)
  {
    ActiveBalanced(s, l);
    var a := s.loops[l].phase.active;
    var n := Closes(a[0].revents, bytes);
    s' := ClosedTimes(Enter(s, l, Handling(a[1..])), l, a[0].conn, n)
            .(handled := s.handled + [Input(a[0].revents, bytes)]);
    assert HandleNext(s, s', l) && StepOf(s, s', l);
    HandledOnce(s, s', l, n);
  }

  /** While loop 0 handles events it can accept a new connection for any loop: at once for itself, and through the
      queue of any other. */
  lemma AcceptPossible(s: State, c: Conn, l: nat) returns (s': State)
    requires l < |s.loops| && s.loops[0].phase.Handling? && c !in s.loopOf
    ensures Next(s, s') && c in s'.connMap && Known(s', c) && s'.loopOf[c] == l && s'.closes[c] == s'.removals[c] == 0
    ensures |s'.loops| == |s.loops|
    ensures l == 0 ==> s'.loops == s.loops && c in s'.registered && c in s'.kernel && c in s'.open
    ensures l != 0 ==> s'.loops[l].pending == s.loops[l].pending + [Establish(c)]
  {
    s' := Accepted(s, c, l);
    assert Accept(s, s', l) && StepOf(s, s', l);
  }

  /** A loop that has handled its events takes its whole queue, runs it from the front and polls again. */
  lemma DrainPossible(s: State, l: nat)
    requires l < |s.loops|
    ensures var Loop(phase, pending) := s.loops[l];
            && (phase == Handling([]) ==> Next(s, s.(loops := s.loops[l := Loop(Draining(pending), [])])))
            && (phase == Draining([]) ==> Next(s, s.(loops := s.loops[l := Loop(Polling, pending)])))
            && Next(s, s.(loops := s.loops[l := Loop(phase, pending + [Other])]))
  {
    var Loop(phase, pending) := s.loops[l];
    assert StepOf(s, Queued(s, l, Other), l);
    if phase == Handling([]) {
      assert StepOf(s, s.(loops := s.loops[l := Loop(Draining(pending), [])]), l);
    } else if phase == Draining([]) {
      assert StepOf(s, Enter(s, l, Polling), l);
    }
  }

  /** The front functor can run. An establishment registers the channel; a removal takes the connection out of the
      map and queues its destruction in its own loop; a destruction takes the channel out of the poller. */
  lemma FunctorPossible(s: State, l: nat) returns (s': State)
    requires Inv(s) && l < |s.loops| && s.loops[l].phase.Draining? && s.loops[l].phase.rest != []
    ensures Next(s, s') && |s'.loops| == |s.loops| && s'.loops[l].phase == Draining(s.loops[l].phase.rest[1..])
    ensures match s.loops[l].phase.rest[0]
            case Establish(c) => c in s'.registered && c in s'.kernel && c in s'.open
            case RemoveInLoop(c) =>
              && c !in s'.connMap && c in s.loopOf && s.loopOf[c] < |s.loops|
              && s'.loops[s.loopOf[c]].pending == s.loops[s.loopOf[c]].pending + [Destroy(c)]
            case Destroy(c) =>
              && c !in s'.registered && c !in s'.kernel && c !in s'.open
              && c in s.removals && c in s'.removals && s'.removals[c] == s.removals[c] + 1
            case Other => s' == s.(loops := s'.loops)
  {
    PoppedFits(s, l);
    s' := Performed(Popped(s, l), s.loops[l].phase.rest[0]);
    assert RunFunctor(s, s', l) && StepOf(s, s', l);
  }

  // ---------- Closing twice ----------

  predicate NoRemovals(q: seq<Functor>) {
    forall f <- q :: !f.RemoveInLoop? && !f.Destroy?
  }

  /** No functor that takes a connection out is waiting. */
  ghost predicate Quiet(s: State) {
    forall l :: 0 <= l < |s.loops| ==> NoRemovals(s.loops[l].Queue())
  }

  lemma NoneCounted(q: seq<Functor>, f: Functor)
    requires NoRemovals(q) && (f.RemoveInLoop? || f.Destroy?)
    ensures multiset(q)[f] == 0
  {
    assert f !in q;
  }

  lemma QuietSettles(s: State, c: Conn)
    requires Accounts(s) && Quiet(s) && Known(s, c)
    ensures s.closes[c] == s.removals[c]
  {
    assert Balanced(AccountOf(s, c));
    NoneCounted(s.loops[0].Queue(), RemoveInLoop(c));
    NoneCounted(s.loops[s.loopOf[c]].Queue(), Destroy(c));
  }

  /** The assertions of `removeChannel` fail in just the runs in which one event closes a connection twice:
      never without such an event, and, once the queues are through, always with one. */
  lemma RemovalFailsOnlyOnDoubleClose(b: seq<State>, k: nat)
    requires Run(b) && k < |b|
    ensures b[k].removeFailed ==> DoubleClosed(b[k].handled)
    ensures Quiet(b[k]) ==> (b[k].removeFailed <==> DoubleClosed(b[k].handled))
  {
    RunKeepsInv(b, k);
    var s := b[k];
    if s.removeFailed {
      var c :| c in s.removals && s.removals[c] >= 2;
      assert Known(s, c) && Balanced(AccountOf(s, c));
      assert s.closes[c] >= 2;
    }
    if Quiet(s) && DoubleClosed(s.handled) {
      var c :| c in s.closes && s.closes[c] >= 2;
      assert Known(s, c);
      QuietSettles(s, c);
    }
  }

  // ---------- Runs that close twice ----------

  ghost predicate Reachable(s: State) {
    exists b: seq<State> :: Run(b) && b[|b| - 1] == s
  }

  lemma ReachableOn(s: State, s': State, l: nat)
    requires Reachable(s) && StepOf(s, s', l)
    ensures Reachable(s')
  {
    var b: seq<State> :| Run(b) && b[|b| - 1] == s;
    var c := b + [s'];
    forall k | 0 <= k < |c| - 1 ensures Next(c[k], c[k + 1]) {
      if k < |b| - 1 {
        assert Next(b[k], b[k + 1]);
      }
    }
    assert Run(c) && c[|c| - 1] == s';
  }

  lemma SwapReaches(s: State, l: nat)
    requires Reachable(s) && l < |s.loops| && s.loops[l].phase == Handling([])
    ensures Reachable(s.(loops := s.loops[l := Loop(Draining(s.loops[l].pending), [])]))
  {
    ReachableOn(s, s.(loops := s.loops[l := Loop(Draining(s.loops[l].pending), [])]), l);
  }

  lemma EndReaches(s: State, l: nat)
    requires Reachable(s) && l < |s.loops| && s.loops[l].phase == Draining([])
    ensures Reachable(Enter(s, l, Polling))
  {
    ReachableOn(s, Enter(s, l, Polling), l);
  }

  lemma PollReaches(s: State, l: nat, active: seq<Polled>)
    requires Reachable(s) && l < |s.loops| && s.loops[l].phase.Polling? && |active| <= 1
    requires forall p <- active :: p.conn in s.loopOf && s.loopOf[p.conn] == l && MayReport(s, p)
    ensures Reachable(Enter(s, l, Handling(active)))
  {
    assert PollReturn(s, Enter(s, l, Handling(active)), l);
    ReachableOn(s, Enter(s, l, Handling(active)), l);
  }

  lemma FunctorReaches(s: State, l: nat)
    requires Reachable(s) && l < |s.loops| && s.loops[l].phase.Draining? && s.loops[l].phase.rest != []
    requires s.loops[l].phase.rest[0].Other? || Known(s, s.loops[l].phase.rest[0].conn)
    ensures Reachable(Performed(Popped(s, l), s.loops[l].phase.rest[0]))
  {
    ReachableOn(s, Performed(Popped(s, l), s.loops[l].phase.rest[0]), l);
  }

  /** A removal can fail when the environment puts nothing but `inputs` into the events. */
  ghost predicate RemovalCanFail(inputs: iset<Input>) {
    exists s :: Reachable(s) && s.removeFailed && forall e <- s.handled :: e in inputs
  }

  /** An event that closes twice, and that the kernel may report of an open connection: a hang-up with urgent
      data and without ordinary data, on which the read returns nothing. */
  predicate Closing(e: Input) {
    && Reportable({Read, Write}, e.revents)
    && PollHup in e.revents && PollIn !in e.revents && PollPri in e.revents && e.bytes == 0
  }

  lemma HandledAreReportable(s: State, e: Input)
    requires Reachable(s) && e in s.handled
    ensures Reportable({Read, Write}, e.revents)
  {
    var b: seq<State> :| Run(b) && b[|b| - 1] == s;
    RunReportable(b, |b| - 1, e);
  }

  lemma {:induction false} RunReportable(b: seq<State>, k: nat, e: Input)
    requires Run(b) && k < |b| && e in b[k].handled
    ensures Reportable({Read, Write}, e.revents)
  {
    if k > 0 {
      var s, s' := b[k - 1], b[k];
      assert Next(s, b[k - 1 + 1]);
      if e in s.handled {
        RunReportable(b, k - 1, e);
      } else {
        RunKeepsInv(b, k - 1);
        var l :| StepOf(s, s', l);
        NewlyHandled(s, s', l, e);
      }
    }
  }

  lemma NewlyHandled(s: State, s': State, l: nat, e: Input)
    requires Inv(s) && StepOf(s, s', l) && e in s'.handled && e !in s.handled
    ensures Reportable({Read, Write}, e.revents)
  {
    assert HandleNext(s, s', l);
    assert ActiveFits(s, l) && MayReport(s, s.loops[l].phase.active[0]);
  }

  /** A server with one loop and one connection, as accepted. */
  ghost function Single(phase: Phase, pending: seq<Functor>): State {
    State([Loop(phase, pending)], map[7 := 0], {7}, {7}, {7}, {7}, map[7 := 0], map[7 := 0], [], false)
  }

  lemma AcceptedOnce()
    ensures Reachable(Single(Handling([]), []))
  {
    var s0 := State([Loop(Polling, [])], map[], {}, {}, {}, {}, map[], map[], [], false);
    assert Run([s0]) && [s0][|[s0]| - 1] == s0;
    var none: seq<Polled> := [];
    var s1 := Enter(s0, 0, Handling(none));
    assert PollReturn(s0, s1, 0);
    ReachableOn(s0, s1, 0);
    var s2 := Accepted(s1, 7, 0);
    assert Accept(s1, s2, 0);
    ReachableOn(s1, s2, 0);
    assert s2 == Single(Handling([]), []);
  }

  lemma Idle()
    ensures Reachable(Single(Polling, []))
  {
    AcceptedOnce();
    var s2 := Single(Handling([]), []);
    var s3 := Single(Draining([]), []);
    var s4 := Single(Polling, []);
    SwapReaches(s2, 0);
    EndReaches(s3, 0);
    assert Enter(s3, 0, Polling) == s4;
  }

  lemma PolledAgain(revents: set<Flag>)
    requires Reportable({Read, Write}, revents)
    ensures Reachable(Single(Handling([Polled(7, revents)]), []))
  {
    Idle();
    var active := [Polled(7, revents)];
    PollReaches(Single(Polling, []), 0, active);
    assert Single(Handling(active), []) == Enter(Single(Polling, []), 0, Handling(active));
  }

  /** The connection closed twice over, and `n` of its two destructions done. */
  ghost function Twice(phase: Phase, pending: seq<Functor>, e: Input, n: nat): State {
    State([Loop(phase, pending)], map[7 := 0], {}, if n == 0 then {7} else {}, if n == 0 then {7} else {}, {},
          map[7 := 2], map[7 := n], [e], n == 2)
  }

  lemma TwoCloses(e: Input)
    ensures ClosedTimes(Single(Handling([]), []), 0, 7, 2) ==
            Twice(Handling([]), [Destroy(7), Destroy(7)], e, 0).(handled := [])
  {
    var s6 := Single(Handling([]), []);
    var s7 := Closed(s6, 0, 7);
    var l7 := Loop(Handling([]), [Destroy(7)]);
    assert s7 == State([l7], map[7 := 0], {}, {7}, {}, {}, map[7 := 1], map[7 := 0], [], false) by {
      assert [] + [Destroy(7)] == [Destroy(7)];
    }
    var s8 := Closed(s7, 0, 7);
    assert s8.loops == [Loop(Handling([]), [Destroy(7), Destroy(7)])] by {
      assert [Destroy(7)] + [Destroy(7)] == [Destroy(7), Destroy(7)];
    }
    assert ClosedTimes(s7, 0, 7, 1) == s8;
  }

  lemma ClosedTwiceOver(e: Input)
    requires Closing(e)
    ensures Reachable(Twice(Handling([]), [Destroy(7), Destroy(7)], e, 0))
  {
    PolledAgain(e.revents);
    var p := Polled(7, e.revents);
    var s5 := Single(Handling([p]), []);
    var s6 := Single(Handling([]), []);
    var s9 := Twice(Handling([]), [Destroy(7), Destroy(7)], e, 0);
    var s8 := s9.(handled := []);
    TwoCloses(e);
    assert [p][1..] == [] && Enter(s5, 0, Handling([])) == s6;
    assert s9 == s8.(handled := s5.handled + [e]);
    assert HandleNext(s5, s9, 0);
    ReachableOn(s5, s9, 0);
  }

  lemma FailingRun(e: Input)
    requires Closing(e)
    ensures Reachable(Twice(Draining([]), [], e, 2))
  {
    ClosedTwiceOver(e);
    var s9 := Twice(Handling([]), [Destroy(7), Destroy(7)], e, 0);
    var s10 := Twice(Draining([Destroy(7), Destroy(7)]), [], e, 0);
    var s11 := Twice(Draining([Destroy(7)]), [], e, 1);
    var s12 := Twice(Draining([]), [], e, 2);
    SwapReaches(s9, 0);
    FunctorReaches(s10, 0);
    assert [Destroy(7), Destroy(7)][1..] == [Destroy(7)] && [Destroy(7)][1..] == [];
    assert Performed(Popped(s10, 0), Destroy(7)) == s11;
    FunctorReaches(s11, 0);
    assert Performed(Popped(s11, 0), Destroy(7)) == s12;
  }

  lemma FailureHasClosing(s: State)
    requires Reachable(s) && s.removeFailed
    ensures exists e :: e in s.handled && Closing(e)
  {
    var b: seq<State> :| Run(b) && b[|b| - 1] == s;
    RemovalFailsOnlyOnDoubleClose(b, |b| - 1);
    var e :| e in s.handled && Closes(e.revents, e.bytes) == 2;
    HandledAreReportable(s, e);
    assert Closing(e);
  }

  /** What it takes to make a removal fail, in terms of poll and read alone. */
  lemma RemovalFailsOnlyOnClosing(inputs: iset<Input>)
    ensures RemovalCanFail(inputs) <==> exists e :: e in inputs && Closing(e)
  {
    if e :| e in inputs && Closing(e) {
      FailingRun(e);
      var s := Twice(Draining([]), [], e, 2);
      assert Reachable(s) && s.removeFailed && s.handled == [e];
    }
    if s :| Reachable(s) && s.removeFailed && forall e <- s.handled :: e in inputs {
      FailureHasClosing(s);
    }
  }

  /** The concrete input: a hang-up with urgent data on a connection whose stream has ended. */
  lemma HangUpWithUrgentData()
    ensures Closing(Input({PollHup, PollPri}, 0)) && RemovalCanFail(iset{Input({PollHup, PollPri}, 0)})
  {
    RemovalFailsOnlyOnClosing(iset{Input({PollHup, PollPri}, 0)});
  }

  // ---------- Polled after its removal ----------

  /** A server with two loops and connection 7 in loop 1, closed `n` times and still registered. */
  ghost function Pair(l0: Loop, l1: Loop, n: nat, mapped: bool, handled: seq<Input>): State {
    State([l0, l1], map[7 := 1], if mapped then {7} else {}, {7}, {7}, if n == 0 then {7} else {},
          map[7 := n], map[7 := 0], handled, false)
  }

  lemma PairOf(a: Loop, b: Loop, c: Loop)
    ensures [a, b][0 := c] == [c, b] && [a, b][1 := c] == [a, c]
  {
  }

  /** The same server before it has established the connection. */
  ghost function Pending(l0: Loop, l1: Loop): State {
    State([l0, l1], map[7 := 1], {7}, {}, {}, {}, map[7 := 0], map[7 := 0], [], false)
  }

  lemma AcceptedElsewhere()
    ensures Reachable(Pending(Loop(Handling([]), []), Loop(Polling, [Establish(7)])))
  {
    var idle, h := Loop(Polling, []), Loop(Handling([]), []);
    var s0 := State([idle, idle], map[], {}, {}, {}, {}, map[], map[], [], false);
    assert Run([s0]) && [s0][|[s0]| - 1] == s0;
    PollReaches(s0, 0, []);
    PairOf(idle, idle, h);
    var s1 := s0.(loops := [h, idle]);
    assert Accept(s1, Accepted(s1, 7, 1), 1);
    ReachableOn(s1, Accepted(s1, 7, 1), 1);
    assert [] + [Establish(7)] == [Establish(7)];
    PairOf(h, idle, Loop(Polling, [Establish(7)]));
  }

  lemma EstablishedElsewhere()
    ensures Reachable(Pair(Loop(Handling([]), []), Loop(Draining([]), []), 0, true, []))
  {
    AcceptedElsewhere();
    var h := Loop(Handling([]), []);
    var q := [Establish(7)];
    PollReaches(Pending(h, Loop(Polling, q)), 1, []);
    PairOf(h, Loop(Polling, q), Loop(Handling([]), q));
    SwapReaches(Pending(h, Loop(Handling([]), q)), 1);
    PairOf(h, Loop(Handling([]), q), Loop(Draining(q), []));
    FunctorReaches(Pending(h, Loop(Draining(q), [])), 1);
    assert q[1..] == [];
    PairOf(h, Loop(Draining(q), []), Loop(Draining([]), []));
  }

  lemma PolledElsewhere(l0: Loop, n: nat, handled: seq<Input>, p: Polled)
    requires Reachable(Pair(l0, Loop(Draining([]), []), n, true, handled))
    requires p.conn == 7 && Reportable(if n == 0 then {Read, Write} else {}, p.revents)
    ensures Reachable(Pair(l0, Loop(Handling([p]), []), n, true, handled))
  {
    EndReaches(Pair(l0, Loop(Draining([]), []), n, true, handled), 1);
    PairOf(l0, Loop(Draining([]), []), Loop(Polling, []));
    PollReaches(Pair(l0, Loop(Polling, []), n, true, handled), 1, [p]);
    PairOf(l0, Loop(Polling, []), Loop(Handling([p]), []));
  }

  lemma TwoClosesElsewhere()
    ensures var h := Loop(Handling([]), []);
            ClosedTimes(Pair(h, h, 0, true, []), 1, 7, 2) ==
            Pair(Loop(Handling([]), [RemoveInLoop(7), RemoveInLoop(7)]), h, 2, true, [])
  {
    var h := Loop(Handling([]), []);
    var s := Pair(h, h, 0, true, []);
    var one, two := [RemoveInLoop(7)], [RemoveInLoop(7), RemoveInLoop(7)];
    assert [] + one == one && one + one == two;
    PairOf(h, h, Loop(Handling([]), one));
    PairOf(Loop(Handling([]), one), h, Loop(Handling([]), two));
    var s1 := Closed(s, 1, 7);
    assert s1.loops == [Loop(Handling([]), one), h] && s1.kernel == {} && s1.open == {} && s1.closes == map[7 := 1];
    assert ClosedTimes(s1, 1, 7, 1) == Closed(s1, 1, 7);
  }

  lemma ClosedTwiceElsewhere(e: Input)
    requires Closing(e)
    ensures var l0 := Loop(Handling([]), [RemoveInLoop(7), RemoveInLoop(7)]);
            Reachable(Pair(l0, Loop(Handling([]), []), 2, true, [e]))
  {
    EstablishedElsewhere();
    var h := Loop(Handling([]), []);
    var p := Polled(7, e.revents);
    PolledElsewhere(h, 0, [], p);
    var s7 := Pair(h, Loop(Handling([p]), []), 0, true, []);
    var s8 := Pair(Loop(Handling([]), [RemoveInLoop(7), RemoveInLoop(7)]), h, 2, true, [e]);
    PairOf(h, Loop(Handling([p]), []), h);
    assert [p][1..] == [] && Closes(p.revents, e.bytes) == 2;
    TwoClosesElsewhere();
    assert Enter(s7, 1, Handling([])) == Pair(h, h, 0, true, []);
    assert s8 == ClosedTimes(Enter(s7, 1, Handling([])), 1, 7, 2).(handled := s7.handled + [Input(p.revents, e.bytes)]);
    assert HandleNext(s7, s8, 1);
    ReachableOn(s7, s8, 1);
  }

  /** After a double close a channel can be polled again when `connMap_` no longer holds its connection: the
      second `disableAll` has put it back into the kernel's set, which reports a hang-up unasked. */
  lemma PolledAfterRemoval(e: Input)
    requires Closing(e)
    ensures var l1 := Loop(Handling([Polled(7, {PollHup})]), [Destroy(7)]);
            Reachable(Pair(Loop(Draining([RemoveInLoop(7)]), []), l1, 2, false, [e]))
  {
    ClosedTwiceElsewhere(e);
    var q := [RemoveInLoop(7), RemoveInLoop(7)];
    var l0, l1 := Loop(Handling([]), q), Loop(Handling([Polled(7, {PollHup})]), []);
    SwapReaches(Pair(l0, Loop(Handling([]), []), 2, true, [e]), 1);
    PairOf(l0, Loop(Handling([]), []), Loop(Draining([]), []));
    PolledElsewhere(l0, 2, [e], Polled(7, {PollHup}));
    SwapReaches(Pair(l0, l1, 2, true, [e]), 0);
    PairOf(l0, l1, Loop(Draining(q), []));
    var s := Pair(Loop(Draining(q), []), l1, 2, true, [e]);
    FunctorReaches(s, 0);
    assert q[1..] == [RemoveInLoop(7)];
    PairOf(Loop(Draining(q), []), l1, Loop(Draining([RemoveInLoop(7)]), []));
    assert [] + [Destroy(7)] == [Destroy(7)];
    PairOf(Loop(Draining([RemoveInLoop(7)]), []), l1, Loop(l1.phase, [Destroy(7)]));
  }

  /** When the environment puts nothing but `inputs` into the events, a channel can be polled whose connection has
      left `connMap_`. */
  ghost predicate PolledUnmapped(inputs: iset<Input>) {
    exists s :: Reachable(s) && (forall e <- s.handled :: e in inputs) && Unmapped(s)
  }

  ghost predicate Unmapped(s: State) {
    exists l: nat, i: nat ::
      && l < |s.loops| && s.loops[l].phase.Handling? && i < |s.loops[l].phase.active|
      && s.loops[l].phase.active[i].conn !in s.connMap
  }

  lemma UnmappedHasClosing(s: State)
    requires Reachable(s) && Unmapped(s)
    ensures exists e :: e in s.handled && Closing(e)
  {
    var l: nat, i: nat :|
      && l < |s.loops| && s.loops[l].phase.Handling? && i < |s.loops[l].phase.active|
      && s.loops[l].phase.active[i].conn !in s.connMap;
    var b: seq<State> :| Run(b) && b[|b| - 1] == s;
    ActiveStaysRegistered(b, |b| - 1, l, i);
    var e :| e in s.handled && Closes(e.revents, e.bytes) == 2;
    HandledAreReportable(s, e);
    assert Closing(e);
  }

  /** What it takes for that, in terms of poll and read alone. */
  lemma PolledUnmappedOnlyAfterClosing(inputs: iset<Input>)
    ensures PolledUnmapped(inputs) <==> exists e :: e in inputs && Closing(e)
  {
    if e :| e in inputs && Closing(e) {
      PolledAfterRemoval(e);
      var l0, l1 := Loop(Draining([RemoveInLoop(7)]), []), Loop(Handling([Polled(7, {PollHup})]), [Destroy(7)]);
      var s := Pair(l0, l1, 2, false, [e]);
      assert s.loops[1].phase.active[0].conn !in s.connMap;
      assert Reachable(s) && s.handled == [e] && Unmapped(s);
    }
    if s :| Reachable(s) && (forall e <- s.handled :: e in inputs) && Unmapped(s) {
      UnmappedHasClosing(s);
    }
  }
}
