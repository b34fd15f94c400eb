/** A channel of muduo/net/Channel.h, and how it hands one event to its callbacks. */
module Channels {

  datatype Interest = Read | Write

  /** What poll can report of a descriptor. */
  datatype Flag = PollIn | PollPri | PollOut | PollErr | PollHup | PollNval | PollRdhup

  datatype Callback = OnClose | OnError | OnRead | OnWrite

  datatype Index = New | Added | Deleted

  /** What a mask asks the kernel to report. */
  function Asked(events: set<Interest>): set<Flag> {
    (if Read in events then {PollIn, PollPri} else {}) + (if Write in events then {PollOut} else {})
  }

  /** The kernel reports what it was asked for and, unasked, errors and hang-ups. */
  predicate Reportable(events: set<Interest>, revents: set<Flag>) {
    revents <= Asked(events) + {PollErr, PollHup}
  }

  /** In the words of the flags: data only for a reader, room only for a writer, and no `POLLNVAL` nor
      `POLLRDHUP`, which are never asked for. */
  lemma ReportableFlags(events: set<Interest>, revents: set<Flag>)
    ensures Reportable(events, revents) <==>
              && (PollIn in revents || PollPri in revents ==> Read in events)
              && (PollOut in revents ==> Write in events)
              && PollNval !in revents && PollRdhup !in revents
  {
    forall f | f in revents
      ensures f in Asked(events) + {PollErr, PollHup} <==>
                match f case PollIn => Read in events case PollPri => Read in events case PollOut => Write in events
                        case PollErr => true case PollHup => true case PollNval => false case PollRdhup => false
    {
      match f case PollIn => case PollPri => case PollOut => case PollErr => case PollHup => case PollNval =>
              case PollRdhup =>
    }
  }

  function When(called: bool, c: Callback): seq<Callback> {
    if called then [c] else []
  }

  /** The callbacks that one event calls, in order. */
  function Dispatch(revents: set<Flag>): seq<Callback> {
    When(PollHup in revents && PollIn !in revents, OnClose)
    + When(PollErr in revents || PollNval in revents, OnError)
    + When(PollIn in revents || PollPri in revents || PollRdhup in revents, OnRead)
    + When(PollOut in revents, OnWrite)
  }

  /** How often a connection's `handleClose` runs in these callbacks: the close callback is `handleClose`,
      and the read callback calls it when the read returns no bytes. */
  function CloseCount(calls: seq<Callback>, bytes: nat): nat {
    if calls == [] then 0
    else (if calls[0] == OnClose || (calls[0] == OnRead && bytes == 0) then 1 else 0) + CloseCount(calls[1..], bytes)
  }

  /** How often it runs for one event. */
  function Closes(revents: set<Flag>, bytes: nat): nat {
    (if PollHup in revents && PollIn !in revents then 1 else 0)
    + (if bytes == 0 && (PollIn in revents || PollPri in revents || PollRdhup in revents) then 1 else 0)
  }

  lemma {:induction false} CloseCountSplits(a: seq<Callback>, b: seq<Callback>, bytes: nat)
    ensures CloseCount(a + b, bytes) == CloseCount(a, bytes) + CloseCount(b, bytes)
    decreases |a|
  {
    if a == [] {
      assert a + b == b;
    } else {
      assert (a + b)[1..] == a[1..] + b;
      CloseCountSplits(a[1..], b, bytes);
    }
  }

  /** The place of a callback in the order in which they are called. */
  function Rank(c: Callback): nat {
    match c case OnClose => 0 case OnError => 1 case OnRead => 2 case OnWrite => 3
  }

  /** Each callback occurs at most once, and they occur in the order close, error, read, write. */
  predicate InOrder(calls: seq<Callback>) {
    forall i, j :: 0 <= i < j < |calls| ==> Rank(calls[i]) < Rank(calls[j])
  }

  /** What is called: close on a hang-up without data, error on an error, read when there is something to read or
      the other end has finished, write when there is room. */
  predicate Answers(revents: set<Flag>, calls: seq<Callback>) {
    && InOrder(calls)
    && (OnClose in calls <==> PollHup in revents && PollIn !in revents)
    && (OnError in calls <==> PollErr in revents || PollNval in revents)
    && (OnRead in calls <==> PollIn in revents || PollPri in revents || PollRdhup in revents)
    && (OnWrite in calls <==> PollOut in revents)
  }

  /** That determines the callbacks. */
  lemma OneAnswer(revents: set<Flag>, a: seq<Callback>, b: seq<Callback>)
    requires Answers(revents, a) && Answers(revents, b)
    ensures a == b
  {
    forall c: Callback ensures c in a <==> c in b {
      match c case OnClose => case OnError => case OnRead => case OnWrite =>
    }
    SameMembers(a, b);
  }

  lemma SameFirst(a: seq<Callback>, b: seq<Callback>)
    requires InOrder(a) && InOrder(b) && a != [] && b != [] && a[0] in b && b[0] in a
    ensures a[0] == b[0]
  {
    var j :| 0 <= j < |b| && b[j] == a[0];
    var k :| 0 <= k < |a| && a[k] == b[0];
  }

  lemma {:induction false} SameMembers(a: seq<Callback>, b: seq<Callback>)
    requires InOrder(a) && InOrder(b) && forall c: Callback :: c in a <==> c in b
    ensures a == b
    decreases |a|
  {
    assert (a == [] || a[0] in a) && (b == [] || b[0] in b);
    if a != [] {
      SameFirst(a, b);
      assert a == [a[0]] + a[1..] && b == [b[0]] + b[1..];
      assert a[0] !in a[1..] && b[0] !in b[1..];
      forall c: Callback ensures c in a[1..] <==> c in b[1..] {
        assert (c in a <==> c == a[0] || c in a[1..]) && (c in b <==> c == b[0] || c in b[1..]);
      }
      SameMembers(a[1..], b[1..]);
    }
  }

  lemma Joined(a: seq<Callback>, b: seq<Callback>)
    requires InOrder(a) && InOrder(b) && forall c, d :: c in a && d in b ==> Rank(c) < Rank(d)
    ensures InOrder(a + b)
  {
  }

  lemma PartsInOrder(close: bool, error: bool, read: bool, write: bool)
    ensures InOrder(When(close, OnClose) + When(error, OnError) + When(read, OnRead) + When(write, OnWrite))
  {
    Joined(When(close, OnClose), When(error, OnError));
    Joined(When(close, OnClose) + When(error, OnError), When(read, OnRead));
    Joined(When(close, OnClose) + When(error, OnError) + When(read, OnRead), When(write, OnWrite));
  }

  lemma PartsMembers(close: bool, error: bool, read: bool, write: bool)
    ensures var calls := When(close, OnClose) + When(error, OnError) + When(read, OnRead) + When(write, OnWrite);
            && (OnClose in calls <==> close) && (OnError in calls <==> error)
            && (OnRead in calls <==> read) && (OnWrite in calls <==> write)
  {
  }

  lemma DispatchAnswers(revents: set<Flag>)
    ensures Answers(revents, Dispatch(revents))
  {
    var close := PollHup in revents && PollIn !in revents;
    var error := PollErr in revents || PollNval in revents;
    var read := PollIn in revents || PollPri in revents || PollRdhup in revents;
    PartsInOrder(close, error, read, PollOut in revents);
    PartsMembers(close, error, read, PollOut in revents);
  }

  lemma DispatchCloses(revents: set<Flag>, bytes: nat)
    ensures CloseCount(Dispatch(revents), bytes) == Closes(revents, bytes)
  {
    var close := When(PollHup in revents && PollIn !in revents, OnClose);
    var error := When(PollErr in revents || PollNval in revents, OnError);
    var read := When(PollIn in revents || PollPri in revents || PollRdhup in revents, OnRead);
    var write := When(PollOut in revents, OnWrite);
    CloseCountSplits(close + error + read, write, bytes);
    CloseCountSplits(close + error, read, bytes);
    CloseCountSplits(close, error, bytes);
  }

  /** One event closes a connection at most twice, and it closes it twice exactly when a hang-up comes without
      ordinary data, with urgent data or a half-close, and the read returns nothing. */
  lemma ClosesTwice(revents: set<Flag>, bytes: nat)
    ensures CloseCount(Dispatch(revents), bytes) <= 2
    ensures CloseCount(Dispatch(revents), bytes) == 2 <==>
              PollHup in revents && PollIn !in revents && (PollPri in revents || PollRdhup in revents) && bytes == 0
  {
    DispatchCloses(revents, bytes);
  }

  class Channel {
    const fd: int
    var events: set<Interest>
    var revents: set<Flag>
    var index: Index

    constructor (fd: int)
      ensures this.fd == fd && events == {} && index == New
    {
      this.fd := fd;
      events, revents, index := {}, {}, New;
    }

    /** `handleEventWithGuard`: the callbacks it calls, in the order of its tests. */
    method HandleEvent() returns (calls: seq<Callback>)
      ensures Answers(revents, calls)
      ensures forall bytes: nat :: CloseCount(calls, bytes) == Closes(revents, bytes)
      ensures calls == Dispatch(revents)
    {
      calls := [];
      if PollHup in revents && PollIn !in revents {
        calls := calls + [OnClose];
      }
      if PollErr in revents || PollNval in revents {
        calls := calls + [OnError];
      }
      if PollIn in revents || PollPri in revents || PollRdhup in revents {
        calls := calls + [OnRead];
      }
      if PollOut in revents {
        calls := calls + [OnWrite];
      }
      assert calls == Dispatch(revents);
      DispatchAnswers(revents);
      forall bytes: nat ensures CloseCount(calls, bytes) == Closes(revents, bytes) {
        DispatchCloses(revents, bytes);
      }
    }
  }
}
