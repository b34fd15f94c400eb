/** What a connection does with the bytes it is asked to send: the output half of
    muduo/net/TcpConnection.cc, with no file in flight.

    The kernel takes any number of bytes at each write. A write-complete callback runs inside the send
    that completed and may itself send or shut down, so a send carries what its callback would do. */
module OutputStream {
  import opened Channels

  datatype ConnState = Connecting | Connected | Disconnecting | Disconnected

  /** What user code running in the loop asks for. `taken` is the most the kernel would take of `data`. */
  datatype Act = Send(data: seq<char>, taken: nat, done: seq<Act>) | Shutdown

  datatype Conn = Conn(
    state: ConnState,
    writing: bool,                // the channel's interest in writability
    out: seq<char>,               // outputBuffer_
    shutdownQueued: bool,         // shutdownInLoop is waiting in the functor queue
    wire: seq<char>,              // every byte handed to the kernel
    accepted: seq<char>,          // every byte of every send that was not refused
    fin: int)                     // how many bytes were on the wire at shutdownWrite, or -1

  const NEW := Conn(Connecting, false, [], false, [], [], -1)

  function Min(a: nat, b: nat): nat {
    if a <= b then a else b
  }

  /** `sendInLoop`. */
  function DoSend(c: Conn, data: seq<char>, taken: nat, done: seq<Act>): Conn
    decreases done, 1
  {
    if c.state != Connected then c
    else
      var c1 := c.(accepted := c.accepted + data);
      if !c.writing && c.out == [] then
        var n := Min(taken, |data|);
        var c2 := c1.(wire := c.wire + data[..n]);
        if n == |data| then DoAll(c2, done)
        else c2.(out := c.out + data[n..], writing := true)
      else if data != [] then c1.(out := c.out + data, writing := true)
      else c1
  }

  function DoAct(c: Conn, a: Act): Conn
    decreases a, 0
  {
    match a
    case Send(data, taken, done) => DoSend(c, data, taken, done)
    case Shutdown => if c.state == Connected then ShutdownInLoop(c.(state := Disconnecting)) else c
  }

  function DoAll(c: Conn, acts: seq<Act>): Conn
    decreases acts, 0
  {
    if acts == [] then c else DoAll(DoAct(c, acts[0]), acts[1..])
  }

  function ShutdownInLoop(c: Conn): Conn {
    if c.writing || c.fin != -1 then c else c.(fin := |c.wire|)
  }

  /** `handleWrite`. */
  function HandleWrite(c: Conn, taken: nat, done: seq<Act>): Conn {
    var n := Min(taken, |c.out|);
    if !c.writing || n == 0 then c
    else
      var c1 := c.(wire := c.wire + c.out[..n], out := c.out[n..]);
      if c1.out == [] then DoAll(c1.(writing := false), done) else c1
  }

  /** `handleClose`, and `connectDestroyed` on a connection that is still up. */
  function Close(c: Conn, acts: seq<Act>): Conn {
    DoAll(c.(state := Disconnected, writing := false), acts)
  }

  /** `handleRead`: the message callback, or `handleClose` at the end of the stream. */
  function HandleRead(c: Conn, bytes: nat, acts: seq<Act>): Conn {
    if bytes > 0 then DoAll(c, acts) else Close(c, acts)
  }

  datatype Event =
    | Established(acts: seq<Act>)
    | Perform(acts: seq<Act>)                  // a timer or a functor
    | Readable(bytes: nat, acts: seq<Act>)     // `acts` in the message callback, or on the close
    | Writable(taken: nat, done: seq<Act>)
    | ForeignShutdown                          // `shutdown` from another thread
    | RunShutdown                              // the functor it queued
    | PeerClosed(acts: seq<Act>)
    | Destroyed(acts: seq<Act>)

  function Handle(c: Conn, e: Event): Conn {
    match e
    case Established(acts) => if c.state == Connecting then DoAll(c.(state := Connected), acts) else c
    case Perform(acts) => DoAll(c, acts)
    case Readable(bytes, acts) => HandleRead(c, bytes, acts)
    case Writable(taken, done) => HandleWrite(c, taken, done)
    case ForeignShutdown => if c.state == Connected then c.(state := Disconnecting, shutdownQueued := true) else c
    case RunShutdown => if c.shutdownQueued then ShutdownInLoop(c.(shutdownQueued := false)) else c
    case PeerClosed(acts) => Close(c, acts)
    case Destroyed(acts) => if c.state == Connected then Close(c, acts) else c
  }

  /** What user code does in the callbacks of one polled event, and what the read and the write of it come to. */
  datatype Plan = Plan(closed: seq<Act>, bytes: nat, read: seq<Act>, taken: nat, done: seq<Act>)

  function Reaction(callback: Callback, plan: Plan): Event {
    match callback
    case OnClose => PeerClosed(plan.closed)
    case OnError => Perform([])
    case OnRead => Readable(plan.bytes, plan.read)
    case OnWrite => Writable(plan.taken, plan.done)
  }

  function Reactions(calls: seq<Callback>, plan: Plan): seq<Event> {
    if calls == [] then [] else [Reaction(calls[0], plan)] + Reactions(calls[1..], plan)
  }

  function HandleAll(c: Conn, es: seq<Event>): Conn
    decreases |es|
  {
    if es == [] then c else HandleAll(Handle(c, es[0]), es[1..])
  }

  // ---------- The invariant ----------

  ghost predicate Inv(c: Conn) {
    && c.wire + c.out == c.accepted
    && (c.state != Disconnected ==> (c.writing <==> c.out != []))
    && (c.state == Disconnected ==> !c.writing)
    && (c.state == Connecting ==> c.out == [])
    && (c.shutdownQueued ==> c.state == Disconnecting || c.state == Disconnected)
    && (c.fin != -1 ==> c.fin == |c.wire| && !c.writing && (c.state == Disconnecting || c.state == Disconnected))
  }

  lemma {:induction false} SendKeepsInv(c: Conn, data: seq<char>, taken: nat, done: seq<Act>)
    requires Inv(c)
    ensures Inv(DoSend(c, data, taken, done))
    decreases done, 1
  {
    if c.state == Connected {
      var n := Min(taken, |data|);
      assert data == data[..n] + data[n..];
      assert c.wire + c.out + data == c.wire + (c.out + data);
      if !c.writing && c.out == [] {
        assert c.wire + data[..n] + data[n..] == c.wire + data;
        assert c.wire + [] == c.wire;
        if n == |data| {
          AllKeepsInv(c.(accepted := c.accepted + data, wire := c.wire + data[..n]), done);
        }
      }
    }
  }

  lemma {:induction false} ActKeepsInv(c: Conn, a: Act)
    requires Inv(c)
    ensures Inv(DoAct(c, a))
    decreases a, 0
  {
    if a.Send? {
      SendKeepsInv(c, a.data, a.taken, a.done);
    }
  }

  lemma {:induction false} AllKeepsInv(c: Conn, acts: seq<Act>)
    requires Inv(c)
    ensures Inv(DoAll(c, acts))
    decreases acts, 0
  {
    if acts != [] {
      ActKeepsInv(c, acts[0]);
      AllKeepsInv(DoAct(c, acts[0]), acts[1..]);
    }
  }

  lemma HandleKeepsInv(c: Conn, e: Event)
    requires Inv(c)
    ensures Inv(Handle(c, e))
  {
    match e
    case Established(acts) =>
      if c.state == Connecting {
        AllKeepsInv(c.(state := Connected), acts);
      }
    case Perform(acts) => AllKeepsInv(c, acts);
    case Readable(bytes, acts) =>
      AllKeepsInv(if bytes > 0 then c else c.(state := Disconnected, writing := false), acts);
    case Writable(taken, done) =>
      var n := Min(taken, |c.out|);
      assert c.wire + c.out == c.wire + c.out[..n] + c.out[n..];
      if c.writing && n == |c.out| && n > 0 {
        AllKeepsInv(c.(wire := c.wire + c.out[..n], out := c.out[n..], writing := false), done);
      }
    case PeerClosed(acts) => AllKeepsInv(c.(state := Disconnected, writing := false), acts);
    case Destroyed(acts) =>
      if c.state == Connected {
        AllKeepsInv(c.(state := Disconnected, writing := false), acts);
      }
    case _ =>
  }

  lemma {:induction false} EventsKeepInv(c: Conn, es: seq<Event>)
    requires Inv(c)
    ensures Inv(HandleAll(c, es))
    decreases |es|
  {
    if es != [] {
      HandleKeepsInv(c, es[0]);
      EventsKeepInv(Handle(c, es[0]), es[1..]);
    }
  }

  // ---------- What is asked for is accepted ----------

  /** The connection with `data` written at once. */
  function Sent(c: Conn, data: seq<char>): Conn {
    c.(wire := c.wire + data, accepted := c.accepted + data)
  }

  /** What one send does. A connection that is not up ignores it. With nothing pending and a kernel that takes all,
      the callback runs on the result; otherwise what the kernel left, or all of the data, is appended to the buffer,
      and no callback runs. */
  lemma SendAccepts(c: Conn, data: seq<char>, taken: nat, done: seq<Act>)
    requires Inv(c)
    ensures var d := DoSend(c, data, taken, done);
            if c.state != Connected then d == c
            else if c.out == [] && |data| <= taken then d == DoAll(Sent(c, data), done)
            else
              && d.wire + d.out == c.wire + c.out + data
              && |d.wire| == |c.wire| + (if c.out == [] then taken else 0)
              && d == c.(wire := d.wire, out := d.out, accepted := c.accepted + data, writing := true)
    ensures var d := DoSend(c, data, taken, done);
            c.state == Connected ==> c.wire + c.out + data <= d.wire + d.out
  {
    SendKeepsInv(c, data, taken, done);
    if c.state == Connected {
      if c.out == [] && |data| <= taken {
        assert data[..|data|] == data;
        AllAccepts(Sent(c, data), done);
      } else if c.out == [] {
        assert c.wire + data[..taken] + data[taken..] == c.wire + data;
      }
    }
  }

  /** Every byte of a send on a connection that is up, and of the sends of its callback if that runs. */
  function AskedByAct(c: Conn, a: Act): seq<char>
    decreases a, 0
  {
    match a
    case Send(data, taken, done) =>
      if c.state != Connected then []
      else if c.out == [] && |data| <= taken then data + AskedBy(Sent(c, data), done)
      else data
    case Shutdown => []
  }

  function AskedBy(c: Conn, acts: seq<Act>): seq<char>
    decreases acts, 0
  {
    if acts == [] then [] else AskedByAct(c, acts[0]) + AskedBy(DoAct(c, acts[0]), acts[1..])
  }

  function AskedIn(c: Conn, e: Event): seq<char> {
    match e
    case Established(acts) => if c.state == Connecting then AskedBy(c.(state := Connected), acts) else []
    case Perform(acts) => AskedBy(c, acts)
    case Readable(bytes, acts) => if bytes > 0 then AskedBy(c, acts) else []
    case Writable(taken, done) =>
      if c.state != Disconnected && 0 < |c.out| <= taken then AskedBy(Drained(c), done) else []
    case ForeignShutdown => []
    case RunShutdown => []
    case PeerClosed(_) => []
    case Destroyed(_) => []
  }

  function AskedOver(c: Conn, es: seq<Event>): seq<char>
    decreases |es|
  {
    if es == [] then [] else AskedIn(c, es[0]) + AskedOver(Handle(c, es[0]), es[1..])
  }

  /** The connection with its buffer written out. */
  function Drained(c: Conn): Conn {
    c.(wire := c.wire + c.out, out := [], writing := false)
  }

  /** What a writable connection does: nothing when it has nothing to write or the kernel takes nothing; with a
      kernel that takes all, the callback runs on the result; else a part goes out. */
  lemma WriteDrains(c: Conn, taken: nat, done: seq<Act>)
    requires Inv(c)
    ensures var d := HandleWrite(c, taken, done);
            if c.state == Disconnected || c.out == [] then d == c
            else if |c.out| <= taken then d == DoAll(Drained(c), done)
            else
              && d.wire + d.out == c.wire + c.out && |d.wire| == |c.wire| + taken
              && d == c.(wire := d.wire, out := d.out)
  {
    if taken < |c.out| {
      assert c.wire + c.out == c.wire + c.out[..taken] + c.out[taken..];
      assert taken == 0 ==> c.wire + c.out[..0] == c.wire && c.out[0..] == c.out;
    } else {
      assert c.out[..|c.out|] == c.out && c.out[|c.out|..] == [];
    }
  }

  lemma {:induction false} ActAccepts(c: Conn, a: Act)
    requires Inv(c)
    ensures DoAct(c, a).accepted == c.accepted + AskedByAct(c, a)
    decreases a, 0
  {
    if a.Send? && c.state == Connected {
      var Send(data, taken, done) := a;
      if c.out == [] && |data| <= taken {
        assert data[..|data|] == data;
        SentKeepsInv(c, data);
        AllAccepts(Sent(c, data), done);
      }
    }
  }

  lemma SentKeepsInv(c: Conn, data: seq<char>)
    requires Inv(c) && c.out == [] && c.state == Connected
    ensures Inv(Sent(c, data))
  {
    assert c.wire + [] == c.wire && c.wire + data + [] == c.wire + data;
  }

  lemma {:induction false} AllAccepts(c: Conn, acts: seq<Act>)
    requires Inv(c)
    ensures DoAll(c, acts).accepted == c.accepted + AskedBy(c, acts)
    decreases acts, 0
  {
    if acts != [] {
      ActAccepts(c, acts[0]);
      ActKeepsInv(c, acts[0]);
      AllAccepts(DoAct(c, acts[0]), acts[1..]);
    }
  }

  lemma EventAccepts(c: Conn, e: Event)
    requires Inv(c)
    ensures Handle(c, e).accepted == c.accepted + AskedIn(c, e)
  {
    match e
    case Established(acts) =>
      if c.state == Connecting {
        AllAccepts(c.(state := Connected), acts);
      }
    case Perform(acts) => AllAccepts(c, acts);
    case Readable(bytes, acts) =>
      if bytes > 0 {
        AllAccepts(c, acts);
      } else {
        ForgottenActs(c.(state := Disconnected, writing := false), acts);
      }
    case Writable(taken, done) =>
      WriteDrains(c, taken, done);
      if c.state != Disconnected && 0 < |c.out| <= taken {
        assert c.wire + c.out + [] == c.wire + c.out;
        AllAccepts(Drained(c), done);
      }
    case PeerClosed(acts) => ForgottenActs(c.(state := Disconnected, writing := false), acts);
    case Destroyed(acts) => ForgottenActs(c.(state := Disconnected, writing := false), acts);
    case _ =>
  }

  lemma {:induction false} EventsAccept(c: Conn, es: seq<Event>)
    requires Inv(c)
    ensures HandleAll(c, es).accepted == c.accepted + AskedOver(c, es)
    decreases |es|
  {
    if es != [] {
      EventAccepts(c, es[0]);
      HandleKeepsInv(c, es[0]);
      EventsAccept(Handle(c, es[0]), es[1..]);
    }
  }

  // ---------- What a connection promises, over every run ----------

  /** Over every run, what went out followed by what is buffered is what user code asked to send while the
      connection was up, each payload once and in order. */
  lemma NoSendIsLost(es: seq<Event>)
    ensures var c := HandleAll(NEW, es);
            c.wire + c.out == AskedOver(NEW, es)
  {
    EventsKeepInv(NEW, es);
    EventsAccept(NEW, es);
  }

  /** What takes a connection up, and what takes it down. */
  lemma StateMoves(c: Conn, e: Event)
    ensures Handle(c, e).state == Disconnected <==>
              || c.state == Disconnected || e.PeerClosed? || (e.Readable? && e.bytes == 0)
              || (e.Destroyed? && c.state == Connected)
    ensures Handle(c, e).state == Connecting <==>
              c.state == Connecting && !e.Established? && !e.PeerClosed? && !(e.Readable? && e.bytes == 0)
  {
    match e
    case Established(acts) =>
      if c.state == Connecting {
        ActsKeepUp(c.(state := Connected), acts);
      }
    case Perform(acts) => ActsKeepUp(c, acts);
    case Readable(bytes, acts) =>
      ActsKeepUp(if bytes > 0 then c else c.(state := Disconnected, writing := false), acts);
    case Writable(taken, done) =>
      var n := Min(taken, |c.out|);
      ActsKeepUp(c.(wire := c.wire + c.out[..n], out := c.out[n..], writing := false), done);
    case PeerClosed(acts) => ActsKeepUp(c.(state := Disconnected, writing := false), acts);
    case Destroyed(acts) => ActsKeepUp(c.(state := Disconnected, writing := false), acts);
    case _ =>
  }

  /** The stream is conserved: what went out, followed by what is buffered, is what was accepted; and while
      the connection is up, write interest is on exactly when bytes are buffered. */
  lemma StreamConserved(es: seq<Event>)
    ensures var c := HandleAll(NEW, es);
            && c.wire + c.out == c.accepted
            && (c.state != Disconnected ==> (c.writing <==> c.out != []))
  {
    EventsKeepInv(NEW, es);
  }

  /** No byte is written after `shutdownWrite`, and unless the peer closed first nothing was left behind. */
  lemma NothingAfterShutdown(es: seq<Event>)
    ensures var c := HandleAll(NEW, es);
            c.fin != -1 ==> |c.wire| == c.fin && (c.state == Disconnecting ==> c.wire == c.accepted)
  {
    EventsKeepInv(NEW, es);
    var c := HandleAll(NEW, es);
    assert c.out == [] ==> c.wire + c.out == c.wire;
  }

  lemma {:induction false} SendKeepsUp(c: Conn, data: seq<char>, taken: nat, done: seq<Act>)
    ensures DoSend(c, data, taken, done).state == Disconnected <==> c.state == Disconnected
    ensures DoSend(c, data, taken, done).state == Connecting <==> c.state == Connecting
    decreases done, 1
  {
    if c.state == Connected && !c.writing && c.out == [] && Min(taken, |data|) == |data| {
      ActsKeepUp(c.(accepted := c.accepted + data, wire := c.wire + data[..|data|]), done);
    }
  }

  /** No request of user code takes a connection down, or up again. */
  lemma {:induction false} ActsKeepUp(c: Conn, acts: seq<Act>)
    ensures DoAll(c, acts).state == Disconnected <==> c.state == Disconnected
    ensures DoAll(c, acts).state == Connecting <==> c.state == Connecting
    decreases acts, 0
  {
    if acts != [] {
      match acts[0] {
        case Send(data, taken, done) => SendKeepsUp(c, data, taken, done);
        case Shutdown =>
      }
      ActsKeepUp(DoAct(c, acts[0]), acts[1..]);
    }
  }

  lemma ReactionCloses(c: Conn, callback: Callback, plan: Plan)
    ensures Handle(c, Reaction(callback, plan)).state == Disconnected <==>
              c.state == Disconnected || callback == OnClose || (callback == OnRead && plan.bytes == 0)
  {
    match callback
    case OnClose => ActsKeepUp(c.(state := Disconnected, writing := false), plan.closed);
    case OnError => ActsKeepUp(c, []);
    case OnRead => ActsKeepUp(if plan.bytes > 0 then c else c.(state := Disconnected, writing := false), plan.read);
    case OnWrite =>
      var n := Min(plan.taken, |c.out|);
      ActsKeepUp(c.(wire := c.wire + c.out[..n], out := c.out[n..], writing := false), plan.done);
  }

  /** A polled event takes a connection down exactly when `handleClose` runs in it, once or twice. */
  lemma {:induction false} EventCloses(c: Conn, calls: seq<Callback>, plan: Plan)
    ensures HandleAll(c, Reactions(calls, plan)).state == Disconnected <==>
              c.state == Disconnected || CloseCount(calls, plan.bytes) > 0
    decreases |calls|
  {
    if calls != [] {
      ReactionCloses(c, calls[0], plan);
      EventCloses(Handle(c, Reaction(calls[0], plan)), calls[1..], plan);
      assert Reactions(calls, plan)[1..] == Reactions(calls[1..], plan);
    }
  }

  /** Shut down, with the request behind it, and no `shutdownWrite`. */
  ghost predicate Forgotten(c: Conn) {
    (c.state == Disconnecting || c.state == Disconnected) && !c.shutdownQueued && c.fin == -1
  }

  lemma {:induction false} ForgottenActs(c: Conn, acts: seq<Act>)
    requires c.state == Disconnecting || c.state == Disconnected
    ensures DoAll(c, acts) == c
    decreases |acts|
  {
    if acts != [] {
      match acts[0] {
        case Send(data, taken, done) => assert DoSend(c, data, taken, done) == c;
        case Shutdown =>
      }
      ForgottenActs(c, acts[1..]);
    }
  }

  lemma {:induction false} StaysForgotten(c: Conn, es: seq<Event>)
    requires Forgotten(c)
    ensures Forgotten(HandleAll(c, es))
    decreases |es|
  {
    if es != [] {
      var e := es[0];
      match e {
        case Perform(acts) => ForgottenActs(c, acts);
        case Readable(bytes, acts) =>
          ForgottenActs(if bytes > 0 then c else c.(state := Disconnected, writing := false), acts);
        case Writable(taken, done) =>
          var n := Min(taken, |c.out|);
          ForgottenActs(c.(wire := c.wire + c.out[..n], out := c.out[n..], writing := false), done);
        case PeerClosed(acts) => ForgottenActs(c.(state := Disconnected, writing := false), acts);
        case _ =>
      }
      StaysForgotten(Handle(c, e), es[1..]);
    }
  }

  lemma {:induction false} FinStays(c: Conn, es: seq<Event>)
    requires c.fin != -1 && (c.state == Disconnecting || c.state == Disconnected) && !c.writing
    ensures HandleAll(c, es).fin == c.fin
    decreases |es|
  {
    if es != [] {
      var e := es[0];
      match e {
        case Perform(acts) => ForgottenActs(c, acts);
        case Readable(bytes, acts) =>
          ForgottenActs(if bytes > 0 then c else c.(state := Disconnected, writing := false), acts);
        case PeerClosed(acts) => ForgottenActs(c.(state := Disconnected, writing := false), acts);
        case _ =>
      }
      FinStays(Handle(c, e), es[1..]);
    }
  }

  /** A shutdown request takes effect, now or ever, exactly when no output was pending at the moment it was
      carried out: `handleWrite` does not come back to it. */
  lemma ShutdownTakesEffect(c: Conn, es: seq<Event>)
    requires Inv(c) && c.state == Connected
    ensures HandleAll(DoAct(c, Shutdown), es).fin != -1 <==> c.out == []
  {
    var d := DoAct(c, Shutdown);
    if c.out == [] {
      FinStays(d, es);
    } else {
      StaysForgotten(d, es);
    }
  }

  /** A shutdown that another thread asked for takes effect, now or ever, exactly when the channel is not writing at
      the moment its functor runs: while the connection is up, when no output is pending then; and always when it
      is down, whatever it leaves behind. */
  lemma QueuedShutdownTakesEffect(c: Conn, es: seq<Event>)
    requires Inv(c) && c.shutdownQueued && c.fin == -1
    ensures HandleAll(Handle(c, RunShutdown), es).fin != -1 <==> !c.writing
    ensures c.state != Disconnected ==> (HandleAll(Handle(c, RunShutdown), es).fin != -1 <==> c.out == [])
    ensures c.state == Disconnected ==> HandleAll(Handle(c, RunShutdown), es).fin == |c.wire|
  {
    var d := Handle(c, RunShutdown);
    if c.writing {
      StaysForgotten(d, es);
    } else {
      FinStays(d, es);
    }
  }

  /** The same request with the same output pending: it takes effect if the output drains before the functor runs,
      it is forgotten if not, and it takes effect without the output if the peer closes first. */
  lemma ThreeLateShutdowns()
    ensures var asked := [Established([Send("x", 0, [])]), ForeignShutdown];
            var drained := HandleAll(NEW, asked + [Writable(1, []), RunShutdown]);
            var forgotten := HandleAll(NEW, asked + [RunShutdown, Writable(1, [])]);
            var closed := HandleAll(NEW, asked + [PeerClosed([]), RunShutdown]);
            && drained.fin == 1 && drained.wire == drained.accepted
            && forgotten.fin == -1 && forgotten.out == [] && !forgotten.shutdownQueued
            && closed.fin == 0 && closed.out == "x"
  {
    var s := Send("x", 0, []);
    var c1 := Handle(NEW, Established([s]));
    assert [s][1..] == [] && DoAll(NEW.(state := Connected), [s]) == DoAct(NEW.(state := Connected), s);
    assert c1 == NEW.(state := Connected, writing := true, out := "x", accepted := "x");
    var c2 := Handle(c1, ForeignShutdown);
    Three(NEW, Established([s]), ForeignShutdown, Writable(1, []), RunShutdown);
    Three(NEW, Established([s]), ForeignShutdown, RunShutdown, Writable(1, []));
    Three(NEW, Established([s]), ForeignShutdown, PeerClosed([]), RunShutdown);
    assert Handle(c2, Writable(1, [])) == c2.(wire := "x", out := "", writing := false);
    assert Handle(c2, RunShutdown) == c2.(shutdownQueued := false);
    assert Handle(c2.(shutdownQueued := false), Writable(1, [])) ==
           c2.(shutdownQueued := false, wire := "x", out := "", writing := false);
  }

  lemma Three(c: Conn, e1: Event, e2: Event, e3: Event, e4: Event)
    ensures HandleAll(c, [e1, e2] + [e3, e4]) == Handle(Handle(Handle(Handle(c, e1), e2), e3), e4)
  {
    var es := [e1, e2] + [e3, e4];
    var c1 := Handle(c, e1);
    var c2 := Handle(c1, e2);
    assert es[1..] == [e2, e3, e4] && [e2, e3, e4][1..] == [e3, e4] && [e3, e4][1..] == [e4] && [e4][1..] == [];
    assert HandleAll(c, es) == HandleAll(c1, [e2, e3, e4]) == HandleAll(c2, [e3, e4]);
    assert HandleAll(c2, [e3, e4]) == HandleAll(Handle(c2, e3), [e4]) == Handle(Handle(c2, e3), e4);
  }
}
