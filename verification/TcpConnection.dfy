/** The connection object: the handlers of muduo/net/TcpConnection.cc over a real output buffer, proved
    against `OutputStream`. */
module TcpConnections {
  import opened Channels
  import opened Buffers
  import opened OutputStream

  class TcpConnection {
    const outputBuffer: Buffer
    var state: ConnState
    var writing: bool
    var shutdownQueued: bool
    ghost var wire: seq<char>
    ghost var accepted: seq<char>
    ghost var fin: int

    ghost function View(): Conn
      requires outputBuffer.Valid()
      reads this, outputBuffer, outputBuffer.buffer
    {
      Conn(state, writing, outputBuffer.Contents(), shutdownQueued, wire, accepted, fin)
    }

    ghost predicate Valid()
      reads this, outputBuffer, outputBuffer.buffer
    {
      outputBuffer.Valid() && Inv(View())
    }

    constructor ()
      ensures Valid() && View() == NEW && fresh(outputBuffer) && fresh(outputBuffer.buffer)
    {
      outputBuffer := new Buffer();
      state, writing, shutdownQueued := Connecting, false, false;
      wire, accepted, fin := [], [], -1;
    }

    /** `write(2)`: the kernel takes a prefix of the data. */
    method Write(data: seq<char>, taken: nat) returns (n: nat)
      modifies this`wire
      ensures n == Min(taken, |data|) && wire == old(wire) + data[..n]
    {
      n := Min(taken, |data|);
      wire := wire + data[..n];
    }

    /** `Socket::shutdownWrite`. */
    method ShutdownWrite()
      modifies this`fin
      ensures fin == if old(fin) == -1 then |wire| else old(fin)
    {
      if fin == -1 {
        fin := |wire|;
      }
    }

    /** `sendInLoop`: on a connection that is up the data follows all that was sent before, and the callback runs
        within the call exactly when nothing was pending and the kernel takes it all. */
    method SendInLoop(data: seq<char>, taken: nat, done: seq<Act>)
      requires outputBuffer.Valid()
      modifies this, outputBuffer, outputBuffer.buffer
      ensures outputBuffer.Valid() && (outputBuffer.buffer == old(outputBuffer.buffer) || fresh(outputBuffer.buffer))
      ensures View() == DoSend(old(View()), data, taken, done)
      ensures old(Valid() && state == Connected) ==>
                old(wire + outputBuffer.Contents()) + data <= wire + outputBuffer.Contents()
      ensures old(Valid() && state == Connected && outputBuffer.Contents() == []) && |data| <= taken ==>
                View() == DoAll(Sent(old(View()), data), done)
      decreases done, 1
    {
      if Valid() {
        SendAccepts(View(), data, taken, done);
      }
      if state != Connected {
        return;
      }
      accepted := accepted + data;
      var nwrote := 0;
      var remain := |data|;
      if !writing && outputBuffer.ReadableBytes() == 0 {
        nwrote := Write(data, taken);
        remain := |data| - nwrote;
        if remain == 0 {
          PerformAll(done);
        }
      }
      if remain > 0 {
        outputBuffer.Append(data[nwrote..]);
        if !writing {
          writing := true;
        }
      }
    }

    method ShutdownInLoop()
      requires outputBuffer.Valid()
      modifies this`fin
      ensures View() == OutputStream.ShutdownInLoop(old(View()))
    {
      if !writing {
        ShutdownWrite();
      }
    }

    /** What user code asks for in one callback, in order. */
    method PerformAll(acts: seq<Act>)
      requires outputBuffer.Valid()
      modifies this, outputBuffer, outputBuffer.buffer
      ensures outputBuffer.Valid() && (outputBuffer.buffer == old(outputBuffer.buffer) || fresh(outputBuffer.buffer))
      ensures View() == DoAll(old(View()), acts)
      decreases acts, 0
    {
      if acts != [] {
        match acts[0] {
          case Send(data, taken, done) =>
            SendInLoop(data, taken, done);
          case Shutdown =>
            if state == Connected {
              state := Disconnecting;
              ShutdownInLoop();
            }
        }
        PerformAll(acts[1..]);
      }
    }

    method HandleWrite(taken: nat, done: seq<Act>)
      requires outputBuffer.Valid()
      modifies this, outputBuffer, outputBuffer.buffer
      ensures outputBuffer.Valid() && (outputBuffer.buffer == old(outputBuffer.buffer) || fresh(outputBuffer.buffer))
      ensures View() == OutputStream.HandleWrite(old(View()), taken, done)
    {
      if writing {
        var nwrote := Write(outputBuffer.Peek(outputBuffer.ReadableBytes()), taken);
        if nwrote > 0 {
          outputBuffer.Retrieve(nwrote);
          if outputBuffer.ReadableBytes() == 0 {
            writing := false;
            PerformAll(done);
          }
        } else {
          assert wire == old(wire) + [] == old(wire);
        }
      }
    }

    /** `handleRead` on a read that returned `bytes`; what the bytes are is up to the message callback. */
    method HandleRead(bytes: nat, acts: seq<Act>)
      requires outputBuffer.Valid()
      modifies this, outputBuffer, outputBuffer.buffer
      ensures outputBuffer.Valid() && (outputBuffer.buffer == old(outputBuffer.buffer) || fresh(outputBuffer.buffer))
      ensures View() == OutputStream.HandleRead(old(View()), bytes, acts)
    {
      if bytes > 0 {
        PerformAll(acts);
      } else {
        HandleClose(acts);
      }
    }

    method HandleClose(acts: seq<Act>)
      requires outputBuffer.Valid()
      modifies this, outputBuffer, outputBuffer.buffer
      ensures outputBuffer.Valid() && (outputBuffer.buffer == old(outputBuffer.buffer) || fresh(outputBuffer.buffer))
      ensures View() == Close(old(View()), acts)
    {
      state := Disconnected;
      writing := false;
      PerformAll(acts);
    }

    /** Every event keeps the connection's invariant. */
    method HandleEvent(e: Event)
      requires Valid()
      modifies this, outputBuffer, outputBuffer.buffer
      ensures Valid() && View() == Handle(old(View()), e)
      ensures outputBuffer.buffer == old(outputBuffer.buffer) || fresh(outputBuffer.buffer)
    {
      HandleKeepsInv(View(), e);
      match e
      case Established(acts) =>
        if state == Connecting {
          state := Connected;
          PerformAll(acts);
        }
      case Perform(acts) => PerformAll(acts);
      case Readable(bytes, acts) => HandleRead(bytes, acts);
      case Writable(taken, done) => HandleWrite(taken, done);
      case ForeignShutdown =>
        if state == Connected {
          state, shutdownQueued := Disconnecting, true;
        }
      case RunShutdown =>
        if shutdownQueued {
          shutdownQueued := false;
          ShutdownInLoop();
        }
      case PeerClosed(acts) => HandleClose(acts);
      case Destroyed(acts) =>
        if state == Connected {
          HandleClose(acts);
        }
    }

    /** `handleEvent` of the connection's channel, with the connection's own handlers as its callbacks. It takes the
        connection down exactly when the reported flags and the read say so. */
    method HandlePolled(channel: Channel, plan: Plan)
      requires Valid()
      modifies this, outputBuffer, outputBuffer.buffer
      ensures Valid() && View() == HandleAll(old(View()), Reactions(Dispatch(channel.revents), plan))
      ensures state == Disconnected <==> old(state) == Disconnected || Closes(channel.revents, plan.bytes) > 0
      ensures outputBuffer.buffer == old(outputBuffer.buffer) || fresh(outputBuffer.buffer)
    {
      var calls := channel.HandleEvent();
      EventCloses(View(), calls, plan);
      var todo := calls;
      while todo != []
        invariant Valid() && HandleAll(View(), Reactions(todo, plan)) == HandleAll(old(View()), Reactions(calls, plan))
        invariant outputBuffer.buffer == old(outputBuffer.buffer) || fresh(outputBuffer.buffer)
        decreases |todo|
      {
        assert Reactions(todo, plan)[1..] == Reactions(todo[1..], plan);
        HandleEvent(Reaction(todo[0], plan));
        todo := todo[1..];
      }
    }
  }
}
