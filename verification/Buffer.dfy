/** The byte buffer of muduo/net/Buffer.h and Buffer.cc: one array, a read index and a write index. */
module Buffers {

  const CHEAP_PREPEND := 8
  const INIT_SIZE := 1024
  const EXTRA_BUF := 65536

  /** The first "\r\n" in `s`, or -1. */
  function FindCRLF(s: seq<char>): (k: int)
    ensures -1 <= k && (k >= 0 ==> k + 1 < |s| && s[k] == '\r' && s[k + 1] == '\n')
    ensures forall i :: 0 <= i < |s| - 1 && (k == -1 || i < k) ==> !(s[i] == '\r' && s[i + 1] == '\n')
  {
    if |s| < 2 then -1
    else if s[0] == '\r' && s[1] == '\n' then 0
    else var k := FindCRLF(s[1..]); if k == -1 then -1 else k + 1
  }

  /** A use of a buffer: bytes put in by the program, bytes read from a socket, bytes taken out. */
  datatype Use = Put(data: seq<char>) | Receive(incoming: seq<char>) | Take(len: nat)

  function Incoming(u: Use): seq<char> {
    match u case Put(d) => d case Receive(d) => d case Take(_) => []
  }

  function BytesIn(uses: seq<Use>): seq<char> {
    if uses == [] then [] else Incoming(uses[0]) + BytesIn(uses[1..])
  }

  /** A plain queue of bytes put to the same use: what it delivers and what it keeps. */
  function Step(q: seq<char>, u: Use): (seq<char>, seq<char>) {
    match u
    case Put(d) => ([], q + d)
    case Receive(d) => ([], q + d)
    case Take(len) => if len <= |q| then (q[..len], q[len..]) else (q, [])
  }

  function Fifo(q: seq<char>, uses: seq<Use>): (seq<char>, seq<char>)
    decreases |uses|
  {
    if uses == [] then ([], q)
    else
      var (out, q1) := Step(q, uses[0]);
      var (more, q2) := Fifo(q1, uses[1..]);
      (out + more, q2)
  }

  /** A queue delivers what went in, in that order, and keeps the rest. */
  lemma {:induction false} FifoConserves(q: seq<char>, uses: seq<Use>)
    ensures Fifo(q, uses).0 + Fifo(q, uses).1 == q + BytesIn(uses)
    decreases |uses|
  {
    if uses != [] {
      var (out, q1) := Step(q, uses[0]);
      assert out + q1 == q + Incoming(uses[0]);
      FifoConserves(q1, uses[1..]);
      var (more, q2) := Fifo(q1, uses[1..]);
      assert out + more + q2 == out + (more + q2) == out + q1 + BytesIn(uses[1..]);
    }
  }

  /** What came of a use: all of it, except that one read takes no more than fits the two segments, which is
      at least what the second one holds. */
  predicate Came(u: Use, done: Use) {
    if u.Receive? then
      && done.Receive? && done.incoming <= u.incoming
      && (done.incoming == u.incoming || |done.incoming| >= EXTRA_BUF)
    else done == u
  }

  /** Over any run of uses the buffer is indistinguishable from a plain queue of bytes. A `Receive` offers
      all that the socket has; `done` says how much of it each read took. */
  method Drive(b: Buffer, uses: seq<Use>) returns (out: seq<char>, done: seq<Use>)
    requires b.Valid()
    modifies b, b.buffer
    ensures b.Valid() && (out, b.Contents()) == Fifo(old(b.Contents()), done)
    ensures |done| == |uses| && forall i :: 0 <= i < |uses| ==> Came(uses[i], done[i])
    ensures b.buffer == old(b.buffer) || fresh(b.buffer)
    decreases |uses|
  {
    out, done := [], [];
    if uses != [] {
      var took: Use;
      out, took := DriveOnce(b, uses[0]);
      var more, rest := Drive(b, uses[1..]);
      out := out + more;
      done := [took] + rest;
    }
  }

  method DriveOnce(b: Buffer, u: Use) returns (out: seq<char>, done: Use)
    requires b.Valid()
    modifies b, b.buffer
    ensures b.Valid() && (out, b.Contents()) == Step(old(b.Contents()), done) && Came(u, done)
    ensures b.buffer == old(b.buffer) || fresh(b.buffer)
  {
    ghost var q := b.Contents();
    out, done := [], u;
    match u
    case Put(data) => b.Append(data);
    case Receive(available) =>
      var n := b.ReadFd(available, false);
      done := Receive(available[..n]);
    case Take(len) =>
      out := b.RetrieveAsString(if len <= b.ReadableBytes() then len else b.ReadableBytes());
      assert q == out + b.Contents();
      assert out == q[..|out|] && b.Contents() == q[|out|..] && q[..|q|] == q;
  }

  lemma SliceOfPrefix(s: seq<char>, n: nat, i: nat, j: nat)
    requires i <= j <= n <= |s|
    ensures s[..n][i..j] == s[i..j]
  {
    forall k | 0 <= k < j - i ensures s[..n][i..j][k] == s[i..j][k] {
      assert s[..n][i..j][k] == s[i + k];
    }
  }

  class Buffer {
    var buffer: array<char>
    var readIndex: nat
    var writeIndex: nat

    ghost predicate Valid()
      reads this
    {
      CHEAP_PREPEND <= readIndex <= writeIndex <= buffer.Length
    }

    /** The bytes waiting to be read, oldest first. */
    ghost function Contents(): seq<char>
      requires Valid()
      reads this, buffer
    {
      buffer[readIndex..writeIndex]
    }

    constructor (initSize: nat := INIT_SIZE)
      requires initSize >= CHEAP_PREPEND
      ensures Valid() && Contents() == [] && fresh(buffer)
    {
      buffer := new char[initSize](_ => '\0');
      readIndex, writeIndex := CHEAP_PREPEND, CHEAP_PREPEND;
    }

    function ReadableBytes(): (n: nat)
      requires Valid()
      reads this, buffer
      ensures n == |Contents()|
    {
      writeIndex - readIndex
    }

    function WritableBytes(): nat
      requires Valid()
      reads this
    {
      buffer.Length - writeIndex
    }

    function PrependableBytes(): nat
      reads this
    {
      readIndex
    }

    function Peek(n: nat): (s: seq<char>)
      requires Valid() && n <= ReadableBytes()
      reads this, buffer
      ensures s == Contents()[..n]
    {
      buffer[readIndex..readIndex + n]
    }

    method FindCrlf() returns (k: int)
      requires Valid()
      ensures k == FindCRLF(Contents())
    {
      k := readIndex;
      while k + 1 < writeIndex && !(buffer[k] == '\r' && buffer[k + 1] == '\n')
        invariant readIndex <= k <= writeIndex
        invariant forall i :: readIndex <= i < k && i + 1 < writeIndex ==> !(buffer[i] == '\r' && buffer[i + 1] == '\n')
      {
        k := k + 1;
      }
      ghost var s := Contents();
      assert forall i :: 0 <= i < |s| ==> s[i] == buffer[readIndex + i];
      k := if k + 1 < writeIndex then k - readIndex else -1;
    }

    method Retrieve(len: nat)
      requires Valid()
      modifies this`readIndex
      ensures Valid() && Contents() == old(Contents())[if len <= |old(Contents())| then len else |old(Contents())|..]
    {
      if ReadableBytes() >= len {
        readIndex := readIndex + len;
      } else {
        readIndex := readIndex + ReadableBytes();
      }
    }

    method RetrieveAll()
      requires Valid()
      modifies this`readIndex
      ensures Valid() && Contents() == []
    {
      readIndex := readIndex + ReadableBytes();
    }

    method RetrieveAsString(len: nat) returns (result: seq<char>)
      requires Valid() && len <= |Contents()|
      modifies this`readIndex
      ensures Valid() && result + Contents() == old(Contents()) && |result| == len
    {
      result := Peek(len);
      Retrieve(len);
    }

    method Append(data: seq<char>)
      requires Valid()
      modifies this, buffer
      ensures Valid() && Contents() == old(Contents()) + data
      ensures buffer == old(buffer) || fresh(buffer)
    {
      EnsureWritableBytes(|data|);
      CopyIn(data);
      writeIndex := writeIndex + |data|;
    }

    /** `std::copy` of outside bytes to the write position. */
    method CopyIn(data: seq<char>)
      requires Valid() && writeIndex + |data| <= buffer.Length
      modifies buffer
      ensures buffer[..writeIndex] == old(buffer[..writeIndex])
      ensures buffer[writeIndex..writeIndex + |data|] == data
    {
      for i := 0 to |data|
        invariant buffer[..writeIndex] == old(buffer[..writeIndex])
        invariant buffer[writeIndex..writeIndex + i] == data[..i]
      {
        buffer[writeIndex + i] := data[i];
      }
    }

    method EnsureWritableBytes(len: nat)
      requires Valid()
      modifies this, buffer
      ensures Valid() && Contents() == old(Contents()) && WritableBytes() >= len
      ensures buffer == old(buffer) || fresh(buffer)
    {
      if WritableBytes() < len {
        MakeSpace(len);
      }
    }

    /** Grow the array, or slide the readable bytes down to the front of it. Sliding only happens when
        the front is free beyond the reserve, so that the forward copy never overtakes its source. */
    method MakeSpace(len: nat)
      requires Valid() && WritableBytes() < len
      modifies this, buffer
      ensures Valid() && Contents() == old(Contents()) && WritableBytes() >= len
      ensures buffer == old(buffer) || fresh(buffer)
    {
      if WritableBytes() + PrependableBytes() - CHEAP_PREPEND < len {
        Resize(writeIndex + len);
        SliceOfPrefix(buffer[..], old(buffer).Length, readIndex, writeIndex);
      } else {
        assert readIndex > CHEAP_PREPEND;
        var readable := ReadableBytes();
        CopyDown();
        readIndex := CHEAP_PREPEND;
        writeIndex := readIndex + readable;
      }
    }

    /** `std::vector::resize` to a larger size. */
    method Resize(n: nat)
      requires Valid() && n >= buffer.Length
      modifies this`buffer
      ensures fresh(buffer) && buffer.Length == n && buffer[..old(buffer).Length] == old(buffer[..])
    {
      var bigger := new char[n](_ => '\0');
      for i := 0 to buffer.Length
        invariant buffer == old(buffer) && bigger[..i] == buffer[..i]
      {
        bigger[i] := buffer[i];
      }
      buffer := bigger;
    }

    /** The in-place `std::copy` of the readable bytes to the front. */
    method CopyDown()
      requires Valid() && readIndex > CHEAP_PREPEND
      modifies buffer
      ensures buffer[CHEAP_PREPEND..CHEAP_PREPEND + (writeIndex - readIndex)] == old(Contents())
    {
      for i := 0 to writeIndex - readIndex
        invariant buffer[CHEAP_PREPEND..CHEAP_PREPEND + i] == old(Contents())[..i]
        invariant buffer[readIndex + i..writeIndex] == old(Contents())[i..]
      {
        assert buffer[readIndex + i] == buffer[readIndex + i..writeIndex][0];
        assert buffer[readIndex + i + 1..writeIndex] == old(Contents())[i + 1..];
        buffer[CHEAP_PREPEND + i] := buffer[readIndex + i];
      }
    }

    /** The most that one scatter read takes. */
    function ReadLimit(): (n: nat)
      requires Valid()
      reads this
      ensures n >= EXTRA_BUF
    {
      WritableBytes() + if WritableBytes() < EXTRA_BUF then EXTRA_BUF else 0
    }

    /** A scatter read into the free part of the array and, if that is short, a stack buffer. `available` is
        what the socket has; a negative `n` stands for a failed read. */
    method ReadFd(available: seq<char>, failed: bool) returns (n: int)
      requires Valid()
      modifies this, buffer
      ensures buffer == old(buffer) || fresh(buffer)
      ensures Valid()
      ensures failed ==> n == -1 && Contents() == old(Contents())
      ensures !failed ==>
                var room := old(WritableBytes());
                var limit := if room < 65536 then room + 65536 else room;
                n == if |available| < limit then |available| else limit
      ensures !failed ==> Contents() == old(Contents()) + available[..n]
    {
      if failed {
        return -1;
      }
      n := if |available| < ReadLimit() then |available| else ReadLimit();
      var incoming := available[..n];
      var writable := WritableBytes();
      ghost var before := Contents();
      if n < writable {
        CopyIn(incoming);
        writeIndex := writeIndex + n;
      } else {
        CopyIn(incoming[..writable]);
        writeIndex := buffer.Length;
        assert Contents() == before + incoming[..writable];
        assert before + incoming == before + incoming[..writable] + incoming[writable..];
        Append(incoming[writable..]);
      }
    }
  }
}
