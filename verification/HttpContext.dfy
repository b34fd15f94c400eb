/** The parser object: the loop of `HttpContext::parseRequest` over a real buffer. */
module HttpContexts {
  import opened Buffers
  import opened Http

  class HttpContext {
    var request: Request
    var state: ParseState

    function View(): Context
      reads this
    {
      Context(request, state)
    }

    constructor ()
      ensures View() == FRESH
    {
      request, state := FRESH.request, FRESH.state;
    }

    /** Swapping with a fresh request leaves out the body. */
    method Reset()
      modifies this
      ensures View() == Context(FRESH.request.(body := old(request.body)), ExpectRequestLine)
      ensures View() == FRESH <==> old(request.body) == ""
    {
      state := ExpectRequestLine;
      request := FRESH.request.(body := request.body);
    }

    method ParseRequestBody(buffer: Buffer) returns (ok: bool)
      requires buffer.Valid()
      modifies this, buffer`readIndex
      ensures buffer.Valid()
      ensures Result(ok, View(), buffer.Contents()) == Http.ParseRequestBody(old(View()), old(buffer.Contents()))
    {
      var length := BodyLength(request);
      if length == -1 {
        return false;
      }
      if length < buffer.ReadableBytes() {
        ok := true;
      } else if length == buffer.ReadableBytes() {
        var body := buffer.Peek(buffer.ReadableBytes());
        request := request.(body := body);
        buffer.RetrieveAll();
        state := GotAll;
        ok := true;
      } else {
        ok := false;
      }
    }

    /** A round of the parse loop on a complete request line; `k` is where it ends. */
    method ParseFirstLine(buffer: Buffer, k: nat) returns (ok: bool, hasMore: bool)
      requires buffer.Valid() && state == ExpectRequestLine && k == FindCRLF(buffer.Contents())
      modifies this, buffer`readIndex
      ensures buffer.Valid() && (hasMore ==> ok)
      ensures ParseRound(old(View()), old(buffer.Contents())) ==
              if hasMore then More(View(), buffer.Contents()) else Done(Result(ok, View(), buffer.Contents()))
    {
      var (good, req) := ParseRequestLine(request, buffer.Peek(k));
      request := req;
      if good {
        buffer.Retrieve(2 + k);
        state := ExpectHeaders;
      }
      ok, hasMore := good, good;
    }

    /** A round of the parse loop on a complete header line. */
    method ParseHeaderLine(buffer: Buffer, k: nat) returns (ok: bool, hasMore: bool)
      requires buffer.Valid() && state == ExpectHeaders && k == FindCRLF(buffer.Contents())
      modifies this, buffer`readIndex
      ensures buffer.Valid() && (hasMore ==> ok)
      ensures ParseRound(old(View()), old(buffer.Contents())) ==
              if hasMore then More(View(), buffer.Contents()) else Done(Result(ok, View(), buffer.Contents()))
    {
      ghost var s := buffer.Contents();
      ok, hasMore := true, true;
      if k == 0 {
        if request.verb == Post {
          state := ExpectBody;
        } else {
          state := GotAll;
          hasMore := false;
        }
      } else {
        ok := TakeHeader(buffer.Peek(k), s, k);
        hasMore := ok;
      }
      buffer.Retrieve(2 + k);
      assert buffer.Contents() == s[k + 2..];
    }

    method TakeHeader(line: string, ghost s: string, ghost k: nat) returns (ok: bool)
      requires 0 < k && k + 1 < |s| && line == s[..k]
      modifies this`request
      ensures HeaderRound(old(View()), s, k) ==
              if ok then More(View(), s[k + 2..]) else Done(Result(false, View(), s[k + 2..]))
    {
      var colon := IndexOf(line, ':');
      ok := colon != |line|;
      if ok {
        assert s[..colon] == line[..colon] && s[colon + 1..k] == line[colon + 1..];
        request := AddHeader(request, line[..colon], line[colon + 1..]);
      }
    }

    method ParseRequest(buffer: Buffer) returns (ok: bool)
      requires buffer.Valid()
      modifies this, buffer`readIndex
      ensures buffer.Valid()
      ensures Result(ok, View(), buffer.Contents()) == Http.ParseRequest(old(View()), old(buffer.Contents()))
    {
      ghost var target := Http.ParseRequest(View(), buffer.Contents());
      ok := true;
      var hasMore := true;
      while hasMore
        invariant buffer.Valid() && (hasMore ==> ok)
        invariant target == if hasMore then Http.ParseRequest(View(), buffer.Contents())
                            else Result(ok, View(), buffer.Contents())
        decreases |buffer.Contents()| + if hasMore then 1 else 0
      {
        if state == ExpectRequestLine || state == ExpectHeaders {
          var k := buffer.FindCrlf();
          if k != -1 {
            if state == ExpectRequestLine {
              ok, hasMore := ParseFirstLine(buffer, k);
            } else {
              ok, hasMore := ParseHeaderLine(buffer, k);
            }
          } else {
            hasMore := false;
          }
        } else if state == ExpectBody {
          ok := ParseRequestBody(buffer);
          hasMore := false;
        } else {
          hasMore := false;
        }
      }
    }
  }
}
