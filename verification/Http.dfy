/** The incremental HTTP request parser of muduo/net/http/HttpContext.cc, as a function of the parse
    state and the unread bytes. */
module Http {
  import opened Text
  import opened Buffers

  datatype Method = Get | Post | Head | Invalid
  datatype Version = Http10 | Http11 | Unknown
  datatype ParseState = ExpectRequestLine | ExpectHeaders | ExpectBody | GotAll

  datatype Request = Request(
    verb: Method,
    version: Version,
    path: string,
    header: map<string, string>,
    query: string,
    body: string)

  datatype Context = Context(request: Request, state: ParseState)

  /** What one call of `parseRequest` returns and leaves behind. */
  datatype Result = Result(ok: bool, ctx: Context, rest: string)

  const FRESH := Context(Request(Invalid, Unknown, "", map[], "", ""), ExpectRequestLine)

  const CONTENT_LENGTH := "content-length"

  /** `std::find`: the first `c`, or the end. */
  function IndexOf(s: string, c: char): (i: nat)
    ensures i <= |s| && (i < |s| ==> s[i] == c) && c !in s[..i]
  {
    if s == "" || s[0] == c then 0
    else
      var i := 1 + IndexOf(s[1..], c);
      assert s[..i] == [s[0]] + s[1..][..i - 1];
      i
  }

  /** The table of method names includes one for the invalid method. */
  function MethodNamed(s: string): (bool, Method) {
    if s == "GET" then (true, Get)
    else if s == "POST" then (true, Post)
    else if s == "HEAD" then (true, Head)
    else if s == "INVALID" then (true, Invalid)
    else (false, Invalid)
  }

  /** `parseRequestLine`: even a line that is refused leaves its traces in the request. */
  function ParseRequestLine(req: Request, line: string): (bool, Request) {
    var space := IndexOf(line, ' ');
    if space == |line| then (false, req)
    else
      var (known, verb) := MethodNamed(line[..space]);
      var req1 := req.(verb := verb);
      if !known then (false, req1) else ParseTarget(req1, line[space + 1..])
  }

  /** The rest of the line after the method: the target and the version. */
  function ParseTarget(req: Request, s: string): (bool, Request) {
    var end := IndexOf(s, ' ');
    if end == |s| then (false, req)
    else
      var target := s[..end];
      var question := IndexOf(target, '?');
      var req1 :=
        if question == end then req.(path := target)
        else req.(path := target[..question], query := target[question + 1..]);
      var version := s[end + 1..];
      if |version| != 8 || version[..7] != "HTTP/1." then (false, req1)
      else if version[7] == '0' then (true, req1.(version := Http10))
      else if version[7] == '1' then (true, req1.(version := Http11))
      else (false, req1.(version := Unknown))
  }

  function TrimLeft(s: string): string {
    if s != "" && s[0] == ' ' then TrimLeft(s[1..]) else s
  }

  function TrimRight(s: string): string {
    if s != "" && s[|s| - 1] == ' ' then TrimRight(s[..|s| - 1]) else s
  }

  function Lower(s: string): string {
    seq(|s|, i requires 0 <= i < |s| => if 'A' <= s[i] <= 'Z' then s[i] - 'A' + 'a' else s[i])
  }

  function Canonical(s: string): string {
    Lower(TrimRight(TrimLeft(s)))
  }

  function AddHeader(req: Request, name: string, value: string): Request {
    req.(header := req.header[Canonical(name) := Canonical(value)])
  }

  function GetHeader(req: Request, name: string): string {
    if name in req.header then req.header[name] else ""
  }

  /** `atoi` as glibc has it, stored in an `int` and then compared with a `size_t`: the value saturates
      at the largest `long`, keeps its low 32 bits, and is sign-extended to 64. */
  function AtoiAsSize(n: nat): nat {
    var asLong := if n > 0x7FFF_FFFF_FFFF_FFFF then 0x7FFF_FFFF_FFFF_FFFF else n;
    var low := asLong % 0x1_0000_0000;
    if low < 0x8000_0000 then low else 0x1_0000_0000_0000_0000 - 0x1_0000_0000 + low
  }

  /** The numbers that come through as they are: those that fit an `int`, and the one that the saturated value is
      sign-extended to. */
  predicate KeepsLength(n: nat) {
    n < 0x8000_0000 || n == 0xFFFF_FFFF_FFFF_FFFF
  }

  lemma LengthKept(n: nat)
    ensures AtoiAsSize(n) == n <==> KeepsLength(n)
  {
  }

  /** The announced length of the body, or -1 when it is not a number. */
  function BodyLength(req: Request): int {
    var s := GetHeader(req, CONTENT_LENGTH);
    if forall c <- s :: IsDigit(c) then AtoiAsSize(Value(s)) else -1
  }

  function ParseRequestBody(ctx: Context, s: string): Result {
    var length := BodyLength(ctx.request);
    if length == -1 then Result(false, ctx, s)
    else if length < |s| then Result(true, ctx, s)
    else if length == |s| then Result(true, Context(ctx.request.(body := s), GotAll), "")
    else Result(false, ctx, s)
  }

  /** One round of the parse loop: it ends the call, or goes on with less to read. */
  datatype Round = Done(result: Result) | More(ctx: Context, rest: string)

  function LineRound(ctx: Context, s: string, k: nat): (p: Round)
    requires k + 1 < |s|
    ensures if p.More? then |p.rest| < |s| else |p.result.rest| <= |s|
  {
    var (ok, req) := ParseRequestLine(ctx.request, s[..k]);
    if ok then More(Context(req, ExpectHeaders), s[k + 2..])
    else Done(Result(false, Context(req, ExpectRequestLine), s))
  }

  function HeaderRound(ctx: Context, s: string, k: nat): (p: Round)
    requires k + 1 < |s|
    ensures if p.More? then |p.rest| < |s| else |p.result.rest| < |s|
  {
    if k == 0 then
      if ctx.request.verb == Post then More(ctx.(state := ExpectBody), s[2..])
      else Done(Result(true, ctx.(state := GotAll), s[2..]))
    else
      var colon := IndexOf(s[..k], ':');
      if colon < k then
        More(ctx.(request := AddHeader(ctx.request, s[..colon], s[colon + 1..k])), s[k + 2..])
      else Done(Result(false, ctx, s[k + 2..]))
  }

  function ParseRound(ctx: Context, s: string): (p: Round)
    ensures if p.More? then |p.rest| < |s| else |p.result.rest| <= |s|
  {
    match ctx.state
    case ExpectRequestLine =>
      if FindCRLF(s) == -1 then Done(Result(true, ctx, s)) else LineRound(ctx, s, FindCRLF(s))
    case ExpectHeaders =>
      if FindCRLF(s) == -1 then Done(Result(true, ctx, s)) else HeaderRound(ctx, s, FindCRLF(s))
    case ExpectBody => Done(ParseRequestBody(ctx, s))
    case GotAll => Done(Result(true, ctx, s))
  }

  function ParseRequest(ctx: Context, s: string): (r: Result)
    ensures |r.rest| <= |s|
    decreases |s|
  {
    match ParseRound(ctx, s)
    case Done(r) => r
    case More(c, t) => ParseRequest(c, t)
  }

  // ---------- Fragmentation ----------

  /** The boundary cuts a body: the first call refuses for want of bytes what it would have got in full. */
  predicate CutsBody(r: Result, b: string) {
    !r.ok && r.ctx.state == ExpectBody && |r.rest| < BodyLength(r.ctx.request) <= |r.rest| + |b|
  }

  /** The three ways in which a boundary between fragments shows. Continuing after a header line without a
      colon, which a single call never does; bytes that arrive after a body has just been completed, which in
      a single call would have made the body too long; and a body that is cut, at which the first call is
      answered with a refusal. */
  predicate Shows(ctx: Context, r: Result, b: string) {
    || (!r.ok && r.ctx.state == ExpectHeaders)
    || (Completes(ctx, r) && b != "")
    || CutsBody(r, b)
  }

  lemma {:induction false} FindInLonger(a: string, b: string)
    requires FindCRLF(a) != -1
    ensures FindCRLF(a + b) == FindCRLF(a)
  {
    var k := FindCRLF(a);
    var c := a + b;
    assert c[k] == a[k] && c[k + 1] == a[k + 1];
    var m := FindCRLF(c);
    assert m != -1 && m <= k;
    assert c[m] == a[m] && c[m + 1] == a[m + 1];
  }

  /** Reading a refused request line again changes nothing more. */
  lemma RefusedAgain(req: Request, line: string)
    ensures !ParseRequestLine(req, line).0 ==>
              ParseRequestLine(ParseRequestLine(req, line).1, line) == ParseRequestLine(req, line)
  {
  }

  lemma CutLonger(a: string, b: string, k: nat)
    requires k + 2 <= |a|
    ensures (a + b)[..k] == a[..k] && (a + b)[k + 2..] == a[k + 2..] + b
  {
  }

  lemma HeaderInLonger(ctx: Context, a: string, b: string, k: nat)
    requires k + 1 < |a| && HeaderRound(ctx, a, k).More?
    ensures var p := HeaderRound(ctx, a, k); HeaderRound(ctx, a + b, k) == More(p.ctx, p.rest + b)
  {
    CutLonger(a, b, k);
    if k == 0 {
      assert (a + b)[2..] == a[2..] + b;
    } else {
      var colon := IndexOf(a[..k], ':');
      assert (a + b)[..colon] == a[..colon] && (a + b)[colon + 1..k] == a[colon + 1..k];
    }
  }

  /** A round that goes on does the same whatever bytes follow. */
  lemma MoreInLonger(ctx: Context, a: string, b: string)
    requires ParseRound(ctx, a).More?
    ensures var p := ParseRound(ctx, a); ParseRound(ctx, a + b) == More(p.ctx, p.rest + b)
  {
    FindInLonger(a, b);
    if ctx.state == ExpectHeaders {
      HeaderInLonger(ctx, a, b, FindCRLF(a));
    } else {
      CutLonger(a, b, FindCRLF(a));
    }
  }

  /** Continuing at the boundary gives the result of a single call, and the first call is not refused if the
      single call is not. */
  predicate Unnoticed(ctx: Context, a: string, b: string) {
    var r, joined := ParseRequest(ctx, a), ParseRequest(ctx, a + b);
    ParseRequest(r.ctx, r.rest + b) == joined && (joined.ok ==> r.ok)
  }

  lemma LineDone(ctx: Context, a: string, b: string)
    requires ctx.state == ExpectRequestLine && ParseRound(ctx, a).Done?
    ensures Unnoticed(ctx, a, b) && !Shows(ctx, ParseRequest(ctx, a), b)
  {
    var k := FindCRLF(a);
    if k != -1 {
      FindInLonger(a, b);
      assert (a + b)[..k] == a[..k];
      RefusedAgain(ctx.request, a[..k]);
    }
  }

  lemma HeaderDone(ctx: Context, a: string, b: string)
    requires ctx.state == ExpectHeaders && ParseRound(ctx, a).Done?
    ensures var r := ParseRound(ctx, a).result;
            && (Unnoticed(ctx, a, b) <==> !Shows(ctx, r, b))
            && (!r.ok ==> ParseRequest(ctx, a + b) == Result(false, r.ctx, r.rest + b))
            && !(r.ctx.state == GotAll && r.ctx.request.verb == Post)
  {
    var k := FindCRLF(a);
    var r := ParseRound(ctx, a).result;
    if k == -1 {
      assert r == Result(true, ctx, a);
    } else {
      FindInLonger(a, b);
      LastLineInLonger(ctx, a, b, k);
      if k > 0 {
        NeverStuck(ctx, a[k + 2..] + b);
      }
    }
  }

  /** A header line that ends the call ends it in the same way whatever bytes follow. */
  lemma LastLineInLonger(ctx: Context, a: string, b: string, k: nat)
    requires k + 1 < |a| && HeaderRound(ctx, a, k).Done?
    ensures var r := HeaderRound(ctx, a, k).result;
            && HeaderRound(ctx, a + b, k) == Done(Result(r.ok, r.ctx, r.rest + b)) && r.rest == a[k + 2..]
            && (r.ok <==> k == 0) && r.ctx == if k == 0 then ctx.(state := GotAll) else ctx
  {
    assert (a + b)[..k] == a[..k];
    assert (a + b)[k + 2..] == a[k + 2..] + b;
  }

  /** While headers are expected, a call that consumes nothing waits for more. */
  lemma NeverStuck(ctx: Context, s: string)
    requires ctx.state == ExpectHeaders
    ensures ParseRequest(ctx, s) != Result(false, ctx, s)
    ensures ParseRequest(ctx, s).rest == s ==> ParseRequest(ctx, s) == Result(true, ctx, s)
  {
  }

  lemma BodyDone(ctx: Context, a: string, b: string)
    requires ctx.state == ExpectBody
    ensures var r, joined := ParseRequestBody(ctx, a), ParseRequestBody(ctx, a + b);
            && r.ctx.request.verb == ctx.request.verb
            && (Unnoticed(ctx, a, b) <==> !Shows(ctx, r, b))
            && (r.ctx.state == GotAll && b != "" ==> joined.ctx.state != GotAll)
  {
    var r := ParseRequestBody(ctx, a);
    if r.ctx.state == GotAll {
      assert r.rest + b == b;
      assert b == "" ==> a + b == a;
    }
  }

  /** A boundary goes unnoticed, in the results and in the answers, except exactly when it shows. */
  lemma {:induction false} Fragmentation(ctx: Context, a: string, b: string)
    ensures Unnoticed(ctx, a, b) <==> !Shows(ctx, ParseRequest(ctx, a), b)
    decreases |a|
  {
    match ParseRound(ctx, a)
    case More(c, t) =>
      MoreInLonger(ctx, a, b);
      Fragmentation(c, t, b);
      if c.state == ExpectBody {
        BodyDone(c, t, b);
      }
    case Done(_) =>
      match ctx.state
      case ExpectRequestLine => LineDone(ctx, a, b);
      case ExpectHeaders => HeaderDone(ctx, a, b);
      case ExpectBody => BodyDone(ctx, a, b);
      case GotAll =>
  }

  /** A bad header line ends a single call where the first of two calls ended. */
  lemma {:induction false} BadHeaderStops(ctx: Context, a: string, b: string)
    ensures var r := ParseRequest(ctx, a);
            !r.ok && r.ctx.state == ExpectHeaders ==> ParseRequest(ctx, a + b) == Result(false, r.ctx, r.rest + b)
    decreases |a|
  {
    match ParseRound(ctx, a)
    case More(c, t) =>
      MoreInLonger(ctx, a, b);
      BadHeaderStops(c, t, b);
    case Done(_) =>
      if ctx.state == ExpectHeaders {
        HeaderDone(ctx, a, b);
      }
  }

  /** Bytes after a completed body keep a single call from completing it. */
  lemma {:induction false} BodyTooLong(ctx: Context, a: string, b: string)
    ensures Completes(ctx, ParseRequest(ctx, a)) && b != "" ==> ParseRequest(ctx, a + b).ctx.state != GotAll
    decreases |a|
  {
    match ParseRound(ctx, a)
    case More(c, t) =>
      MoreInLonger(ctx, a, b);
      if c.state == ExpectBody {
        BodyDone(c, t, b);
      } else {
        BodyTooLong(c, t, b);
      }
    case Done(_) =>
      if ctx.state == ExpectBody {
        BodyDone(ctx, a, b);
      } else if ctx.state == ExpectHeaders {
        HeaderDone(ctx, a, b);
      }
  }

  function Join(chunks: seq<string>): string {
    if chunks == [] then "" else chunks[0] + Join(chunks[1..])
  }

  /** Parse as fragments arrive, each appended to what was left unread: what every call gave. */
  function Feed(ctx: Context, unread: string, chunks: seq<string>): (f: seq<Result>)
    ensures |f| == |chunks| + 1
    decreases |chunks|
  {
    var r := ParseRequest(ctx, unread);
    if chunks == [] then [r] else [r] + Feed(r.ctx, r.rest + chunks[0], chunks[1..])
  }

  /** The last call gives what a single call would have given, and unless that is a refusal no call refuses. */
  predicate AsOne(ctx: Context, unread: string, chunks: seq<string>) {
    var f, joined := Feed(ctx, unread, chunks), ParseRequest(ctx, unread + Join(chunks));
    f[|chunks|] == joined && (joined.ok ==> NoneRefused(f))
  }

  predicate NoneRefused(f: seq<Result>) {
    forall i :: 0 <= i < |f| ==> f[i].ok
  }

  /** No boundary between the fragments shows. */
  predicate Seamless(ctx: Context, unread: string, chunks: seq<string>)
    decreases |chunks|
  {
    chunks == [] ||
    var r := ParseRequest(ctx, unread);
    !Shows(ctx, r, Join(chunks)) && Seamless(r.ctx, r.rest + chunks[0], chunks[1..])
  }

  lemma JoinFirst(x: string, chunks: seq<string>)
    requires chunks != []
    ensures x + chunks[0] + Join(chunks[1..]) == x + Join(chunks)
  {
  }

  /** After a bad header line the calls go on, and never come back to where a single call ended. */
  lemma {:induction false} GoesOn(ctx: Context, unread: string, chunks: seq<string>)
    requires ctx.state == ExpectHeaders
    ensures Feed(ctx, unread, chunks)[|chunks|] != Result(false, ctx, unread + Join(chunks))
    decreases |chunks|
  {
    NeverStuck(ctx, unread);
    var r := ParseRequest(ctx, unread);
    if chunks == [] {
      assert unread + Join(chunks) == unread;
    } else {
      JoinFirst(r.rest, chunks);
      if r.rest == unread {
        GoesOn(ctx, unread + chunks[0], chunks[1..]);
      } else {
        LeftoverShrinks(r.ctx, r.rest + chunks[0], chunks[1..]);
      }
    }
  }

  lemma LastOfFeed(ctx: Context, unread: string, chunks: seq<string>)
    requires chunks != []
    ensures var r := ParseRequest(ctx, unread);
            Feed(ctx, unread, chunks)[|chunks|] == Feed(r.ctx, r.rest + chunks[0], chunks[1..])[|chunks| - 1]
  {
  }

  lemma {:induction false} LeftoverShrinks(ctx: Context, unread: string, chunks: seq<string>)
    ensures |Feed(ctx, unread, chunks)[|chunks|].rest| <= |unread + Join(chunks)|
    decreases |chunks|
  {
    if chunks != [] {
      var r := ParseRequest(ctx, unread);
      LeftoverShrinks(r.ctx, r.rest + chunks[0], chunks[1..]);
      JoinFirst(r.rest, chunks);
      assert |r.rest + Join(chunks)| <= |unread + Join(chunks)|;
      LastOfFeed(ctx, unread, chunks);
    }
  }

  lemma {:induction false} StaysComplete(ctx: Context, unread: string, chunks: seq<string>)
    requires ctx.state == GotAll
    ensures Feed(ctx, unread, chunks)[|chunks|].ctx.state == GotAll
    decreases |chunks|
  {
    if chunks != [] {
      StaysComplete(ctx, unread + chunks[0], chunks[1..]);
    }
  }

  /** A boundary that shows cannot be made good by the calls that follow. */
  lemma ShowsForGood(ctx: Context, unread: string, chunks: seq<string>)
    requires chunks != [] && Shows(ctx, ParseRequest(ctx, unread), Join(chunks))
    ensures !AsOne(ctx, unread, chunks)
  {
    var r := ParseRequest(ctx, unread);
    JoinFirst(r.rest, chunks);
    LastOfFeed(ctx, unread, chunks);
    assert Feed(ctx, unread, chunks)[0] == r;
    if CutsBody(r, Join(chunks)) {
      CutBodyAccepted(ctx, unread, Join(chunks));
    } else if r.ctx.state == GotAll {
      BodyTooLong(ctx, unread, Join(chunks));
      StaysComplete(r.ctx, r.rest + chunks[0], chunks[1..]);
    } else {
      BadHeaderStops(ctx, unread, Join(chunks));
      GoesOn(r.ctx, r.rest + chunks[0], chunks[1..]);
    }
  }

  /** A body that is cut is accepted by a single call. */
  lemma {:induction false} CutBodyAccepted(ctx: Context, a: string, b: string)
    requires CutsBody(ParseRequest(ctx, a), b)
    ensures ParseRequest(ctx, a + b).ok
    decreases |a|
  {
    match ParseRound(ctx, a)
    case More(c, t) =>
      MoreInLonger(ctx, a, b);
      CutBodyAccepted(c, t, b);
    case Done(_) =>
  }

  /** However the bytes are cut up, the outcome is that of parsing them at once, and no call refuses what a
      single call accepts, exactly when no boundary shows. */
  lemma {:induction false} Chunking(ctx: Context, unread: string, chunks: seq<string>)
    ensures AsOne(ctx, unread, chunks) <==> Seamless(ctx, unread, chunks)
    decreases |chunks|
  {
    if chunks == [] {
      assert unread + Join(chunks) == unread;
    } else if Shows(ctx, ParseRequest(ctx, unread), Join(chunks)) {
      ShowsForGood(ctx, unread, chunks);
    } else {
      var r := ParseRequest(ctx, unread);
      Chunking(r.ctx, r.rest + chunks[0], chunks[1..]);
      JoinFirst(r.rest, chunks);
      Fragmentation(ctx, unread, Join(chunks));
      FirstAnswer(ctx, unread, chunks);
    }
  }

  /** An unnoticed first boundary leaves the question to the calls that follow. */
  lemma FirstAnswer(ctx: Context, unread: string, chunks: seq<string>)
    requires chunks != [] && Unnoticed(ctx, unread, Join(chunks))
    ensures var r := ParseRequest(ctx, unread);
            AsOne(ctx, unread, chunks) <==> AsOne(r.ctx, r.rest + chunks[0], chunks[1..])
  {
    var r := ParseRequest(ctx, unread);
    JoinFirst(r.rest, chunks);
    var f, g := Feed(ctx, unread, chunks), Feed(r.ctx, r.rest + chunks[0], chunks[1..]);
    RefusedFirst(r, g);
    assert f[|chunks|] == g[|chunks| - 1];
  }

  lemma RefusedFirst(r: Result, g: seq<Result>)
    ensures NoneRefused([r] + g) <==> r.ok && NoneRefused(g)
  {
    var f := [r] + g;
    assert f[0] == r && forall i :: 0 <= i < |g| ==> g[i] == f[i + 1];
  }

  // ---------- What a call consumes ----------

  /** What stands between one line break and the next. */
  predicate IsLine(line: string) {
    FindCRLF(line + "\r\n") == |line|
  }

  function LinesText(lines: seq<string>): string {
    if lines == [] then "" else lines[0] + "\r\n" + LinesText(lines[1..])
  }

  /** The header map after a header line; a line without a colon adds nothing. */
  function WithLine(header: map<string, string>, line: string): map<string, string> {
    var colon := IndexOf(line, ':');
    if colon == |line| then header else header[Canonical(line[..colon]) := Canonical(line[colon + 1..])]
  }

  function WithLines(header: map<string, string>, lines: seq<string>): map<string, string>
    decreases |lines|
  {
    if lines == [] then header else WithLines(WithLine(header, lines[0]), lines[1..])
  }

  predicate ReadsLines(state: ParseState) {
    state == ExpectRequestLine || state == ExpectHeaders
  }

  /** The call on `s` completed a body. */
  predicate Completes(ctx: Context, r: Result) {
    r.ctx.state == GotAll && ctx.state != GotAll && (ctx.state == ExpectBody || r.ctx.request.verb == Post)
  }

  /** What the result `r` of a call says the call consumed of `s`: whole lines and then, if it completes one, a
      body. The header map is the fold of the header lines among them, and the call stops before a whole line
      only when it refuses or is done with lines. A body is complete when its length is the announced one and
      nothing follows; while one is expected the bytes left are some other number, and the call has refused
      exactly when the announced length is no number or more than them. */
  predicate Consumed(ctx: Context, s: string, r: Result, lines: seq<string>, body: string) {
    && s == LinesText(lines) + body + r.rest
    && (forall l <- lines :: IsLine(l))
    && body == (if Completes(ctx, r) then r.ctx.request.body else "")
    && (lines != [] ==> ReadsLines(ctx.state))
    && r.ctx.request.header ==
       WithLines(ctx.request.header, if ctx.state == ExpectRequestLine && lines != [] then lines[1..] else lines)
    && (r.ok && ReadsLines(r.ctx.state) ==> FindCRLF(r.rest) == -1)
    && (Completes(ctx, r) ==> r.ok && r.rest == "" && |body| == BodyLength(r.ctx.request))
    && (r.ctx.state == ExpectBody ==> (r.ok <==> 0 <= BodyLength(r.ctx.request) < |r.rest|))
    && (r.ctx.state == ExpectBody ==> BodyLength(r.ctx.request) != |r.rest|)
  }

  lemma FoundAt(s: string, k: nat)
    requires k + 1 < |s| && s[k] == '\r' && s[k + 1] == '\n'
    requires forall i :: 0 <= i < k ==> !(s[i] == '\r' && s[i + 1] == '\n')
    ensures FindCRLF(s) == k
  {
    var m := FindCRLF(s);
    assert m != -1 && m <= k;
  }

  lemma PrefixFinds(s: string, k: nat)
    requires k == FindCRLF(s)
    ensures FindCRLF(s[..k + 2]) == k
  {
    var line := s[..k + 2];
    forall i | 0 <= i < k ensures !(line[i] == '\r' && line[i + 1] == '\n') {
      assert line[i] == s[i] && line[i + 1] == s[i + 1];
    }
    FoundAt(line, k);
  }

  lemma CutText(s: string, k: nat)
    requires k + 1 < |s| && s[k] == '\r' && s[k + 1] == '\n'
    ensures s[..k] + "\r\n" == s[..k + 2] && s == s[..k + 2] + s[k + 2..]
  {
  }

  lemma LineCut(s: string)
    requires FindCRLF(s) != -1
    ensures var k := FindCRLF(s); s == s[..k] + "\r\n" + s[k + 2..] && IsLine(s[..k])
  {
    CutText(s, FindCRLF(s));
    PrefixFinds(s, FindCRLF(s));
  }

  /** For any context and any bytes. */
  lemma {:induction false} ConsumesWholeLines(ctx: Context, s: string)
    ensures exists lines, body :: Consumed(ctx, s, ParseRequest(ctx, s), lines, body)
    decreases |s|
  {
    if ParseRound(ctx, s).More? {
      var c, t := ParseRound(ctx, s).ctx, ParseRound(ctx, s).rest;
      ConsumesWholeLines(c, t);
      SameCompletion(ctx, s);
      MoreRound(ctx, s, c, t, ParseRequest(c, t));
    } else {
      LastRound(ctx, s);
      assert ParseRequest(ctx, s) == ParseRound(ctx, s).result;
    }
  }

  lemma MoreRound(ctx: Context, s: string, c: Context, t: string, r: Result)
    requires ParseRound(ctx, s) == More(c, t) && Completes(ctx, r) == Completes(c, r)
    requires exists lines, body :: Consumed(c, t, r, lines, body)
    ensures exists lines, body :: Consumed(ctx, s, r, lines, body)
  {
    var lines, body :| Consumed(c, t, r, lines, body);
    RoundTakesLine(ctx, s);
    OneLineMore(ctx, s, c, t, s[..FindCRLF(s)], r, lines, body);
  }

  lemma LastRound(ctx: Context, s: string)
    requires ParseRound(ctx, s).Done?
    ensures exists lines, body :: Consumed(ctx, s, ParseRound(ctx, s).result, lines, body)
  {
    if ctx.state == ExpectHeaders && FindCRLF(s) != -1 {
      LastLine(ctx, s);
    } else if ctx.state == ExpectBody {
      BodyTaken(ctx, s);
    } else {
      if ctx.state == ExpectRequestLine && FindCRLF(s) != -1 {
        RequestLineKeepsHeader(ctx.request, s[..FindCRLF(s)]);
      }
      NothingTaken(ctx, s, ParseRound(ctx, s).result);
    }
  }

  lemma NothingTaken(ctx: Context, s: string, r: Result)
    requires r.rest == s && r.ctx.request.header == ctx.request.header && !Completes(ctx, r)
    requires r.ok && ReadsLines(r.ctx.state) ==> FindCRLF(s) == -1
    requires r.ctx.state == ExpectBody ==>
               BodyLength(r.ctx.request) != |s| && (r.ok <==> 0 <= BodyLength(r.ctx.request) < |s|)
    ensures Consumed(ctx, s, r, [], "")
  {
    assert LinesText([]) + "" + s == s;
  }

  lemma BodyTaken(ctx: Context, s: string)
    requires ctx.state == ExpectBody
    ensures exists body :: Consumed(ctx, s, ParseRequestBody(ctx, s), [], body)
  {
    var r := ParseRequestBody(ctx, s);
    if r.ctx.state == GotAll {
      WholeBody(ctx, s);
      assert Consumed(ctx, s, r, [], s);
    } else {
      NothingTaken(ctx, s, r);
    }
  }

  lemma WholeBody(ctx: Context, s: string)
    requires ctx.state == ExpectBody && BodyLength(ctx.request) == |s|
    ensures Consumed(ctx, s, Result(true, Context(ctx.request.(body := s), GotAll), ""), [], s)
  {
    assert LinesText([]) + s + "" == s;
    assert BodyLength(ctx.request.(body := s)) == BodyLength(ctx.request);
    assert WithLines(ctx.request.header, []) == ctx.request.header;
  }

  /** Whatever becomes of a request line, it touches no header. */
  lemma RequestLineKeepsHeader(req: Request, line: string)
    ensures ParseRequestLine(req, line).1.header == req.header
  {
    var space := IndexOf(line, ' ');
    if space != |line| {
      TargetKeepsHeader(req.(verb := MethodNamed(line[..space]).1), line[space + 1..]);
    }
  }

  lemma TargetKeepsHeader(req: Request, s: string)
    ensures ParseTarget(req, s).1.header == req.header
  {
  }

  /** A header line that ends the call: a bad one or the blank one. */
  lemma LastLine(ctx: Context, s: string)
    requires ctx.state == ExpectHeaders && FindCRLF(s) != -1 && ParseRound(ctx, s).Done?
    ensures Consumed(ctx, s, ParseRound(ctx, s).result, [s[..FindCRLF(s)]], "")
  {
    LineCut(s);
    var k := FindCRLF(s);
    var r := HeaderRound(ctx, s, k).result;
    assert IndexOf(s[..k], ':') == k;
    assert r.rest == s[k + 2..] && r.ctx.request == ctx.request;
    assert !Completes(ctx, r) && !(r.ok && ReadsLines(r.ctx.state));
    LineTaken(ctx, s, r, s[..k]);
  }

  lemma LineTaken(ctx: Context, s: string, r: Result, line: string)
    requires ctx.state == ExpectHeaders && IsLine(line) && s == line + "\r\n" + r.rest
    requires WithLine(ctx.request.header, line) == ctx.request.header
    requires r.ctx.request == ctx.request && !Completes(ctx, r) && !(r.ok && ReadsLines(r.ctx.state))
    requires r.ctx.state != ExpectBody
    ensures Consumed(ctx, s, r, [line], "")
  {
    OneLine(ctx.request.header, line);
    TextOfOne(line, r.rest);
  }

  lemma TextOfOne(line: string, rest: string)
    ensures LinesText([line]) + "" + rest == line + "\r\n" + rest
  {
    OneLine(map[], line);
  }

  lemma OneLine(header: map<string, string>, line: string)
    ensures LinesText([line]) == line + "\r\n"
    ensures WithLines(header, [line]) == WithLine(header, line)
  {
    assert [line][1..] == [];
    assert WithLines(WithLine(header, line), []) == WithLine(header, line);
  }

  /** The step from `ctx` on `s` to `c` on `t` took one line. */
  predicate TakesLine(ctx: Context, s: string, c: Context, t: string, line: string) {
    && IsLine(line) && s == line + "\r\n" + t
    && if ctx.state == ExpectRequestLine then c.state == ExpectHeaders && c.request.header == ctx.request.header
       else
         && ctx.state == ExpectHeaders && (c.state == ExpectHeaders || c.state == ExpectBody)
         && c.request.header == WithLine(ctx.request.header, line)
  }

  lemma OneLineMore(ctx: Context, s: string, c: Context, t: string, line: string, r: Result,
                    lines: seq<string>, body: string)
    requires TakesLine(ctx, s, c, t, line) && Completes(ctx, r) == Completes(c, r) && Consumed(c, t, r, lines, body)
    ensures Consumed(ctx, s, r, [line] + lines, body)
  {
    TextOfMore(line, lines, body, r.rest);
    var all := [line] + lines;
    assert all[0] == line && all[1..] == lines;
    assert WithLines(ctx.request.header, all) == WithLines(WithLine(ctx.request.header, line), lines);
  }

  lemma TextOfMore(line: string, lines: seq<string>, body: string, rest: string)
    ensures LinesText([line] + lines) + body + rest == line + "\r\n" + (LinesText(lines) + body + rest)
  {
    assert ([line] + lines)[1..] == lines;
  }

  lemma RoundTakesLine(ctx: Context, s: string)
    requires ParseRound(ctx, s).More?
    ensures FindCRLF(s) != -1
    ensures TakesLine(ctx, s, ParseRound(ctx, s).ctx, ParseRound(ctx, s).rest, s[..FindCRLF(s)])
  {
    LineCut(s);
    if ctx.state == ExpectHeaders {
      HeaderLineAdds(ctx, s);
    } else {
      RequestLineKeepsHeader(ctx.request, s[..FindCRLF(s)]);
    }
  }

  /** Completing a body is completing it from wherever a round has got to. */
  lemma SameCompletion(ctx: Context, s: string)
    ensures ParseRound(ctx, s).More? ==>
              Completes(ctx, ParseRequest(ctx, s)) == Completes(ParseRound(ctx, s).ctx, ParseRequest(ctx, s))
  {
  }

  /** A header line that the loop goes on from adds to the header map what it says. */
  lemma HeaderLineAdds(ctx: Context, s: string)
    requires ctx.state == ExpectHeaders && FindCRLF(s) != -1 && ParseRound(ctx, s).More?
    ensures ParseRound(ctx, s).ctx.request.header == WithLine(ctx.request.header, s[..FindCRLF(s)])
  {
    var k := FindCRLF(s);
    var line := s[..k];
    var colon := IndexOf(line, ':');
    if k > 0 {
      assert line[..colon] == s[..colon] && line[colon + 1..] == s[colon + 1..k];
    }
  }

  // ---------- Well-formed requests are read back ----------

  function MethodName(m: Method): string {
    match m case Get => "GET" case Post => "POST" case Head => "HEAD" case Invalid => "INVALID"
  }

  /** A request target: a path, and a query after a question mark if there is one. */
  datatype Target = Target(path: string, hasQuery: bool, query: string)
  {
    function Text(): string {
      if hasQuery then path + "?" + query else path
    }

    predicate WellFormed() {
      ' ' !in path && '?' !in path && ' ' !in query
    }
  }

  function RequestLine(m: Method, target: Target, minor: bool): string {
    MethodName(m) + " " + (target.Text() + " " + ("HTTP/1." + if minor then "1" else "0"))
  }

  datatype Field = Field(name: string, value: string)
  {
    function Line(): string {
      name + ":" + value
    }

    /** Section 5 of RFC 9112, as far as this parser cares: no colon in the name, no line break. */
    predicate WellFormed() {
      ':' !in name && FindCRLF(Line()) == -1
    }
  }

  function FieldLines(fields: seq<Field>): string {
    if fields == [] then "" else fields[0].Line() + "\r\n" + FieldLines(fields[1..])
  }

  /** The header map of a list of fields: names and values trimmed and lower-cased, the last one winning. */
  function HeaderOf(req: Request, fields: seq<Field>): Request
    decreases |fields|
  {
    if fields == [] then req else HeaderOf(AddHeader(req, fields[0].name, fields[0].value), fields[1..])
  }

  lemma IndexOfFirst(a: string, c: char, b: string)
    requires c !in a
    ensures IndexOf(a + [c] + b, c) == |a|
  {
    var s := a + [c] + b;
    var i := IndexOf(s, c);
    assert s[|a|] == c;
    assert forall j :: 0 <= j < |a| ==> s[j] == a[j];
  }

  lemma LineEnds(line: string, more: string)
    requires FindCRLF(line) == -1
    ensures FindCRLF(line + "\r\n" + more) == |line|
  {
    var s := line + "\r\n" + more;
    var k := FindCRLF(s);
    assert s[|line|] == '\r' && s[|line| + 1] == '\n';
    assert k != -1 && k <= |line|;
    assert forall j :: 0 <= j < |line| ==> s[j] == line[j];
  }

  lemma NamedMethod(m: Method)
    ensures MethodNamed(MethodName(m)) == (true, m) && ' ' !in MethodName(m)
  {
  }

  lemma TargetParts(target: Target)
    requires target.WellFormed()
    ensures var t := target.Text(); var q := IndexOf(t, '?');
            && ' ' !in t
            && (q == |t| <==> !target.hasQuery)
            && t[..q] == target.path
            && (q < |t| ==> t[q + 1..] == target.query)
  {
    var t := target.Text();
    if target.hasQuery {
      IndexOfFirst(target.path, '?', target.query);
    } else {
      assert IndexOf(t, '?') < |t| ==> '?' in t;
    }
  }

  /** Cutting a text at the first occurrence of a separator that its first part does not contain. */
  lemma CutAtFirst(a: string, c: char, b: string)
    requires c !in a
    ensures var s := a + [c] + b; IndexOf(s, c) == |a| && |a| < |s| && s[..|a|] == a && s[|a| + 1..] == b
  {
    IndexOfFirst(a, c, b);
  }

  lemma TargetReadBack(req: Request, target: Target, version: string)
    requires target.WellFormed() && |version| == 8 && version[..7] == "HTTP/1." && version[7] in {'0', '1'}
    ensures ParseTarget(req, target.Text() + [' '] + version) ==
            (true, req.(version := if version[7] == '1' then Http11 else Http10, path := target.path,
                        query := if target.hasQuery then target.query else req.query))
  {
    TargetParts(target);
    CutAtFirst(target.Text(), ' ', version);
  }

  lemma RequestLineReadBack(req: Request, m: Method, target: Target, minor: bool)
    requires target.WellFormed()
    ensures ParseRequestLine(req, RequestLine(m, target, minor)) ==
            (true, req.(verb := m, version := if minor then Http11 else Http10, path := target.path,
                        query := if target.hasQuery then target.query else req.query))
  {
    var version := "HTTP/1." + if minor then "1" else "0";
    NamedMethod(m);
    CutAtFirst(MethodName(m), ' ', target.Text() + " " + version);
    assert version[..7] == "HTTP/1.";
    TargetReadBack(req.(verb := m), target, version);
  }

  /** A request line in its written form. */
  ghost predicate IsRequestLine(line: string) {
    exists m, target: Target, minor :: target.WellFormed() && line == RequestLine(m, target, minor)
  }

  lemma TargetSplits(text: string) returns (target: Target)
    requires ' ' !in text
    ensures target.WellFormed() && target.Text() == text
  {
    var q := IndexOf(text, '?');
    target := if q == |text| then Target(text, false, "") else Target(text[..q], true, text[q + 1..]);
    assert q < |text| ==> text == text[..q] + "?" + text[q + 1..];
    assert text[..|text|] == text;
  }

  lemma MethodSplits(line: string) returns (m: Method)
    requires IndexOf(line, ' ') < |line| && MethodNamed(line[..IndexOf(line, ' ')]).0
    ensures var space := IndexOf(line, ' '); line == MethodName(m) + " " + line[space + 1..]
  {
    m := MethodNamed(line[..IndexOf(line, ' ')]).1;
  }

  lemma TargetAccepted(req: Request, s: string) returns (target: Target, minor: bool)
    requires ParseTarget(req, s).0
    ensures target.WellFormed() && s == target.Text() + " " + ("HTTP/1." + if minor then "1" else "0")
  {
    var end := IndexOf(s, ' ');
    target := TargetSplits(s[..end]);
    var version := s[end + 1..];
    minor := version[7] == '1';
    assert version == version[..7] + [version[7]];
    assert s == s[..end] + [s[end]] + version;
  }

  /** The lines that are accepted are the written ones: a known method, a target without a space and one of two
      versions, with single spaces between. */
  lemma OnlyRequestLines(req: Request, line: string)
    ensures ParseRequestLine(req, line).0 <==> IsRequestLine(line)
  {
    if ParseRequestLine(req, line).0 {
      var space := IndexOf(line, ' ');
      var m := MethodSplits(line);
      var target, minor := TargetAccepted(req.(verb := MethodNamed(line[..space]).1), line[space + 1..]);
      assert line == RequestLine(m, target, minor);
    }
    if m, target: Target, minor :| target.WellFormed() && line == RequestLine(m, target, minor) {
      RequestLineReadBack(req, m, target, minor);
    }
  }

  predicate IsMethod(s: string) {
    exists m :: s == MethodName(m)
  }

  /** What a refused line leaves in the request: an unknown method makes it invalid; a known one is kept, and so are
      the parts of the target if a space follows it. */
  lemma RefusedLineTraces(req: Request, word: string, text: string)
    requires ' ' !in word
    ensures ' ' !in text ==> ParseRequestLine(req, text) == (false, req)
    ensures !IsMethod(word) ==> ParseRequestLine(req, word + " " + text) == (false, req.(verb := Invalid))
    ensures forall m: Method :: word == MethodName(m) && ' ' !in text ==>
              ParseRequestLine(req, word + " " + text) == (false, req.(verb := m))
  {
    CutAtFirst(word, ' ', text);
    if MethodNamed(word).0 {
      assert word == MethodName(MethodNamed(word).1);
    }
    assert ' ' !in text ==> IndexOf(text, ' ') == |text|;
  }

  lemma RefusedVersionTraces(req: Request, m: Method, target: Target, version: string)
    requires target.WellFormed() && version != "HTTP/1.0" && version != "HTTP/1.1"
    ensures ParseRequestLine(req, MethodName(m) + " " + (target.Text() + " " + version)) ==
            (false, req.(verb := m, path := target.path, query := if target.hasQuery then target.query else req.query,
                         version := if |version| == 8 && version[..7] == "HTTP/1." then Unknown else req.version))
  {
    NamedMethod(m);
    CutAtFirst(MethodName(m), ' ', target.Text() + " " + version);
    VersionRefused(req.(verb := m), target, version);
  }

  lemma VersionRefused(req: Request, target: Target, version: string)
    requires target.WellFormed() && version != "HTTP/1.0" && version != "HTTP/1.1"
    ensures ParseTarget(req, target.Text() + " " + version) ==
            (false, req.(path := target.path, query := if target.hasQuery then target.query else req.query,
                         version := if |version| == 8 && version[..7] == "HTTP/1." then Unknown else req.version))
  {
    TargetParts(target);
    CutAtFirst(target.Text(), ' ', version);
    assert |version| == 8 && version[..7] == "HTTP/1." ==> version == "HTTP/1." + [version[7]];
  }

  /** A first line that is no request line, and a header line without a colon, are refused, whatever follows: the
      former stays unread, the latter is dropped. */
  lemma BadLinesRefused(ctx: Context, line: string, more: string)
    requires FindCRLF(line) == -1
    ensures var r := ParseRequest(ctx, line + "\r\n" + more);
            && (ctx.state == ExpectRequestLine && !IsRequestLine(line) ==>
                !r.ok && r.ctx.state == ExpectRequestLine && r.rest == line + "\r\n" + more)
            && (ctx.state == ExpectHeaders && line != "" && ':' !in line ==> r == Result(false, ctx, more))
  {
    var s := line + "\r\n" + more;
    LineEnds(line, more);
    assert s[..|line|] == line && s[|line| + 2..] == more;
    OnlyRequestLines(ctx.request, line);
    assert ':' !in line ==> IndexOf(line, ':') == |line|;
  }

  /** Nothing is read before a line break has arrived, nor after the request is complete. */
  lemma NothingToRead(ctx: Context, s: string)
    requires ctx.state == GotAll || (ReadsLines(ctx.state) && FindCRLF(s) == -1)
    ensures ParseRequest(ctx, s) == Result(true, ctx, s)
  {
  }

  /** A block of well-formed header lines and a blank line: the header map is the fold of the lines. */
  lemma {:induction false} FieldsReadBack(req: Request, fields: seq<Field>, rest: string)
    requires forall f <- fields :: f.WellFormed()
    ensures ParseRequest(Context(req, ExpectHeaders), FieldLines(fields) + "\r\n" + rest) ==
            if req.verb == Post then ParseRequestBody(Context(HeaderOf(req, fields), ExpectBody), rest)
            else Result(true, Context(HeaderOf(req, fields), GotAll), rest)
    decreases |fields|
  {
    var s := FieldLines(fields) + "\r\n" + rest;
    if fields == [] {
      assert s[0] == '\r' && s[1] == '\n' && s[2..] == rest;
    } else {
      var f := fields[0];
      assert f in fields && f.WellFormed();
      var more := FieldLines(fields[1..]) + "\r\n" + rest;
      assert s == f.Line() + "\r\n" + more;
      LineEnds(f.Line(), more);
      var k := |f.Line()|;
      assert s[..k] == f.Line() && s[k + 2..] == more;
      IndexOfFirst(f.name, ':', f.value);
      assert s[..|f.name|] == f.name && s[|f.name| + 1..k] == f.value;
      FieldsReadBack(AddHeader(req, f.name, f.value), fields[1..], rest);
    }
  }

  /** The value stored under a name is that of the last field whose name is the same up to case and padding. */
  lemma {:induction false} LastFieldWins(req: Request, fields: seq<Field>, i: nat)
    requires i < |fields|
    requires forall j :: i < j < |fields| ==> Canonical(fields[j].name) != Canonical(fields[i].name)
    ensures GetHeader(HeaderOf(req, fields), Canonical(fields[i].name)) == Canonical(fields[i].value)
    decreases |fields|
  {
    var next := AddHeader(req, fields[0].name, fields[0].value);
    if i > 0 {
      LastFieldWins(next, fields[1..], i - 1);
    } else {
      OtherFieldsKeep(next, fields[1..], Canonical(fields[0].name));
    }
  }

  lemma {:induction false} OtherFieldsKeep(req: Request, fields: seq<Field>, key: string)
    requires forall j :: 0 <= j < |fields| ==> Canonical(fields[j].name) != key
    ensures GetHeader(HeaderOf(req, fields), key) == GetHeader(req, key)
    decreases |fields|
  {
    if fields != [] {
      OtherFieldsKeep(AddHeader(req, fields[0].name, fields[0].value), fields[1..], key);
    }
  }

  predicate Blank(s: string) {
    forall i :: 0 <= i < |s| ==> s[i] == ' '
  }

  lemma {:induction false} TrimLeftDrops(pad: string, s: string)
    requires Blank(pad) && (s == "" || s[0] != ' ')
    ensures TrimLeft(pad + s) == s
  {
    if pad == "" {
      assert pad + s == s;
    } else {
      assert (pad + s)[0] == pad[0] && (pad + s)[1..] == pad[1..] + s;
      TrimLeftDrops(pad[1..], s);
    }
  }

  lemma {:induction false} TrimRightDrops(s: string, pad: string)
    requires Blank(pad) && (s == "" || s[|s| - 1] != ' ')
    ensures TrimRight(s + pad) == s
  {
    if pad == "" {
      assert s + pad == s;
    } else {
      var t := s + pad;
      assert t[|t| - 1] == pad[|pad| - 1];
      assert t[..|t| - 1] == s + pad[..|pad| - 1];
      TrimRightDrops(s, pad[..|pad| - 1]);
    }
  }

  /** One letter in its two cases, which lie 32 apart in ASCII. */
  predicate Cases(upper: char, lower: char) {
    'A' <= upper <= 'Z' && lower as int == upper as int + 32
  }

  predicate SameLetter(c: char, d: char) {
    c == d || Cases(c, d) || Cases(d, c)
  }

  /** Equal up to the case of letters. */
  predicate SameText(s: string, t: string) {
    |s| == |t| && forall i :: 0 <= i < |s| ==> SameLetter(s[i], t[i])
  }

  predicate Trimmed(s: string) {
    s == "" || (s[0] != ' ' && s[|s| - 1] != ' ')
  }

  /** `t` is `s` with its capitals made small and nothing else changed. */
  predicate Lowered(s: string, t: string) {
    && |t| == |s|
    && forall i :: 0 <= i < |s| ==> if 'A' <= s[i] <= 'Z' then Cases(s[i], t[i]) else t[i] == s[i]
  }

  lemma LowerIsLowered(s: string)
    ensures Lowered(s, Lower(s))
  {
  }

  lemma CanonicalOfPadded(before: string, s: string, after: string)
    requires Blank(before) && Blank(after) && Trimmed(s)
    ensures Lowered(s, Canonical(before + s + after))
  {
    LowerIsLowered(s);
    if s == "" {
      var pad := before + s + after;
      assert pad + "" == pad;
      TrimLeftDrops(pad, "");
    } else {
      assert before + s + after == before + (s + after);
      TrimLeftDrops(before, s + after);
      TrimRightDrops(s, after);
    }
  }

  lemma {:induction false} SplitLeft(s: string) returns (before: string, t: string)
    ensures s == before + t && Blank(before) && (t == "" || t[0] != ' ')
    decreases |s|
  {
    if s != "" && s[0] == ' ' {
      before, t := SplitLeft(s[1..]);
      before := " " + before;
    } else {
      before, t := "", s;
    }
  }

  lemma {:induction false} SplitRight(s: string) returns (t: string, after: string)
    ensures s == t + after && Blank(after) && (t == "" || t[|t| - 1] != ' ')
    decreases |s|
  {
    if s != "" && s[|s| - 1] == ' ' {
      t, after := SplitRight(s[..|s| - 1]);
      after := after + " ";
      assert t + after == s[..|s| - 1] + " ";
    } else {
      t, after := s, "";
    }
  }

  /** Any text is a trimmed one with blanks around it, and what is stored is that one with its capitals made
      small. */
  lemma CanonicalOf(s: string) returns (before: string, core: string, after: string)
    ensures s == before + core + after && Blank(before) && Blank(after) && Trimmed(core)
    ensures Lowered(core, Canonical(s))
  {
    var t;
    before, t := SplitLeft(s);
    core, after := SplitRight(t);
    assert core != "" ==> core[0] == t[0];
    assert s == before + core + after;
    CanonicalOfPadded(before, core, after);
  }

  lemma LoweredAlike(s: string, t: string, u: string, v: string)
    requires Lowered(s, u) && Lowered(t, v)
    ensures u == v <==> SameText(s, t)
  {
    if SameText(s, t) {
      assert forall i :: 0 <= i < |s| ==> SameLetter(s[i], t[i]) && u[i] == v[i];
    }
    if u == v {
      forall i | 0 <= i < |s| ensures SameLetter(s[i], t[i]) {
        assert u[i] == v[i];
      }
    }
  }

  /** Section 5.1 of RFC 9110: two field names or values are stored as the same text exactly when, without the
      blanks around them, they are equal up to the case of letters. */
  lemma CaseAndPaddingIgnored(before: string, s: string, after: string, before': string, s': string, after': string)
    requires Blank(before) && Blank(after) && Trimmed(s)
    requires Blank(before') && Blank(after') && Trimmed(s')
    ensures Canonical(before + s + after) == Canonical(before' + s' + after') <==> SameText(s, s')
  {
    CanonicalOfPadded(before, s, after);
    CanonicalOfPadded(before', s', after');
    LoweredAlike(s, s', Canonical(before + s + after), Canonical(before' + s' + after'));
  }

  /** Every well-formed request, followed by any bytes, is read back as it was written. A request without
      a body is then complete; of a POST the body is still to be judged. */
  lemma RequestReadBack(m: Method, target: Target, minor: bool, fields: seq<Field>, rest: string)
    requires target.WellFormed() && FindCRLF(RequestLine(m, target, minor)) == -1
    requires forall f <- fields :: f.WellFormed()
    ensures var version := if minor then Http11 else Http10;
            var query := if target.hasQuery then target.query else "";
            var req := HeaderOf(Request(m, version, target.path, map[], query, ""), fields);
            ParseRequest(FRESH, RequestLine(m, target, minor) + "\r\n" + (FieldLines(fields) + "\r\n" + rest)) ==
            if m == Post then ParseRequestBody(Context(req, ExpectBody), rest)
            else Result(true, Context(req, GotAll), rest)
  {
    var line := RequestLine(m, target, minor);
    var more := FieldLines(fields) + "\r\n" + rest;
    var s := line + "\r\n" + more;
    LineEnds(line, more);
    assert s[..|line|] == line && s[|line| + 2..] == more;
    RequestLineReadBack(FRESH.request, m, target, minor);
    var req := ParseRequestLine(FRESH.request, line).1;
    FieldsReadBack(req, fields, rest);
  }

  // ---------- The length of a body ----------

  /** What the fields say of the length: the last Content-Length field, if there is one. */
  function Announced(fields: seq<Field>): string {
    if fields == [] then ""
    else
      var f := fields[|fields| - 1];
      if Canonical(f.name) == CONTENT_LENGTH then Canonical(f.value) else Announced(fields[..|fields| - 1])
  }

  predicate AllDigits(s: string) {
    forall c <- s :: IsDigit(c)
  }

  lemma {:induction false} HeaderOfLast(req: Request, fields: seq<Field>, f: Field)
    ensures HeaderOf(req, fields + [f]) == AddHeader(HeaderOf(req, fields), f.name, f.value)
    decreases |fields|
  {
    if fields == [] {
      assert [] + [f] == [f] && [f][1..] == [];
    } else {
      assert (fields + [f])[1..] == fields[1..] + [f];
      HeaderOfLast(AddHeader(req, fields[0].name, fields[0].value), fields[1..], f);
    }
  }

  lemma {:induction false} AnnouncedIsStored(req: Request, fields: seq<Field>)
    requires req.header == map[]
    ensures GetHeader(HeaderOf(req, fields), CONTENT_LENGTH) == Announced(fields)
    decreases |fields|
  {
    if fields != [] {
      var n := |fields| - 1;
      assert fields == fields[..n] + [fields[n]];
      HeaderOfLast(req, fields[..n], fields[n]);
      AnnouncedIsStored(req, fields[..n]);
    }
  }

  /** What is promised of a POST whose fields announce `text` and that has `s` after its blank line. */
  predicate BodyJudged(r: Result, text: string, s: string) {
    if AllDigits(text) then
      && (r.ctx.state == GotAll <==> |s| == AtoiAsSize(Value(text)))
      && (r.ctx.state == GotAll ==> r.ok && r.ctx.request.body == s && r.rest == "")
      && (r.ok <==> AtoiAsSize(Value(text)) <= |s|)
    else r.ctx.state == ExpectBody && !r.ok && r.rest == s
  }

  lemma AnnouncedLength(req: Request, s: string)
    ensures BodyJudged(ParseRequestBody(Context(req, ExpectBody), s), GetHeader(req, CONTENT_LENGTH), s)
  {
  }

  function PostText(target: Target, minor: bool, fields: seq<Field>): string {
    RequestLine(Post, target, minor) + "\r\n" + (FieldLines(fields) + "\r\n")
  }

  predicate PostWellFormed(target: Target, minor: bool, fields: seq<Field>) {
    && target.WellFormed() && FindCRLF(RequestLine(Post, target, minor)) == -1
    && forall f <- fields :: f.WellFormed()
  }

  function PostRequest(target: Target, minor: bool): Request {
    Request(Post, if minor then Http11 else Http10, target.path, map[],
            if target.hasQuery then target.query else "", "")
  }

  lemma PostParsed(target: Target, minor: bool, fields: seq<Field>, rest: string)
    requires PostWellFormed(target, minor, fields)
    ensures ParseRequest(FRESH, PostText(target, minor, fields) + rest) ==
            ParseRequestBody(Context(HeaderOf(PostRequest(target, minor), fields), ExpectBody), rest)
  {
    var line := RequestLine(Post, target, minor) + "\r\n";
    var more := FieldLines(fields) + "\r\n";
    assert PostText(target, minor, fields) + rest == line + (more + rest);
    RequestReadBack(Post, target, minor, fields, rest);
  }

  /** Section 6.3 of RFC 9112: every written POST, whatever its fields say of its length, is complete exactly when
      the bytes after the blank line are as many as announced, read as the code reads it; they then become the
      body and nothing is left unread. */
  lemma PostReadBack(target: Target, minor: bool, fields: seq<Field>, rest: string)
    requires PostWellFormed(target, minor, fields)
    ensures BodyJudged(ParseRequest(FRESH, PostText(target, minor, fields) + rest), Announced(fields), rest)
  {
    AnnouncedIsStored(PostRequest(target, minor), fields);
    AnnouncedLength(HeaderOf(PostRequest(target, minor), fields), rest);
    PostParsed(target, minor, fields, rest);
  }

  lemma DigitsCanonical(s: string)
    requires AllDigits(s)
    ensures Canonical(s) == s
  {
    if s != "" {
      assert IsDigit(s[0]) && IsDigit(s[|s| - 1]);
    }
    assert forall i :: 0 <= i < |s| ==> s[i] in s && IsDigit(s[i]);
  }

  lemma LowerCanonical(s: string)
    requires forall c <- s :: c == '-' || 'a' <= c <= 'z'
    ensures Canonical(s) == s
  {
    if s != "" {
      assert s[0] in s && s[|s| - 1] in s;
    }
    assert forall i :: 0 <= i < |s| ==> s[i] in s;
  }

  /** A field that gives the length: its name is `content-length` in any case, with or without blanks around it. */
  ghost predicate GivesLength(f: Field) {
    exists before, name, after :: NamesLength(f.name, before, name, after)
  }

  predicate NamesLength(s: string, before: string, name: string, after: string) {
    s == before + name + after && Blank(before) && Blank(after) && SameText(name, CONTENT_LENGTH)
  }

  lemma SameAsLength(name: string)
    requires SameText(name, CONTENT_LENGTH)
    ensures Trimmed(name)
  {
    assert SameLetter(name[0], CONTENT_LENGTH[0]) && SameLetter(name[13], CONTENT_LENGTH[13]);
  }

  lemma LengthNameStored(f: Field)
    ensures Canonical(f.name) == CONTENT_LENGTH <==> GivesLength(f)
  {
    assert "" + CONTENT_LENGTH + "" == CONTENT_LENGTH;
    LowerCanonical(CONTENT_LENGTH);
    if before, name, after :| NamesLength(f.name, before, name, after) {
      SameAsLength(name);
      CaseAndPaddingIgnored(before, name, after, "", CONTENT_LENGTH, "");
    }
    var before, core, after := CanonicalOf(f.name);
    if Canonical(f.name) == CONTENT_LENGTH {
      CaseAndPaddingIgnored(before, core, after, "", CONTENT_LENGTH, "");
      assert NamesLength(f.name, before, core, after);
    }
  }

  lemma {:induction false} LastLengthAnnounced(fields: seq<Field>, i: nat)
    requires i < |fields| && GivesLength(fields[i])
    requires forall j :: i < j < |fields| ==> !GivesLength(fields[j])
    ensures Announced(fields) == Canonical(fields[i].value)
    decreases |fields|
  {
    LengthNameStored(fields[|fields| - 1]);
    if i < |fields| - 1 {
      LastLengthAnnounced(fields[..|fields| - 1], i);
    }
  }

  /** A POST whose last length field, with its name in any case and blanks around name and number, gives the length
      of the body in decimal, is read back with that body, if the length fits an `int`. */
  lemma PostWithBody(target: Target, minor: bool, fields: seq<Field>, i: nat, before: string, after: string,
                     body: string)
    requires PostWellFormed(target, minor, fields)
    requires i < |fields| && GivesLength(fields[i]) && forall j :: i < j < |fields| ==> !GivesLength(fields[j])
    requires fields[i].value == before + Digits(|body|) + after && Blank(before) && Blank(after)
    requires |body| < 0x8000_0000
    ensures var r := ParseRequest(FRESH, PostText(target, minor, fields) + body);
            r.ok && r.ctx.state == GotAll && r.ctx.request.body == body && r.rest == ""
  {
    LastLengthAnnounced(fields, i);
    NumberStored(before, |body|, after);
    PostReadBack(target, minor, fields, body);
    JudgedComplete(ParseRequest(FRESH, PostText(target, minor, fields) + body), Announced(fields), body);
  }

  lemma NumberStored(before: string, n: nat, after: string)
    requires Blank(before) && Blank(after)
    ensures var text := Canonical(before + Digits(n) + after); AllDigits(text) && Value(text) == n
  {
    var digits := Digits(n);
    assert IsDigit(digits[0]) && IsDigit(digits[|digits| - 1]);
    assert "" + digits + "" == digits;
    CaseAndPaddingIgnored(before, digits, after, "", digits, "");
    DigitsCanonical(digits);
    DigitsValue(n);
  }

  lemma JudgedComplete(r: Result, text: string, body: string)
    requires BodyJudged(r, text, body) && AllDigits(text) && Value(text) == |body| < 0x8000_0000
    ensures r.ok && r.ctx.state == GotAll && r.ctx.request.body == body && r.rest == ""
  {
    LengthKept(|body|);
  }

  predicate CompleteWith(target: Target, minor: bool, fields: seq<Field>, rest: string) {
    ParseRequest(FRESH, PostText(target, minor, fields) + rest).ctx.state == GotAll
  }

  lemma PostCompletes(target: Target, minor: bool, fields: seq<Field>, rest: string)
    requires PostWellFormed(target, minor, fields) && AllDigits(Announced(fields))
    ensures CompleteWith(target, minor, fields, rest) <==> |rest| == AtoiAsSize(Value(Announced(fields)))
  {
    PostReadBack(target, minor, fields, rest);
  }

  /** Some text has any given length. */
  lemma TextOfLength(m: nat, n: nat)
    ensures (forall s: string :: |s| == m <==> |s| == n) <==> m == n
  {
    var s: string := seq(m, _ => 'x');
    assert |s| == m;
  }

  /** The announced number is the length that completes the request, for every body, exactly when it is one that
      comes through `atoi` and the comparison as it is. */
  lemma PostHonoursLength(target: Target, minor: bool, fields: seq<Field>)
    requires PostWellFormed(target, minor, fields) && AllDigits(Announced(fields))
    ensures var n := Value(Announced(fields));
            (forall rest: string :: CompleteWith(target, minor, fields, rest) <==> |rest| == n) <==> KeepsLength(n)
  {
    var n := Value(Announced(fields));
    LengthKept(n);
    TextOfLength(AtoiAsSize(n), n);
    forall rest: string ensures CompleteWith(target, minor, fields, rest) <==> |rest| == AtoiAsSize(n) {
      PostCompletes(target, minor, fields, rest);
    }
  }

  // ---------- A length that is misread ----------

  lemma ValueOf(s: string, c: char, t: string)
    requires AllDigits(s) && IsDigit(c) && t == s + [c]
    ensures AllDigits(t) && Value(t) == 10 * Value(s) + (c as int - '0' as int)
  {
    assert t[..|s|] == s;
  }

  lemma LargeValue()
    ensures AllDigits("4294967296") && Value("4294967296") == 0x1_0000_0000
  {
    ValueOf("", '4', "4");
    ValueOf("4", '2', "42");
    ValueOf("42", '9', "429");
    ValueOf("429", '4', "4294");
    ValueOf("4294", '9', "42949");
    ValueOf("42949", '6', "429496");
    ValueOf("429496", '7', "4294967");
    ValueOf("4294967", '2', "42949672");
    ValueOf("42949672", '9', "429496729");
    ValueOf("429496729", '6', "4294967296");
  }

  /** A POST that announces 4294967296 bytes is complete without any. */
  lemma LargeLengthCompletes(target: Target, minor: bool, fields: seq<Field>)
    requires PostWellFormed(target, minor, fields) && Announced(fields) == "4294967296"
    ensures CompleteWith(target, minor, fields, "")
  {
    LargeValue();
    PostCompletes(target, minor, fields, "");
  }

  lemma NoBreak(s: string)
    requires '\r' !in s
    ensures FindCRLF(s) == -1
  {
  }

  /** There is such a request. */
  lemma LargeLengthIsWellFormed(target: Target, field: Field)
    requires target == Target("/", false, "") && field == Field(CONTENT_LENGTH, "4294967296")
    ensures PostWellFormed(target, true, [field]) && Announced([field]) == "4294967296"
  {
    LargeValue();
    DigitsCanonical(field.value);
    LowerCanonical(field.name);
    LinesUnbroken(target, field);
  }

  lemma LinesUnbroken(target: Target, field: Field)
    requires target == Target("/", false, "") && field == Field(CONTENT_LENGTH, "4294967296")
    ensures FindCRLF(RequestLine(Post, target, true)) == -1 && FindCRLF(field.Line()) == -1
  {
    NoBreak(RequestLine(Post, target, true));
    NoBreak(field.Line());
  }

  lemma LargeLengthText(target: Target, field: Field)
    requires target == Target("/", false, "") && field == Field(CONTENT_LENGTH, "4294967296")
    ensures PostText(target, true, [field]) == "POST / HTTP/1.1\r\ncontent-length:4294967296\r\n\r\n"
  {
    assert RequestLine(Post, target, true) == "POST / HTTP/1.1";
    assert [field][1..] == [] && FieldLines([]) == "";
    assert field.Line() == "content-length:4294967296";
    Spelled(RequestLine(Post, target, true), FieldLines([field]));
  }

  lemma Spelled(line: string, fields: string)
    requires line == "POST / HTTP/1.1" && fields == "content-length:4294967296" + "\r\n" + ""
    ensures line + "\r\n" + (fields + "\r\n") == "POST / HTTP/1.1\r\ncontent-length:4294967296\r\n\r\n"
  {
  }
}
