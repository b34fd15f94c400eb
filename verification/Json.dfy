/** The JSON parser and printer of muduo/base/JsonValue.h.

    A `const char*` into a NUL-terminated text is the rest of that text; a `char` is a byte, and
    the source's `char` is signed. */
module Json {
  import opened Text

  datatype Json =
    | Null
    | Bool(b: bool)
    | Int(n: int)
    | Float(lexeme: string)
    | Str(s: string)
    | Array(elems: seq<Json>)
    | Hash(members: seq<Member>)

  datatype Member = Member(key: string, value: Json)

  /** How a parse can end without a value: a failed `assert`, an exception from `std::stoll`, a read
      beyond the terminator, or a loop that never advances. */
  datatype Fault = AssertFailed | NumberOutOfRange | PastEnd | Endless

  datatype Outcome<+T> = Ok(value: T, next: string) | Failed(fault: Fault)

  const LLONG_MAX := 0x7FFF_FFFF_FFFF_FFFF

  /** The byte a pointer points at. */
  function At(s: string, i: nat): char {
    if i < |s| then s[i] else '\0'
  }

  /** `*begin!='\0'&&*begin<=32`, where bytes from 128 up are negative. */
  predicate IsSpace(c: char) {
    c != '\0' && (c <= ' ' || c as int >= 128)
  }

  function SkipSpace(s: string): (r: string)
    ensures |r| <= |s|
    ensures r == "" || !IsSpace(r[0])
  {
    if s != "" && IsSpace(s[0]) then SkipSpace(s[1..]) else s
  }

  /** The loop of `parseString` after the opening quote: everything up to the next quote. */
  function UntilQuote(s: string): (r: Outcome<string>)
    ensures r.Ok? ==> |r.next| < |s| && '"' !in r.value
    ensures r.Failed? ==> r.fault == PastEnd
  {
    if s == "" then Failed(PastEnd)
    else if s[0] == '"' then Ok("", s[1..])
    else match UntilQuote(s[1..])
      case Ok(v, n) => Ok([s[0]] + v, n)
      case Failed(f) => Failed(f)
  }

  function ParseString(s: string): (r: Outcome<string>)
    ensures r.Ok? ==> |r.next| < |s|
  {
    if At(s, 0) != '"' then Failed(AssertFailed)
    else match UntilQuote(SkipSpace(s[1..]))
      case Ok(v, n) => Ok(v, SkipSpace(n))
      case Failed(f) => Failed(f)
  }

  function NumberLength(s: string): (n: nat)
    ensures n <= |s|
  {
    if s != "" && (IsDigit(s[0]) || s[0] == '.') then 1 + NumberLength(s[1..]) else 0
  }

  function ParseNumber(s: string): (r: Outcome<Json>)
    requires At(s, 0) != '\0' && IsDigit(At(s, 0))
    ensures r.Ok? ==> |r.next| < |s|
  {
    var n := NumberLength(s);
    var text := s[..n];
    if '.' in text then Ok(Float(text), SkipSpace(s[n..]))
    else
      assert forall c <- text :: IsDigit(c) by { NumberCharacters(s); }
      if Value(text) > LLONG_MAX then Failed(NumberOutOfRange)
      else Ok(Int(Value(text)), SkipSpace(s[n..]))
  }

  lemma NumberCharacters(s: string)
    ensures forall c <- s[..NumberLength(s)] :: IsDigit(c) || c == '.'
  {
    if s != "" && (IsDigit(s[0]) || s[0] == '.') {
      NumberCharacters(s[1..]);
      assert s[..NumberLength(s)] == [s[0]] + s[1..][..NumberLength(s[1..])];
    }
  }

  predicate StartsWith(s: string, w: string) {
    |w| <= |s| && s[..|w|] == w
  }

  function ParseObject(s: string): (r: Outcome<Json>)
    ensures r.Ok? ==> |r.next| <= |s|
    decreases |s|, 1
  {
    var t := SkipSpace(s);
    var r :=
      if At(t, 0) == '{' then ParseHash(t)
      else if At(t, 0) == '[' then ParseArray(t)
      else if At(t, 0) == '"' then
        match ParseString(t) { case Ok(v, n) => Ok(Str(v), n) case Failed(f) => Failed(f) }
      else if IsDigit(At(t, 0)) then ParseNumber(t)
      else if StartsWith(t, "true") then Ok(Bool(true), SkipSpace(t[4..]))
      else if StartsWith(t, "false") then Ok(Bool(false), SkipSpace(t[5..]))
      else Ok(Null, t);
    match r
    case Ok(v, n) => Ok(v, SkipSpace(n))
    case Failed(f) => Failed(f)
  }

  function SkipComma(s: string): (r: string)
    ensures |r| <= |s|
  {
    if At(s, 0) == ',' then SkipSpace(s[1..]) else s
  }

  function ParseArray(s: string): (r: Outcome<Json>)
    requires At(s, 0) == '['
    ensures r.Ok? ==> |r.next| < |s|
    decreases |s|, 0
  {
    match Elements(SkipSpace(s[1..]))
    case Ok(vs, n) => Ok(Array(vs), n)
    case Failed(f) => Failed(f)
  }

  /** The loop of `parseArray`. A round that does not advance repeats itself for ever. */
  function Elements(s: string): (r: Outcome<seq<Json>>)
    ensures r.Ok? ==> |r.next| <= |s|
    decreases |s|, 2
  {
    if At(s, 0) == ']' then Ok([], SkipSpace(s[1..]))
    else match ParseObject(s)
      case Failed(f) => Failed(f)
      case Ok(v, n) =>
        var m := SkipComma(n);
        if |m| >= |s| then Failed(Endless)
        else match Elements(m)
          case Ok(vs, rest) => Ok([v] + vs, rest)
          case Failed(f) => Failed(f)
  }

  function ParseHash(s: string): (r: Outcome<Json>)
    requires At(s, 0) == '{'
    ensures r.Ok? ==> |r.next| < |s|
    decreases |s|, 0
  {
    match Members(SkipSpace(s[1..]))
    case Ok(ms, n) => Ok(Hash(ms), n)
    case Failed(f) => Failed(f)
  }

  /** The loop of `parseHash`. */
  function Members(s: string): (r: Outcome<seq<Member>>)
    ensures r.Ok? ==> |r.next| <= |s|
    decreases |s|, 2
  {
    if At(s, 0) == '}' then Ok([], SkipSpace(s[1..]))
    else match ParseString(s)
      case Failed(f) => Failed(f)
      case Ok(key, n) =>
        if At(n, 0) != ':' then Failed(AssertFailed)
        else match ParseObject(n[1..])
          case Failed(f) => Failed(f)
          case Ok(v, m) =>
            match Members(SkipComma(m))
            case Ok(ms, rest) => Ok([Member(key, v)] + ms, rest)
            case Failed(f) => Failed(f)
  }

  // ---------- Printer ----------

  function Tabs(n: nat): (r: string)
    ensures |r| == n && forall c <- r :: c == '\t'
  {
    seq(n, _ => '\t')
  }

  /** The trees the printer handles: it subtracts one from the size of a container without looking,
      and rounds a float to six places. */
  predicate Printable(v: Json) {
    match v
    case Float(_) => false
    case Array(es) => es != [] && forall e <- es :: Printable(e)
    case Hash(ms) => ms != [] && forall m <- ms :: Printable(m.value)
    case _ => true
  }

  function Print(v: Json, tab: nat): string
    requires Printable(v)
    decreases v, 1
  {
    match v
    case Null => ""
    case Bool(b) => if b then "true" else "false"
    case Int(n) => if n < 0 then "-" + Digits(-n) else Digits(n)
    case Str(s) => "\"" + s + "\""
    case Array(es) => "[\n" + PrintElements(es, tab) + "\n" + Tabs(tab) + "]"
    case Hash(ms) => "{\n" + PrintMembers(ms, tab) + "\n" + Tabs(tab) + "}"
  }

  function PrintElements(es: seq<Json>, tab: nat): string
    requires es != [] && forall e <- es :: Printable(e)
    decreases es, 0
  {
    var first := Tabs(tab + 1) + Print(es[0], tab + 1);
    if |es| == 1 then first else first + ",\n" + PrintElements(es[1..], tab)
  }

  function PrintMembers(ms: seq<Member>, tab: nat): string
    requires ms != [] && forall m <- ms :: Printable(m.value)
    decreases ms, 0
  {
    var first := Tabs(tab + 1) + "\"" + ms[0].key + "\":" + Print(ms[0].value, tab + 1);
    if |ms| == 1 then first else first + ",\n" + PrintMembers(ms[1..], tab)
  }

  // ---------- What survives printing and parsing ----------

  /** The characters that are not skipped as white space: the terminator and, of the bytes that are not negative,
      those above the blank. */
  predicate Visible(c: char) {
    c == '\0' || 33 <= c as int < 128
  }

  /** Texts that come back from between quotes unchanged. */
  predicate Quotable(s: string) {
    '"' !in s && (s == "" || Visible(s[0]))
  }

  /** Every string and key comes back unchanged and every integer is one the parser can yield. */
  predicate Faithful(v: Json) {
    match v
    case Int(n) => 0 <= n <= 0x7FFF_FFFF_FFFF_FFFF
    case Str(s) => Quotable(s)
    case Array(es) => forall e <- es :: Faithful(e)
    case Hash(ms) => forall m <- ms :: Quotable(m.key) && Faithful(m.value)
    case _ => true
  }

  /** What parsing makes of a printed tree: an array loses a null at its end, which prints as nothing. */
  function Trim(v: Json): Json
    decreases v, 1
  {
    match v
    case Array(es) => Array(TrimElements(es))
    case Hash(ms) => Hash(TrimMembers(ms))
    case _ => v
  }

  function TrimElements(es: seq<Json>): (r: seq<Json>)
    ensures |r| <= |es|
    decreases es, 0
  {
    if es == [] || es == [Null] then [] else [Trim(es[0])] + TrimElements(es[1..])
  }

  function TrimMembers(ms: seq<Member>): (r: seq<Member>)
    ensures |r| == |ms|
    decreases ms, 0
  {
    if ms == [] then [] else [Member(ms[0].key, Trim(ms[0].value))] + TrimMembers(ms[1..])
  }

  predicate NoTrailingNull(v: Json) {
    match v
    case Array(es) => (es != [] ==> es[|es| - 1] != Null) && forall e <- es :: NoTrailingNull(e)
    case Hash(ms) => forall m <- ms :: NoTrailingNull(m.value)
    case _ => true
  }

  lemma {:induction false} TrimIsIdentity(v: Json)
    ensures Trim(v) == v <==> NoTrailingNull(v)
    decreases v, 1
  {
    match v
    case Array(es) => TrimElementsIsIdentity(es);
    case Hash(ms) => TrimMembersIsIdentity(ms);
    case _ =>
  }

  lemma {:induction false} TrimElementsIsIdentity(es: seq<Json>)
    ensures TrimElements(es) == es <==> NoTrailingNull(Array(es))
    decreases es, 0
  {
    if es != [] && es != [Null] {
      TrimIsIdentity(es[0]);
      TrimElementsIsIdentity(es[1..]);
      assert es == [es[0]] + es[1..];
      assert TrimElements(es) == es <==> Trim(es[0]) == es[0] && TrimElements(es[1..]) == es[1..];
    }
  }

  lemma {:induction false} TrimMembersIsIdentity(ms: seq<Member>)
    ensures TrimMembers(ms) == ms <==> NoTrailingNull(Hash(ms))
    decreases ms, 0
  {
    if ms != [] {
      TrimIsIdentity(ms[0].value);
      TrimMembersIsIdentity(ms[1..]);
      assert ms == [ms[0]] + ms[1..];
      assert TrimMembers(ms) == ms <==> Trim(ms[0].value) == ms[0].value && TrimMembers(ms[1..]) == ms[1..];
    }
  }

  /** What may follow a value: the end, or a delimiter after white space. */
  predicate Delimited(post: string) {
    post == "" || post[0] in {',', ']', '}'} || (!Visible(post[0]) && Delimited(post[1..]))
  }

  lemma {:induction false} DelimiterFirst(post: string)
    ensures Delimited(post) <==> SkipSpace(post) == "" || SkipSpace(post)[0] in {',', ']', '}'}
  {
    if post != "" && IsSpace(post[0]) {
      DelimiterFirst(post[1..]);
    }
  }

  /** What is skipped is white space. */
  lemma {:induction false} SkipSpaceSkips(s: string)
    ensures exists w :: s == w + SkipSpace(s) && forall c <- w :: !Visible(c)
  {
    if s != "" && IsSpace(s[0]) {
      SkipSpaceSkips(s[1..]);
      var w :| s[1..] == w + SkipSpace(s[1..]) && forall c <- w :: !Visible(c);
      assert s == ([s[0]] + w) + SkipSpace(s);
    } else {
      assert s == "" + SkipSpace(s);
    }
  }

  lemma {:induction false} SkipSpaces(w: string, x: string)
    requires forall c <- w :: IsSpace(c)
    ensures SkipSpace(w + x) == SkipSpace(x)
  {
    if w == "" {
      assert w + x == x;
    } else {
      assert (w + x)[1..] == w[1..] + x;
      SkipSpaces(w[1..], x);
    }
  }

  lemma {:induction false} UntilQuoteFinds(s: string, x: string)
    requires '"' !in s
    ensures UntilQuote(s + "\"" + x) == Ok(s, x)
  {
    var t := s + "\"" + x;
    if s == "" {
      assert t[1..] == x;
    } else {
      assert t[1..] == s[1..] + "\"" + x;
      UntilQuoteFinds(s[1..], x);
      assert [s[0]] + s[1..] == s;
    }
  }

  lemma QuotedString(s: string, x: string)
    requires Quotable(s)
    ensures ParseString("\"" + s + "\"" + x) == Ok(s, SkipSpace(x))
  {
    var rest := s + "\"" + x;
    var t := "\"" + s + "\"" + x;
    assert t[1..] == rest;
    assert At(t, 0) == '"';
    assert SkipSpace(rest) == rest by {
      assert rest[0] == if s == "" then '"' else s[0];
    }
    UntilQuoteFinds(s, x);
  }

  predicate NumberChar(c: char) {
    IsDigit(c) || c == '.'
  }

  lemma {:induction false} NumberEnds(d: string, x: string)
    requires forall c <- d :: NumberChar(c)
    requires x == "" || !NumberChar(x[0])
    ensures NumberLength(d + x) == |d|
  {
    if d == "" {
      assert d + x == x;
    } else {
      assert d[0] in d && (d + x)[1..] == d[1..] + x;
      NumberEnds(d[1..], x);
    }
  }

  /** A number is a longest run of digits and dots that begins with a digit. With a dot it is a float with that text,
      without one an integer, which must fit a `long long`. */
  lemma NumberRead(d: string, x: string)
    requires d != "" && IsDigit(d[0]) && forall c <- d :: NumberChar(c)
    requires x == "" || !NumberChar(x[0])
    ensures ParseObject(d + x) ==
            if '.' in d then Ok(Float(d), SkipSpace(x))
            else
              assert forall c <- d :: IsDigit(c) by { assert forall c <- d :: NumberChar(c); }
              if Value(d) <= 0x7FFF_FFFF_FFFF_FFFF then Ok(Int(Value(d)), SkipSpace(x))
              else Failed(NumberOutOfRange)
  {
    var t := d + x;
    NumberEnds(d, x);
    assert t[..|d|] == d && t[|d|..] == x;
    assert t[0] == d[0] && SkipSpace(t) == t;
    assert SkipSpace(SkipSpace(x)) == SkipSpace(x);
  }

  lemma PrintedNumber(n: nat, x: string)
    requires n <= LLONG_MAX && (x == "" || !NumberChar(x[0]))
    ensures ParseObject(Digits(n) + x) == Ok(Int(n), SkipSpace(x))
  {
    DigitsValue(n);
    assert '.' !in Digits(n);
    NumberRead(Digits(n), x);
  }

  /** A negative number is written with its sign and its digits, which the parser does not read: it yields null
      before them. */
  lemma NegativeNumber(n: int, tab: nat, x: string)
    requires n < 0
    ensures var p := Print(Int(n), tab);
            && p[0] == '-' && (forall c <- p[1..] :: IsDigit(c)) && Value(p[1..]) == -n
            && ParseObject(p + x) == Ok(Null, p + x)
  {
    var p := Print(Int(n), tab);
    assert p[1..] == Digits(-n);
    DigitsValue(-n);
    assert (p + x)[0] == '-';
    UnknownText(p + x);
  }

  /** Text that begins no value, `null` included, gives null and is not read. */
  lemma UnknownText(s: string)
    requires s == "" || (Visible(s[0]) && s[0] !in {'{', '[', '"'} && !IsDigit(s[0]))
    requires !("true" <= s) && !("false" <= s)
    ensures ParseObject(s) == Ok(Null, s)
  {
  }

  /** In an array such a text is read for ever, unless it begins with a comma or the bracket. */
  lemma UnknownElement(s: string)
    requires s == "" || (Visible(s[0]) && s[0] !in {'{', '[', '"', ',', ']'} && !IsDigit(s[0]))
    requires !("true" <= s) && !("false" <= s)
    ensures Elements(s) == Failed(Endless)
  {
    UnknownText(s);
  }

  lemma NullInArray()
    ensures ParseObject("[null]") == Failed(Endless)
  {
    var s := "[null]";
    assert s[1..] == "null]";
    UnknownElement("null]");
  }

  /** The comma between elements may be missing. */
  lemma CommaIsOptional(s: string, v: Json, next: string)
    requires At(s, 0) != ']' && ParseObject(s) == Ok(v, next) && |next| < |s|
    requires At(next, 0) != ',' && Elements(next).Ok?
    ensures Elements(s) == Ok([v] + Elements(next).value, Elements(next).next)
  {
    NextElement(s, v, next);
  }

  /** One after the last element is read over. */
  lemma LastCommaIsIgnored(s: string, v: Json, rest: string)
    requires At(s, 0) != ']' && ParseObject(s) == Ok(v, ",]" + rest) && |rest| + 1 < |s|
    ensures Elements(s) == Ok([v] + [], SkipSpace(rest))
  {
    var next, last := ",]" + rest, "]" + rest;
    assert next[1..] == last && last[1..] == rest;
    assert SkipSpace(last) == last && Elements(last) == Ok([], SkipSpace(rest));
    NextElement(s, v, next);
  }

  /** What stands where a key should is an assertion failure, and so is a key without a colon. */
  lemma MalformedMember(s: string)
    ensures At(s, 0) != '}' && At(s, 0) != '"' ==> Members(s) == Failed(AssertFailed)
    ensures At(s, 0) == '"' && ParseString(s).Ok? && At(ParseString(s).next, 0) != ':' ==>
              Members(s) == Failed(AssertFailed)
  {
  }

  /** A string that is not closed is read past the end of the text. */
  lemma {:induction false} OpenString(s: string)
    requires '"' !in s
    ensures UntilQuote(s) == Failed(PastEnd)
  {
    if s != "" {
      OpenString(s[1..]);
    }
  }

  lemma WordFirst(w: string, x: string)
    requires w != "" && !IsSpace(w[0])
    ensures SkipSpace(w + x) == w + x && At(w + x, 0) == w[0]
    ensures StartsWith(w + x, w) && (w + x)[|w|..] == x
  {
  }

  lemma PrintedTrue(x: string)
    ensures ParseObject("true" + x) == Ok(Bool(true), SkipSpace(x))
  {
    WordFirst("true", x);
  }

  lemma PrintedFalse(x: string)
    ensures ParseObject("false" + x) == Ok(Bool(false), SkipSpace(x))
  {
    WordFirst("false", x);
    var t := "false" + x;
    assert !StartsWith(t, "true") by {
      assert t[..4][0] == 'f';
    }
  }

  lemma PrintedString(s: string, x: string)
    requires Quotable(s)
    ensures ParseObject("\"" + s + "\"" + x) == Ok(Str(s), SkipSpace(x))
  {
    var t := "\"" + s + "\"" + x;
    assert SkipSpace(t) == t && At(t, 0) == '"';
    QuotedString(s, x);
  }

  lemma PrintedNull(x: string)
    requires Delimited(x)
    ensures ParseObject(x) == Ok(Null, SkipSpace(x))
  {
    var t := SkipSpace(x);
    assert SkipSpace(t) == t;
    assert !StartsWith(t, "true") && !StartsWith(t, "false") by {
      assert "true"[0] == 't' && "false"[0] == 'f';
      if |t| >= 1 {
        assert |t| >= 4 ==> t[..4][0] == t[0];
        assert |t| >= 5 ==> t[..5][0] == t[0];
      }
    }
  }

  /** A printed value other than null starts with a character that no delimiter or space is. */
  lemma PrintedHead(v: Json, tab: nat)
    requires Printable(v) && Faithful(v) && v != Null
    ensures var p := Print(v, tab); p != "" && !IsSpace(p[0]) && p[0] !in {',', ']', '}'}
  {
    var p := Print(v, tab);
    match v
    case Int(n) => assert IsDigit(p[0]);
    case _ =>
  }

  /** The text after the last element or member of a container. */
  function Closing(tab: nat, bracket: char, post: string): string {
    "\n" + Tabs(tab) + [bracket] + post
  }

  lemma SkipToBracket(tab: nat, bracket: char, post: string)
    requires bracket in {']', '}'}
    ensures SkipSpace(Closing(tab, bracket, post)) == [bracket] + post
    ensures Delimited(Closing(tab, bracket, post))
  {
    var w := "\n" + Tabs(tab);
    assert Closing(tab, bracket, post) == w + ([bracket] + post);
    SkipSpaces(w, [bracket] + post);
    DelimiterFirst(Closing(tab, bracket, post));
  }

  lemma OpenArray(body: string, vs: seq<Json>, next: string)
    requires Elements(SkipSpace(body)) == Ok(vs, next) && SkipSpace(next) == next
    ensures ParseObject("[\n" + body) == Ok(Array(vs), next)
  {
    var t := "[\n" + body;
    assert t[1..] == "\n" + body;
    SkipSpaces("\n", body);
    assert SkipSpace(t) == t && At(t, 0) == '[';
  }

  lemma OpenHash(body: string, ms: seq<Member>, next: string)
    requires Members(SkipSpace(body)) == Ok(ms, next) && SkipSpace(next) == next
    ensures ParseObject("{\n" + body) == Ok(Hash(ms), next)
  {
    var t := "{\n" + body;
    assert t[1..] == "\n" + body;
    SkipSpaces("\n", body);
    assert SkipSpace(t) == t && At(t, 0) == '{';
  }

  lemma NextMember(s: string, key: string, p: string, v: Json, next: string)
    requires At(s, 0) != '}' && ParseString(s) == Ok(key, ":" + p) && ParseObject(p) == Ok(v, next)
    requires Members(SkipComma(next)).Ok?
    ensures Members(s) == Ok([Member(key, v)] + Members(SkipComma(next)).value, Members(SkipComma(next)).next)
  {
    assert (":" + p)[1..] == p && At(":" + p, 0) == ':';
  }

  /** The main lemma: parsing a printed tree, at any depth and before any delimiter, gives the tree back
      up to the nulls at the ends of arrays, and leaves the rest of the text. */
  lemma {:induction false} ParsePrinted(v: Json, tab: nat, post: string)
    requires Printable(v) && Faithful(v) && Delimited(post)
    ensures ParseObject(Print(v, tab) + post) == Ok(Trim(v), SkipSpace(post))
    decreases v, 1
  {
    match v
    case Null =>
      assert Print(v, tab) + post == post;
      PrintedNull(post);
    case Bool(b) => if b { PrintedTrue(post); } else { PrintedFalse(post); }
    case Int(n) => PrintedNumber(n, post);
    case Str(s) => PrintedString(s, post);
    case Array(es) =>
      ElementsPrinted(es, tab, post);
      ArrayPrinted(es, tab, post);
    case Hash(ms) =>
      MembersPrinted(ms, tab, post);
      HashPrinted(ms, tab, post);
  }

  lemma Regroup(a: string, b: string, c: string, d: string, e: string, f: string)
    ensures a + b + c + d + e + f == a + (b + (c + d + e + f))
  {
  }

  lemma ArrayPrinted(es: seq<Json>, tab: nat, post: string)
    requires Printable(Array(es))
    requires Elements(SkipSpace(PrintElements(es, tab) + Closing(tab, ']', post))) ==
            Ok(TrimElements(es), SkipSpace(post))
    ensures ParseObject(Print(Array(es), tab) + post) == Ok(Trim(Array(es)), SkipSpace(post))
  {
    var body := PrintElements(es, tab) + Closing(tab, ']', post);
    Regroup("[\n", PrintElements(es, tab), "\n", Tabs(tab), "]", post);
    OpenArray(body, TrimElements(es), SkipSpace(post));
  }

  lemma HashPrinted(ms: seq<Member>, tab: nat, post: string)
    requires Printable(Hash(ms))
    requires Members(SkipSpace(PrintMembers(ms, tab) + Closing(tab, '}', post))) == Ok(TrimMembers(ms), SkipSpace(post))
    ensures ParseObject(Print(Hash(ms), tab) + post) == Ok(Trim(Hash(ms)), SkipSpace(post))
  {
    var body := PrintMembers(ms, tab) + Closing(tab, '}', post);
    Regroup("{\n", PrintMembers(ms, tab), "\n", Tabs(tab), "}", post);
    OpenHash(body, TrimMembers(ms), SkipSpace(post));
  }

  lemma NextElement(s: string, v: Json, next: string)
    requires At(s, 0) != ']' && ParseObject(s) == Ok(v, next) && |SkipComma(next)| < |s|
    requires Elements(SkipComma(next)).Ok?
    ensures Elements(s) == Ok([v] + Elements(SkipComma(next)).value, Elements(SkipComma(next)).next)
  {
  }

  /** The array loop on a printed element: the element, then what the loop makes of the tail. A null is
      seen only before a comma. */
  lemma {:induction false} ElementPrinted(e: Json, tab: nat, tail: string, vs: seq<Json>, next: string)
    requires Printable(e) && Faithful(e) && Delimited(tail)
    requires e == Null ==> At(SkipSpace(tail), 0) == ','
    requires Elements(SkipComma(SkipSpace(tail))) == Ok(vs, next)
    ensures Elements(SkipSpace(Tabs(tab) + Print(e, tab) + tail)) == Ok([Trim(e)] + vs, next)
    decreases e, 2
  {
    var p := Print(e, tab);
    assert Tabs(tab) + p + tail == Tabs(tab) + (p + tail);
    SkipSpaces(Tabs(tab), p + tail);
    if e == Null {
      assert p + tail == tail;
      PrintedNull(SkipSpace(tail));
      NextElement(SkipSpace(tail), Null, SkipSpace(tail));
    } else {
      ParsePrinted(e, tab, tail);
      PrintedHead(e, tab);
      assert (p + tail)[0] == p[0];
      NextElement(p + tail, Trim(e), SkipSpace(tail));
    }
  }

  lemma {:induction false} ElementsPrinted(es: seq<Json>, tab: nat, post: string)
    requires es != [] && (forall e <- es :: Printable(e) && Faithful(e)) && Delimited(post)
    ensures Elements(SkipSpace(PrintElements(es, tab) + Closing(tab, ']', post))) ==
            Ok(TrimElements(es), SkipSpace(post))
    decreases es, 0
  {
    if |es| == 1 {
      LastElementPrinted(es, tab, post);
    } else {
      var first := Tabs(tab + 1) + Print(es[0], tab + 1);
      var rest := PrintElements(es[1..], tab) + Closing(tab, ']', post);
      var tail := "," + ("\n" + rest);
      Comma(first, PrintElements(es[1..], tab), Closing(tab, ']', post));
      ElementsPrinted(es[1..], tab, post);
      CommaThen(rest);
      ElementPrinted(es[0], tab + 1, tail, TrimElements(es[1..]), SkipSpace(post));
    }
  }

  lemma {:induction false} LastElementPrinted(es: seq<Json>, tab: nat, post: string)
    requires |es| == 1 && Printable(es[0]) && Faithful(es[0]) && Delimited(post)
    ensures Elements(SkipSpace(PrintElements(es, tab) + Closing(tab, ']', post))) ==
            Ok(TrimElements(es), SkipSpace(post))
    decreases es[0], 3
  {
    var closing := Closing(tab, ']', post);
    var first := Tabs(tab + 1) + Print(es[0], tab + 1);
    SkipToBracket(tab, ']', post);
    assert ("]" + post)[1..] == post;
    assert Elements(SkipComma("]" + post)) == Ok([], SkipSpace(post));
    if es[0] == Null {
      assert first + closing == Tabs(tab + 1) + closing;
      SkipSpaces(Tabs(tab + 1), closing);
    } else {
      ElementPrinted(es[0], tab + 1, closing, [], SkipSpace(post));
      assert TrimElements(es) == [Trim(es[0])] + [];
    }
  }

  /** The object loop on a printed member: the member, then what the loop makes of the tail. */
  lemma {:induction false} MemberPrinted(m: Member, tab: nat, tail: string, ms: seq<Member>, next: string)
    requires Printable(m.value) && Quotable(m.key) && Faithful(m.value) && Delimited(tail)
    requires Members(SkipComma(SkipSpace(tail))) == Ok(ms, next)
    ensures Members(SkipSpace(Tabs(tab) + "\"" + m.key + "\":" + Print(m.value, tab) + tail)) ==
            Ok([Member(m.key, Trim(m.value))] + ms, next)
    decreases m, 2
  {
    var p := Print(m.value, tab) + tail;
    var quoted := "\"" + m.key + "\"" + (":" + p);
    assert Tabs(tab) + "\"" + m.key + "\":" + Print(m.value, tab) + tail == Tabs(tab) + quoted;
    SkipSpaces(Tabs(tab), quoted);
    assert quoted[0] == '"' && SkipSpace(quoted) == quoted;
    assert SkipSpace(":" + p) == ":" + p;
    QuotedString(m.key, ":" + p);
    ParsePrinted(m.value, tab, tail);
    NextMember(quoted, m.key, p, Trim(m.value), SkipSpace(tail));
  }

  lemma {:induction false} MembersPrinted(ms: seq<Member>, tab: nat, post: string)
    requires ms != [] && Delimited(post)
    requires forall m <- ms :: Printable(m.value) && Quotable(m.key) && Faithful(m.value)
    ensures Members(SkipSpace(PrintMembers(ms, tab) + Closing(tab, '}', post))) == Ok(TrimMembers(ms), SkipSpace(post))
    decreases ms, 0
  {
    var closing := Closing(tab, '}', post);
    var first := Tabs(tab + 1) + "\"" + ms[0].key + "\":" + Print(ms[0].value, tab + 1);
    if |ms| == 1 {
      SkipToBracket(tab, '}', post);
      assert ("}" + post)[1..] == post;
      assert Members(SkipComma("}" + post)) == Ok([], SkipSpace(post));
      MemberPrinted(ms[0], tab + 1, closing, [], SkipSpace(post));
      assert TrimMembers(ms) == [Member(ms[0].key, Trim(ms[0].value))] + [];
    } else {
      var rest := PrintMembers(ms[1..], tab) + closing;
      var tail := "," + ("\n" + rest);
      Comma(first, PrintMembers(ms[1..], tab), closing);
      MembersPrinted(ms[1..], tab, post);
      CommaThen(rest);
      MemberPrinted(ms[0], tab + 1, tail, TrimMembers(ms[1..]), SkipSpace(post));
    }
  }

  lemma Comma(first: string, rest: string, closing: string)
    ensures first + ",\n" + rest + closing == first + ("," + ("\n" + (rest + closing)))
  {
  }

  lemma CommaThen(rest: string)
    ensures var tail := "," + ("\n" + rest);
            SkipSpace(tail) == tail && SkipComma(tail) == SkipSpace(rest) && Delimited(tail)
  {
    var tail := "," + ("\n" + rest);
    assert tail[1..] == "\n" + rest;
    SkipSpaces("\n", rest);
  }

  // ---------- What the parser can yield at all ----------

  lemma {:induction false} ParsedIsFaithful(s: string)
    ensures ParseObject(s).Ok? ==> Faithful(ParseObject(s).value)
    decreases |s|, 1
  {
    var t := SkipSpace(s);
    if At(t, 0) == '{' {
      MembersAreFaithful(SkipSpace(t[1..]));
    } else if At(t, 0) == '[' {
      ElementsAreFaithful(SkipSpace(t[1..]));
    } else if At(t, 0) == '"' {
      ParsedIsQuotable(t);
    }
  }

  lemma {:induction false} UntilQuoteKeepsHead(s: string)
    ensures UntilQuote(s).Ok? && UntilQuote(s).value != "" ==> UntilQuote(s).value[0] == s[0]
  {
  }

  lemma ParsedIsQuotable(s: string)
    ensures ParseString(s).Ok? ==> Quotable(ParseString(s).value)
  {
    if At(s, 0) == '"' {
      UntilQuoteKeepsHead(SkipSpace(s[1..]));
    }
  }

  lemma {:induction false} ElementsAreFaithful(s: string)
    ensures Elements(s).Ok? ==> Faithful(Array(Elements(s).value))
    decreases |s|, 2
  {
    if At(s, 0) != ']' {
      ParsedIsFaithful(s);
      var r := ParseObject(s);
      if r.Ok? && |SkipComma(r.next)| < |s| {
        ElementsAreFaithful(SkipComma(r.next));
      }
    }
  }

  lemma {:induction false} MembersAreFaithful(s: string)
    ensures Members(s).Ok? ==> Faithful(Hash(Members(s).value))
    decreases |s|, 2
  {
    if At(s, 0) != '}' {
      ParsedIsQuotable(s);
      var k := ParseString(s);
      if k.Ok? && At(k.next, 0) == ':' {
        ParsedIsFaithful(k.next[1..]);
        var r := ParseObject(k.next[1..]);
        if r.Ok? {
          MembersAreFaithful(SkipComma(r.next));
        }
      }
    }
  }

  /** Printing a tree and parsing the text gives the same tree exactly when every string and key can be
      quoted, every integer is within the parser's range and no array ends in null. */
  lemma RoundTrip(v: Json)
    requires Printable(v)
    ensures ParseObject(Print(v, 0)) == Ok(v, "") <==> Faithful(v) && NoTrailingNull(v)
  {
    if Faithful(v) {
      ParsePrinted(v, 0, "");
      assert Print(v, 0) + "" == Print(v, 0);
      TrimIsIdentity(v);
    } else {
      ParsedIsFaithful(Print(v, 0));
    }
  }
}
