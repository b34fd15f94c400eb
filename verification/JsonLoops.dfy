/** The loops of the JSON parser and printer, as the source runs them, proved against `Json`. */
module JsonLoops {
  import opened Json
  import opened Text

  method SkipSpaceLoop(text: string) returns (begin: string)
    ensures begin == SkipSpace(text)
  {
    begin := text;
    while begin != "" && IsSpace(begin[0])
      invariant SkipSpace(begin) == SkipSpace(text)
      decreases |begin|
    {
      begin := begin[1..];
    }
  }

  method ParseStringLoop(text: string) returns (r: Outcome<string>)
    ensures r == ParseString(text)
  {
    if At(text, 0) != '"' {
      return Failed(AssertFailed);
    }
    var output := "";
    var start := SkipSpaceLoop(text[1..]);
    var next := start;
    NothingGathered(UntilQuote(start));
    while At(next, 0) != '"'
      invariant UntilQuote(start) == Prefixed(output, UntilQuote(next))
      decreases |next|
    {
      if next == "" {
        return Failed(PastEnd);
      }
      Gathered(output, next[0], UntilQuote(next[1..]));
      output := output + [next[0]];
      next := next[1..];
    }
    assert output + "" == output;
    next := SkipSpaceLoop(next[1..]);
    r := Ok(output, next);
  }

  /** What a loop has gathered so far, put before what the rest of the loop will gather. */
  function Prefixed<T>(done: seq<T>, rest: Outcome<seq<T>>): Outcome<seq<T>> {
    match rest
    case Ok(v, n) => Ok(done + v, n)
    case Failed(f) => Failed(f)
  }

  method ParseNumberLoop(text: string) returns (r: Outcome<Json>)
    requires At(text, 0) != '\0' && IsDigit(At(text, 0))
    ensures r == ParseNumber(text)
  {
    var end := 0;
    var isFloat := false;
    while IsDigit(At(text, end)) || At(text, end) == '.'
      invariant end <= |text| && NumberLength(text) == end + NumberLength(text[end..])
      invariant forall i :: 0 <= i < end ==> IsDigit(text[i]) || text[i] == '.'
      invariant isFloat <==> exists i :: 1 <= i <= end && At(text, i) == '.'
      decreases |text| - end
    {
      assert text[end..][1..] == text[end + 1..];
      end := end + 1;
      if At(text, end) == '.' {
        isFloat := true;
      }
    }
    var numStr := text[..end];
    assert NumberLength(text[end..]) == 0;
    assert isFloat <==> '.' in numStr by {
      if isFloat {
        var i :| 1 <= i <= end && At(text, i) == '.';
        assert numStr[i] == '.';
      }
      if '.' in numStr {
        var i :| 0 <= i < end && numStr[i] == '.';
        assert At(text, i) == '.';
      }
    }
    var next := SkipSpaceLoop(text[end..]);
    if isFloat {
      r := Ok(Float(numStr), next);
    } else {
      var n := Stoll(numStr);
      r := if n > LLONG_MAX then Failed(NumberOutOfRange) else Ok(Int(n), next);
    }
  }

  /** `std::stoll` before its range check. */
  method Stoll(digits: string) returns (n: nat)
    requires forall c <- digits :: IsDigit(c)
    ensures n == Value(digits)
  {
    n := 0;
    for i := 0 to |digits|
      invariant n == Value(digits[..i])
    {
      assert digits[..i + 1][..i] == digits[..i] && IsDigit(digits[i]);
      n := 10 * n + (digits[i] as int - '0' as int);
    }
    assert digits[..|digits|] == digits;
  }

  method ParseObjectLoop(text: string) returns (r: Outcome<Json>)
    ensures r == ParseObject(text)
    decreases |text|, 1
  {
    var next := SkipSpaceLoop(text);
    if At(next, 0) == '{' {
      r := ParseHashLoop(next);
    } else if At(next, 0) == '[' {
      r := ParseArrayLoop(next);
    } else if At(next, 0) == '"' {
      var s := ParseStringLoop(next);
      r := match s { case Ok(v, n) => Ok(Str(v), n) case Failed(f) => Failed(f) };
    } else if IsDigit(At(next, 0)) {
      r := ParseNumberLoop(next);
    } else if At(next, 0) == 't' && At(next, 1) == 'r' && At(next, 2) == 'u' && At(next, 3) == 'e' {
      assert next[..4] == "true";
      next := SkipSpaceLoop(next[4..]);
      r := Ok(Bool(true), next);
    } else if At(next, 0) == 'f' && At(next, 1) == 'a' && At(next, 2) == 'l' && At(next, 3) == 's'
              && At(next, 4) == 'e' {
      assert next[..5] == "false";
      next := SkipSpaceLoop(next[5..]);
      r := Ok(Bool(false), next);
    } else {
      assert !StartsWith(next, "true") && !StartsWith(next, "false") by {
        NotLiteral(next);
      }
      r := Ok(Null, next);
    }
    if r.Ok? {
      next := SkipSpaceLoop(r.next);
      r := Ok(r.value, next);
    }
  }

  lemma NotLiteral(s: string)
    ensures StartsWith(s, "true") ==> At(s, 0) == 't' && At(s, 1) == 'r' && At(s, 2) == 'u' && At(s, 3) == 'e'
    ensures StartsWith(s, "false") ==>
              At(s, 0) == 'f' && At(s, 1) == 'a' && At(s, 2) == 'l' && At(s, 3) == 's' && At(s, 4) == 'e'
  {
    if StartsWith(s, "true") {
      assert forall i :: 0 <= i < 4 ==> s[i] == s[..4][i];
    }
    if StartsWith(s, "false") {
      assert forall i :: 0 <= i < 5 ==> s[i] == s[..5][i];
    }
  }

  method ParseArrayLoop(text: string) returns (r: Outcome<Json>)
    requires At(text, 0) == '['
    ensures r == ParseArray(text)
    decreases |text|, 0
  {
    var output := [];
    var start := SkipSpaceLoop(text[1..]);
    var next := start;
    NothingGathered(Elements(start));
    while At(next, 0) != ']'
      invariant |next| <= |start|
      invariant Elements(start) == Prefixed(output, Elements(next))
      decreases |next|
    {
      var element := ParseObjectLoop(next);
      if element.Failed? {
        return Failed(element.fault);
      }
      var after := element.next;
      if At(after, 0) == ',' {
        after := SkipSpaceLoop(after[1..]);
      }
      if |after| >= |next| {
        return Failed(Endless);
      }
      Gathered(output, element.value, Elements(after));
      output := output + [element.value];
      next := after;
    }
    assert output + [] == output;
    next := SkipSpaceLoop(next[1..]);
    r := Ok(Array(output), next);
  }

  lemma NothingGathered<T>(rest: Outcome<seq<T>>)
    ensures Prefixed([], rest) == rest
  {
    if rest.Ok? {
      assert [] + rest.value == rest.value;
    }
  }

  lemma Gathered<T>(done: seq<T>, x: T, rest: Outcome<seq<T>>)
    ensures Prefixed(done, Prefixed([x], rest)) == Prefixed(done + [x], rest)
  {
    if rest.Ok? {
      assert done + ([x] + rest.value) == done + [x] + rest.value;
    }
  }

  method ParseHashLoop(text: string) returns (r: Outcome<Json>)
    requires At(text, 0) == '{'
    ensures r == ParseHash(text)
    decreases |text|, 0
  {
    var output := [];
    var start := SkipSpaceLoop(text[1..]);
    var next := start;
    NothingGathered(Members(start));
    while At(next, 0) != '}'
      invariant |next| <= |start|
      invariant Members(start) == Prefixed(output, Members(next))
      decreases |next|
    {
      var key := ParseStringLoop(next);
      if key.Failed? {
        return Failed(key.fault);
      }
      if At(key.next, 0) != ':' {
        return Failed(AssertFailed);
      }
      var element := ParseObjectLoop(key.next[1..]);
      if element.Failed? {
        return Failed(element.fault);
      }
      var after := element.next;
      if At(after, 0) == ',' {
        after := SkipSpaceLoop(after[1..]);
      }
      Gathered(output, Member(key.value, element.value), Members(after));
      output := output + [Member(key.value, element.value)];
      next := after;
    }
    assert output + [] == output;
    next := SkipSpaceLoop(next[1..]);
    r := Ok(Hash(output), next);
  }

  /** `serilizeImpl`: append the text of `v` to `output`. */
  method Serialize(v: Json, output: string, tabNum: nat) returns (out: string)
    requires Printable(v)
    ensures out == output + Print(v, tabNum)
    decreases v, 1
  {
    match v
    case Null => out := output;
    case Bool(b) => out := output + if b then "true" else "false";
    case Int(n) => out := output + if n < 0 then "-" + Digits(-n) else Digits(n);
    case Str(s) => out := output + ("\"" + s + "\"");
    case Array(es) =>
      out := SerializeElements(es, output + "[\n", tabNum);
      out := out + ("\n" + Tabs(tabNum) + "]");
    case Hash(ms) =>
      out := SerializeMembers(ms, output + "{\n", tabNum);
      out := out + ("\n" + Tabs(tabNum) + "}");
  }

  method SerializeElements(es: seq<Json>, output: string, tabNum: nat) returns (out: string)
    requires es != [] && forall e <- es :: Printable(e)
    ensures out == output + PrintElements(es, tabNum)
    decreases es, 0
  {
    ghost var want := output + PrintElements(es, tabNum);
    out := output;
    var i := 0;
    while i < |es| - 1
      invariant 0 <= i < |es| && out + PrintElements(es[i..], tabNum) == want
    {
      ElementsFrom(es, i, tabNum, out);
      out := out + Tabs(tabNum + 1);
      out := Serialize(es[i], out, tabNum + 1);
      out := out + ",\n";
      i := i + 1;
    }
    ElementsFrom(es, i, tabNum, out);
    out := out + Tabs(tabNum + 1);
    out := Serialize(es[i], out, tabNum + 1);
  }

  lemma ElementsFrom(es: seq<Json>, i: nat, tab: nat, out: string)
    requires i < |es| && forall e <- es :: Printable(e)
    ensures out + PrintElements(es[i..], tab) ==
            if i == |es| - 1 then out + Tabs(tab + 1) + Print(es[i], tab + 1)
            else out + Tabs(tab + 1) + Print(es[i], tab + 1) + ",\n" + PrintElements(es[i + 1..], tab)
  {
    assert es[i..][0] == es[i];
    assert es[i..][1..] == es[i + 1..];
  }

  method SerializeMembers(ms: seq<Member>, output: string, tabNum: nat) returns (out: string)
    requires ms != [] && forall m <- ms :: Printable(m.value)
    ensures out == output + PrintMembers(ms, tabNum)
    decreases ms, 0
  {
    ghost var want := output + PrintMembers(ms, tabNum);
    out := output;
    var i := 0;
    while i < |ms| - 1
      invariant 0 <= i < |ms| && out + PrintMembers(ms[i..], tabNum) == want
    {
      MembersFrom(ms, i, tabNum, out);
      out := out + (Tabs(tabNum + 1) + "\"" + ms[i].key + "\":");
      out := Serialize(ms[i].value, out, tabNum + 1);
      out := out + ",\n";
      i := i + 1;
    }
    MembersFrom(ms, i, tabNum, out);
    out := out + (Tabs(tabNum + 1) + "\"" + ms[i].key + "\":");
    out := Serialize(ms[i].value, out, tabNum + 1);
  }

  lemma MembersFrom(ms: seq<Member>, i: nat, tab: nat, out: string)
    requires i < |ms| && forall m <- ms :: Printable(m.value)
    ensures var first := Tabs(tab + 1) + "\"" + ms[i].key + "\":";
            out + PrintMembers(ms[i..], tab) ==
            if i == |ms| - 1 then out + first + Print(ms[i].value, tab + 1)
            else out + first + Print(ms[i].value, tab + 1) + ",\n" + PrintMembers(ms[i + 1..], tab)
  {
    assert ms[i..][0] == ms[i];
    assert ms[i..][1..] == ms[i + 1..];
  }
}
