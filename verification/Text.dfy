/** Decimal numbers in text, shared by the JSON and HTTP parsers. */
module Text {

  predicate IsDigit(c: char) {
    '0' <= c <= '9'
  }

  function Value(digits: string): (n: nat)
    requires forall c <- digits :: IsDigit(c)
  {
    if digits == "" then 0
    else
      assert IsDigit(digits[|digits| - 1]);
      10 * Value(digits[..|digits| - 1]) + (digits[|digits| - 1] as int - '0' as int)
  }

  function Digits(n: nat): (r: string)
    ensures r != "" && forall c <- r :: IsDigit(c)
    ensures n > 0 ==> r[0] != '0'
    ensures n == 0 ==> r == "0"
  {
    if n < 10 then ['0' + n as char] else Digits(n / 10) + ['0' + (n % 10) as char]
  }

  lemma {:induction false} DigitsValue(n: nat)
    ensures Value(Digits(n)) == n
  {
    var d := Digits(n);
    if n < 10 {
      assert d[..0] == "";
    } else {
      DigitsValue(n / 10);
      assert d[..|d| - 1] == Digits(n / 10);
    }
  }
}
