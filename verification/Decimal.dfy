/** Decimal numerals as the standard library prints and parses them. */
module Decimal {
  import opened Wrappers

  function Digit(d: nat): char
    requires d < 10
  {
    '0' + d as char
  }

  predicate IsDigit(c: char) {
    '0' <= c <= '9'
  }

  function DigitValue(c: char): (d: nat)
    requires IsDigit(c)
    ensures d < 10 && Digit(d) == c
  {
    (c - '0') as nat
  }

  ghost predicate Digits(s: string) {
    forall i :: 0 <= i < |s| ==> IsDigit(s[i])
  }

  /** The numeral of n, without leading zeros. */
  function Print(n: nat): (s: string)
    ensures s != "" && Digits(s)
  {
    if n < 10 then [Digit(n)] else Print(n / 10) + [Digit(n % 10)]
  }

  /** Value of a string of digits; none when another character occurs. */
  function Value(s: string): (v: Option<nat>)
    ensures v.Some? <==> Digits(s)
  {
    if s == "" then Some(0)
    else
      var c, v := s[|s| - 1], Value(s[..|s| - 1]);
      assert Digits(s) <==> Digits(s[..|s| - 1]) && IsDigit(c);
      if v.Some? && IsDigit(c) then Some(10 * v.value + DigitValue(c)) else None
  }

  /** strconv.Atoi: an optional sign and at least one digit. A value outside the range of int fails
      there; callers that check a range reject it either way. */
  function Atoi(s: string): Option<int> {
    if s == "" then None
    else if s[0] == '-' || s[0] == '+' then
      if |s| == 1 then None
      else match Value(s[1..])
        case None => None
        case Some(v) => Some(if s[0] == '-' then 0 - v else v as int)
    else match Value(s)
      case None => None
      case Some(v) => Some(v)
  }

  lemma {:induction false} PrintThenValue(n: nat)
    ensures Value(Print(n)) == Some(n)
  {
    if n < 10 {
      assert [Digit(n)][..0] == "";
    } else {
      PrintThenValue(n / 10);
      var s := Print(n);
      assert s[..|s| - 1] == Print(n / 10);
    }
  }

  lemma PrintThenAtoi(n: nat)
    ensures Atoi(Print(n)) == Some(n as int)
  {
    PrintThenValue(n);
    assert IsDigit(Print(n)[0]);
  }

  lemma PrintInjective(m: nat, n: nat)
    requires Print(m) == Print(n)
    ensures m == n
  {
    PrintThenValue(m);
    PrintThenValue(n);
  }

  lemma PrintNext(v: nat, d: nat)
    requires v > 0 && d < 10
    ensures Print(10 * v + d) == Print(v) + [Digit(d)]
  {
    assert (10 * v + d) / 10 == v && (10 * v + d) % 10 == d;
  }

  /** Only the canonical numeral of a number is printed back as it was. */
  lemma {:induction false} ValueThenPrint(s: string)
    requires s != "" && Digits(s) && (s[0] != '0' || |s| == 1)
    ensures Print(Value(s).value) == s
  {
    hide Print;
    var k := |s| - 1;
    if k == 0 {
      assert s[..0] == "";
      PrintDigit(Value(s).value);
    } else {
      ValueThenPrint(s[..k]);
      var v := Value(s[..k]).value;
      PrintDigit(0);
      assert v > 0 by {
        assert s[..k][0] == s[0];
      }
      PrintNext(v, DigitValue(s[k]));
      assert s == s[..k] + [s[k]];
    }
  }

  lemma PrintDigit(n: nat)
    requires n < 10
    ensures Print(n) == [Digit(n)]
  {
  }
}
