/**
 Decimal text of a natural number, as Python's `str` writes it, and the array
 index syntax of section 4 of RFC 6901 that reads it back.
 */
module Decimal {
  import opened Wrappers

  function ToText(n: nat): (s: string)
    ensures s != []
  {
    if n < 10 then [DigitChar(n)] else ToText(n / 10) + [DigitChar(n % 10)]
  }

  function DigitChar(d: nat): char
    requires d < 10
  {
    "0123456789"[d]
  }

  function DigitValue(c: char): Option<nat> {
    if '0' <= c <= '9' then Some(c as int - '0' as int) else None
  }

  /** Positional value of a digit string; None when some character is no digit. */
  function Positional(s: string): Option<nat> {
    if s == [] then Some(0)
    else
      match (Positional(s[..|s| - 1]), DigitValue(s[|s| - 1]))
      case (Some(high), Some(low)) => Some(10 * high + low)
      case _ => None
  }

  /** Array index syntax: "0", or digits without a leading zero. */
  function ArrayIndex(token: string): Option<nat> {
    if token == [] || (token[0] == '0' && |token| > 1) then None else Positional(token)
  }

  lemma {:induction false} DigitRoundTrip(d: nat)
    requires d < 10
    ensures DigitValue(DigitChar(d)) == Some(d)
  {
    assert DigitChar(d) == "0123456789"[d];
    if d == 0 {} else if d == 1 {} else if d == 2 {} else if d == 3 {} else if d == 4 {}
    else if d == 5 {} else if d == 6 {} else if d == 7 {} else if d == 8 {} else {}
  }

  lemma {:induction false} TextReadsBack(n: nat)
    ensures Positional(ToText(n)) == Some(n)
    ensures ToText(n)[0] == '0' ==> n == 0
    ensures n == 0 ==> ToText(n) == "0"
  {
    DigitRoundTrip(n % 10);
    if n < 10 {
      assert Positional(ToText(n)[..0]) == Some(0);
    } else {
      TextReadsBack(n / 10);
      assert ToText(n)[..|ToText(n)| - 1] == ToText(n / 10);
    }
  }

  /** The text of n is the one token that denotes array index n. */
  lemma {:induction false} IndexOfText(n: nat)
    ensures ArrayIndex(ToText(n)) == Some(n)
  {
    TextReadsBack(n);
  }

  lemma DigitOfValue(c: char)
    requires DigitValue(c).Some?
    ensures DigitChar(DigitValue(c).value) == c
  {
    var d := DigitValue(c).value;
    assert c as int == '0' as int + d;
    assert "0123456789"[d] as int == '0' as int + d;
  }

  lemma {:induction false} CanonicalText(s: string)
    requires s != [] && Positional(s).Some?
    requires s[0] == '0' ==> |s| == 1
    ensures ToText(Positional(s).value) == s
    ensures s[0] != '0' ==> Positional(s).value > 0
  {
    var high, last := s[..|s| - 1], s[|s| - 1];
    DigitOfValue(last);
    assert s == high + [last];
    if |s| == 1 {
      assert high == [] && Positional(high) == Some(0);
    } else {
      CanonicalText(high);
      TextOfTen(Positional(high).value, DigitValue(last).value);
    }
  }

  /** Appending a digit to the text of a positive number. */
  lemma TextOfTen(high: nat, low: nat)
    requires high > 0 && low < 10
    ensures ToText(10 * high + low) == ToText(high) + [DigitChar(low)]
  {
    assert (10 * high + low) / 10 == high && (10 * high + low) % 10 == low;
  }

  lemma TextOfIndex(token: string)
    requires ArrayIndex(token).Some?
    ensures token == ToText(ArrayIndex(token).value)
  {
    CanonicalText(token);
  }

  lemma TextInjective(m: nat, n: nat)
    requires ToText(m) == ToText(n)
    ensures m == n
  {
    TextReadsBack(m);
    TextReadsBack(n);
  }
}
