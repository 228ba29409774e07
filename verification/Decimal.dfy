/** Decimal text of integers. */
module Decimal {
  import opened Prelude

  predicate IsDigit(c: char) {
    '0' <= c <= '9'
  }

  /** `/^\d+$/`. */
  predicate IsDigits(s: string) {
    |s| > 0 && forall i :: 0 <= i < |s| ==> IsDigit(s[i])
  }

  function DigitValue(c: char): (d: nat)
    requires IsDigit(c)
    ensures d < 10
  {
    c as nat - '0' as nat
  }

  /** The number a string of digits spells. */
  function Value(s: string): nat
    requires IsDigits(s)
  {
    var last := DigitValue(s[|s| - 1]);
    if |s| == 1 then last else 10 * Value(s[..|s| - 1]) + last
  }

  /** `n.toString()` of a natural number. */
  function Natural(n: nat): (s: string)
    ensures IsDigits(s)
  {
    if n < 10 then ['0' + n as char] else Natural(n / 10) + ['0' + (n % 10) as char]
  }

  /** `v.toString()` of an integer. */
  function Text(v: int): string {
    if v < 0 then "-" + Natural(-v) else Natural(v)
  }

  predicate Canonical(s: string) {
    IsDigits(s) && (|s| > 1 ==> s[0] != '0')
  }

  lemma {:induction false} ValueOfNatural(n: nat)
    ensures Value(Natural(n)) == n && Canonical(Natural(n))
    ensures n > 0 ==> Natural(n)[0] != '0'
  {
    if n >= 10 {
      ValueOfNatural(n / 10);
      var s := Natural(n);
      assert s[..|s| - 1] == Natural(n / 10);
      assert Natural(n / 10)[0] == s[0];
    }
  }

  lemma {:induction false} NaturalOfValue(s: string)
    requires Canonical(s)
    ensures Natural(Value(s)) == s
    ensures Value(s) == 0 ==> s == "0"
  {
    if |s| > 1 {
      var front := s[..|s| - 1];
      assert IsDigits(front) && front[0] == s[0];
      NaturalOfValue(front);
      assert Value(front) > 0;
      assert s == front + [s[|s| - 1]];
    }
  }

  /** The integer a decimal text spells, with an optional minus sign. */
  function Parse(s: string): Option<int> {
    if IsDigits(s) then Some(Value(s))
    else if |s| > 1 && s[0] == '-' && IsDigits(s[1..]) then (var n: int := Value(s[1..]); Some(-n))
    else None
  }

  /** Every integer is read back from its own text. */
  lemma ParseText(v: int)
    ensures Parse(Text(v)) == Some(v)
  {
    hide Natural, Value;
    if v < 0 {
      ValueOfNatural(-v);
      assert Text(v)[1..] == Natural(-v);
      assert !IsDigit(Text(v)[0]);
    } else {
      ValueOfNatural(v);
    }
  }
}
