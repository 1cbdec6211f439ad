/**
 * Base-10 rendering of integers, as `strconv.FormatInt(i, 10)` produces the
 * `X-Timestamp` header and the tail of the token input, together with the
 * parser that undoes it.
 */
module Decimal {
  import opened Wrappers

  predicate IsDigit(c: char)
  {
    '0' <= c <= '9'
  }

  predicate AllDigits(s: string)
  {
    forall i :: 0 <= i < |s| ==> IsDigit(s[i])
  }

  function DigitChar(d: nat): char
    requires d < 10
  {
    ('0' as int + d) as char
  }

  function DigitValue(c: char): nat
    requires IsDigit(c)
  {
    c as int - '0' as int
  }

  /** Decimal digits of `n`, most significant first, with no leading zero. */
  function FormatNat(n: nat): (s: string)
    ensures 0 < |s| && AllDigits(s)
    ensures s[0] == '0' ==> n == 0 && |s| == 1
    decreases n
  {
    if n < 10 then [DigitChar(n)] else FormatNat(n / 10) + [DigitChar(n % 10)]
  }

  /** `strconv.FormatInt(i, 10)`: a minus sign for negative values, then the digits of |i|. */
  function FormatInt(i: int): (s: string)
    ensures 0 < |s|
    ensures s[0] == '-' <==> i < 0
    ensures i < 0 ==> AllDigits(s[1..]) && 1 < |s| && s[1] != '0'
    ensures 0 <= i ==> AllDigits(s) && (s[0] == '0' ==> i == 0 && |s| == 1)
  {
    if i < 0 then "-" + FormatNat(-i) else FormatNat(i)
  }

  /** The value of a string of decimal digits. */
  function ParseNat(s: string): nat
    requires AllDigits(s)
    decreases |s|
  {
    if s == [] then 0 else 10 * ParseNat(s[..|s| - 1]) + DigitValue(s[|s| - 1])
  }

  /** Reads an optional minus sign and at least one digit; anything else is None. */
  function ParseInt(s: string): Option<int>
  {
    if 1 < |s| && s[0] == '-' && AllDigits(s[1..]) then Some(-(ParseNat(s[1..]) as int))
    else if 0 < |s| && AllDigits(s) then Some(ParseNat(s))
    else None
  }

  lemma {:induction false} ParseFormatNat(n: nat)
    ensures ParseNat(FormatNat(n)) == n
    decreases n
  {
    if 10 <= n {
      var s := FormatNat(n);
      assert s[..|s| - 1] == FormatNat(n / 10);
      ParseFormatNat(n / 10);
    }
  }

  /** Rendering then parsing gives the number back, so distinct instants give distinct headers. */
  lemma FormatIntRoundTrip(i: int)
    ensures ParseInt(FormatInt(i)) == Some(i)
  {
    var s := FormatInt(i);
    if i < 0 {
      assert s[1..] == FormatNat(-i);
      ParseFormatNat(-i);
    } else {
      assert s == FormatNat(i);
      ParseFormatNat(i);
    }
  }

  lemma FormatIntInjective(i: int, j: int)
    requires FormatInt(i) == FormatInt(j)
    ensures i == j
  {
    FormatIntRoundTrip(i);
    FormatIntRoundTrip(j);
  }
}
