/**
 * Decimal rendering of integers, as Kotlin's string templates produce it
 * (`"$reason"` on an `Int`): no leading zeros, a leading `-` for negative
 * values. `ParseInt` reads such a rendering back.
 */
module Decimal {

  predicate IsDigit(c: char) {
    '0' <= c <= '9'
  }

  function DigitChar(d: nat): (c: char)
    requires d < 10
    ensures IsDigit(c) && (c as int) - ('0' as int) == d
  {
    (('0' as int) + d) as char
  }

  function DigitValue(c: char): int {
    (c as int) - ('0' as int)
  }

  /** Canonical decimal digits of `n`. */
  function NatToString(n: nat): (s: string)
    ensures |s| >= 1
    ensures forall i :: 0 <= i < |s| ==> IsDigit(s[i])
    ensures s[0] == '0' ==> n == 0 && s == "0"
    decreases n
  {
    if n < 10 then [DigitChar(n)] else NatToString(n / 10) + [DigitChar(n % 10)]
  }

  /**
   * The form Kotlin renders integers in: an optional `-`, then at least one
   * digit, the first of which is `0` only for zero itself (so no `-0`).
   */
  predicate IsCanonical(s: string) {
    var start := if |s| > 0 && s[0] == '-' then 1 else 0;
    && start < |s|
    && (forall k :: start <= k < |s| ==> IsDigit(s[k]))
    && (s[start] == '0' ==> s == "0")
  }

  /** Kotlin's `Int.toString()` (used by string templates). */
  function IntToString(i: int): (s: string)
    ensures |s| >= 1
    ensures s[0] == '-' <==> i < 0
    ensures forall k :: (if i < 0 then 1 else 0) <= k < |s| ==> IsDigit(s[k])
    ensures IsCanonical(s)
    ensures s == "0" || s[if i < 0 then 1 else 0] != '0'
  {
    if i < 0 then "-" + NatToString(-i) else NatToString(i)
  }

  /** Value of a string of decimal digits, most significant first. */
  function ParseNat(s: string): int
    decreases |s|
  {
    if s == [] then 0 else ParseNat(s[..|s| - 1]) * 10 + DigitValue(s[|s| - 1])
  }

  function ParseInt(s: string): int {
    if |s| > 0 && s[0] == '-' then -ParseNat(s[1..]) else ParseNat(s)
  }

  lemma {:induction false} ParseNatToString(n: nat)
    ensures ParseNat(NatToString(n)) == n
    decreases n
  {
    if n >= 10 {
      var s := NatToString(n);
      assert s[..|s| - 1] == NatToString(n / 10);
      ParseNatToString(n / 10);
    }
  }

  /** Reading back the rendering of any integer gives that integer. */
  lemma ParseIntToString(i: int)
    ensures ParseInt(IntToString(i)) == i
  {
    if i < 0 {
      assert IntToString(i)[1..] == NatToString(-i);
      ParseNatToString(-i);
    } else {
      ParseNatToString(i);
    }
  }

  /** A digit string without a leading zero has a positive value. */
  lemma {:induction false} ParseNatPositive(s: string)
    requires |s| >= 1 && s[0] != '0'
    requires forall k :: 0 <= k < |s| ==> IsDigit(s[k])
    ensures ParseNat(s) >= 1
    decreases |s|
  {
    if |s| > 1 {
      ParseNatPositive(s[..|s| - 1]);
    }
  }

  /** A digit string without a leading zero is the rendering of its value. */
  lemma {:induction false} NatToStringParseNat(s: string)
    requires |s| >= 1 && (s[0] == '0' ==> s == "0")
    requires forall k :: 0 <= k < |s| ==> IsDigit(s[k])
    ensures ParseNat(s) >= 0 && NatToString(ParseNat(s)) == s
    decreases |s|
  {
    if |s| > 1 {
      var front := s[..|s| - 1];
      NatToStringParseNat(front);
      ParseNatPositive(front);
      LastDigit(ParseNat(front), DigitValue(s[|s| - 1]));
      assert s == front + [s[|s| - 1]];
    }
  }

  /** Appending digit `d` to the digits of `p` gives `p * 10 + d`, whose last digit is `d`. */
  lemma LastDigit(p: int, d: int)
    requires p >= 0 && 0 <= d < 10
    ensures (p * 10 + d) / 10 == p && (p * 10 + d) % 10 == d
  {
  }

  /** Exactly the canonical strings are renderings: each is the rendering of its value. */
  lemma CanonicalIsRendering(s: string)
    requires IsCanonical(s)
    ensures IntToString(ParseInt(s)) == s
  {
    if s[0] == '-' {
      NatToStringParseNat(s[1..]);
      ParseNatPositive(s[1..]);
      assert s == "-" + s[1..];
    } else {
      NatToStringParseNat(s);
    }
  }

  /** Distinct integers are rendered differently. */
  lemma IntToStringInjective(i: int, j: int)
    requires IntToString(i) == IntToString(j)
    ensures i == j
  {
    ParseIntToString(i);
    ParseIntToString(j);
  }
}
