/**
 * Decimal text for non-negative integers, zero-padded to a minimum width, as
 * PHP's date formats ('Y', 'm', 'd', 'H', 'i', 's') and integer-to-string
 * conversion produce it, and the reading of such text back into a number.
 */
module Decimal {

  function DigitChar(d: nat): (c: char)
    requires d < 10
    ensures '0' <= c <= '9' && c as int - '0' as int == d
  {
    "0123456789"[d]
  }

  predicate IsDigit(c: char)
  {
    '0' <= c <= '9'
  }

  predicate AllDigits(s: string)
  {
    forall i :: 0 <= i < |s| ==> IsDigit(s[i])
  }

  function Pow10(w: nat): (p: nat)
    ensures p >= 1
  {
    if w == 0 then 1 else 10 * Pow10(w - 1)
  }

  /** The decimal digits of `n`, left-padded with zeros to at least `width` characters. */
  function Padded(n: nat, width: nat): (s: string)
    decreases n + width
  {
    if n < 10 && width <= 1 then [DigitChar(n)]
    else Padded(n / 10, if width > 0 then width - 1 else 0) + [DigitChar(n % 10)]
  }

  /** The number a digit string denotes. */
  function Value(s: string): nat
    requires AllDigits(s)
  {
    if s == [] then 0
    else 10 * Value(s[..|s| - 1]) + (s[|s| - 1] as int - '0' as int)
  }

  /** Padded text is made of digits only and reads back as the number it was made from. */
  lemma {:induction false} PaddedRoundTrip(n: nat, width: nat)
    ensures AllDigits(Padded(n, width))
    ensures Value(Padded(n, width)) == n
    decreases n + width
  {
    var s := Padded(n, width);
    if n < 10 && width <= 1 {
      assert s[..|s| - 1] == [];
    } else {
      var w' := if width > 0 then width - 1 else 0;
      PaddedRoundTrip(n / 10, w');
      assert s[..|s| - 1] == Padded(n / 10, w');
      assert s[|s| - 1] == DigitChar(n % 10);
    }
  }

  /** A number below 10^width fills exactly `width` positions. */
  lemma {:induction false} PaddedWidth(n: nat, width: nat)
    requires 1 <= width
    requires n < Pow10(width)
    ensures |Padded(n, width)| == width
    decreases width
  {
    if !(n < 10 && width <= 1) {
      assert width > 1;
      assert n / 10 < Pow10(width - 1);
      PaddedWidth(n / 10, width - 1);
    }
  }

  /** PHP's conversion of an integer to a string: a minus sign, then the digits. */
  function IntText(n: int): (s: string)
    ensures s != []
  {
    if n < 0 then "-" + Padded(-n, 1) else Padded(n, 1)
  }

  /** Reads integer text back: an optional minus sign, then at least one digit. */
  function ParseInt(s: string): (r: int)
    requires s != []
    requires s[0] == '-' ==> AllDigits(s[1..])
    requires s[0] != '-' ==> AllDigits(s)
  {
    if s[0] == '-' then 0 - Value(s[1..]) as int else Value(s)
  }

  /** Integer text is well formed and reads back as the same integer. */
  lemma IntTextRoundTrip(n: int)
    ensures var s := IntText(n);
      (s[0] == '-' ==> AllDigits(s[1..])) && (s[0] != '-' ==> AllDigits(s))
      && ParseInt(s) == n
  {
    var s := IntText(n);
    if n < 0 {
      var p := Padded(-n, 1);
      PaddedRoundTrip(-n, 1);
      assert s[0] == '-' && s[1..] == p;
      assert ParseInt(s) == 0 - Value(p) as int;
    } else {
      PaddedRoundTrip(n, 1);
      assert s == Padded(n, 1);
      assert IsDigit(s[0]);
    }
  }
}
