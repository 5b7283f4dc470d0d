/**
 * The `%d` verb of Go's `fmt` on a signed integer: an optional minus sign
 * followed by the decimal digits of the magnitude, without leading zeros.
 * The parser is the partner that shows the rendering names its value.
 */
module Decimal {
  import opened Wrappers

  predicate IsDigit(c: char) {
    '0' <= c <= '9'
  }

  predicate AllDigits(s: string) {
    forall i :: 0 <= i < |s| ==> IsDigit(s[i])
  }

  function DigitChar(d: nat): (c: char)
    requires d < 10
    ensures IsDigit(c) && c as int - '0' as int == d
  {
    ('0' as int + d) as char
  }

  /** Decimal digits of `n`, most significant first. */
  function FormatNat(n: nat): (s: string)
    ensures |s| >= 1 && AllDigits(s)
    ensures s[0] == '0' ==> n == 0
  {
    if n < 10 then [DigitChar(n)] else FormatNat(n / 10) + [DigitChar(n % 10)]
  }

  /** `fmt.Sprintf("%d", k)`. */
  function FormatInt(k: int): (s: string)
  {
    if k < 0 then "-" + FormatNat(-k) else FormatNat(k)
  }

  /** Value of a non-empty run of decimal digits. */
  function ParseNat(s: string): nat
    requires AllDigits(s)
  {
    if s == [] then 0
    else ParseNat(s[..|s| - 1]) * 10 + (s[|s| - 1] as int - '0' as int)
  }

  /** Reads back what `FormatInt` writes; anything else is rejected. */
  function ParseInt(s: string): Option<int> {
    if |s| >= 2 && s[0] == '-' && AllDigits(s[1..]) then Some(0 - ParseNat(s[1..]) as int)
    else if |s| >= 1 && AllDigits(s) then Some(ParseNat(s))
    else None
  }

  lemma {:induction false} ParseOfFormatNat(n: nat)
    ensures ParseNat(FormatNat(n)) == n
  {
    if n >= 10 {
      var s := FormatNat(n);
      assert s[..|s| - 1] == FormatNat(n / 10);
      ParseOfFormatNat(n / 10);
    }
  }

  /** The decimal rendering determines the integer it renders. */
  lemma ParseOfFormatInt(k: int)
    ensures ParseInt(FormatInt(k)) == Some(k)
  {
    var s := FormatInt(k);
    if k < 0 {
      assert s[1..] == FormatNat(-k);
      ParseOfFormatNat(-k);
    } else {
      ParseOfFormatNat(k);
    }
  }
}
