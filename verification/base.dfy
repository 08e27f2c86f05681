/** Small shared vocabulary: optional values, results, and the decimal text
    of natural numbers that every key, link and ThingSpeak field is built from. */
module Base {

  datatype Option<T> = None | Some(value: T) {
    function GetOr(default: T): T {
      match this
      case Some(v) => v
      case None => default
    }
  }

  /** The outcome of a Python call that may raise an exception nobody catches. */
  datatype Result<T> = Ok(value: T) | Raised(error: string)

  function Min(a: int, b: int): int {
    if a <= b then a else b
  }

  function Pow2(n: nat): (r: nat)
    ensures r >= 1
  {
    if n == 0 then 1 else 2 * Pow2(n - 1)
  }

  function Sum(xs: seq<nat>): nat {
    if |xs| == 0 then 0 else Sum(xs[..|xs| - 1]) + xs[|xs| - 1]
  }
}

/** Decimal digit strings: Python `str(n)` / Arduino `String(n)` for n >= 0,
    and Python `int(s)` for a string of ASCII digits. */
module Decimal {

  predicate IsDigit(c: char) {
    '0' <= c <= '9'
  }

  predicate AllDigits(s: string) {
    forall i :: 0 <= i < |s| ==> IsDigit(s[i])
  }

  /** What `s and s.isdigit()` accepts (ASCII digits only). */
  predicate IsDigitString(s: string) {
    |s| > 0 && AllDigits(s)
  }

  function DigitChar(d: nat): (c: char)
    requires d < 10
    ensures IsDigit(c)
  {
    ('0' as int + d) as char
  }

  /** The decimal value of a digit string, leading zeros allowed: Python `int(s)`. */
  function Value(s: string): nat
    requires AllDigits(s)
  {
    if |s| == 0 then 0
    else Value(s[..|s| - 1]) * 10 + (s[|s| - 1] as int - '0' as int)
  }

  /** Canonical decimal text of n, without sign or leading zeros. */
  function NatToString(n: nat): (r: string)
    ensures IsDigitString(r)
    ensures Value(r) == n
    ensures |r| > 1 ==> r[0] != '0'
  {
    if n < 10 then [DigitChar(n)]
    else
      var high := NatToString(n / 10);
      var r := high + [DigitChar(n % 10)];
      assert r[..|r| - 1] == high;
      r
  }

  /** Distinct numbers never share a decimal text. */
  lemma NatToStringInjective(a: nat, b: nat)
    requires NatToString(a) == NatToString(b)
    ensures a == b
  {
  }

  /** Two digit texts followed by the same tail can only be equal when the
      texts are (used for keys such as `rec_<ts>.wav`). */
  lemma NumberedNamesDistinct(prefix: string, a: nat, b: nat, suffix: string)
    requires a != b
    ensures prefix + NatToString(a) + suffix != prefix + NatToString(b) + suffix
  {
    var sa, sb := NatToString(a), NatToString(b);
    var x, y := prefix + sa + suffix, prefix + sb + suffix;
    if |sa| != |sb| {
      assert |x| != |y|;
    } else {
      assert x[|prefix|..|prefix| + |sa|] == sa;
      assert y[|prefix|..|prefix| + |sb|] == sb;
      assert sa != sb;
    }
  }
}
