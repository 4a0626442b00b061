/** String helpers shared by the session and visitor-id code: prefix tests,
    `Number.prototype.toString(radix)` on integers, and the decimal reading
    that `Number(text)` performs. */
module Strings {
  import opened Wrappers

  /** `s.startsWith(p)` */
  predicate StartsWith(s: string, p: string) {
    |p| <= |s| && s[..|p|] == p
  }

  /** The digit character for `d` in radix up to 36: `0`-`9` then `a`-`z`. */
  function DigitChar(d: nat): (c: char)
    requires d < 36
    ensures d < 10 ==> '0' <= c <= '9' && c as int - '0' as int == d
    ensures 10 <= d ==> 'a' <= c <= 'z'
  {
    if d < 10 then (48 + d) as char else (97 + d - 10) as char
  }

  /** The digits of a non-negative integer in the given radix, most significant first. */
  function NatToRadix(n: nat, radix: nat): (r: string)
    requires 2 <= radix <= 36
    ensures |r| > 0
    decreases n
  {
    if n < radix then [DigitChar(n)]
    else NatToRadix(n / radix, radix) + [DigitChar(n % radix)]
  }

  /** `n.toString(radix)` for an integer `n`: a minus sign, then the digits of `|n|`. */
  function IntToRadix(n: int, radix: nat): string
    requires 2 <= radix <= 36
  {
    if n < 0 then "-" + NatToRadix(-n, radix) else NatToRadix(n, radix)
  }

  /** `String(n)`, and a template literal `${n}`, for an integer `n`. */
  function Decimal(n: int): string {
    IntToRadix(n, 10)
  }

  predicate IsDigit(c: char) {
    '0' <= c <= '9'
  }

  predicate AllDigits(s: string) {
    forall i :: 0 <= i < |s| ==> IsDigit(s[i])
  }

  /** The value of a string of decimal digits. */
  function DigitsValue(s: string): (v: nat)
    requires AllDigits(s)
  {
    if s == [] then 0
    else DigitsValue(s[..|s| - 1]) * 10 + (s[|s| - 1] as int - '0' as int)
  }

  /** `Number(s)` on text: an optional sign followed by one or more decimal
      digits reads as that integer, the empty string reads as 0, and every
      other text reads as NaN, written None. */
  function NumberOfText(s: string): (r: Option<int>)
    ensures s == "" ==> r == Some(0)
    ensures s != "" && AllDigits(s) ==> r == Some(DigitsValue(s))
    ensures r.Some? && s != "" ==> exists i :: 0 <= i < |s| && IsDigit(s[i])
  {
    if s == "" then Some(0)
    else if s[0] == '-' || s[0] == '+' then
      var body := s[1..];
      if body != [] && AllDigits(body) then
        assert IsDigit(s[1]);
        var magnitude: int := DigitsValue(body);
        Some(if s[0] == '-' then -magnitude else magnitude)
      else None
    else if AllDigits(s) then Some(DigitsValue(s))
    else None
  }

  /** The decimal digits of a natural number read back as that number. */
  lemma {:induction false} NatDecimalRoundTrip(n: nat)
    ensures AllDigits(NatToRadix(n, 10))
    ensures DigitsValue(NatToRadix(n, 10)) == n
  {
    var s := NatToRadix(n, 10);
    if n >= 10 {
      var p := NatToRadix(n / 10, 10);
      NatDecimalRoundTrip(n / 10);
      assert s == p + [DigitChar(n % 10)];
      assert s[..|s| - 1] == p;
      assert forall i :: 0 <= i < |s| ==> IsDigit(s[i]) by {
        forall i | 0 <= i < |s|
          ensures IsDigit(s[i])
        {
          if i < |p| {
            assert s[i] == p[i];
          }
        }
      }
    }
  }

  /** Reading `String(n)` back with `Number` gives `n`: the round trip the
      visitor-id timestamp relies on. */
  lemma DecimalRoundTrip(n: int)
    ensures NumberOfText(Decimal(n)) == Some(n)
  {
    if n < 0 {
      NatDecimalRoundTrip(-n);
      var s := Decimal(n);
      assert s[1..] == NatToRadix(-n, 10);
    } else {
      NatDecimalRoundTrip(n);
      var s := Decimal(n);
      assert IsDigit(s[0]);
    }
  }
}
