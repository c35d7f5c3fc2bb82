/** formatResult: the text shown for an evaluated value. */
module Formatting {
  import opened Tokens
  import opened Evaluation

  /** The text the calculator shows for every failure. */
  const ErrorText := "Error"

  function Abs(x: real): real
  {
    if x < 0.0 then -x else x
  }

  /** Rounding toward zero, as Kotlin's `%` and `toLong` on doubles do. */
  function Trunc(x: real): (n: int)
    ensures 0.0 <= x ==> 0 <= n && n as real <= x < n as real + 1.0
    ensures x < 0.0 ==> n <= 0 && x <= n as real && n as real - 1.0 < x
  {
    if x >= 0.0 then x.Floor else -((-x).Floor)
  }

  const LongMin: int := -0x8000_0000_0000_0000
  const LongMax: int := 0x7FFF_FFFF_FFFF_FFFF

  /** Double.toLong: rounding toward zero, saturating at the ends of the 64-bit range. */
  function ToLong(x: real): (n: int)
    ensures LongMin <= n <= LongMax
    ensures LongMin <= Trunc(x) <= LongMax ==> n == Trunc(x)
    ensures Trunc(x) > LongMax ==> n == LongMax
    ensures Trunc(x) < LongMin ==> n == LongMin
  {
    var t := Trunc(x);
    if t < LongMin then LongMin else if t > LongMax then LongMax else t
  }

  function DigitChar(d: nat): (c: char)
    requires d < 10
    ensures IsDigit(c) && DigitValue(c) == d
  {
    ('0' as int + d) as char
  }

  /** Long.toString of a non-negative value: its decimal digits, without leading zeros. */
  function NatToString(n: nat): (s: string)
    ensures |s| > 0 && AllDigits(s)
    ensures |s| > 1 ==> s[0] != '0'
  {
    if n < 10 then [DigitChar(n)] else NatToString(n / 10) + [DigitChar(n % 10)]
  }

  /** Reading the digits back gives the number. */
  lemma {:induction false} NatToStringRoundTrip(n: nat)
    ensures DigitsValue(NatToString(n)) == n
  {
    var s := NatToString(n);
    if n < 10 {
      assert s[..|s| - 1] == [];
    } else {
      assert s[..|s| - 1] == NatToString(n / 10);
      NatToStringRoundTrip(n / 10);
    }
  }

  /** Long.toString: a minus sign before the digits of a negative value. */
  function IntToString(n: int): string
  {
    if n < 0 then "-" + NatToString(-n) else NatToString(n)
  }

  /** The sign and the digits of IntToString read back as the number. */
  lemma IntToStringRoundTrip(n: int)
    ensures |IntToString(n)| > 0
    ensures IntToString(n)[0] == '-' <==> n < 0
    ensures n < 0 ==> AllDigits(IntToString(n)[1..]) && -(DigitsValue(IntToString(n)[1..]) as int) == n
    ensures n >= 0 ==> AllDigits(IntToString(n)) && DigitsValue(IntToString(n)) == n
  {
    if n < 0 {
      assert IntToString(n)[1..] == NatToString(-n);
      NatToStringRoundTrip(-n);
    } else {
      NatToStringRoundTrip(n);
    }
  }

  /** String.trimEnd(c): drop every trailing `c`. */
  function TrimEnd(s: string, c: char): (r: string)
    ensures r <= s
    ensures |r| > 0 ==> r[|r| - 1] != c
    ensures forall k :: |r| <= k < |s| ==> s[k] == c
  {
    if |s| > 0 && s[|s| - 1] == c then TrimEnd(s[..|s| - 1], c) else s
  }

  /** formatResult, with String.format("%.8f", x) as the parameter `fixed8`: NaN and the
      infinities show as the error text, a value within 1e-10 of an integer as that Long, and
      anything else as its eight-decimal text without trailing zeros or a trailing point. */
  function FormatResult(fixed8: real -> string, v: Value): string
  {
    match v
    case NonFinite => ErrorText
    case Finite(x) =>
      if Abs(x - Trunc(x) as real) < 1.0 / 10_000_000_000.0 then IntToString(ToLong(x))
      else TrimEnd(TrimEnd(fixed8(x), '0'), '.')
  }

  lemma FormatNonFinite(fixed8: real -> string)
    ensures FormatResult(fixed8, NonFinite) == ErrorText
  {
  }

  /** A value in the Long range with no fractional part shows as its decimal integer. */
  lemma FormatInteger(fixed8: real -> string, n: int)
    requires LongMin <= n <= LongMax
    ensures FormatResult(fixed8, Finite(n as real)) == IntToString(n)
  {
    assert Trunc(n as real) == n;
  }

  /** Near an integer, the text is that integer, saturated to the Long range. */
  lemma FormatNearInteger(fixed8: real -> string, x: real)
    requires Abs(x - Trunc(x) as real) < 1.0 / 10_000_000_000.0
    ensures FormatResult(fixed8, Finite(x)) == IntToString(ToLong(x))
  {
  }

  /** Otherwise the text is a prefix of the eight-decimal text, cut only at zeros and points,
      and does not end with a point. */
  lemma FormatFraction(fixed8: real -> string, x: real)
    requires Abs(x - Trunc(x) as real) >= 1.0 / 10_000_000_000.0
    ensures FormatResult(fixed8, Finite(x)) <= fixed8(x)
    ensures forall k :: |FormatResult(fixed8, Finite(x))| <= k < |fixed8(x)| ==> fixed8(x)[k] in "0."
    ensures |FormatResult(fixed8, Finite(x))| > 0 ==>
              FormatResult(fixed8, Finite(x))[|FormatResult(fixed8, Finite(x))| - 1] != '.'
  {
    var s := fixed8(x);
    var t := TrimEnd(s, '0');
    var r := TrimEnd(t, '.');
    forall k | |r| <= k < |s|
      ensures s[k] in "0."
    {
      if k < |t| {
        assert t[k] == '.' && s[k] == t[k];
      } else {
        assert s[k] == '0';
      }
    }
  }

  /** The shown text is the error text only for NaN and the infinities, as long as the
      eight-decimal text never contains an "E". */
  lemma FormatErrorExactly(fixed8: real -> string, v: Value)
    requires forall x :: 'E' !in fixed8(x)
    ensures FormatResult(fixed8, v) == ErrorText <==> v.NonFinite?
  {
    if v.Finite? {
      var x := v.x;
      var r := FormatResult(fixed8, v);
      if Abs(x - Trunc(x) as real) < 1.0 / 10_000_000_000.0 {
        var n := ToLong(x);
        if n < 0 {
          assert r[1..] == NatToString(-n);
          assert r[1] != 'r';
        } else {
          assert r[0] != 'E';
        }
      } else {
        assert r <= fixed8(x);
      }
    }
  }
}
