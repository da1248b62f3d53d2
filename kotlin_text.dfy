/**
 * Kotlin's `Int.toString()` and `String.toIntOrNull()` in radix 10, over
 * 32-bit `Int`s. The repository decodes thresholds with `toIntOrNull`, and the
 * profile screen turns a threshold back into text with `toString`.
 */
module KotlinText {
  import opened Wrappers

  const MinInt32: int := -0x8000_0000
  const MaxInt32: int := 0x7FFF_FFFF

  /** The values of Kotlin's `Int`. */
  predicate IsInt32(n: int) {
    MinInt32 <= n <= MaxInt32
  }

  /** Kotlin's `Int`. */
  type Int32 = n: int | IsInt32(n)

  /** Kotlin's `Long`. */
  type Int64 = n: int | -0x8000_0000_0000_0000 <= n < 0x8000_0000_0000_0000

  /** Wrap-around of 32-bit two's-complement arithmetic. */
  function Wrap32(n: int): (r: int)
    ensures IsInt32(r)
    ensures IsInt32(n) ==> r == n
    ensures (r - n) % 0x1_0000_0000 == 0
  {
    (n - MinInt32) % 0x1_0000_0000 + MinInt32
  }

  predicate IsDigit(c: char) {
    '0' <= c <= '9'
  }

  function DigitChar(d: int): (c: char)
    requires 0 <= d < 10
    ensures IsDigit(c)
  {
    (48 + d) as char
  }

  function DigitValue(c: char): (d: int)
    requires IsDigit(c)
    ensures 0 <= d < 10
  {
    c as int - 48
  }

  /** Value of a string of decimal digits, most significant first. */
  function DigitsValue(ds: string): (v: nat)
    requires forall i :: 0 <= i < |ds| ==> IsDigit(ds[i])
  {
    if ds == [] then 0
    else DigitsValue(ds[..|ds| - 1]) * 10 + DigitValue(ds[|ds| - 1])
  }

  /** Decimal digits of a natural number, without leading zeros. */
  function NatToString(n: nat): (s: string)
    ensures |s| > 0
    ensures forall i :: 0 <= i < |s| ==> IsDigit(s[i])
    ensures s[0] == '0' <==> n == 0
  {
    if n < 10 then [DigitChar(n)]
    else NatToString(n / 10) + [DigitChar(n % 10)]
  }

  /** `Int.toString()`: a '-' sign exactly for negative values, then the decimal
      digits of the magnitude, without leading zeros. */
  function IntToString(n: int): (s: string)
    ensures |s| > 0 && (s[0] == '-' <==> n < 0)
    ensures var digits := if n < 0 then s[1..] else s;
      |digits| > 0 && (forall i :: 0 <= i < |digits| ==> IsDigit(digits[i])) &&
      DigitsValue(digits) == (if n < 0 then -n else n) && (digits[0] == '0' <==> n == 0)
  {
    if n < 0 then
      NatToStringValue(-n);
      assert ("-" + NatToString(-n))[1..] == NatToString(-n);
      "-" + NatToString(-n)
    else
      NatToStringValue(n);
      NatToString(n)
  }

  /**
   * `String.toIntOrNull()`: an optional leading '+' or '-' (a sign alone is
   * rejected), then one or more decimal digits, and a value inside `Int`'s range;
   * anything else is null.
   */
  function ParseInt(s: string): (r: Option<int>)
    ensures r.Some? ==> IsInt32(r.value)
    ensures r.Some? ==> |s| > 0 && (IsDigit(s[0]) || s[0] == '+' || s[0] == '-')
  {
    if |s| == 0 then None
    else
      var start := if s[0] < '0' then 1 else 0;
      if start == 1 && (|s| == 1 || (s[0] != '-' && s[0] != '+')) then None
      else
        var digits := s[start..];
        if !(forall i :: 0 <= i < |digits| ==> IsDigit(digits[i])) then None
        else
          var v: int := if s[0] == '-' then 0 - DigitsValue(digits) as int else DigitsValue(digits);
          if IsInt32(v) then Some(v) else None
  }

  lemma {:induction false} NatToStringValue(n: nat)
    ensures DigitsValue(NatToString(n)) == n
  {
    var s := NatToString(n);
    if n >= 10 {
      var prefix := NatToString(n / 10);
      assert s[..|s| - 1] == prefix;
      NatToStringValue(n / 10);
    }
  }

  /** Round trip: every `Int` reads back from its own `toString()`. */
  lemma ParseIntToString(n: Int32)
    ensures ParseInt(IntToString(n)) == Some(n)
  {
    var s := IntToString(n);
    if n < 0 {
      assert s[1..] == NatToString(-(n as int));
    }
  }

  /** Two different `Int`s never print the same text. */
  lemma IntToStringInjective(m: Int32, n: Int32)
    requires IntToString(m) == IntToString(n)
    ensures m == n
  {
    ParseIntToString(m);
    ParseIntToString(n);
  }
}
