/** Decimal integer text, as `internal/redis/parser.go` reads and writes it
    for INFO fields: `parseInt64` folds every digit byte into a wrapping
    int64 and skips everything else; `formatInt` writes a non-negative
    number in decimal. */
module Decimal {
  import opened Base
  import opened Text

  const Int64Min: int := -0x8000_0000_0000_0000
  const Int64Max: int := 0x7FFF_FFFF_FFFF_FFFF

  /** Reduction into the int64 range with two's-complement wrap-around, as
      Go's int64 arithmetic overflows silently. */
  function Wrap64(x: int): (r: int)
    ensures Int64Min <= r <= Int64Max
    ensures Int64Min <= x <= Int64Max ==> r == x
  {
    var m := x % 0x1_0000_0000_0000_0000;
    if m > Int64Max then m - 0x1_0000_0000_0000_0000 else m
  }

  /** Multiply-and-add commutes with the wrap: wrapping the accumulator
      early does not change the wrapped result. */
  lemma WrapStep(a: int, d: int)
    ensures Wrap64(Wrap64(a) * 10 + d) == Wrap64(a * 10 + d)
  {
    var t := 0x1_0000_0000_0000_0000;
    var q := a / t;
    var w := Wrap64(a);
    assert a == q * t + a % t;
    var j := if a % t > Int64Max then q + 1 else q;
    assert w == a - j * t;
    assert w * 10 + d == (a * 10 + d) - (10 * j) * t;
    ModShift(a * 10 + d, 10 * j);
  }

  lemma ModShift(x: int, k: int)
    ensures (x - k * 0x1_0000_0000_0000_0000) % 0x1_0000_0000_0000_0000
         == x % 0x1_0000_0000_0000_0000
  {
  }

  /** The bytes of `s` that are decimal digits, in order. */
  function DigitsOf(s: Str): (d: Str)
    ensures AllDigits(d) && |d| <= |s|
  {
    if s == [] then []
    else DigitsOf(s[..|s| - 1]) + (if IsDigit(s[|s| - 1]) then [s[|s| - 1]] else [])
  }

  /** `parseInt64`: each digit byte shifts the accumulator one decimal place
      and adds its value, wrapping at 64 bits; other bytes (a sign, a dot,
      letters) are skipped. The result is the wrapped value of the digits
      read on their own. */
  function ParseInt64(s: Str): (r: int)
    ensures r == Wrap64(DecimalValue(DigitsOf(s)))
  {
    if s == [] then 0
    else
      var acc := ParseInt64(s[..|s| - 1]);
      var c := s[|s| - 1];
      if IsDigit(c) then
        DecimalValueSnoc(DigitsOf(s[..|s| - 1]), c);
        WrapStep(DecimalValue(DigitsOf(s[..|s| - 1])), DigitVal(c));
        Wrap64(acc * 10 + DigitVal(c))
      else
        assert DigitsOf(s) == DigitsOf(s[..|s| - 1]);
        acc
  }

  /** A string without digit bytes parses as zero. */
  lemma ParseInt64NoDigits(s: Str)
    requires forall i | 0 <= i < |s| :: !IsDigit(s[i])
    ensures ParseInt64(s) == 0
  {
    NoDigits(s);
  }

  /** A sign is skipped rather than honoured: a leading minus changes
      nothing, so the digits after it are read as a non-negative number. */
  lemma ParseInt64IgnoresSign(s: Str)
    ensures ParseInt64("-" + s) == ParseInt64(s)
    ensures AllDigits(s) ==> ParseInt64("-" + s) == Wrap64(DecimalValue(s))
  {
    NoDigits("-");
    DigitsOfAppend("-", s);
    assert [] + DigitsOf(s) == DigitsOf(s);
    if AllDigits(s) {
      DigitsOfDigits(s);
    }
  }

  /** Decimal digits of a natural number, most significant first; empty
      for zero. */
  function PositiveDigits(n: nat): (s: Str)
    ensures AllDigits(s) && DecimalValue(s) == n
    ensures n > 0 ==> |s| > 0 && s[0] != '0'
    ensures n == 0 ==> s == []
    decreases n
  {
    if n == 0 then []
    else
      var p := PositiveDigits(n / 10);
      DecimalValueSnoc(p, DigitChar(n % 10));
      assert n / 10 == 0 ==> n % 10 != 0;
      p + [DigitChar(n % 10)]
  }

  /** `formatInt`: "0" for zero, the shortest decimal digits for a positive
      number, and the empty string for a negative one (its digit loop never
      runs). */
  function FormatInt(n: int): (s: Str)
    ensures n < 0 <==> s == []
    ensures n >= 0 ==> AllDigits(s) && DecimalValue(s) == n
    ensures n >= 0 ==> (s[0] == '0' <==> n == 0) && (n == 0 ==> |s| == 1)
  {
    if n == 0 then "0" else if n < 0 then [] else PositiveDigits(n)
  }

  /** A string of digit bytes keeps all of them. */
  lemma {:induction false} DigitsOfDigits(s: Str)
    requires AllDigits(s)
    ensures DigitsOf(s) == s
  {
    if s != [] {
      DigitsOfDigits(s[..|s| - 1]);
      assert s == s[..|s| - 1] + [s[|s| - 1]];
    }
  }

  /** Round trip: a non-negative int64 formatted by `formatInt` parses back
      to itself with `parseInt64`. */
  lemma FormatIntRoundTrip(n: int)
    requires 0 <= n <= Int64Max
    ensures ParseInt64(FormatInt(n)) == n
  {
    DigitsOfDigits(FormatInt(n));
  }

  /** The wrap is real: one more than the largest int64, written out, parses
      as the smallest int64. */
  lemma ParseInt64Wraps()
    ensures ParseInt64(FormatInt(Int64Max + 1)) == Int64Min
  {
    DigitsOfDigits(FormatInt(Int64Max + 1));
  }

  /** Digits and bytes appended after a number's text: only the digits
      count toward the parsed value. */
  lemma DigitsOfAppend(a: Str, b: Str)
    ensures DigitsOf(a + b) == DigitsOf(a) + DigitsOf(b)
    decreases |b|
  {
    if b == [] {
      assert a + b == a;
    } else {
      var b' := b[..|b| - 1];
      DigitsOfAppend(a, b');
      assert (a + b)[..|a + b| - 1] == a + b';
      assert (a + b)[|a + b| - 1] == b[|b| - 1];
      var tail := if IsDigit(b[|b| - 1]) then [b[|b| - 1]] else [];
      assert DigitsOf(a + b) == DigitsOf(a + b') + tail;
      assert DigitsOf(b) == DigitsOf(b') + tail;
    }
  }

  /** A unit suffix without digits does not disturb the parsed number. */
  lemma SuffixIgnored(digits: Str, unit: Str)
    requires forall i | 0 <= i < |unit| :: !IsDigit(unit[i])
    ensures AllDigits(digits) ==> ParseInt64(digits + unit) == Wrap64(DecimalValue(digits))
  {
    DigitsOfAppend(digits, unit);
    NoDigits(unit);
    if AllDigits(digits) {
      DigitsOfDigits(digits);
      assert digits + [] == digits;
    }
  }

  lemma {:induction false} NoDigits(s: Str)
    requires forall i | 0 <= i < |s| :: !IsDigit(s[i])
    ensures DigitsOf(s) == []
  {
    if s != [] {
      NoDigits(s[..|s| - 1]);
    }
  }

  /** `%d` of Go's fmt: a minus sign before the digits of a negative value. */
  function Itoa(n: int): (s: Str)
    ensures |s| > 0
    ensures n < 0 ==> s[0] == '-' && s[1..] == FormatInt(-n)
    ensures n >= 0 ==> s == FormatInt(n)
  {
    if n < 0 then "-" + FormatInt(-n) else FormatInt(n)
  }

  /** `formatBytes` below 1024: the count in decimal followed by `B`. Larger
      sizes go through the floating-point branch, which this model does not
      cover (`None`). A negative count has no digits, so only the unit is
      written. */
  function FormatBytes(b: int): (r: Option<Str>)
    ensures r.Some? <==> b < 1024
    ensures r.Some? ==> |r.value| >= 1 && r.value[|r.value| - 1] == 'B'
    ensures r.Some? ==> r.value[..|r.value| - 1] == FormatInt(b)
    ensures 0 <= b < 1024 ==> ParseInt64(r.value) == b
    ensures b < 0 ==> r == Some("B")
  {
    if b < 1024 then
      SuffixIgnored(FormatInt(b), "B");
      Some(FormatInt(b) + "B")
    else None
  }
}
