/**
 * The parts of Go's `strconv` and `fmt` that the metric code relies on:
 * base-10 parsing of 64-bit integers (`strconv.ParseInt(s, 10, 64)`, and
 * `strconv.Atoi`, which on a 64-bit platform accepts exactly the same strings),
 * decimal formatting (`fmt.Sprintf("%v", i)` and `strconv.Itoa`), int64
 * addition with wrap-around, and an abstract float64 parser.
 */
module GoStrconv {
  import opened Wrappers

  const MinInt64: int := -0x8000_0000_0000_0000
  const MaxInt64: int := 0x7fff_ffff_ffff_ffff
  const TwoTo64: int := 0x1_0000_0000_0000_0000

  predicate IsInt64(x: int) {
    MinInt64 <= x <= MaxInt64
  }

  /**
   * Go's int64 `+`: the mathematical sum when it fits, otherwise the sum
   * wrapped around by 2^64 (two's complement overflow).
   */
  function AddInt64(a: int, b: int): (r: int)
    requires IsInt64(a) && IsInt64(b)
    ensures IsInt64(r)
    ensures IsInt64(a + b) ==> r == a + b
    ensures a + b > MaxInt64 ==> r == a + b - TwoTo64
    ensures a + b < MinInt64 ==> r == a + b + TwoTo64
  {
    var x := a + b;
    if x > MaxInt64 then x - TwoTo64 else if x < MinInt64 then x + TwoTo64 else x
  }

  predicate IsDigit(c: char) {
    '0' <= c <= '9'
  }

  predicate AllDigits(s: string) {
    forall i | 0 <= i < |s| :: IsDigit(s[i])
  }

  function DigitChar(d: nat): (c: char)
    requires d < 10
    ensures IsDigit(c) && c as int - '0' as int == d
  {
    ('0' as int + d) as char
  }

  /** The value of a run of decimal digits, most significant digit first; the empty run is 0. */
  function DigitsValue(s: string): nat
    requires AllDigits(s)
  {
    if s == [] then 0 else DigitsValue(s[..|s| - 1]) * 10 + (s[|s| - 1] as int - '0' as int)
  }

  /** The shortest decimal spelling of `n`: "0" for zero, otherwise no leading zero. */
  function NatDigits(n: nat): (s: string)
    ensures s != [] && AllDigits(s)
    ensures DigitsValue(s) == n
    ensures s[0] == '0' <==> n == 0
    ensures n == 0 ==> s == "0"
  {
    if n < 10 then [DigitChar(n)]
    else
      var prefix := NatDigits(n / 10);
      var s := prefix + [DigitChar(n % 10)];
      assert s[..|s| - 1] == prefix;
      s
  }

  /** `fmt.Sprintf("%v", i)` and `strconv.Itoa(i)`: optional '-' then the digits of |i|. */
  function FormatInt(i: int): (s: string)
    ensures s != [] && ':' !in s && '.' !in s
    ensures s[0] == '-' <==> i < 0
  {
    if i < 0 then "-" + NatDigits(0 - i) else NatDigits(i)
  }

  /**
   * `strconv.ParseInt(s, 10, 64)`: an optional '+' or '-', then one or more
   * decimal digits (no underscores in base 10), and the value must fit in int64;
   * anything else is an error (None).
   */
  function ParseInt(s: string): (r: Option<int>)
    ensures r.Some? ==> IsInt64(r.value)
    ensures r.Some? ==> s != [] && '.' !in s && ':' !in s
  {
    if s == [] then None
    else
      var body := if s[0] == '+' || s[0] == '-' then s[1..] else s;
      if body == [] || !AllDigits(body) then None
      else
        var v: int := if s[0] == '-' then 0 - DigitsValue(body) as int else DigitsValue(body);
        if IsInt64(v) then Some(v) else None
  }

  /** Formatting an int64 and parsing it back gives the same number. */
  lemma ParseFormatInt(i: int)
    requires IsInt64(i)
    ensures ParseInt(FormatInt(i)) == Some(i)
  {
    var s := FormatInt(i);
    if i < 0 {
      assert s[1..] == NatDigits(-i);
    }
  }

  /** Formatting is injective: distinct numbers have distinct spellings. */
  lemma FormatIntInjective(i: int, j: int)
    requires IsInt64(i) && IsInt64(j) && FormatInt(i) == FormatInt(j)
    ensures i == j
  {
    ParseFormatInt(i);
    ParseFormatInt(j);
  }

  /** A float64, kept as its IEEE-754 bit pattern; no arithmetic is done on floats. */
  datatype Float64 = Float64(bits: bv64)

  /** The positive zero, the default value of an unset float64 field. */
  const FloatZero: Float64 := Float64(0)

  /**
   * `strconv.ParseFloat(s, 64)`: the syntax Go accepts for floats is not modelled;
   * a parser is a parameter, returning None where Go returns an error.
   */
  type FloatParser = string -> Option<Float64>
}
