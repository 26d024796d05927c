/**
 * The cube's dimension types: `int` and `long` dimensions are enumerable
 * (their values can be parsed, incremented and subtracted), a `String`
 * dimension is only parsed (as itself) and compared.
 */
module DimensionTypes {
  import opened Base

  /** The failure of `Integer.valueOf` / `Long.valueOf` on a malformed or out-of-range string. */
  datatype ParseError = NumberFormat

  const MinInt32: int := -0x8000_0000
  const MaxInt32: int := 0x7fff_ffff
  const MinInt64: int := -0x8000_0000_0000_0000
  const MaxInt64: int := 0x7fff_ffff_ffff_ffff

  // ---------------------------------------------------------------- decimals

  predicate IsDigit(c: char) {
    '0' <= c <= '9'
  }

  predicate AllDigits(s: string) {
    forall i :: 0 <= i < |s| ==> IsDigit(s[i])
  }

  function DigitValue(c: char): nat
    requires IsDigit(c)
  {
    c as int - '0' as int
  }

  function DigitChar(d: nat): (c: char)
    requires d < 10
    ensures IsDigit(c) && DigitValue(c) == d
  {
    ('0' as int + d) as char
  }

  /** The value of a string of decimal digits, most significant first. */
  function DigitsValue(s: string): nat
    requires AllDigits(s)
  {
    if s == [] then 0 else DigitsValue(s[..|s| - 1]) * 10 + DigitValue(s[|s| - 1])
  }

  /** The shortest decimal digits of `n`, as `Integer.toString` writes them. */
  function ToDigits(n: nat): (r: string)
    ensures r != [] && AllDigits(r)
    ensures DigitsValue(r) == n
  {
    if n < 10 then
      [DigitChar(n)]
    else
      var r := ToDigits(n / 10) + [DigitChar(n % 10)];
      assert r[..|r| - 1] == ToDigits(n / 10);
      r
  }

  /** The decimal form of an integer: a minus sign for negative values, then the digits. */
  function Decimal(x: int): string {
    if x < 0 then "-" + ToDigits(-x) else ToDigits(x)
  }

  /**
   * The syntax `Integer.valueOf` and `Long.valueOf` accept: an optional
   * sign, then at least one decimal digit; leading zeros are allowed.
   */
  function ParseDecimal(s: string): Option<int> {
    if s == [] then None
    else if s[0] == '-' || s[0] == '+' then
      if |s| > 1 && AllDigits(s[1..]) then
        var magnitude: int := DigitsValue(s[1..]);
        Some(if s[0] == '-' then -magnitude else magnitude)
      else None
    else if AllDigits(s) then Some(DigitsValue(s))
    else None
  }

  /** Every integer's decimal form reads back as that integer. */
  lemma DecimalRoundTrip(x: int)
    ensures ParseDecimal(Decimal(x)) == Some(x)
  {
    var s := Decimal(x);
    if x < 0 {
      assert s[1..] == ToDigits(-x);
    } else {
      assert IsDigit(s[0]);
    }
  }

  // ---------------------------------------------------------------- int dimension

  /** `DimensionTypeInt.toInternalRepresentation`: `Integer.valueOf`. */
  function IntToInternal(s: string): (r: Result<int, ParseError>)
    ensures r.Ok? ==> IsInt32(r.value)
    ensures s == [] || s == "-" || s == "+" ==> r.Err?
  {
    match ParseDecimal(s)
    case Some(v) => if IsInt32(v) then Ok(v) else Err(NumberFormat)
    case None => Err(NumberFormat)
  }

  /** Every `int` written in decimal parses back to itself. */
  lemma IntParseRoundTrip(x: int)
    requires IsInt32(x)
    ensures IntToInternal(Decimal(x)) == Ok(x)
  {
    DecimalRoundTrip(x);
  }

  /** A value one past the `int` range and a string with a letter are both rejected. */
  lemma IntParseRejects()
    ensures IntToInternal("2147483648").Err?
    ensures IntToInternal("12a").Err?
    ensures IntToInternal("-2147483648") == Ok(MinInt32)
  {
    BigDigits();
    assert !IsDigit("12a"[2]);
    var small := "-2147483648";
    assert small[1..] == "2147483648";
  }

  /** The digits of 2^31 read back as 2^31. */
  lemma BigDigits()
    ensures AllDigits("2147483648") && DigitsValue("2147483648") == 2147483648
  {
    var big := "2147483648";
    assert AllDigits(big);
    assert DigitsValue(big[..1]) == 2 by { assert big[..1][..0] == []; }
    assert DigitsValue(big[..2]) == 21 by { assert big[..2][..1] == big[..1]; }
    assert DigitsValue(big[..3]) == 214 by { assert big[..3][..2] == big[..2]; }
    assert DigitsValue(big[..4]) == 2147 by { assert big[..4][..3] == big[..3]; }
    assert DigitsValue(big[..5]) == 21474 by { assert big[..5][..4] == big[..4]; }
    assert DigitsValue(big[..6]) == 214748 by { assert big[..6][..5] == big[..5]; }
    assert DigitsValue(big[..7]) == 2147483 by { assert big[..7][..6] == big[..6]; }
    assert DigitsValue(big[..8]) == 21474836 by { assert big[..8][..7] == big[..7]; }
    assert DigitsValue(big[..9]) == 214748364 by { assert big[..9][..8] == big[..8]; }
    assert DigitsValue(big) == 2147483648 by { assert big[..9] == big[..|big| - 1]; }
  }

  /** `DimensionTypeInt.increment`: `++` on a Java `int`, which wraps at the top of the range. */
  function IntIncrement(x: int): (r: int)
    requires IsInt32(x)
    ensures IsInt32(r)
    ensures x < MaxInt32 ==> r == x + 1
    ensures x == MaxInt32 ==> r == MinInt32
  {
    WrapInt32(x + 1)
  }

  /** `DimensionTypeInt.difference`: the subtraction happens on `int`, and only its wrapped result is widened to `long`. */
  function IntDifference(a: int, b: int): (r: int)
    requires IsInt32(a) && IsInt32(b)
    ensures IsInt32(r)
    ensures IsInt32(a - b) ==> r == a - b
    ensures a - b > MaxInt32 ==> r == a - b - 0x1_0000_0000
    ensures a - b < MinInt32 ==> r == a - b + 0x1_0000_0000
  {
    WrapInt32(a - b)
  }

  /** Incrementing and then taking the difference gives one, even across the wrap. */
  lemma IntIncrementDifference(x: int)
    requires IsInt32(x)
    ensures IntDifference(IntIncrement(x), x) == 1
  {
  }

  /** The difference is not the true distance once it leaves the `int` range: from the least to the greatest value it is one. */
  lemma IntDifferenceOverflows()
    ensures IntDifference(MinInt32, MaxInt32) == 1
    ensures IntDifference(MaxInt32, MinInt32) == -1
  {
  }

  /** `Integer.compareTo`, and `Long.compareTo`: -1, 0 or 1 by the order of the values. */
  function CompareNumbers(a: int, b: int): (r: int)
    ensures r == -1 || r == 0 || r == 1
    ensures r < 0 <==> a < b
    ensures r == 0 <==> a == b
    ensures r > 0 <==> a > b
  {
    if a < b then -1 else if a == b then 0 else 1
  }

  /** Swapping the arguments of the numeric compare flips its sign. */
  lemma CompareNumbersAntisymmetric(a: int, b: int)
    ensures CompareNumbers(a, b) == -CompareNumbers(b, a)
  {
  }

  // ---------------------------------------------------------------- long dimension

  /** `DimensionTypeLong.toInternalRepresentation`: `Long.valueOf`. */
  function LongToInternal(s: string): (r: Result<int, ParseError>)
    ensures r.Ok? ==> IsInt64(r.value)
    ensures s == [] || s == "-" || s == "+" ==> r.Err?
  {
    match ParseDecimal(s)
    case Some(v) => if IsInt64(v) then Ok(v) else Err(NumberFormat)
    case None => Err(NumberFormat)
  }

  /** Every `long` written in decimal parses back to itself; an `int`-sized string is a valid `long`. */
  lemma LongParseRoundTrip(x: int)
    requires IsInt64(x)
    ensures LongToInternal(Decimal(x)) == Ok(x)
    ensures IsInt32(x) ==> IntToInternal(Decimal(x)) == LongToInternal(Decimal(x))
  {
    DecimalRoundTrip(x);
  }

  /** `DimensionTypeLong.increment`: `++` on a Java `long`. */
  function LongIncrement(x: int): (r: int)
    requires IsInt64(x)
    ensures IsInt64(r)
    ensures x < MaxInt64 ==> r == x + 1
    ensures x == MaxInt64 ==> r == MinInt64
  {
    WrapInt64(x + 1)
  }

  /** `DimensionTypeLong.difference`: subtraction on `long`. */
  function LongDifference(a: int, b: int): (r: int)
    requires IsInt64(a) && IsInt64(b)
    ensures IsInt64(r)
    ensures IsInt64(a - b) ==> r == a - b
    ensures a - b > MaxInt64 ==> r == a - b - 0x1_0000_0000_0000_0000
    ensures a - b < MinInt64 ==> r == a - b + 0x1_0000_0000_0000_0000
  {
    WrapInt64(a - b)
  }

  /** Incrementing and then taking the difference gives one, even across the wrap. */
  lemma LongIncrementDifference(x: int)
    requires IsInt64(x)
    ensures LongDifference(LongIncrement(x), x) == 1
  {
  }

  /** On values of `int` size the `long` difference is exact, where the `int` one may wrap. */
  lemma LongDifferenceOfInts(a: int, b: int)
    requires IsInt32(a) && IsInt32(b)
    ensures LongDifference(a, b) == a - b
    ensures IntDifference(a, b) == a - b <==> IsInt32(a - b)
  {
  }

  // ---------------------------------------------------------------- string dimension

  /** `DimensionTypeString.toInternalRepresentation`: the string itself. */
  function StringToInternal(s: string): (r: string)
    ensures r == s
  {
    s
  }

  /**
   * `String.compareTo`: the difference of the first differing characters,
   * or the difference of the lengths when one string is a prefix of the other.
   */
  function CompareStrings(a: string, b: string): (r: int)
    decreases |a|
  {
    if a == [] || b == [] then |a| - |b|
    else if a[0] != b[0] then a[0] as int - b[0] as int
    else CompareStrings(a[1..], b[1..])
  }

  /** A string compares equal exactly to itself. */
  lemma {:induction false} CompareStringsZero(a: string, b: string)
    ensures CompareStrings(a, b) == 0 <==> a == b
    decreases |a|
  {
    if a != [] && b != [] && a[0] == b[0] {
      CompareStringsZero(a[1..], b[1..]);
      if a[1..] == b[1..] {
        assert a == [a[0]] + a[1..] && b == [b[0]] + b[1..];
      }
    }
  }

  /** Swapping the arguments flips the sign of the string compare. */
  lemma {:induction false} CompareStringsAntisymmetric(a: string, b: string)
    ensures CompareStrings(a, b) == -CompareStrings(b, a)
    decreases |a|
  {
    if a != [] && b != [] && a[0] == b[0] {
      CompareStringsAntisymmetric(a[1..], b[1..]);
    }
  }

  /** A proper prefix sorts first. */
  lemma {:induction false} PrefixSortsFirst(a: string, b: string)
    requires |a| < |b| && a == b[..|a|]
    ensures CompareStrings(a, b) < 0
    decreases |a|
  {
    if a != [] {
      assert a[1..] == b[1..][..|a| - 1];
      PrefixSortsFirst(a[1..], b[1..]);
    }
  }

  /** The string order is transitive. */
  lemma {:induction false} CompareStringsTransitive(a: string, b: string, c: string)
    requires CompareStrings(a, b) < 0 && CompareStrings(b, c) < 0
    ensures CompareStrings(a, c) < 0
    decreases |a|
  {
    if a != [] && b != [] && c != [] && a[0] == b[0] && b[0] == c[0] {
      CompareStringsTransitive(a[1..], b[1..], c[1..]);
    }
  }
}
