/**
 * Decimal text and 64-bit integers as Go's `strconv`, `fmt` and `time`
 * packages handle them (64-bit platform).
 */
module Numbers {

  const MaxInt64: int := 0x7fff_ffff_ffff_ffff
  const MinInt64: int := -0x8000_0000_0000_0000
  const MaxUint64: int := 0xffff_ffff_ffff_ffff

  predicate InInt64(n: int)
  {
    MinInt64 <= n <= MaxInt64
  }

  /** Two's-complement wrap-around of Go's `int` arithmetic. */
  function Wrap64(x: int): (r: int)
    ensures InInt64(r)
    ensures (x - r) % 0x1_0000_0000_0000_0000 == 0
    ensures InInt64(x) ==> r == x
  {
    (x - MinInt64) % 0x1_0000_0000_0000_0000 + MinInt64
  }

  predicate IsDigit(c: char)
  {
    '0' <= c <= '9'
  }

  function DigitValue(c: char): nat
    requires IsDigit(c)
  {
    c as int - '0' as int
  }

  function DigitChar(d: nat): (c: char)
    requires d < 10
    ensures IsDigit(c) && DigitValue(c) == d
  {
    ('0' as int + d) as char
  }

  predicate AllDigits(s: string)
  {
    forall i | 0 <= i < |s| :: IsDigit(s[i])
  }

  /** The value of a digit string, most significant digit first. */
  function DigitsValue(s: string): nat
    requires AllDigits(s)
    decreases |s|
  {
    if |s| == 0 then 0 else 10 * DigitsValue(s[..|s| - 1]) + DigitValue(s[|s| - 1])
  }

  function Pow10(k: nat): nat
  {
    if k == 0 then 1 else 10 * Pow10(k - 1)
  }

  lemma {:induction false} Pow10Monotone(k: nat, m: nat)
    requires k <= m
    ensures Pow10(k) <= Pow10(m)
    decreases m
  {
    if k < m {
      Pow10Monotone(k, m - 1);
    }
  }

  lemma Pow10Eighteen()
    ensures Pow10(18) == 1_000_000_000_000_000_000
  {
    assert Pow10(3) == 1000;
    assert Pow10(6) == 1000 * Pow10(3);
    assert Pow10(9) == 1000 * Pow10(6);
    assert Pow10(12) == 1000 * Pow10(9);
    assert Pow10(15) == 1000 * Pow10(12);
    assert Pow10(18) == 1000 * Pow10(15);
  }

  /** A string of `k` digits is worth less than 10^k. */
  lemma {:induction false} DigitsValueBound(s: string)
    requires AllDigits(s)
    ensures DigitsValue(s) < Pow10(|s|)
    decreases |s|
  {
    if |s| > 0 {
      DigitsValueBound(s[..|s| - 1]);
    }
  }

  /** A prefix of a digit string is worth no more than the whole. */
  lemma {:induction false} PrefixValue(s: string, j: nat)
    requires AllDigits(s) && j <= |s|
    ensures DigitsValue(s[..j]) <= DigitsValue(s)
    decreases |s|
  {
    if j < |s| {
      var init := s[..|s| - 1];
      PrefixValue(init, j);
      assert DigitsValue(s) == 10 * DigitsValue(init) + DigitValue(s[|s| - 1]);
      assert init[..j] == s[..j];
    } else {
      assert s[..j] == s;
    }
  }

  /** The decimal digits of `n`, without leading zeros ("0" for zero). */
  function Digits(n: nat): (s: string)
    ensures |s| >= 1 && AllDigits(s) && DigitsValue(s) == n
    ensures s[0] != '0' || n == 0
  {
    if n < 10 then [DigitChar(n)]
    else
      var s := Digits(n / 10) + [DigitChar(n % 10)];
      assert s[..|s| - 1] == Digits(n / 10);
      s
  }

  /** `strconv.Itoa`, and `fmt`'s `%d` verb. */
  function Itoa(n: int): string
  {
    if n < 0 then "-" + Digits(-n) else Digits(n)
  }

  /**
   * `appendInt(b, x, width)` of package `time`: a minus sign for a negative
   * `x`, then the digits of |x| left-padded with zeros to `width` digits.
   */
  function PadInt(x: int, width: nat): string
  {
    var d := Digits(if x < 0 then -x else x);
    (if x < 0 then "-" else "") + seq(if |d| < width then width - |d| else 0, _ => '0') + d
  }

  /** Padding a non-negative number that has no more than `width` digits only prepends zeros. */
  lemma PadNonNegative(x: int, width: nat)
    requires x >= 0 && |Digits(x)| <= width
    ensures PadInt(x, width) == seq(width - |Digits(x)|, _ => '0') + Digits(x)
  {
  }

  /** Padding to two places writes tens and units for 0..99. */
  lemma PadTwo(x: int)
    requires 0 <= x <= 99
    ensures PadInt(x, 2) == [DigitChar(x / 10), DigitChar(x % 10)]
  {
    if x >= 10 {
      assert Digits(x) == Digits(x / 10) + [DigitChar(x % 10)];
    }
    PadNonNegative(x, 2);
  }

  lemma DigitsOfThree(x: int)
    requires 100 <= x <= 999
    ensures Digits(x) == [DigitChar(x / 100), DigitChar(x / 10 % 10), DigitChar(x % 10)]
  {
    var q := x / 10;
    assert q / 10 == x / 100;
    assert Digits(q) == [DigitChar(q / 10), DigitChar(q % 10)];
  }

  lemma DigitsOfFour(x: int)
    requires 1000 <= x <= 9999
    ensures Digits(x) == [DigitChar(x / 1000), DigitChar(x / 100 % 10), DigitChar(x / 10 % 10), DigitChar(x % 10)]
  {
    var q := x / 10;
    assert q / 10 == x / 100 && q / 100 == x / 1000 && q / 10 % 10 == x / 100 % 10;
    DigitsOfThree(q);
  }

  /** Padding to four places writes thousands, hundreds, tens and units for 0..9999. */
  lemma PadFour(x: int)
    requires 0 <= x <= 9999
    ensures PadInt(x, 4) == [DigitChar(x / 1000), DigitChar(x / 100 % 10), DigitChar(x / 10 % 10), DigitChar(x % 10)]
  {
    if x >= 1000 {
      DigitsOfFour(x);
      PadNonNegative(x, 4);
    } else if x >= 100 {
      PadFourThree(x);
    } else {
      PadFourTwo(x);
    }
  }

  lemma PadFourThree(x: int)
    requires 100 <= x <= 999
    ensures PadInt(x, 4) == [DigitChar(x / 1000), DigitChar(x / 100 % 10), DigitChar(x / 10 % 10), DigitChar(x % 10)]
  {
    DigitsOfThree(x);
    PadNonNegative(x, 4);
    assert x / 1000 == 0 && x / 100 % 10 == x / 100;
    assert seq(1, _ => '0') == [DigitChar(0)];
  }

  lemma PadFourTwo(x: int)
    requires 0 <= x <= 99
    ensures PadInt(x, 4) == [DigitChar(x / 1000), DigitChar(x / 100 % 10), DigitChar(x / 10 % 10), DigitChar(x % 10)]
  {
    PadTwo(x);
    PadNonNegative(x, 2);
    PadNonNegative(x, 4);
    assert x / 1000 == 0 && x / 100 % 10 == 0 && x / 10 % 10 == x / 10;
    var z := seq(4 - |Digits(x)|, _ => '0');
    assert z == seq(2, _ => '0') + seq(2 - |Digits(x)|, _ => '0');
    assert seq(2, _ => '0') == [DigitChar(0), DigitChar(0)];
  }

  /** What `strconv.Atoi` returns: the int (meaningful even on error) and whether the error was nil. */
  datatype Parsed = Parsed(value: int, ok: bool)

  /** The text after an optional leading sign. */
  function Unsigned(s: string): string
  {
    if |s| > 0 && (s[0] == '+' || s[0] == '-') then s[1..] else s
  }

  /** An optional sign followed by at least one decimal digit. */
  predicate IsDecimal(s: string)
  {
    |Unsigned(s)| >= 1 && AllDigits(Unsigned(s))
  }

  function DecimalValue(s: string): int
    requires IsDecimal(s)
  {
    var v: int := DigitsValue(Unsigned(s));
    if s[0] == '-' then -v else v
  }

  /** Outcome of `strconv.ParseUint(s, 10, 64)`. */
  datatype Scan = Syntax | Overflow | Value(n: nat)

  /**
   * The digit loop of `ParseUint`, from index `i` with `acc` read so far:
   * it stops at the first non-digit, or at the first digit that takes the
   * value past MaxUint64, whichever comes first.
   */
  function ScanUint(s: string, i: nat, acc: nat): Scan
    requires i <= |s|
    decreases |s| - i
  {
    if i == |s| then Value(acc)
    else if !IsDigit(s[i]) then Syntax
    else if 10 * acc + DigitValue(s[i]) > MaxUint64 then Overflow
    else ScanUint(s, i + 1, 10 * acc + DigitValue(s[i]))
  }

  /** The digit loop yields a value exactly for all-digit text within uint64. */
  lemma {:induction false} ScanUintValue(s: string, i: nat)
    requires i <= |s| && AllDigits(s[..i]) && DigitsValue(s[..i]) <= MaxUint64
    ensures ScanUint(s, i, DigitsValue(s[..i])).Value?
            <==> AllDigits(s) && DigitsValue(s) <= MaxUint64
    ensures ScanUint(s, i, DigitsValue(s[..i])).Value? ==> ScanUint(s, i, DigitsValue(s[..i])).n == DigitsValue(s)
    decreases |s| - i
  {
    if i == |s| {
      assert s[..i] == s;
    } else if IsDigit(s[i]) {
      var next := s[..i + 1];
      assert next[..i] == s[..i];
      assert DigitsValue(next) == 10 * DigitsValue(s[..i]) + DigitValue(s[i]);
      if DigitsValue(next) > MaxUint64 {
        if AllDigits(s) {
          PrefixValue(s, i + 1);
        }
      } else {
        ScanUintValue(s, i + 1);
      }
    }
  }

  /**
   * `strconv.ParseInt(s, 10, 64)`: on a syntax error the value is 0, on a
   * range error it is clamped to the nearer int64 bound.
   */
  function ParseInt(s: string): Parsed
  {
    if |s| == 0 then Parsed(0, false)
    else
      var neg := s[0] == '-';
      var body := Unsigned(s);
      match (if |body| == 0 then Syntax else ScanUint(body, 0, 0))
      case Syntax => Parsed(0, false)
      case Overflow => Parsed(if neg then MinInt64 else MaxInt64, false)
      case Value(u) =>
        if !neg && u > MaxInt64 then Parsed(MaxInt64, false)
        else if neg && u > -MinInt64 then Parsed(MinInt64, false)
        else Parsed(if neg then -(u as int) else u, true)
  }

  /** ParseInt succeeds exactly on an optionally signed numeral within int64. */
  lemma ParseIntValue(s: string)
    ensures ParseInt(s).ok <==> IsDecimal(s) && InInt64(DecimalValue(s))
    ensures ParseInt(s).ok ==> ParseInt(s).value == DecimalValue(s)
  {
    var body := Unsigned(s);
    if |s| > 0 && |body| > 0 {
      assert body[..0] == [];
      ScanUintValue(body, 0);
    }
  }

  /**
   * `strconv.Atoi` on a 64-bit platform: strings of 1 to 18 bytes take the
   * fast path (0 on any error), all others go through `ParseInt`. It succeeds
   * exactly on an optionally signed decimal numeral within int64, and then
   * returns that numeral's value.
   */
  function Atoi(s: string): (p: Parsed)
    ensures p.ok <==> IsDecimal(s) && InInt64(DecimalValue(s))
    ensures p.ok ==> p.value == DecimalValue(s)
  {
    if 0 < |s| < 19 then
      var body := Unsigned(s);
      if |body| == 0 || !AllDigits(body) then Parsed(0, false)
      else
        DigitsValueBound(body);
        Pow10Monotone(|body|, 18);
        Pow10Eighteen();
        var v: int := DigitsValue(body);
        Parsed(if s[0] == '-' then -v else v, true)
    else
      ParseIntValue(s);
      ParseInt(s)
  }

  /** Atoi reads back what Itoa writes, for every int64. */
  lemma AtoiOfItoa(n: int)
    requires InInt64(n)
    ensures Atoi(Itoa(n)) == Parsed(n, true)
  {
    var s := Itoa(n);
    if n < 0 {
      assert Unsigned(s) == Digits(-n);
    } else {
      assert Unsigned(s) == Digits(n);
    }
  }
}
