/**
 * Calendar dates as the service reads and writes them with Go's `time`
 * package: parsing under the layouts "2.1.2006" (lenient: one or two digit
 * day and month) and "02.01.2006" (strict: exactly two digits), and
 * formatting as "02.01.2006" for clients and "2006-01-02" for SQL.
 */
module Dates {
  import opened Wrappers
  import opened Numbers

  /** A calendar date. Go's zero `time.Time` is 1 January of year 1. */
  datatype Date = Date(year: int, month: int, day: int)

  const Zero: Date := Date(1, 1, 1)

  /** Go's `isLeap`: the proleptic Gregorian rule. */
  predicate IsLeap(year: int)
  {
    year % 4 == 0 && (year % 100 != 0 || year % 400 == 0)
  }

  /** Go's `daysIn`: the length of `month` in `year`. */
  function DaysIn(month: int, year: int): int
    requires 1 <= month <= 12
  {
    if month == 2 then (if IsLeap(year) then 29 else 28)
    else if month == 4 || month == 6 || month == 9 || month == 11 then 30
    else 31
  }

  /** The day exists in its month. */
  predicate Valid(d: Date)
  {
    1 <= d.month <= 12 && 1 <= d.day <= DaysIn(d.month, d.year)
  }

  /** The two day.month.year layouts the service parses with. */
  datatype Layout =
    | Lenient  // "2.1.2006"
    | Strict   // "02.01.2006"

  /** A number read from the front of a string and the text after it. */
  datatype Num = Num(value: nat, rest: string)

  /**
   * Go's `getnum`: one or two leading digits, greedily; with `fixed`,
   * exactly two.
   */
  function GetNum(s: string, fixed: bool): (r: Option<Num>)
    ensures r.Some? ==> r.value.value <= 99
  {
    if |s| == 0 || !IsDigit(s[0]) then None
    else if |s| == 1 || !IsDigit(s[1]) then
      if fixed then None else Some(Num(DigitValue(s[0]), s[1..]))
    else Some(Num(10 * DigitValue(s[0]) + DigitValue(s[1]), s[2..]))
  }

  /** Go's `skip` for the layout's literal ".". */
  function SkipDot(s: string): Option<string>
  {
    if |s| > 0 && s[0] == '.' then Some(s[1..]) else None
  }

  /**
   * `time.Parse(layout, s)` for the two layouts: day, ".", month (1..12),
   * ".", exactly four year digits, nothing after them, and a day that exists
   * in that month of that year. `None` is Go's non-nil error.
   */
  function ParseDate(layout: Layout, s: string): (r: Option<Date>)
    ensures r.Some? ==> Valid(r.value) && 0 <= r.value.year <= 9999
  {
    var fixed := layout == Strict;
    match GetNum(s, fixed)
    case None => None
    case Some(d) =>
      match SkipDot(d.rest)
      case None => None
      case Some(afterDay) =>
        match GetNum(afterDay, fixed)
        case None => None
        case Some(m) =>
          if m.value < 1 || 12 < m.value then None
          else
            match SkipDot(m.rest)
            case None => None
            case Some(y) =>
              if |y| < 4 || !AllDigits(y[..4]) then None
              else if |y| > 4 then None
              else
                var year := DigitsValue(y);
                if d.value < 1 || d.value > DaysIn(m.value, year) then None
                else
                  DigitsValueBound(y);
                  assert Pow10(4) == 10000;
                  Some(Date(year, m.value, d.value))
  }

  /** `t.Format("02.01.2006")`. */
  function Format(d: Date): string
  {
    PadInt(d.day, 2) + "." + PadInt(d.month, 2) + "." + PadInt(d.year, 4)
  }

  /** `t.Format("2006-01-02")`, the storage syntax. */
  function FormatIso(d: Date): string
  {
    PadInt(d.year, 4) + "-" + PadInt(d.month, 2) + "-" + PadInt(d.day, 2)
  }

  lemma DigitCharOfValue(c: char)
    requires IsDigit(c)
    ensures DigitChar(DigitValue(c)) == c
  {
  }

  lemma FourDigitsValue(y: string)
    requires |y| == 4 && AllDigits(y)
    ensures DigitsValue(y) == 1000 * DigitValue(y[0]) + 100 * DigitValue(y[1]) + 10 * DigitValue(y[2]) + DigitValue(y[3])
  {
    assert y[..3][..2] == y[..2];
    assert y[..2][..1] == y[..1];
    assert y[..1][..0] == [];
    assert DigitsValue(y[..1]) == DigitValue(y[0]);
    assert DigitsValue(y[..2]) == 10 * DigitValue(y[0]) + DigitValue(y[1]);
    assert DigitsValue(y[..3]) == 10 * DigitsValue(y[..2]) + DigitValue(y[2]);
    assert DigitsValue(y) == 10 * DigitsValue(y[..3]) + DigitValue(y[3]);
  }

  /** The "dd.mm.yyyy" shape: ten characters, dots at 2 and 5, digits elsewhere. */
  predicate Shaped(s: string)
  {
    && |s| == 10 && s[2] == '.' && s[5] == '.'
    && IsDigit(s[0]) && IsDigit(s[1]) && IsDigit(s[3]) && IsDigit(s[4])
    && AllDigits(s[6..])
  }

  /** The date a "dd.mm.yyyy"-shaped string spells, if it exists. */
  function ShapedDate(s: string): Option<Date>
    requires Shaped(s)
  {
    var day := 10 * DigitValue(s[0]) + DigitValue(s[1]);
    var month := 10 * DigitValue(s[3]) + DigitValue(s[4]);
    var year := DigitsValue(s[6..]);
    if 1 <= month <= 12 && 1 <= day <= DaysIn(month, year) then Some(Date(year, month, day)) else None
  }

  /** On a "dd.mm.yyyy"-shaped string both layouts read the same fields and apply the same range checks. */
  lemma ParseShaped(layout: Layout, s: string)
    requires Shaped(s)
    ensures ParseDate(layout, s) == ShapedDate(s)
  {
    var fixed := layout == Strict;
    assert GetNum(s, fixed) == Some(Num(10 * DigitValue(s[0]) + DigitValue(s[1]), s[2..]));
    assert SkipDot(s[2..]) == Some(s[3..]);
    assert GetNum(s[3..], fixed) == Some(Num(10 * DigitValue(s[4 - 1]) + DigitValue(s[4]), s[5..]));
    assert SkipDot(s[5..]) == Some(s[6..]);
    assert s[6..][..4] == s[6..];
  }

  /** Only "dd.mm.yyyy"-shaped strings pass the strict layout. */
  lemma StrictShape(s: string)
    requires ParseDate(Strict, s).Some?
    ensures Shaped(s)
  {
    var d := GetNum(s, true).value;
    assert d.rest == s[2..];
    var afterDay := SkipDot(d.rest).value;
    assert afterDay == s[3..];
    var m := GetNum(afterDay, true).value;
    assert m.rest == s[5..];
    var y := SkipDot(m.rest).value;
    assert y == s[6..];
    assert y[..4] == y;
  }

  /** The ten characters of a formatted date with a four-digit year. */
  lemma FormatChars(d: Date)
    requires Valid(d) && 0 <= d.year <= 9999
    ensures Format(d) == [DigitChar(d.day / 10), DigitChar(d.day % 10), '.',
                          DigitChar(d.month / 10), DigitChar(d.month % 10), '.',
                          DigitChar(d.year / 1000), DigitChar(d.year / 100 % 10),
                          DigitChar(d.year / 10 % 10), DigitChar(d.year % 10)]
  {
    PadTwo(d.day);
    PadTwo(d.month);
    PadFour(d.year);
  }

  lemma TwoDigits(x: int)
    requires 0 <= x <= 99
    ensures 10 * (x / 10) + x % 10 == x && x / 10 < 10
  {
  }


  lemma DigitPair(a: int, b: int)
    requires 0 <= a < 10 && 0 <= b < 10
    ensures (10 * a + b) / 10 == a && (10 * a + b) % 10 == b
  {
  }

  lemma DivMod10(x: int, q: int, r: int)
    requires x == 10 * q + r && 0 <= r < 10
    ensures x / 10 == q && x % 10 == r
  {
  }

  lemma DivMod100(x: int, q: int, r: int)
    requires x == 100 * q + r && 0 <= r < 100
    ensures x / 100 == q
  {
  }

  lemma DivMod1000(x: int, q: int, r: int)
    requires x == 1000 * q + r && 0 <= r < 1000
    ensures x / 1000 == q
  {
  }

  lemma DigitQuad(a: int, b: int, c: int, e: int)
    requires 0 <= a < 10 && 0 <= b < 10 && 0 <= c < 10 && 0 <= e < 10
    ensures var x := 1000 * a + 100 * b + 10 * c + e;
            x / 1000 == a && x / 100 % 10 == b && x / 10 % 10 == c && x % 10 == e
  {
    var x := 1000 * a + 100 * b + 10 * c + e;
    DivMod10(x, 100 * a + 10 * b + c, e);
    DivMod10(100 * a + 10 * b + c, 10 * a + b, c);
    DivMod100(x, 10 * a + b, 10 * c + e);
    DivMod10(10 * a + b, a, b);
    DivMod1000(x, a, 100 * b + 10 * c + e);
  }

  lemma FourDigits(x: int)
    requires 0 <= x <= 9999
    ensures 1000 * (x / 1000) + 100 * (x / 100 % 10) + 10 * (x / 10 % 10) + x % 10 == x && x / 1000 < 10
  {
    var r := x % 1000;
    var r2 := r % 100;
    var a, b, c, e := x / 1000, r / 100, r2 / 10, r2 % 10;
    assert x == 1000 * a + 100 * b + 10 * c + e;
    DigitQuad(a, b, c, e);
  }

  /** The last four characters of a formatted date are the digits of its year. */
  lemma FormattedYear(d: Date)
    requires Valid(d) && 0 <= d.year <= 9999
    ensures |Format(d)| == 10 && AllDigits(Format(d)[6..]) && DigitsValue(Format(d)[6..]) == d.year
  {
    FormatChars(d);
    FourDigits(d.year);
    var y := Format(d)[6..];
    assert y == [DigitChar(d.year / 1000), DigitChar(d.year / 100 % 10), DigitChar(d.year / 10 % 10), DigitChar(d.year % 10)];
    FourDigitsValue(y);
  }

  /** A formatted date with a four-digit year is shaped and spells that date. */
  lemma ShapeOfFormat(d: Date)
    requires Valid(d) && 0 <= d.year <= 9999
    ensures Shaped(Format(d)) && ShapedDate(Format(d)) == Some(d)
  {
    FormatChars(d);
    var s := Format(d);
    FormattedYear(d);
    TwoDigits(d.day);
    TwoDigits(d.month);
    assert 10 * DigitValue(s[0]) + DigitValue(s[1]) == d.day;
    assert 10 * DigitValue(s[3]) + DigitValue(s[4]) == d.month;
  }

  /**
   * Formatting as "02.01.2006" and parsing back, under either layout, gives
   * the date back, for every valid date with a four-digit year.
   */
  lemma ParseOfFormat(d: Date)
    requires Valid(d) && 0 <= d.year <= 9999
    ensures ParseDate(Strict, Format(d)) == Some(d)
    ensures ParseDate(Lenient, Format(d)) == Some(d)
  {
    ShapeOfFormat(d);
    ParseShaped(Strict, Format(d));
    ParseShaped(Lenient, Format(d));
  }

  /** The fields of a shaped date, digit by digit. */
  lemma ShapedFields(s: string, d: Date)
    requires Shaped(s) && ShapedDate(s) == Some(d)
    ensures Valid(d) && 0 <= d.year <= 9999
    ensures d.day / 10 == DigitValue(s[0]) && d.day % 10 == DigitValue(s[1])
    ensures d.month / 10 == DigitValue(s[3]) && d.month % 10 == DigitValue(s[4])
    ensures d.year / 1000 == DigitValue(s[6]) && d.year / 100 % 10 == DigitValue(s[7])
    ensures d.year / 10 % 10 == DigitValue(s[8]) && d.year % 10 == DigitValue(s[9])
  {
    var y := s[6..];
    assert y[0] == s[6] && y[1] == s[7] && y[2] == s[8] && y[3] == s[9];
    FourDigitsValue(y);
    DigitPair(DigitValue(s[0]), DigitValue(s[1]));
    DigitPair(DigitValue(s[3]), DigitValue(s[4]));
    DigitQuad(DigitValue(s[6]), DigitValue(s[7]), DigitValue(s[8]), DigitValue(s[9]));
  }

  /** A shaped string that spells a date is that date formatted. */
  lemma FormatOfShaped(s: string, d: Date)
    requires Shaped(s) && ShapedDate(s) == Some(d)
    ensures Format(d) == s
  {
    ShapedFields(s, d);
    FormatChars(d);
    DigitCharOfValue(s[0]);
    DigitCharOfValue(s[1]);
    DigitCharOfValue(s[3]);
    DigitCharOfValue(s[4]);
    DigitCharOfValue(s[6]);
    DigitCharOfValue(s[7]);
    DigitCharOfValue(s[8]);
    DigitCharOfValue(s[9]);
  }

  /**
   * A string the strict layout accepts is exactly the formatted date: the
   * strict syntax has one spelling per date.
   */
  lemma FormatOfStrictParse(s: string, d: Date)
    requires ParseDate(Strict, s) == Some(d)
    ensures Format(d) == s
  {
    StrictShape(s);
    ParseShaped(Strict, s);
    FormatOfShaped(s, d);
  }

  /** Whatever the strict layout accepts, the lenient one accepts as the same date. */
  lemma LenientAcceptsStrict(s: string, d: Date)
    requires ParseDate(Strict, s) == Some(d)
    ensures ParseDate(Lenient, s) == Some(d)
  {
    FormatOfStrictParse(s, d);
    ParseOfFormat(d);
  }

  /** A date "dd.mm.yyyy" is cut into its day, month and year pieces by position. */
  lemma Pieces(day: string, month: string, year: string)
    requires |day| == 2 && |month| == 2 && |year| == 4
    ensures var f := day + "." + month + "." + year;
            |f| == 10 && f[0..2] == day && f[3..5] == month && f[6..10] == year
  {
    var f := day + "." + month + "." + year;
    assert f[0..2] == day;
    assert f[3..5] == month;
    assert f[6..10] == year;
  }

  /**
   * The storage spelling of a date with a four-digit year is its client
   * spelling with the fields reordered: "dd.mm.yyyy" becomes "yyyy-mm-dd".
   */
  lemma IsoOfFormat(d: Date)
    requires Valid(d) && 0 <= d.year <= 9999
    ensures var f := Format(d);
            |f| == 10 && FormatIso(d) == f[6..10] + "-" + f[3..5] + "-" + f[0..2]
  {
    PadTwo(d.day);
    PadTwo(d.month);
    PadFour(d.year);
    Pieces(PadInt(d.day, 2), PadInt(d.month, 2), PadInt(d.year, 4));
  }

  /** The value of four digit characters. */
  lemma YearOf(y: string, a: nat, b: nat, c: nat, e: nat)
    requires a < 10 && b < 10 && c < 10 && e < 10
    requires y == [DigitChar(a), DigitChar(b), DigitChar(c), DigitChar(e)]
    ensures AllDigits(y) && DigitsValue(y) == 1000 * a + 100 * b + 10 * c + e
  {
    FourDigitsValue(y);
  }

  /** "1.2.2020" has a one-digit day and month: the lenient layout reads 1 February 2020, the strict one refuses it. */
  lemma OneDigitFields()
    ensures ParseDate(Lenient, "1.2.2020") == Some(Date(2020, 2, 1))
    ensures ParseDate(Strict, "1.2.2020") == None
  {
    var s := "1.2.2020";
    assert GetNum(s, false) == Some(Num(1, s[1..]));
    assert GetNum(s, true) == None;
    assert SkipDot(s[1..]) == Some(s[2..]);
    assert GetNum(s[2..], false) == Some(Num(2, s[3..]));
    assert SkipDot(s[3..]) == Some(s[4..]);
    assert s[4..][..4] == s[4..];
    YearOf(s[4..], 2, 0, 2, 0);
  }

  /** 29 February exists in the leap year 2024. */
  lemma LeapDay()
    ensures ParseDate(Strict, "29.02.2024") == Some(Date(2024, 2, 29))
  {
    var s := "29.02.2024";
    YearOf(s[6..], 2, 0, 2, 4);
    assert Shaped(s);
    assert ShapedDate(s) == Some(Date(2024, 2, 29));
    ParseShaped(Strict, s);
  }

  /** 29 February does not exist in 2023. */
  lemma CommonYearDay()
    ensures ParseDate(Strict, "29.02.2023") == None
  {
    var s := "29.02.2023";
    YearOf(s[6..], 2, 0, 2, 3);
    assert Shaped(s);
    assert !IsLeap(2023);
    ParseShaped(Strict, s);
  }
}
