/**
 * Calendar dates as Python's `datetime.date` sees them: the proleptic
 * Gregorian calendar over years 1..9999, day numbers counted from
 * 0001-01-01 (`toordinal`), the `YYYY-MM-DD` text the reminder table
 * stores, and the three `strptime` date grammars of the assignment page.
 */
module Dates {
  import opened Options
  import opened Text

  datatype Date = Date(year: int, month: int, day: int)

  predicate IsLeap(y: int)
  {
    y % 4 == 0 && (y % 100 != 0 || y % 400 == 0)
  }

  function DaysInMonth(y: int, m: int): int
    requires 1 <= m <= 12
  {
    if m == 2 then (if IsLeap(y) then 29 else 28)
    else if m == 4 || m == 6 || m == 9 || m == 11 then 30
    else 31
  }

  function DaysInYear(y: int): int
  {
    if IsLeap(y) then 366 else 365
  }

  /** What `datetime.date(year, month, day)` accepts; anything else raises ValueError. */
  predicate Valid(d: Date)
  {
    1 <= d.year <= 9999 && 1 <= d.month <= 12 && 1 <= d.day <= DaysInMonth(d.year, d.month)
  }

  /** Days in the years before `y`. */
  function DaysBeforeYear(y: int): int
    requires y >= 1
  {
    var p := y - 1;
    p * 365 + p / 4 - p / 100 + p / 400
  }

  /** Days in the months of year `y` before month `m` (`m == 13` gives the whole year). */
  function DaysBeforeMonth(y: int, m: int): int
    requires 1 <= m <= 13
  {
    var common :=
      if m == 1 then 0 else if m == 2 then 31 else if m == 3 then 59 else if m == 4 then 90
      else if m == 5 then 120 else if m == 6 then 151 else if m == 7 then 181 else if m == 8 then 212
      else if m == 9 then 243 else if m == 10 then 273 else if m == 11 then 304 else if m == 12 then 334
      else 365;
    if m > 2 && IsLeap(y) then common + 1 else common
  }

  /** `date.toordinal()`: 0001-01-01 is day 1. */
  function ToOrdinal(d: Date): (r: int)
    requires Valid(d)
    ensures 1 <= r
  {
    DaysBeforeYear(d.year) + DaysBeforeMonth(d.year, d.month) + d.day
  }

  /** The day number of 9999-12-31, the last date Python can represent. */
  const MaxOrdinal: int := 3652059

  lemma YearStep(y: int)
    requires y >= 1
    ensures DaysBeforeYear(y + 1) == DaysBeforeYear(y) + DaysInYear(y)
  {
    var p := y - 1;
    assert y / 4 == p / 4 + (if y % 4 == 0 then 1 else 0);
    assert y / 100 == p / 100 + (if y % 100 == 0 then 1 else 0);
    assert y / 400 == p / 400 + (if y % 400 == 0 then 1 else 0);
  }

  lemma MonthStep(y: int, m: int)
    requires 1 <= m <= 12
    ensures DaysBeforeMonth(y, m + 1) == DaysBeforeMonth(y, m) + DaysInMonth(y, m)
  {
  }

  lemma YearMonotone(y1: int, y2: int)
    requires 1 <= y1 < y2
    ensures DaysBeforeYear(y1) + DaysInYear(y1) <= DaysBeforeYear(y2)
  {
    YearStep(y1);
  }

  /** The year holding day number `n`, searched upward from year `y`. */
  function FindYear(n: int, y: int): (r: int)
    requires y >= 1 && DaysBeforeYear(y) < n
    ensures r >= y && DaysBeforeYear(r) < n <= DaysBeforeYear(r) + DaysInYear(r)
    decreases n - DaysBeforeYear(y)
  {
    YearStep(y);
    if n <= DaysBeforeYear(y) + DaysInYear(y) then y else FindYear(n, y + 1)
  }

  /** The month of year `y` holding day `k` of the year, searched upward from month `m`. */
  function FindMonth(y: int, k: int, m: int): (r: int)
    requires 1 <= m <= 12 && DaysBeforeMonth(y, m) < k <= DaysInYear(y)
    ensures m <= r <= 12 && DaysBeforeMonth(y, r) < k <= DaysBeforeMonth(y, r) + DaysInMonth(y, r)
    decreases 12 - m
  {
    MonthStep(y, m);
    if k <= DaysBeforeMonth(y, m) + DaysInMonth(y, m) then m else FindMonth(y, k, m + 1)
  }

  /** `date.fromordinal(n)`: the date whose day number is `n`. */
  function FromOrdinal(n: int): (d: Date)
    requires 1 <= n <= MaxOrdinal
    ensures Valid(d) && ToOrdinal(d) == n
  {
    var y := FindYear(n, 1);
    if y >= 10000 then YearMonotone(9999, y); Date(9999, 12, 31)
    else
      var k := n - DaysBeforeYear(y);
      var m := FindMonth(y, k, 1);
      Date(y, m, k - DaysBeforeMonth(y, m))
  }

  /** Python compares dates field by field: year, then month, then day. */
  predicate Before(a: Date, b: Date)
  {
    a.year < b.year
    || (a.year == b.year && a.month < b.month)
    || (a.year == b.year && a.month == b.month && a.day < b.day)
  }

  /** Day numbers follow calendar order. */
  lemma {:induction false} OrdinalOrder(a: Date, b: Date)
    requires Valid(a) && Valid(b)
    ensures Before(a, b) <==> ToOrdinal(a) < ToOrdinal(b)
    ensures a == b <==> ToOrdinal(a) == ToOrdinal(b)
  {
    if a.year < b.year {
      OrdinalLessByYear(a, b);
    } else if b.year < a.year {
      OrdinalLessByYear(b, a);
    } else if a.month < b.month {
      OrdinalLessByMonth(a, b);
    } else if b.month < a.month {
      OrdinalLessByMonth(b, a);
    }
  }

  lemma OrdinalLessByYear(a: Date, b: Date)
    requires Valid(a) && Valid(b) && a.year < b.year
    ensures ToOrdinal(a) < ToOrdinal(b)
  {
    MonthStep(a.year, a.month);
    MonthsWithinYear(a.year, a.month + 1);
    YearMonotone(a.year, b.year);
  }

  lemma OrdinalLessByMonth(a: Date, b: Date)
    requires Valid(a) && Valid(b) && a.year == b.year && a.month < b.month
    ensures ToOrdinal(a) < ToOrdinal(b)
  {
    MonthStep(a.year, a.month);
    MonthsIncrease(a.year, a.month + 1, b.month);
  }

  lemma MonthsWithinYear(y: int, m: int)
    requires 1 <= m <= 13
    ensures DaysBeforeMonth(y, m) <= DaysInYear(y)
  {
  }

  lemma MonthsIncrease(y: int, m1: int, m2: int)
    requires 1 <= m1 <= m2 <= 13
    ensures DaysBeforeMonth(y, m1) <= DaysBeforeMonth(y, m2)
  {
  }

  /** Counting days and converting back gives the same date. */
  lemma OrdinalRoundTrip(d: Date)
    requires Valid(d)
    ensures 1 <= ToOrdinal(d) <= MaxOrdinal
    ensures FromOrdinal(ToOrdinal(d)) == d
  {
    var last := Date(9999, 12, 31);
    OrdinalOrder(d, last);
    OrdinalOrder(d, FromOrdinal(ToOrdinal(d)));
  }

  /**
   * `d - timedelta(days=n)`: the date `n` days earlier (later when `n` is
   * negative), or None where Python raises OverflowError because the result
   * falls outside 0001-01-01..9999-12-31.
   */
  function MinusDays(d: Date, n: int): (r: Option<Date>)
    requires Valid(d)
    ensures r.None? <==> !(1 <= ToOrdinal(d) - n <= MaxOrdinal)
    ensures r.Some? ==> Valid(r.value) && ToOrdinal(r.value) == ToOrdinal(d) - n
  {
    var k := ToOrdinal(d) - n;
    if 1 <= k <= MaxOrdinal then Some(FromOrdinal(k)) else None
  }

  /** A non-negative lead never moves a date later: reminderDate <= dueDate. */
  lemma MinusDaysNotLater(d: Date, n: int)
    requires Valid(d) && n >= 0 && MinusDays(d, n).Some?
    ensures !Before(d, MinusDays(d, n).value)
  {
    OrdinalOrder(d, MinusDays(d, n).value);
  }

  /** `datetime.now()`: a date and the microseconds elapsed since its midnight. */
  datatype Moment = Moment(date: Date, micros: nat)

  /**
   * `datetime(d) > now` for the midnight of `d`: Python compares the date
   * fields first and the time of day last, and midnight is the earliest time,
   * so a midnight lies in the future exactly when its date is later than today.
   */
  predicate MidnightAfter(d: Date, now: Moment)
    ensures MidnightAfter(d, now) <==> Before(now.date, d)
  {
    Before(now.date, d) || (now.date == d && 0 > now.micros)
  }

  // ---------------------------------------------------------------------------
  // Decimal digits

  function Pow10(w: nat): (r: nat)
    ensures r >= 1
  {
    if w == 0 then 1 else 10 * Pow10(w - 1)
  }

  predicate AllDigits(s: string)
  {
    forall k :: 0 <= k < |s| ==> IsDigit(s[k])
  }

  /** The number a string of ASCII digits denotes (`int(s)`). */
  function DigitsValue(s: string): (v: nat)
    requires AllDigits(s)
    ensures v < Pow10(|s|)
  {
    if |s| == 0 then 0 else DigitsValue(s[..|s| - 1]) * 10 + (s[|s| - 1] as int - '0' as int)
  }

  /** `n` written with exactly `w` digits, zero-padded on the left (`%0wd` for `n < 10^w`). */
  function Padded(n: nat, w: nat): (s: string)
    ensures |s| == w && AllDigits(s)
  {
    if w == 0 then "" else Padded(n / 10, w - 1) + [('0' as int + n % 10) as char]
  }

  /** Reading a zero-padded number back gives the number. */
  lemma {:induction false} PaddedValue(n: nat, w: nat)
    requires n < Pow10(w)
    ensures DigitsValue(Padded(n, w)) == n
  {
    if w > 0 {
      PaddedValue(n / 10, w - 1);
      var s := Padded(n, w);
      assert s[..|s| - 1] == Padded(n / 10, w - 1);
    }
  }

  /** Writing a digit string's value back with its own width gives the string. */
  lemma {:induction false} ValuePadded(s: string)
    requires AllDigits(s)
    ensures Padded(DigitsValue(s), |s|) == s
  {
    if |s| > 0 {
      var init := s[..|s| - 1];
      ValuePadded(init);
      var v := DigitsValue(s);
      assert v / 10 == DigitsValue(init);
      assert s == init + [s[|s| - 1]];
    }
  }

  // ---------------------------------------------------------------------------
  // The stored text form and the three strptime grammars

  /** `d.strftime('%Y-%m-%d')`. */
  function Format(d: Date): (s: string)
    requires Valid(d)
    ensures |s| == 10 && s[4] == '-' && s[7] == '-'
  {
    Padded(d.year, 4) + "-" + Padded(d.month, 2) + "-" + Padded(d.day, 2)
  }

  /** The date `(y, m, d)` if it exists, else None (the ValueError of strptime). */
  function MakeDate(y: int, m: int, d: int): (r: Option<Date>)
    ensures r.Some? <==> Valid(Date(y, m, d))
    ensures r.Some? ==> r.value == Date(y, m, d)
  {
    if Valid(Date(y, m, d)) then Some(Date(y, m, d)) else None
  }

  /** The shape `\d{4}-\d{2}-\d{2}`. */
  predicate IsoShaped(s: string)
  {
    |s| == 10 && AllDigits(s[..4]) && s[4] == '-' && AllDigits(s[5..7]) && s[7] == '-' && AllDigits(s[8..])
  }

  /**
   * `strptime(s, '%Y-%m-%d')` on ISO-shaped text: the year must be at least 1,
   * `%m` accepts 01..12 and `%d` 01..31, and the day must exist in that month.
   */
  function ParseIso(s: string): (r: Option<Date>)
    ensures r.Some? <==> IsoShaped(s) && Valid(Date(DigitsValue(s[..4]), DigitsValue(s[5..7]), DigitsValue(s[8..])))
  {
    if !IsoShaped(s) then None
    else MakeDate(DigitsValue(s[..4]), DigitsValue(s[5..7]), DigitsValue(s[8..]))
  }

  /** The stored text of a date reads back as that date. */
  lemma FormatThenParse(d: Date)
    requires Valid(d)
    ensures ParseIso(Format(d)) == Some(d)
  {
    var s := Format(d);
    assert s[..4] == Padded(d.year, 4);
    assert s[5..7] == Padded(d.month, 2);
    assert s[8..] == Padded(d.day, 2);
    PaddedValue(d.year, 4);
    PaddedValue(d.month, 2);
    PaddedValue(d.day, 2);
  }

  /** ISO text that parses is already in the stored form: formatting the date gives the text back. */
  lemma ParseThenFormat(s: string)
    requires ParseIso(s).Some?
    ensures Format(ParseIso(s).value) == s
  {
    assert IsoShaped(s);
    ValuePadded(s[..4]);
    ValuePadded(s[5..7]);
    ValuePadded(s[8..]);
    assert s == s[..4] + "-" + s[5..7] + "-" + s[8..];
  }

  /** Distinct dates are stored as distinct text. */
  lemma FormatInjective(a: Date, b: Date)
    requires Valid(a) && Valid(b) && Format(a) == Format(b)
    ensures a == b
  {
    FormatThenParse(a);
    FormatThenParse(b);
  }

  /** ASCII lower case, as `re.IGNORECASE` folds the month name. */
  function Lower(c: char): char
  {
    if 'A' <= c <= 'Z' then (c as int + 32) as char else c
  }

  const MonthAbbrevs: seq<string> :=
    ["jan", "feb", "mar", "apr", "may", "jun", "jul", "aug", "sep", "oct", "nov", "dec"]

  /** `%b` in the C locale: Jan..Dec, any letter case. */
  function MonthOfAbbrev(s: string): (r: Option<int>)
    ensures r.Some? <==> |s| == 3 && exists m :: 0 <= m < 12 && [Lower(s[0]), Lower(s[1]), Lower(s[2])] == MonthAbbrevs[m]
    ensures r.Some? ==> 1 <= r.value <= 12 && |s| == 3
    ensures r.Some? ==> forall k :: 0 <= k < 3 ==> Lower(s[k]) == MonthAbbrevs[r.value - 1][k]
  {
    if |s| != 3 then None else MonthFrom(s, 0)
  }

  function MonthFrom(s: string, i: nat): (r: Option<int>)
    requires |s| == 3 && i <= 12
    ensures r.Some? ==> i < r.value <= 12
    ensures r.Some? ==> forall k :: 0 <= k < 3 ==> Lower(s[k]) == MonthAbbrevs[r.value - 1][k]
    ensures r.None? ==> forall m :: i <= m < 12 ==> [Lower(s[0]), Lower(s[1]), Lower(s[2])] != MonthAbbrevs[m]
    decreases 12 - i
  {
    if i == 12 then None
    else if [Lower(s[0]), Lower(s[1]), Lower(s[2])] == MonthAbbrevs[i] then Some(i + 1)
    else MonthFrom(s, i + 1)
  }

  /**
   * `strptime(group, '%d %b %Y')` on the date group of an inline entry, given
   * its day digits, month letters and year digits.
   */
  function DayMonYearDate(day: string, mon: string, year: string): (r: Option<Date>)
    requires AllDigits(day) && AllDigits(year)
    ensures r.Some? ==> Valid(r.value) && r.value.day == DigitsValue(day) && r.value.year == DigitsValue(year)
    ensures r.Some? <==> MonthOfAbbrev(mon).Some? && Valid(Date(DigitsValue(year), MonthOfAbbrev(mon).value, DigitsValue(day)))
    ensures r.Some? ==> MonthOfAbbrev(mon).Some? && MonthOfAbbrev(mon).value == r.value.month
  {
    match MonthOfAbbrev(mon)
    case None => None
    case Some(m) => MakeDate(DigitsValue(year), m, DigitsValue(day))
  }

  /** `25 Feb 2025` reads as 2025-02-25, and the month name may be written in any case. */
  lemma DayMonYearExample()
    ensures DayMonYearDate("25", "Feb", "2025").Some? && DayMonYearDate("25", "Feb", "2025").value == Date(2025, 2, 25)
    ensures DayMonYearDate("25", "FEB", "2025") == DayMonYearDate("25", "Feb", "2025")
    ensures DayMonYearDate("30", "Feb", "2025").None?
  {
    assert [Lower('F'), Lower('e'), Lower('b')] == MonthAbbrevs[1];
    assert [Lower('F'), Lower('E'), Lower('B')] == MonthAbbrevs[1];
    assert DigitsValue("2") == 2 && DigitsValue("20") == 20 && DigitsValue("202") == 202;
    assert DigitsValue("2025") == 2025 by { assert "2025"[..3] == "202"; assert "202"[..2] == "20"; assert "20"[..1] == "2"; }
    assert DigitsValue("25") == 25 by { assert "25"[..1] == "2"; }
    assert DigitsValue("30") == 30 by { assert "30"[..1] == "3"; }
  }

  /** `strptime(group, '%d/%m/%Y')` on the day, month and year digits of a legacy due line. */
  function DmyDate(day: string, month: string, year: string): (r: Option<Date>)
    requires AllDigits(day) && AllDigits(month) && AllDigits(year)
    ensures r.Some? <==> Valid(Date(DigitsValue(year), DigitsValue(month), DigitsValue(day)))
    ensures r.Some? ==> r.value == Date(DigitsValue(year), DigitsValue(month), DigitsValue(day))
  {
    MakeDate(DigitsValue(year), DigitsValue(month), DigitsValue(day))
  }
}
