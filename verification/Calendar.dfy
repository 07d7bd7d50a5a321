/**
 Dates as partition names carry them (postgresql/postgresql.go:2683-2696, 2912-2925): the proleptic Gregorian
 calendar of Go's time package, and its layout "2006_01_02" for writing and reading a day.

 Day 0 is 0001-01-01, the day of the zero time.
 */
module Calendar {
  import opened Common

  datatype Date = Date(year: int, month: int, day: int)

  predicate IsLeap(y: int) {
    y % 4 == 0 && (y % 100 != 0 || y % 400 == 0)
  }

  function DaysInMonth(y: int, m: int): int {
    if m == 2 then (if IsLeap(y) then 29 else 28)
    else if m in {4, 6, 9, 11} then 30
    else 31
  }

  predicate IsDate(d: Date) {
    1 <= d.month <= 12 && 1 <= d.day <= DaysInMonth(d.year, d.month)
  }

  function DaysBeforeYear(y: int): int {
    365 * (y - 1) + (y - 1) / 4 - (y - 1) / 100 + (y - 1) / 400
  }

  function DaysBeforeMonth(y: int, m: int): int {
    if m <= 1 then 0 else DaysBeforeMonth(y, m - 1) + DaysInMonth(y, m - 1)
  }

  function DayNumber(d: Date): int {
    DaysBeforeYear(d.year) + DaysBeforeMonth(d.year, d.month) + d.day - 1
  }

  lemma Fourths(y: int)
    ensures y / 4 == (y - 1) / 4 + if y % 4 == 0 then 1 else 0
  {
  }

  lemma Hundredths(y: int)
    ensures y / 100 == (y - 1) / 100 + if y % 100 == 0 then 1 else 0
    ensures y % 100 == 0 ==> y % 4 == 0
  {
    assert y == 100 * (y / 100) + y % 100;
  }

  lemma FourHundredths(y: int)
    ensures y / 400 == (y - 1) / 400 + if y % 400 == 0 then 1 else 0
    ensures y % 400 == 0 ==> y % 100 == 0
  {
    assert y == 400 * (y / 400) + y % 400;
  }

  lemma LeapsAdd(y: int, fourth: int, hundredth: int, fourHundredth: int)
    requires fourth == if y % 4 == 0 then 1 else 0
    requires hundredth == if y % 100 == 0 then 1 else 0
    requires fourHundredth == if y % 400 == 0 then 1 else 0
    ensures fourth - hundredth + fourHundredth == if IsLeap(y) then 1 else 0
  {
    Hundredths(y);
    FourHundredths(y);
  }

  lemma YearLength(y: int)
    ensures DaysBeforeYear(y + 1) == DaysBeforeYear(y) + if IsLeap(y) then 366 else 365
  {
    Fourths(y);
    Hundredths(y);
    FourHundredths(y);
    LeapsAdd(y, y / 4 - (y - 1) / 4, y / 100 - (y - 1) / 100, y / 400 - (y - 1) / 400);
  }

  lemma MonthsFillYear(y: int)
    ensures DaysBeforeMonth(y, 13) == if IsLeap(y) then 366 else 365
  {
    var leap := if IsLeap(y) then 1 else 0;
    assert DaysBeforeMonth(y, 2) == 31 && DaysBeforeMonth(y, 3) == 59 + leap;
    assert DaysBeforeMonth(y, 5) == 120 + leap;
    assert DaysBeforeMonth(y, 7) == 181 + leap;
    assert DaysBeforeMonth(y, 9) == 243 + leap;
    assert DaysBeforeMonth(y, 11) == 304 + leap;
  }

  // ---- From a day number to its date ----

  /** The first year from `y` on that day `n` does not come after. */
  function YearFrom(n: int, y: int): int
    requires DaysBeforeYear(y) <= n
    decreases n - DaysBeforeYear(y)
  {
    YearLength(y);
    if n < DaysBeforeYear(y + 1) then y else YearFrom(n, y + 1)
  }

  function YearOf(n: int): int {
    YearFrom(n, if n >= 0 then n / 366 + 1 else n / 365 - 1)
  }

  function MonthFrom(y: int, k: int, m: int): int
    decreases 12 - m
  {
    if m >= 12 || k < DaysBeforeMonth(y, m + 1) then m else MonthFrom(y, k, m + 1)
  }

  /** `Date()` of the day with a given number. */
  function DateOf(n: int): Date {
    var y := YearOf(n);
    var k := n - DaysBeforeYear(y);
    var m := MonthFrom(y, k, 1);
    Date(y, m, k - DaysBeforeMonth(y, m) + 1)
  }

  lemma {:induction false} YearFromHolds(n: int, y: int)
    requires DaysBeforeYear(y) <= n
    ensures DaysBeforeYear(YearFrom(n, y)) <= n < DaysBeforeYear(YearFrom(n, y) + 1)
    decreases n - DaysBeforeYear(y)
  {
    YearLength(y);
    if n >= DaysBeforeYear(y + 1) {
      YearFromHolds(n, y + 1);
    }
  }

  lemma {:induction false} MonthFromHolds(y: int, k: int, m: int)
    requires 1 <= m <= 12 && DaysBeforeMonth(y, m) <= k < DaysBeforeMonth(y, 13)
    ensures var r := MonthFrom(y, k, m); 1 <= r <= 12 && DaysBeforeMonth(y, r) <= k < DaysBeforeMonth(y, r + 1)
    decreases 12 - m
  {
    if m < 12 && k >= DaysBeforeMonth(y, m + 1) {
      MonthFromHolds(y, k, m + 1);
    }
  }

  /** Where the search for a year begins is never too late. */
  lemma GuessIsEarly(n: int)
    ensures DaysBeforeYear(if n >= 0 then n / 366 + 1 else n / 365 - 1) <= n
  {
    if n >= 0 {
      LeapDaysAreFew(n / 366);
    } else {
      assert 365 * (n / 365) <= n;
    }
  }

  lemma LeapDaysAreFew(years: nat)
    ensures DaysBeforeYear(years + 1) <= 366 * years
  {
  }

  lemma YearOfHolds(n: int)
    ensures DaysBeforeYear(YearOf(n)) <= n < DaysBeforeYear(YearOf(n) + 1)
  {
    GuessIsEarly(n);
    YearFromHolds(n, if n >= 0 then n / 366 + 1 else n / 365 - 1);
  }

  /** Every day has a date, and the date is that day's. */
  lemma DateOfIsInverse(n: int)
    ensures IsDate(DateOf(n)) && DayNumber(DateOf(n)) == n
  {
    var y := YearOf(n);
    YearOfHolds(n);
    YearLength(y);
    MonthsFillYear(y);
    MonthFromHolds(y, n - DaysBeforeYear(y), 1);
  }

  lemma {:induction false} YearsAscend(a: int, b: int)
    requires a <= b
    ensures DaysBeforeYear(a) <= DaysBeforeYear(b)
    decreases b - a
  {
    if a < b {
      YearsAscend(a, b - 1);
      YearLength(b - 1);
    }
  }

  lemma {:induction false} MonthsAscend(y: int, a: int, b: int)
    requires 1 <= a <= b
    ensures DaysBeforeMonth(y, a) <= DaysBeforeMonth(y, b)
  {
    if a < b {
      MonthsAscend(y, a, b - 1);
    }
  }

  lemma DayWithinYear(d: Date)
    requires IsDate(d)
    ensures DaysBeforeYear(d.year) <= DayNumber(d) < DaysBeforeYear(d.year + 1)
  {
    YearLength(d.year);
    MonthsFillYear(d.year);
    MonthsAscend(d.year, 1, d.month);
    MonthsAscend(d.year, d.month + 1, 13);
  }

  lemma EarlierYearIsBefore(a: Date, b: Date)
    requires IsDate(a) && IsDate(b) && a.year < b.year
    ensures DayNumber(a) < DayNumber(b)
  {
    DayWithinYear(a);
    DayWithinYear(b);
    YearsAscend(a.year + 1, b.year);
  }

  lemma EarlierMonthIsBefore(a: Date, b: Date)
    requires IsDate(a) && IsDate(b) && a.year == b.year && a.month < b.month
    ensures DayNumber(a) < DayNumber(b)
  {
    MonthsAscend(a.year, a.month + 1, b.month);
  }

  /** No two dates are the same day. */
  lemma DayNumberIsInjective(a: Date, b: Date)
    requires IsDate(a) && IsDate(b) && DayNumber(a) == DayNumber(b)
    ensures a == b
  {
    if a.year < b.year {
      EarlierYearIsBefore(a, b);
    } else if b.year < a.year {
      EarlierYearIsBefore(b, a);
    } else if a.month < b.month {
      EarlierMonthIsBefore(a, b);
    } else if b.month < a.month {
      EarlierMonthIsBefore(b, a);
    }
  }

  function Next(d: Date): Date {
    if d.day < DaysInMonth(d.year, d.month) then Date(d.year, d.month, d.day + 1)
    else if d.month < 12 then Date(d.year, d.month + 1, 1)
    else Date(d.year + 1, 1, 1)
  }

  lemma NextIsOneDayLater(d: Date)
    requires IsDate(d)
    ensures IsDate(Next(d)) && DayNumber(Next(d)) == DayNumber(d) + 1
  {
    YearLength(d.year);
    MonthsFillYear(d.year);
  }

  lemma MonthLengths(y: int, m: int)
    requires 1 <= m <= 12
    ensures DaysInMonth(y, m) ==
      if m in {4, 6, 9, 11} then 30
      else if m != 2 then 31
      else if y % 400 == 0 || (y % 4 == 0 && y % 100 != 0) then 29
      else 28
  {
    Hundredths(y);
    FourHundredths(y);
  }

  /** From 0001-01-01 on, each day is followed by the next of its month, or the first of the month after. */
  lemma TomorrowFollowsToday(n: int)
    ensures DayNumber(Date(1, 1, 1)) == 0
    ensures var d := DateOf(n);
      var length :=
        if d.month in {4, 6, 9, 11} then 30
        else if d.month != 2 then 31
        else if d.year % 400 == 0 || (d.year % 4 == 0 && d.year % 100 != 0) then 29
        else 28;
      DateOf(n + 1) ==
      if d.day < length then Date(d.year, d.month, d.day + 1)
      else if d.month < 12 then Date(d.year, d.month + 1, 1)
      else Date(d.year + 1, 1, 1)
  {
    var d := DateOf(n);
    DateOfIsInverse(n);
    DateOfIsInverse(n + 1);
    MonthLengths(d.year, d.month);
    NextIsOneDayLater(d);
    DayNumberIsInjective(DateOf(n + 1), Next(d));
  }

  // ---- Digits ----

  function Digit(n: nat): char
    requires n < 10
  {
    '0' + n as char
  }

  predicate AllDigits(s: string) {
    forall i | 0 <= i < |s| :: '0' <= s[i] <= '9'
  }

  /** Decimal digits, zero-padded to at least `width`. */
  function Pad(n: nat, width: nat): string
    decreases n + width
  {
    if n < 10 && width <= 1 then [Digit(n)]
    else Pad(n / 10, if width > 0 then width - 1 else 0) + [Digit(n % 10)]
  }

  function ValueOf(s: string): nat
    requires AllDigits(s)
  {
    if s == "" then 0 else 10 * ValueOf(s[..|s| - 1]) + (s[|s| - 1] - '0') as nat
  }

  function Pow10(n: nat): nat {
    if n == 0 then 1 else 10 * Pow10(n - 1)
  }

  lemma {:induction false} ValueOfPad(n: nat, width: nat)
    ensures AllDigits(Pad(n, width)) && ValueOf(Pad(n, width)) == n
    decreases n + width
  {
    var s := Pad(n, width);
    if !(n < 10 && width <= 1) {
      var front := Pad(n / 10, if width > 0 then width - 1 else 0);
      ValueOfPad(n / 10, if width > 0 then width - 1 else 0);
      assert s == front + [Digit(n % 10)];
      assert s[..|s| - 1] == front;
    }
  }

  lemma {:induction false} PadWidth(n: nat, width: nat)
    ensures |Pad(n, width)| >= 1 && |Pad(n, width)| >= width
    ensures width >= 1 ==> (|Pad(n, width)| == width <==> n < Pow10(width))
    decreases n + width
  {
    if !(n < 10 && width <= 1) {
      PadWidth(n / 10, if width > 0 then width - 1 else 0);
    }
    assert Pow10(0) == 1 && Pow10(1) == 10;
  }

  lemma {:induction false} PadOfValue(s: string)
    requires s != "" && AllDigits(s)
    ensures Pad(ValueOf(s), |s|) == s && ValueOf(s) < Pow10(|s|)
  {
    var front, last := s[..|s| - 1], s[|s| - 1];
    assert s == front + [last];
    if front == "" {
      assert Pow10(1) == 10;
    } else {
      PadOfValue(front);
      assert ValueOf(s) / 10 == ValueOf(front) && ValueOf(s) % 10 == (last - '0') as nat;
    }
  }

  // ---- The layout "2006_01_02" ----

  /** `appendInt` of Go's time package. */
  function AppendInt(x: int, width: nat): string {
    if x < 0 then "-" + Pad(-x, width) else Pad(x, width)
  }

  function Format(d: Date): string {
    AppendInt(d.year, 4) + "_" + AppendInt(d.month, 2) + "_" + AppendInt(d.day, 2)
  }

  /** Four digits, two and two, with the range checks of `time.Parse`. */
  function Parse(s: string): (r: Option<Date>)
    ensures r.Some? ==> IsDate(r.value)
  {
    if |s| == 10 && AllDigits(s[..4]) && s[4] == '_' && AllDigits(s[5..7]) && s[7] == '_' && AllDigits(s[8..])
    then
      var d := Date(ValueOf(s[..4]), ValueOf(s[5..7]), ValueOf(s[8..]));
      if IsDate(d) then Some(d) else None
    else None
  }

  predicate HasFourDigitYear(d: Date) {
    0 <= d.year <= 9999
  }

  /** The days of four-digit years, by number: 0000-01-01 to 9999-12-31. */
  const FIRST_DAY: int := -366
  const LAST_DAY: int := 3_652_058

  lemma FourDigitYearIff(n: int)
    ensures HasFourDigitYear(DateOf(n)) <==> FIRST_DAY <= n <= LAST_DAY
  {
    DateOfIsInverse(n);
    var d := DateOf(n);
    DayWithinYear(d);
    assert DaysBeforeYear(0) == FIRST_DAY && DaysBeforeYear(10_000) == LAST_DAY + 1;
    if d.year < 0 {
      YearsAscend(d.year + 1, 0);
    } else if d.year > 9999 {
      YearsAscend(10_000, d.year);
    } else {
      YearsAscend(0, d.year);
      YearsAscend(d.year + 1, 10_000);
    }
  }

  lemma MonthAndDayTakeTwo(d: Date)
    requires IsDate(d)
    ensures |Pad(d.month, 2)| == 2 && |Pad(d.day, 2)| == 2
  {
    assert Pow10(2) == 100;
    PadWidth(d.month, 2);
    PadWidth(d.day, 2);
  }

  lemma YearTakesFourIff(d: Date)
    ensures |AppendInt(d.year, 4)| == 4 <==> HasFourDigitYear(d)
    ensures |AppendInt(d.year, 4)| >= 4
  {
    assert Pow10(4) == 10_000;
    PadWidth(if d.year < 0 then -d.year else d.year, 4);
  }

  /** A date reads back from its own text exactly when its year takes four digits; other years are not read at all. */
  lemma ParseFormat(d: Date)
    requires IsDate(d)
    ensures Parse(Format(d)) == if HasFourDigitYear(d) then Some(d) else None
  {
    MonthAndDayTakeTwo(d);
    YearTakesFourIff(d);
    if HasFourDigitYear(d) {
      PartsOfFormat(d);
      ValueOfPad(d.year, 4);
      ValueOfPad(d.month, 2);
      ValueOfPad(d.day, 2);
    }
  }

  /** The text of a date, cut where its parts end. */
  lemma PartsOfFormat(d: Date)
    requires IsDate(d) && HasFourDigitYear(d)
    ensures var s := Format(d);
            && |s| == 10 && s[..4] == Pad(d.year, 4) && s[4] == '_' && s[5..7] == Pad(d.month, 2) && s[7] == '_'
            && s[8..] == Pad(d.day, 2)
  {
    MonthAndDayTakeTwo(d);
    YearTakesFourIff(d);
  }

  lemma TwoDigits(n: nat)
    requires n < 100
    ensures Pad(n, 2) == [Digit(n / 10), Digit(n % 10)]
  {
    assert Pad(n / 10, 1) == [Digit(n / 10)];
  }

  /** The text of a date is its year in four digits, its month in two and its day in two, with "_" between them. */
  lemma TextIsDigits(d: Date)
    requires IsDate(d) && HasFourDigitYear(d)
    ensures Format(d) ==
            [Digit(d.year / 1000), Digit(d.year / 100 % 10), Digit(d.year / 10 % 10), Digit(d.year % 10), '_',
             Digit(d.month / 10), Digit(d.month % 10), '_', Digit(d.day / 10), Digit(d.day % 10)]
  {
    TwoDigits(d.month);
    TwoDigits(d.day);
    TwoDigits(d.year / 100);
    assert d.year / 10 / 10 == d.year / 100 && d.year / 100 / 10 == d.year / 1000;
    assert Pad(d.year, 4) == Pad(d.year / 10, 3) + [Digit(d.year % 10)];
    assert Pad(d.year / 10, 3) == Pad(d.year / 100, 2) + [Digit(d.year / 10 % 10)];
  }

  /** Any text that reads as a date is that date's own text. */
  lemma FormatParse(s: string)
    requires Parse(s).Some?
    ensures Format(Parse(s).value) == s && HasFourDigitYear(Parse(s).value)
  {
    PadOfValue(s[..4]);
    PadOfValue(s[5..7]);
    PadOfValue(s[8..]);
    assert Pow10(4) == 10_000;
    assert s == s[..4] + [s[4]] + s[5..7] + [s[7]] + s[8..];
  }

  lemma AppendIntIsInjective(a: int, b: int, width: nat)
    requires AppendInt(a, width) == AppendInt(b, width)
    ensures a == b
  {
    var x, y := if a < 0 then -a else a, if b < 0 then -b else b;
    ValueOfPad(x, width);
    ValueOfPad(y, width);
    PadWidth(x, width);
    PadWidth(y, width);
    assert a < 0 ==> AppendInt(a, width)[0] == '-' && AppendInt(a, width)[1..] == Pad(x, width);
    assert b < 0 ==> AppendInt(b, width)[0] == '-' && AppendInt(b, width)[1..] == Pad(y, width);
  }

  /** No two days share a text, whatever their years. */
  lemma FormatIsInjective(a: Date, b: Date)
    requires IsDate(a) && IsDate(b) && Format(a) == Format(b)
    ensures a == b
  {
    MonthAndDayTakeTwo(a);
    MonthAndDayTakeTwo(b);
    var s, n := Format(a), |Format(a)|;
    assert s[..n - 6] == AppendInt(a.year, 4) && s[n - 5..n - 3] == AppendInt(a.month, 2) && s[n - 2..] == AppendInt(a.day, 2);
    assert s[..n - 6] == AppendInt(b.year, 4) && s[n - 5..n - 3] == AppendInt(b.month, 2) && s[n - 2..] == AppendInt(b.day, 2);
    AppendIntIsInjective(a.year, b.year, 4);
    AppendIntIsInjective(a.month, b.month, 2);
    AppendIntIsInjective(a.day, b.day, 2);
  }
}
