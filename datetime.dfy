/**
 * Calendar arithmetic of pkg/datetime, over a model of Go's `time.Date` and
 * `Time.AddDate`. Time zones are not modelled (every value is in one local zone).
 */
module Datetime {
  import opened DecimalText

  /** A wall-clock instant: Go's `time.Time` seen through its calendar fields. */
  datatype Time = Time(year: int, month: int, day: int, hour: int, minute: int, second: int, nanosecond: int)

  /** Go's zero time, January 1 of year 1, 00:00:00; `IsZero` tests against it. */
  const ZeroTime := Time(1, 1, 1, 0, 0, 0, 0)

  predicate IsZero(t: Time) {
    t == ZeroTime
  }

  /** Gregorian leap years. */
  predicate IsLeap(y: int) {
    y % 4 == 0 && (y % 100 != 0 || y % 400 == 0)
  }

  function DaysIn(y: int, m: int): (n: int)
    requires 1 <= m <= 12
    ensures 28 <= n <= 31
    ensures m == 2 ==> (n == 29 <==> IsLeap(y))
  {
    if m == 2 then (if IsLeap(y) then 29 else 28)
    else if m == 4 || m == 6 || m == 9 || m == 11 then 30
    else 31
  }

  predicate ValidClock(hour: int, minute: int, second: int, nanosecond: int) {
    0 <= hour < 24 && 0 <= minute < 60 && 0 <= second < 60 && 0 <= nanosecond < 1_000_000_000
  }

  /** Every `time.Time` value is normalised. */
  predicate Valid(t: Time) {
    && 1 <= t.month <= 12
    && 1 <= t.day <= DaysIn(t.year, t.month)
    && ValidClock(t.hour, t.minute, t.second, t.nanosecond)
  }

  /** The position of a month in the sequence of all months; consecutive months differ by 1. */
  function MonthIndex(year: int, month: int): int {
    year * 12 + month - 1
  }

  function NextMonth(y: int, m: int): (r: (int, int))
    requires 1 <= m <= 12
    ensures 1 <= r.1 <= 12 && MonthIndex(r.0, r.1) == MonthIndex(y, m) + 1
  {
    if m == 12 then (y + 1, 1) else (y, m + 1)
  }

  function PrevMonth(y: int, m: int): (r: (int, int))
    requires 1 <= m <= 12
    ensures 1 <= r.1 <= 12 && MonthIndex(r.0, r.1) == MonthIndex(y, m) - 1
  {
    if m == 1 then (y - 1, 12) else (y, m - 1)
  }

  /** Month indices determine the (year, month) pair. */
  lemma MonthIndexInjective(y1: int, m1: int, y2: int, m2: int)
    requires 1 <= m1 <= 12 && 1 <= m2 <= 12
    requires MonthIndex(y1, m1) == MonthIndex(y2, m2)
    ensures y1 == y2 && m1 == m2
  {
  }

  /**
   * `time.Date`'s month normalisation: a month outside 1..12 carries into the
   * year by floor division (Dafny's `/` and `%` are floor-like for a positive divisor).
   */
  function NormMonth(y: int, m: int): (r: (int, int))
    ensures 1 <= r.1 <= 12
    ensures MonthIndex(r.0, r.1) == MonthIndex(y, m)
  {
    (y + (m - 1) / 12, (m - 1) % 12 + 1)
  }

  /**
   * `time.Date`'s day normalisation, for the days this program produces: from day 0
   * (the last day of the previous month) up to 28 days past the end of the month
   * (which land in the next month). Go does this through an absolute day number;
   * within this range that gives the same date.
   */
  function NormDay(y: int, m: int, d: int): (r: (int, int, int))
    requires 1 <= m <= 12
    requires 0 <= d <= DaysIn(y, m) + 28
    ensures 1 <= r.1 <= 12 && 1 <= r.2 <= DaysIn(r.0, r.1)
    ensures 1 <= d <= DaysIn(y, m) ==> r == (y, m, d)
    ensures d == 0 ==> r == (PrevMonth(y, m).0, PrevMonth(y, m).1, DaysIn(PrevMonth(y, m).0, PrevMonth(y, m).1))
    ensures d > DaysIn(y, m) ==> r == (NextMonth(y, m).0, NextMonth(y, m).1, d - DaysIn(y, m))
  {
    if d < 1 then
      var p := PrevMonth(y, m);
      (p.0, p.1, DaysIn(p.0, p.1))
    else if d > DaysIn(y, m) then
      var n := NextMonth(y, m);
      (n.0, n.1, d - DaysIn(y, m))
    else
      (y, m, d)
  }

  /** `time.Date(year, month, day, hour, min, sec, nsec, loc)` for an in-range clock and the days NormDay covers. */
  function Date(year: int, month: int, day: int, hour: int, minute: int, second: int, nanosecond: int): (t: Time)
    requires ValidClock(hour, minute, second, nanosecond)
    requires 0 <= day <= DaysIn(NormMonth(year, month).0, NormMonth(year, month).1) + 28
    ensures Valid(t)
    ensures t.hour == hour && t.minute == minute && t.second == second && t.nanosecond == nanosecond
    ensures 1 <= month <= 12 && 1 <= day <= DaysIn(year, month) ==> t == Time(year, month, day, hour, minute, second, nanosecond)
    ensures var (y, m) := NormMonth(year, month);
      && (1 <= day <= DaysIn(y, m) ==> (t.year, t.month, t.day) == (y, m, day))
      && (day == 0 ==> (t.year, t.month) == PrevMonth(y, m) && t.day == DaysIn(t.year, t.month))
      && (day > DaysIn(y, m) ==> (t.year, t.month) == NextMonth(y, m) && t.day == day - DaysIn(y, m))
  {
    var ym := NormMonth(year, month);
    var ymd := NormDay(ym.0, ym.1, day);
    Time(ymd.0, ymd.1, ymd.2, hour, minute, second, nanosecond)
  }

  /** `t.AddDate(years, months, days)`: add to the fields, then normalise as `time.Date` does. */
  function AddDate(t: Time, years: int, months: int, days: int): (r: Time)
    requires Valid(t)
    requires 0 <= t.day + days <= DaysIn(NormMonth(t.year + years, t.month + months).0, NormMonth(t.year + years, t.month + months).1) + 28
    ensures Valid(r)
    ensures r.hour == t.hour && r.minute == t.minute && r.second == t.second && r.nanosecond == t.nanosecond
    ensures var (y, m) := NormMonth(t.year + years, t.month + months);
      var d := t.day + days;
      && (1 <= d <= DaysIn(y, m) ==> (r.year, r.month, r.day) == (y, m, d))
      && (d == 0 ==> (r.year, r.month) == PrevMonth(y, m) && r.day == DaysIn(r.year, r.month))
      && (d > DaysIn(y, m) ==> (r.year, r.month) == NextMonth(y, m) && r.day == d - DaysIn(y, m))
  {
    Date(t.year + years, t.month + months, t.day + days, t.hour, t.minute, t.second, t.nanosecond)
  }

  /** A month number in 1..12 shifted by one normalises to the next month. */
  lemma NormMonthNext(y: int, m: int)
    requires 1 <= m <= 12
    ensures NormMonth(y, m + 1) == NextMonth(y, m)
  {
    MonthIndexInjective(NormMonth(y, m + 1).0, NormMonth(y, m + 1).1, NextMonth(y, m).0, NextMonth(y, m).1);
  }

  lemma PrevOfNext(y: int, m: int)
    requires 1 <= m <= 12
    ensures PrevMonth(NextMonth(y, m).0, NextMonth(y, m).1) == (y, m)
  {
  }

  /**
   * `GetLastDayOfMonth`, as written: step one month ahead with `AddDate`, take the
   * first of that month, step one day back and read the day. When the day of `t`
   * does not exist in the next month, `AddDate` overflows into the month after,
   * and the result is the length of the NEXT month.
   */
  function GetLastDayOfMonth(t: Time): (lastDay: int)
    requires Valid(t)
    ensures 28 <= lastDay <= DaysIn(t.year, t.month)
    ensures var n := NextMonth(t.year, t.month);
            lastDay == if t.day <= DaysIn(n.0, n.1) then DaysIn(t.year, t.month) else DaysIn(n.0, n.1)
    ensures t.day <= 28 ==> lastDay == DaysIn(t.year, t.month)
  {
    var nextMonth := AddDate(t, 0, 1, 0);
    var firstDayOfNextMonth := Date(nextMonth.year, nextMonth.month, 1, 0, 0, 0, 0);
    var r := AddDate(firstDayOfNextMonth, 0, 0, -1).day;
    LastDayOfMonthCases(t);
    r
  }

  lemma LastDayOfMonthCases(t: Time)
    requires Valid(t)
    ensures var n := NextMonth(t.year, t.month);
            var nextMonth := AddDate(t, 0, 1, 0);
            var first := Date(nextMonth.year, nextMonth.month, 1, 0, 0, 0, 0);
            var r := AddDate(first, 0, 0, -1).day;
            (t.day <= DaysIn(n.0, n.1) ==> r == DaysIn(t.year, t.month))
            && (t.day > DaysIn(n.0, n.1) ==> r == DaysIn(n.0, n.1))
  {
    var n := NextMonth(t.year, t.month);
    NormMonthNext(t.year, t.month);
    PrevOfNext(t.year, t.month);
    if t.day <= DaysIn(n.0, n.1) {
      var nextMonth := AddDate(t, 0, 1, 0);
      assert nextMonth.year == n.0 && nextMonth.month == n.1;
      var first := Date(nextMonth.year, nextMonth.month, 1, 0, 0, 0, 0);
      assert first == Time(n.0, n.1, 1, 0, 0, 0, 0);
    } else {
      var nn := NextMonth(n.0, n.1);
      var nextMonth := AddDate(t, 0, 1, 0);
      assert nextMonth.year == nn.0 && nextMonth.month == nn.1;
      var first := Date(nextMonth.year, nextMonth.month, 1, 0, 0, 0, 0);
      assert first == Time(nn.0, nn.1, 1, 0, 0, 0, 0);
      PrevOfNext(n.0, n.1);
    }
  }

  /** Chronological order of two instants in the same zone. */
  predicate NotAfter(a: Time, b: Time) {
    if a.year != b.year then a.year < b.year
    else if a.month != b.month then a.month < b.month
    else if a.day != b.day then a.day < b.day
    else if a.hour != b.hour then a.hour < b.hour
    else if a.minute != b.minute then a.minute < b.minute
    else if a.second != b.second then a.second < b.second
    else a.nanosecond <= b.nanosecond
  }

  /**
   * `GetMonthStartAndEnd`, as written: `now.AddDate(0, -monthOffset, 0)` keeps the
   * day of `now`, so a day that does not exist in the target month overflows into
   * the month after it; start and end are then taken in whatever month that gave.
   */
  function GetMonthStartAndEnd(now: Time, monthOffset: int): (r: (Time, Time))
    requires Valid(now)
    ensures var (start, end) := r;
            && Valid(start) && Valid(end)
            && start == Time(start.year, start.month, 1, 0, 0, 0, 0)
            && end == Time(start.year, start.month, end.day, 23, 59, 59, 0)
            && 28 <= end.day <= DaysIn(start.year, start.month)
            && NotAfter(start, end)
    ensures var tg := NormMonth(now.year, now.month - monthOffset);
            var nx := NextMonth(tg.0, tg.1);
            if now.day <= DaysIn(tg.0, tg.1) then
              && (r.0.year, r.0.month) == tg
              && r.1.day == (if now.day <= DaysIn(nx.0, nx.1) then DaysIn(tg.0, tg.1) else DaysIn(nx.0, nx.1))
            else
              (r.0.year, r.0.month) == nx && r.1.day == DaysIn(nx.0, nx.1)
    ensures var target := MonthIndex(now.year, now.month) - monthOffset;
            MonthIndex(r.0.year, r.0.month) == target || MonthIndex(r.0.year, r.0.month) == target + 1
    ensures now.day <= 28 ==>
              && MonthIndex(r.0.year, r.0.month) == MonthIndex(now.year, now.month) - monthOffset
              && r.1.day == DaysIn(r.0.year, r.0.month)
  {
    var timestamp := AddDate(now, 0, -monthOffset, 0);
    var start := Date(timestamp.year, timestamp.month, 1, 0, 0, 0, 0);
    var end := Date(timestamp.year, timestamp.month, GetLastDayOfMonth(timestamp), 23, 59, 59, 0);
    ShiftedMonth(now, monthOffset);
    (start, end)
  }

  /** Where `now.AddDate(0, -k, 0)` lands: the target month, or the next one when the day overflows. */
  lemma ShiftedMonth(now: Time, k: int)
    requires Valid(now)
    ensures var ts := AddDate(now, 0, -k, 0);
            var tg := NormMonth(now.year, now.month - k);
            var nx := NextMonth(tg.0, tg.1);
            ts == if now.day <= DaysIn(tg.0, tg.1)
                  then Time(tg.0, tg.1, now.day, now.hour, now.minute, now.second, now.nanosecond)
                  else Time(nx.0, nx.1, now.day - DaysIn(tg.0, tg.1), now.hour, now.minute, now.second, now.nanosecond)
  {
    var tg := NormMonth(now.year, now.month - k);
    if now.day > DaysIn(tg.0, tg.1) {
    }
  }

  /** Corrected last day of the month: day 0 of the next month, which never overflows. */
  function LastDayOfMonth(t: Time): (lastDay: int)
    requires Valid(t)
    ensures lastDay == DaysIn(t.year, t.month)
  {
    NormMonthNext(t.year, t.month);
    PrevOfNext(t.year, t.month);
    Date(t.year, t.month + 1, 0, 0, 0, 0, 0).day
  }

  /** Corrected month range: normalise the month on day 1, so the day of `now` plays no part. */
  function MonthStartAndEnd(now: Time, monthOffset: int): (r: (Time, Time))
    requires Valid(now)
    ensures var (start, end) := r;
            && MonthIndex(start.year, start.month) == MonthIndex(now.year, now.month) - monthOffset
            && Valid(start) && Valid(end)
            && start == Time(start.year, start.month, 1, 0, 0, 0, 0)
            && end == Time(start.year, start.month, DaysIn(start.year, start.month), 23, 59, 59, 0)
            && NotAfter(start, end)
  {
    var first := Date(now.year, now.month - monthOffset, 1, 0, 0, 0, 0);
    (first, Date(first.year, first.month, LastDayOfMonth(first), 23, 59, 59, 0))
  }

  /** As written, a mid-month clock reading `k` months on gives that month's full range. */
  lemma MonthRangeMidMonth(now: Time, k: int, y: int, m: int)
    requires Valid(now) && now.day <= 28 && 1 <= m <= 12
    requires MonthIndex(y, m) == MonthIndex(now.year, now.month) - k
    ensures GetMonthStartAndEnd(now, k) == (Time(y, m, 1, 0, 0, 0, 0), Time(y, m, DaysIn(y, m), 23, 59, 59, 0))
  {
    var r := GetMonthStartAndEnd(now, k);
    MonthIndexInjective(r.0.year, r.0.month, y, m);
  }

  /** As written, a clock reading on day 28 or before gives the true month length. */
  lemma LastDayOfMidMonth(t: Time)
    requires Valid(t) && t.day <= 28
    ensures GetLastDayOfMonth(t) == DaysIn(t.year, t.month)
  {
  }

  /**
   * The February rows of the GetLastDayOfMonth test table: 28 days in 2023,
   * 29 in the leap year 2024 (the test times are parameters so that the
   * calendar arithmetic is not unfolded on constants).
   */
  lemma LastDayOfMonthFebruary(feb2023: Time, feb2024: Time)
    requires feb2023 == Time(2023, 2, 15, 10, 0, 0, 0) && feb2024 == Time(2024, 2, 15, 10, 0, 0, 0)
    ensures GetLastDayOfMonth(feb2023) == 28
    ensures GetLastDayOfMonth(feb2024) == 29
  {
    assert !IsLeap(2023) && IsLeap(2024);
  }

  /** Test row "Normal Month": November 15, 2023 gives 30. */
  lemma LastDayOfMonthNovember(nov: Time)
    requires nov == Time(2023, 11, 15, 10, 0, 0, 0)
    ensures GetLastDayOfMonth(nov) == 30
  {
    assert Valid(nov) && DaysIn(nov.year, nov.month) == 30;
  }

  /** Test row "January": January 15, 2023 gives 31. */
  lemma LastDayOfMonthJanuary(jan: Time)
    requires jan == Time(2023, 1, 15, 10, 0, 0, 0)
    ensures GetLastDayOfMonth(jan) == 31
  {
    assert Valid(jan) && DaysIn(jan.year, jan.month) == 31;
  }

  /** Test row "December": the next month falls in the next year; December 15, 2023 gives 31. */
  lemma LastDayOfMonthDecember(dec: Time)
    requires dec == Time(2023, 12, 15, 10, 0, 0, 0)
    ensures GetLastDayOfMonth(dec) == 31
  {
    assert Valid(dec) && DaysIn(dec.year, dec.month) == 31;
  }

  /** Test row "Current Month": offset 0 from November 15, 2023 is November 2023. */
  lemma MonthStartAndEndCurrentMonth(now: Time)
    requires Valid(now) && now.year == 2023 && now.month == 11 && now.day == 15
    ensures GetMonthStartAndEnd(now, 0) == (Time(2023, 11, 1, 0, 0, 0, 0), Time(2023, 11, 30, 23, 59, 59, 0))
  {
    assert DaysIn(2023, 11) == 30;
    MonthRangeMidMonth(now, 0, 2023, 11);
  }

  /** Test row "Last Month": offset 1 from November 15, 2023 is October 2023. */
  lemma MonthStartAndEndLastMonth(now: Time)
    requires Valid(now) && now.year == 2023 && now.month == 11 && now.day == 15
    ensures GetMonthStartAndEnd(now, 1) == (Time(2023, 10, 1, 0, 0, 0, 0), Time(2023, 10, 31, 23, 59, 59, 0))
  {
    assert DaysIn(2023, 10) == 31;
    MonthRangeMidMonth(now, 1, 2023, 10);
  }

  /** Test row "Two Months Ago": offset 2 from November 15, 2023 is September 2023. */
  lemma MonthStartAndEndTwoMonthsAgo(now: Time)
    requires Valid(now) && now.year == 2023 && now.month == 11 && now.day == 15
    ensures GetMonthStartAndEnd(now, 2) == (Time(2023, 9, 1, 0, 0, 0, 0), Time(2023, 9, 30, 23, 59, 59, 0))
  {
    assert DaysIn(2023, 9) == 30;
    MonthRangeMidMonth(now, 2, 2023, 9);
  }

  /** Test row "Start Of Year": one month before January 2024 is December 2023. */
  lemma MonthStartAndEndAcrossYear(now: Time)
    requires Valid(now) && now.year == 2024 && now.month == 1 && now.day == 15
    ensures GetMonthStartAndEnd(now, 1) == (Time(2023, 12, 1, 0, 0, 0, 0), Time(2023, 12, 31, 23, 59, 59, 0))
  {
    assert DaysIn(2023, 12) == 31;
    MonthRangeMidMonth(now, 1, 2023, 12);
  }

  /** Test row "End Of Year": one month before December 2023 is November 2023. */
  lemma MonthStartAndEndFromDecember(now: Time)
    requires Valid(now) && now.year == 2023 && now.month == 12 && now.day == 15
    ensures GetMonthStartAndEnd(now, 1) == (Time(2023, 11, 1, 0, 0, 0, 0), Time(2023, 11, 30, 23, 59, 59, 0))
  {
    assert DaysIn(2023, 11) == 30;
    MonthRangeMidMonth(now, 1, 2023, 11);
  }

  /** Test row "Leap Year": one month before March 2024 is February 2024, with 29 days. */
  lemma MonthStartAndEndLeapFebruary(now: Time)
    requires Valid(now) && now.year == 2024 && now.month == 3 && now.day == 15
    ensures GetMonthStartAndEnd(now, 1) == (Time(2024, 2, 1, 0, 0, 0, 0), Time(2024, 2, 29, 23, 59, 59, 0))
  {
    assert IsLeap(2024);
    assert DaysIn(2024, 2) == 29;
    MonthRangeMidMonth(now, 1, 2024, 2);
  }

  /** Any instant on January 31, 2023 goes to "February 31" = March 3, so the month measured is February. */
  lemma LastDayOfMonthOverflows(t: Time)
    requires Valid(t) && t.year == 2023 && t.month == 1 && t.day == 31
    ensures GetLastDayOfMonth(t) == 28
    ensures LastDayOfMonth(t) == 31
  {
    assert !IsLeap(2023);
    assert DaysIn(2023, 2) == 28 && DaysIn(2023, 1) == 31;
  }

  /** One month before March 31, 2024 is "February 31" = March 2: the range found is March. */
  lemma MonthStartAndEndSkipsMonth(now: Time)
    requires Valid(now) && now.year == 2024 && now.month == 3 && now.day == 31
    ensures GetMonthStartAndEnd(now, 1).0 == Time(2024, 3, 1, 0, 0, 0, 0)
    ensures MonthStartAndEnd(now, 1).0 == Time(2024, 2, 1, 0, 0, 0, 0)
  {
    assert IsLeap(2024);
    assert DaysIn(2024, 2) == 29;
    assert NormMonth(2024, 2) == (2024, 2);
    assert NextMonth(2024, 2) == (2024, 3);
    var a := MonthStartAndEnd(now, 1);
    MonthIndexInjective(a.0.year, a.0.month, 2024, 2);
  }

  /** Two months before May 31, 2024 is March 31, whose "April 31" overflow cuts the end to March 30. */
  lemma MonthStartAndEndCutsEnd(now: Time)
    requires Valid(now) && now.year == 2024 && now.month == 5 && now.day == 31
    ensures GetMonthStartAndEnd(now, 2).1 == Time(2024, 3, 30, 23, 59, 59, 0)
    ensures MonthStartAndEnd(now, 2).1 == Time(2024, 3, 31, 23, 59, 59, 0)
  {
    assert DaysIn(2024, 3) == 31 && DaysIn(2024, 4) == 30;
    var a := MonthStartAndEnd(now, 2);
    MonthIndexInjective(a.0.year, a.0.month, 2024, 3);
  }

  /**
   * A numeric field of a layout ("2006", "01", "02", "15", …): the digits
   * zero-padded to `width`, after a minus sign when the value is negative,
   * which in a normalised time only the year can be.
   */
  function FormatField(n: int, width: nat): string {
    if n < 0 then "-" + Padded(-n, width) else Padded(n, width)
  }

  /** `t.Format("2006-01")`. */
  function FormatYearMonth(t: Time): string {
    FormatField(t.year, 4) + "-" + FormatField(t.month, 2)
  }

  /** `t.Format(time.DateTime)`, the layout "2006-01-02 15:04:05". */
  function FormatDateTime(t: Time): string {
    FormatField(t.year, 4) + "-" + FormatField(t.month, 2) + "-" + FormatField(t.day, 2)
      + " " + FormatField(t.hour, 2) + ":" + FormatField(t.minute, 2) + ":" + FormatField(t.second, 2)
  }

  /** A formatted date and time is never empty, so "" can stand for "no date". */
  lemma FormatDateTimeNonEmpty(t: Time)
    ensures |FormatDateTime(t)| >= 19
  {
  }

  /** For years 0..9999 "2006-01" is seven characters that read back as the year and the month. */
  lemma FormatYearMonthReadsBack(t: Time)
    requires Valid(t) && 0 <= t.year <= 9999
    ensures var s := FormatYearMonth(t);
      && |s| == 7 && s[4] == '-'
      && (forall i :: 0 <= i < 4 ==> IsDigit(s[i])) && Value(s[..4]) == t.year
      && (forall i :: 5 <= i < 7 ==> IsDigit(s[i])) && Value(s[5..]) == t.month
  {
    var y, m := Padded(t.year, 4), Padded(t.month, 2);
    assert FormatField(t.year, 4) == y && FormatField(t.month, 2) == m;
    PaddedLength(t.year, 4);
    PaddedLength(t.month, 2);
    PaddedValue(t.year, 4);
    PaddedValue(t.month, 2);
    var s := FormatYearMonth(t);
    assert s == y + "-" + m;
    assert s[..4] == y && s[5..] == m;
  }

  /**
   * Two normalised times in years 0..9999 get the same "2006-01" label only
   * when they fall in the same month, so monthly labels never collide.
   */
  lemma FormatYearMonthInjective(t: Time, u: Time)
    requires Valid(t) && 0 <= t.year <= 9999
    requires Valid(u) && 0 <= u.year <= 9999
    requires FormatYearMonth(t) == FormatYearMonth(u)
    ensures t.year == u.year && t.month == u.month
  {
    FormatYearMonthReadsBack(t);
    FormatYearMonthReadsBack(u);
  }

  /** A year below 10000 fills the four-digit field exactly, and a month the two-digit one. */
  lemma PaddedLength(n: nat, width: nat)
    requires (width == 4 && n <= 9999) || (width == 2 && n <= 99)
    ensures |Padded(n, width)| == width
  {
    if n >= 10 {
      assert Digits(n) == Digits(n / 10) + [DigitChar(n % 10)];
      if n >= 100 {
        assert Digits(n / 10) == Digits(n / 100) + [DigitChar((n / 10) % 10)];
        if n >= 1000 {
          assert Digits(n / 100) == Digits(n / 1000) + [DigitChar((n / 100) % 10)];
        }
      }
    }
  }

  /** The months of the order-summary test: March and February 2025. */
  lemma FormatYearMonthExamples()
    ensures FormatYearMonth(Time(2025, 3, 1, 0, 0, 0, 0)) == "2025-03"
    ensures FormatYearMonth(Time(2025, 2, 1, 0, 0, 0, 0)) == "2025-02"
  {
    assert Digits(2025) == "2025" by {
      assert Digits(2) == "2";
      assert Digits(20) == "20";
      assert Digits(202) == "202";
    }
    assert Padded(3, 2) == "03";
    assert Padded(2, 2) == "02";
  }
}
