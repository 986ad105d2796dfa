/**
  The analytics service's revenue ranges and revenue series. A UTC date is its number of
  days since 1 January of year 0, a month its number of months since then.
 */
module RevenueRanges {
  import opened Prelude

  // ----- the calendar -----

  predicate IsLeap(y: int) {
    y % 4 == 0 && (y % 100 != 0 || y % 400 == 0)
  }

  /** The number of days of a month. */
  function DaysIn(month: int): (n: int)
    ensures 28 <= n <= 31
  {
    var m := month % 12;
    if m == 1 then (if IsLeap(month / 12) then 29 else 28)
    else if m == 3 || m == 5 || m == 8 || m == 10 then 30
    else 31
  }

  /** The first day of a month. */
  function MonthStart(month: int): int
    decreases if month < 0 then -month else month
  {
    if month == 0 then 0
    else if month > 0 then MonthStart(month - 1) + DaysIn(month - 1)
    else MonthStart(month + 1) - DaysIn(month)
  }

  lemma MonthLength(month: int)
    ensures MonthStart(month + 1) == MonthStart(month) + DaysIn(month)
  {
  }

  lemma MonthLengthIs(y: int, m: int)
    requires 0 <= m < 12
    ensures MonthStart(12 * y + m + 1) == MonthStart(12 * y + m)
              + if m == 1 then (if IsLeap(y) then 29 else 28) else if m == 3 || m == 5 || m == 8 || m == 10 then 30 else 31
  {
    MonthLength(12 * y + m);
    assert (12 * y + m) % 12 == m && (12 * y + m) / 12 == y;
  }

  lemma JanuaryToJune(y: int)
    ensures MonthStart(12 * y + 6) == MonthStart(12 * y) + if IsLeap(y) then 182 else 181
  {
    MonthLengthIs(y, 0);
    MonthLengthIs(y, 1);
    MonthLengthIs(y, 2);
    MonthLengthIs(y, 3);
    MonthLengthIs(y, 4);
    MonthLengthIs(y, 5);
  }

  lemma JulyToDecember(y: int)
    ensures MonthStart(12 * y + 12) == MonthStart(12 * y + 6) + 184
  {
    MonthLengthIs(y, 6);
    MonthLengthIs(y, 7);
    MonthLengthIs(y, 8);
    MonthLengthIs(y, 9);
    MonthLengthIs(y, 10);
    MonthLengthIs(y, 11);
  }

  lemma YearLength(y: int)
    ensures MonthStart(12 * (y + 1)) == MonthStart(12 * y) + if IsLeap(y) then 366 else 365
  {
    JanuaryToJune(y);
    JulyToDecember(y);
  }

  /** The days before the year `y`: 365 a year, and one for every fourth year but three centuries of four. */
  function DaysBefore(y: int): int {
    365 * y + (y + 3) / 4 - (y + 99) / 100 + (y + 399) / 400
  }

  lemma FoursBefore(y: int)
    ensures (y + 1 + 3) / 4 == (y + 3) / 4 + if y % 4 == 0 then 1 else 0
  {
  }

  lemma HundredsBefore(y: int)
    ensures (y + 1 + 99) / 100 == (y + 99) / 100 + if y % 100 == 0 then 1 else 0
  {
    var q, r := y / 100, y % 100;
    assert y == 100 * q + r;
  }

  lemma FourHundredsBefore(y: int)
    ensures (y + 1 + 399) / 400 == (y + 399) / 400 + if y % 400 == 0 then 1 else 0
  {
    var q, r := y / 400, y % 400;
    assert y == 400 * q + r;
  }

  lemma MultiplesNest(y: int)
    ensures y % 400 == 0 ==> y % 100 == 0
    ensures y % 100 == 0 ==> y % 4 == 0
  {
  }

  lemma DaysBeforeNext(y: int)
    ensures DaysBefore(y + 1) == DaysBefore(y) + if IsLeap(y) then 366 else 365
  {
    FoursBefore(y);
    HundredsBefore(y);
    FourHundredsBefore(y);
    MultiplesNest(y);
  }

  lemma {:induction false} YearStartIs(y: int)
    ensures MonthStart(12 * y) == DaysBefore(y)
    decreases if y < 0 then -y else y
  {
    if y > 0 {
      YearStartIs(y - 1);
      YearLength(y - 1);
      DaysBeforeNext(y - 1);
    } else if y < 0 {
      YearStartIs(y + 1);
      YearLength(y);
      DaysBeforeNext(y);
    }
  }

  /** The calendar is the Gregorian one, extended to all years. */
  lemma CalendarIsGregorian(y: int, m: int)
    requires 0 <= m < 12
    ensures MonthStart(12 * y) == 365 * y + (y + 3) / 4 - (y + 99) / 100 + (y + 399) / 400
    ensures var february := MonthStart(12 * y + 12) - MonthStart(12 * y) - 337;
            MonthStart(12 * y + m + 1) - MonthStart(12 * y + m) == [31, february, 31, 30, 31, 30, 31, 31, 30, 31, 30, 31][m]
  {
    YearStartIs(y);
    YearLength(y);
    MonthLengthIs(y, m);
  }

  lemma {:induction false} MonthsInOrder(a: int, b: int)
    requires a <= b
    ensures MonthStart(b) - MonthStart(a) >= 28 * (b - a)
    decreases b - a
  {
    if a < b {
      MonthsInOrder(a, b - 1);
      MonthLength(b - 1);
    }
  }

  predicate InMonth(d: int, month: int) {
    MonthStart(month) <= d < MonthStart(month) + DaysIn(month)
  }

  function MonthUp(d: int, from: int): (month: int)
    requires MonthStart(from) <= d
    ensures InMonth(d, month)
    decreases d - MonthStart(from)
  {
    MonthLength(from);
    if d < MonthStart(from) + DaysIn(from) then from else MonthUp(d, from + 1)
  }

  function MonthDown(d: int, from: int): (month: int)
    requires d < MonthStart(from)
    ensures InMonth(d, month)
    decreases MonthStart(from) - d
  {
    MonthLength(from - 1);
    if MonthStart(from - 1) <= d then from - 1 else MonthDown(d, from - 1)
  }

  function MonthOf(d: int): (month: int)
    ensures InMonth(d, month)
  {
    if d >= 0 then MonthUp(d, 0) else MonthDown(d, 0)
  }

  function YearOf(d: int): int {
    MonthOf(d) / 12
  }

  lemma MonthOfIs(d: int, month: int)
    requires InMonth(d, month)
    ensures MonthOf(d) == month
  {
    var found := MonthOf(d);
    if found < month {
      MonthLength(found);
      MonthsInOrder(found + 1, month);
    } else if found > month {
      MonthLength(month);
      MonthsInOrder(month + 1, found);
    }
  }

  lemma MonthOfStart(month: int)
    ensures MonthOf(MonthStart(month)) == month
  {
    MonthOfIs(MonthStart(month), month);
  }

  lemma MonthOfMonotone(a: int, b: int)
    requires a <= b
    ensures MonthOf(a) <= MonthOf(b)
  {
    if MonthOf(b) < MonthOf(a) {
      MonthLength(MonthOf(b));
      MonthsInOrder(MonthOf(b) + 1, MonthOf(a));
    }
  }

  // ----- date arithmetic -----

  /** `Date.UTC` takes a year from 0 to 99 as one of the twentieth century. */
  function UtcYear(y: int): int {
    if 0 <= y <= 99 then 1900 + y else y
  }

  /** `Date.UTC(year, m, 1)` for a date's own year and `m` months into it. */
  function UtcMonth(d: int, months: int): int {
    MonthStart(UtcYear(YearOf(d)) * 12 + MonthOf(d) % 12 + months)
  }

  function StartOfUtcMonth(d: int): int {
    UtcMonth(d, 0)
  }

  function AddUtcMonths(d: int, months: int): int {
    UtcMonth(d, months)
  }

  function AddUtcDays(d: int, days: int): int {
    UtcMonth(d, 0) + (d - MonthStart(MonthOf(d))) + days
  }

  function DiffUtcMonths(a: int, b: int): int {
    MonthOf(b) - MonthOf(a)
  }

  /** The years whose dates keep their year in date arithmetic. */
  predicate Kept(d: int) {
    !(0 <= YearOf(d) <= 99)
  }

  lemma UtcMonthIs(d: int, months: int)
    ensures UtcMonth(d, months) == MonthStart(MonthOf(d) + months + if Kept(d) then 0 else 22800)
  {
    var month := MonthOf(d);
    assert month == month / 12 * 12 + month % 12;
    assert !Kept(d) ==> UtcYear(YearOf(d)) == YearOf(d) + 1900;
  }

  lemma AddUtcDaysIs(d: int, days: int)
    ensures Kept(d) ==> AddUtcDays(d, days) == d + days
    ensures !Kept(d) ==> AddUtcDays(d, days) >= d + days + 28 * 22800
  {
    UtcMonthIs(d, 0);
    MonthsInOrder(MonthOf(d), MonthOf(d) + 22800);
  }

  // ----- the ranges -----

  datatype Period = Daily | Monthly

  /** A range and its labels: days when daily, months when monthly. */
  datatype Range = Range(start: int, endInclusive: int, endExclusive: int, labelStart: int, labelEnd: int)

  datatype Ranges = Ranges(current: Range, previous: Range)

  datatype RangeError = FromAfterTo

  /** The first day of the range asked for; `from` and `to` are the parsed parameters. */
  function CurrentStart(period: Period, from: Option<int>, end: int): int {
    match (period, from)
    case (Daily, Some(d)) => d
    case (Daily, None) => AddUtcDays(end, -29)
    case (Monthly, Some(d)) => StartOfUtcMonth(d)
    case (Monthly, None) => AddUtcMonths(end, -11)
  }

  /** The first day of its last day or month. */
  function CurrentEnd(period: Period, to: Option<int>, today: int): int {
    match (period, to)
    case (Daily, Some(d)) => d
    case (Daily, None) => AddUtcDays(today, 0)
    case (Monthly, Some(d)) => StartOfUtcMonth(d)
    case (Monthly, None) => StartOfUtcMonth(today)
  }

  function DailyRanges(start: int, end: int): Ranges {
    var spanDays := end - start + 1;
    var previousEnd, previousStart := AddUtcDays(start, -1), AddUtcDays(start, -spanDays);
    Ranges(Range(start, end, AddUtcDays(end, 1), start, end),
           Range(previousStart, previousEnd, start, previousStart, previousEnd))
  }

  function MonthlyRanges(start: int, end: int): Ranges {
    var spanMonths := DiffUtcMonths(start, end) + 1;
    var previousEnd, previousStart := AddUtcDays(start, -1), AddUtcMonths(start, -spanMonths);
    Ranges(Range(start, AddUtcDays(AddUtcMonths(end, 1), -1), AddUtcMonths(end, 1), MonthOf(start), MonthOf(end)),
           Range(previousStart, previousEnd, start, MonthOf(previousStart), MonthOf(StartOfUtcMonth(previousEnd))))
  }

  function ResolveRevenueRanges(period: Period, from: Option<int>, to: Option<int>, today: int): Result<Ranges, RangeError> {
    var end := CurrentEnd(period, to, today);
    var start := CurrentStart(period, from, end);
    if start > end then Err(FromAfterTo)
    else if period.Daily? then Ok(DailyRanges(start, end))
    else Ok(MonthlyRanges(start, end))
  }

  /** The previous range ends the day before the current one starts and has as many days. */
  predicate DaysAdjoin(r: Ranges) {
    && r.current.endExclusive == r.current.endInclusive + 1 && r.previous.endExclusive == r.current.start
    && r.previous.endInclusive == r.current.start - 1
    && r.current.start - r.previous.start == r.current.endExclusive - r.current.start
  }

  /** The previous range ends the day before the current one starts and has as many months, all of them whole. */
  predicate MonthsAdjoin(r: Ranges) {
    var a, z := MonthOf(r.current.start), MonthOf(r.current.endInclusive) + 1;
    && r.current.start == MonthStart(a) && r.current.endExclusive == MonthStart(z) && a < z
    && r.current.endExclusive == r.current.endInclusive + 1 && r.previous.endExclusive == r.current.start
    && r.previous.endInclusive == r.current.start - 1 && r.previous.start == MonthStart(a - (z - a))
  }

  lemma KeptAfter(start: int, end: int)
    requires start <= end && YearOf(start) >= 100
    ensures Kept(start) && Kept(end) && YearOf(end) >= 100
  {
    MonthOfMonotone(start, end);
  }

  /** A parsed parameter: the format has four-digit years. */
  predicate Parsed(d: Option<int>) {
    d.Some? ==> 0 <= YearOf(d.value) <= 9999
  }

  lemma YearAtLeast(d: int, year: int)
    requires MonthStart(year * 12) <= d
    ensures YearOf(d) >= year
  {
    MonthOfStart(year * 12);
    MonthOfMonotone(MonthStart(year * 12), d);
  }

  lemma DailyStartNotNegative(from: Option<int>, end: int)
    requires Parsed(from) && YearOf(end) >= 0
    ensures YearOf(CurrentStart(Daily, from, end)) >= 0
  {
    if from.None? {
      AddUtcDaysIs(end, -29);
      if YearOf(end) >= 1 {
        MonthsInOrder(0, 12);
        MonthsInOrder(12, MonthOf(end));
      }
      MonthsInOrder(0, MonthOf(end));
      assert MonthStart(0 * 12) == 0;
      YearAtLeast(AddUtcDays(end, -29), 0);
    }
  }

  /** The range asked for starts in the year 100 or later, or in a month that is moved there. `Date.UTC` takes the
      years 0 to 99 as those of the twentieth century: a first month is moved with it, and so is a last month, but not
      the one eleven months before a last month in January to November of the year 100. */
  predicate StartsLate(period: Period, from: Option<int>, to: Option<int>, today: int) {
    match (period, from)
    case (Daily, Some(d)) => YearOf(d) >= 100
    case (Daily, None) => YearOf(to.GetOr(today) - 29) >= 100
    case (Monthly, Some(_)) => true
    case (Monthly, None) => !(1200 <= MonthOf(to.GetOr(today)) < 1211)
  }

  lemma DailyStartIsLate(from: Option<int>, to: Option<int>, today: int)
    requires Parsed(from) && Parsed(to) && YearOf(today) >= 100
    requires ResolveRevenueRanges(Daily, from, to, today).Ok?
    ensures YearOf(ResolveRevenueRanges(Daily, from, to, today).value.current.start) >= 100
            <==> StartsLate(Daily, from, to, today)
  {
    AddUtcDaysIs(today, 0);
    AddUtcDaysIs(to.GetOr(today), -29);
  }

  lemma DailyAdjoinByStart(from: Option<int>, to: Option<int>, today: int)
    requires Parsed(from) && Parsed(to) && YearOf(today) >= 100
    requires ResolveRevenueRanges(Daily, from, to, today).Ok?
    ensures var r := ResolveRevenueRanges(Daily, from, to, today).value;
            DaysAdjoin(r) <==> YearOf(r.current.start) >= 100
  {
    var end := CurrentEnd(Daily, to, today);
    AddUtcDaysIs(today, 0);
    DailyStartNotNegative(from, end);
    var start := CurrentStart(Daily, from, end);
    AddUtcDaysIs(start, -1);
    AddUtcDaysIs(start, -(end - start + 1));
    AddUtcDaysIs(end, 1);
    if YearOf(start) >= 100 {
      KeptAfter(start, end);
    }
  }

  /** Daily ranges adjoin exactly when the parameters let the range start in the year 100 or later. */
  lemma DailyRangesAdjoin(from: Option<int>, to: Option<int>, today: int)
    requires Parsed(from) && Parsed(to) && YearOf(today) >= 100
    requires ResolveRevenueRanges(Daily, from, to, today).Ok?
    ensures DaysAdjoin(ResolveRevenueRanges(Daily, from, to, today).value) <==> StartsLate(Daily, from, to, today)
  {
    DailyAdjoinByStart(from, to, today);
    DailyStartIsLate(from, to, today);
  }

  /** Earlier years can be asked for: already the range of the first day alone does not adjoin the one before. */
  lemma DailyRangesMayFail(today: int)
    requires YearOf(today) >= 100
    ensures var r := ResolveRevenueRanges(Daily, Some(0), Some(0), today); r.Ok? && !DaysAdjoin(r.value)
  {
    assert MonthStart(0) == 0;
    MonthOfStart(0);
    DailyRangesAdjoin(Some(0), Some(0), today);
  }

  lemma StartOfMonthIs(d: int)
    requires YearOf(d) >= 0
    ensures StartOfUtcMonth(d) == MonthStart(MonthOf(StartOfUtcMonth(d))) && YearOf(StartOfUtcMonth(d)) >= 100
  {
    UtcMonthIs(d, 0);
    MonthOfStart(MonthOf(d) + if Kept(d) then 0 else 22800);
  }

  /** Where the months of a monthly range begin. */
  lemma MonthlyBounds(from: Option<int>, to: Option<int>, today: int)
    requires Parsed(from) && Parsed(to) && YearOf(today) >= 0
    ensures var end := CurrentEnd(Monthly, to, today);
            var start := CurrentStart(Monthly, from, end);
            && end == MonthStart(MonthOf(end)) && YearOf(end) >= 100
            && start == MonthStart(MonthOf(start)) && YearOf(start) >= 99
            && (from.Some? ==> YearOf(start) >= 100)
  {
    var end := CurrentEnd(Monthly, to, today);
    StartOfMonthIs(if to.Some? then to.value else today);
    if from.Some? {
      StartOfMonthIs(from.value);
    } else {
      UtcMonthIs(end, -11);
      MonthOfStart(MonthOf(end) - 11);
    }
  }

  lemma MonthBefore(month: int)
    ensures MonthOf(MonthStart(month + 1) - 1) == month
  {
    MonthLength(month);
    MonthOfIs(MonthStart(month + 1) - 1, month);
  }

  lemma LastDayOfMonth(end: int)
    requires end == MonthStart(MonthOf(end)) && YearOf(end) >= 100
    ensures var next := MonthStart(MonthOf(end) + 1);
            AddUtcMonths(end, 1) == next && AddUtcDays(next, -1) == next - 1 && MonthOf(next - 1) == MonthOf(end)
  {
    UtcMonthIs(end, 1);
    MonthsInOrder(MonthOf(end), MonthOf(end) + 1);
    KeptAfter(end, MonthStart(MonthOf(end) + 1));
    AddUtcDaysIs(MonthStart(MonthOf(end) + 1), -1);
    MonthBefore(MonthOf(end));
  }

  lemma MonthsBefore(start: int, months: int)
    requires start == MonthStart(MonthOf(start)) && YearOf(start) >= 100
    ensures AddUtcMonths(start, -months) == MonthStart(MonthOf(start) - months) && AddUtcDays(start, -1) == start - 1
  {
    UtcMonthIs(start, -months);
    AddUtcDaysIs(start, -1);
  }

  lemma MonthsAdjoinBy(r: Ranges, a: int, z: int)
    requires a < z && MonthOf(r.current.start) == a && MonthOf(r.current.endInclusive) == z - 1
    requires r.current.start == MonthStart(a) && r.current.endExclusive == MonthStart(z) == r.current.endInclusive + 1
    requires r.previous.endExclusive == r.current.start == r.previous.endInclusive + 1
    requires r.previous.start == MonthStart(a - (z - a))
    ensures MonthsAdjoin(r)
  {
  }

  lemma WholeMonthsAdjoin(start: int, end: int)
    requires start == MonthStart(MonthOf(start)) && end == MonthStart(MonthOf(end)) && start <= end
    requires YearOf(start) >= 100
    ensures MonthsAdjoin(MonthlyRanges(start, end))
  {
    KeptAfter(start, end);
    LastDayOfMonth(end);
    MonthOfMonotone(start, end);
    MonthsBefore(start, DiffUtcMonths(start, end) + 1);
    MonthsAdjoinBy(MonthlyRanges(start, end), MonthOf(start), MonthOf(end) + 1);
  }

  lemma DefaultStartMonth(to: Option<int>, today: int)
    requires Parsed(to) && YearOf(today) >= 0
    ensures var last, end := to.GetOr(today), CurrentEnd(Monthly, to, today);
            MonthOf(CurrentStart(Monthly, None, end)) == MonthOf(last) - 11 + if MonthOf(last) < 1200 then 22800 else 0
  {
    var last, end := to.GetOr(today), CurrentEnd(Monthly, to, today);
    UtcMonthIs(last, 0);
    MonthOfStart(MonthOf(last) + if Kept(last) then 0 else 22800);
    UtcMonthIs(end, -11);
    MonthOfStart(MonthOf(end) - 11);
  }

  lemma MonthlyStartIsLate(from: Option<int>, to: Option<int>, today: int)
    requires Parsed(from) && Parsed(to) && YearOf(today) >= 0
    requires ResolveRevenueRanges(Monthly, from, to, today).Ok?
    ensures YearOf(ResolveRevenueRanges(Monthly, from, to, today).value.current.start) >= 100
            <==> StartsLate(Monthly, from, to, today)
  {
    if from.Some? {
      MonthlyBounds(from, to, today);
    } else {
      DefaultStartMonth(to, today);
    }
  }

  lemma MonthlyAdjoinByStart(from: Option<int>, to: Option<int>, today: int)
    requires Parsed(from) && Parsed(to) && YearOf(today) >= 0
    requires ResolveRevenueRanges(Monthly, from, to, today).Ok?
    ensures var r := ResolveRevenueRanges(Monthly, from, to, today).value;
            MonthsAdjoin(r) <==> YearOf(r.current.start) >= 100
  {
    MonthlyBounds(from, to, today);
    var end := CurrentEnd(Monthly, to, today);
    var start := CurrentStart(Monthly, from, end);
    if YearOf(start) >= 100 {
      WholeMonthsAdjoin(start, end);
    } else {
      AddUtcDaysIs(start, -1);
    }
  }

  /** Monthly ranges adjoin exactly when a first month is given or the last one is not in January to November of the year 100. */
  lemma MonthlyRangesAdjoin(from: Option<int>, to: Option<int>, today: int)
    requires Parsed(from) && Parsed(to) && YearOf(today) >= 0
    requires ResolveRevenueRanges(Monthly, from, to, today).Ok?
    ensures MonthsAdjoin(ResolveRevenueRanges(Monthly, from, to, today).value) <==> StartsLate(Monthly, from, to, today)
  {
    MonthlyAdjoinByStart(from, to, today);
    MonthlyStartIsLate(from, to, today);
  }

  /** The year 99 is reached: the default range of twelve months before January of the year 100. */
  lemma MonthlyRangesMayFail(today: int)
    requires YearOf(today) >= 0
    ensures var r := ResolveRevenueRanges(Monthly, None, Some(MonthStart(1200)), today);
            r.Ok? && !MonthsAdjoin(r.value)
  {
    var to := Some(MonthStart(1200));
    MonthOfStart(1200);
    MonthOfStart(1189);
    UtcMonthIs(MonthStart(1200), 0);
    UtcMonthIs(MonthStart(1200), -11);
    MonthsInOrder(1189, 1200);
    MonthlyRangesAdjoin(None, to, today);
  }

  // ----- what is asked for -----

  /** A month of the years 0 to 99 is taken as one of the twentieth century. */
  function Moved(month: int): int {
    if month < 1200 then month + 22_800 else month
  }

  lemma MonthStartsInOrder(a: int, b: int)
    ensures a <= b <==> MonthStart(a) <= MonthStart(b)
  {
    if a <= b {
      MonthsInOrder(a, b);
    } else {
      MonthsInOrder(b, a);
    }
  }

  /** The first and the last month of a monthly range. */
  lemma MonthsAsked(from: Option<int>, to: Option<int>, today: int)
    requires Parsed(from) && Parsed(to) && YearOf(today) >= 0
    ensures var z := Moved(MonthOf(to.GetOr(today)));
            var end := CurrentEnd(Monthly, to, today);
            && end == MonthStart(z) && MonthOf(end) == z && z >= 1200
            && var a := if from.Some? then Moved(MonthOf(from.value)) else z - 11;
               CurrentStart(Monthly, from, end) == MonthStart(a) && MonthOf(CurrentStart(Monthly, from, end)) == a
  {
    var z := Moved(MonthOf(to.GetOr(today)));
    UtcMonthIs(to.GetOr(today), 0);
    MonthOfStart(z);
    if from.Some? {
      UtcMonthIs(from.value, 0);
      MonthOfStart(Moved(MonthOf(from.value)));
    } else {
      UtcMonthIs(MonthStart(z), -11);
      MonthOfStart(z - 11);
    }
  }

  /** A request is refused exactly when its first day, or month as moved, is after its last; a daily one without a
      first day also when its last is before the year 100. */
  lemma RefusedExactlyWhen(period: Period, from: Option<int>, to: Option<int>, today: int)
    requires Parsed(from) && Parsed(to) && YearOf(today) >= 100
    ensures var last := to.GetOr(today);
            ResolveRevenueRanges(period, from, to, today) == Err(FromAfterTo) <==>
              (match (period, from)
               case (Daily, Some(d)) => d > last
               case (Daily, None) => MonthOf(last) < 1200
               case (Monthly, Some(d)) => Moved(MonthOf(d)) > Moved(MonthOf(last))
               case (Monthly, None) => false)
  {
    if period.Daily? {
      AddUtcDaysIs(today, 0);
      AddUtcDaysIs(to.GetOr(today), -29);
    } else {
      var z := Moved(MonthOf(to.GetOr(today)));
      MonthsAsked(from, to, today);
      MonthStartsInOrder(if from.Some? then Moved(MonthOf(from.value)) else z - 11, z);
    }
  }

  /** The current range is the one asked for, by default the last 30 days or 12 months. */
  lemma CurrentRangeIsAsked(period: Period, from: Option<int>, to: Option<int>, today: int)
    requires Parsed(from) && Parsed(to) && YearOf(today) >= 100
    requires ResolveRevenueRanges(period, from, to, today).Ok?
    ensures var r := ResolveRevenueRanges(period, from, to, today).value.current;
            if period.Daily? then r.endInclusive == to.GetOr(today) && r.start == from.GetOr(to.GetOr(today) - 29)
            else
              var z := Moved(MonthOf(to.GetOr(today)));
              && r.endExclusive == MonthStart(z + 1) && r.endInclusive == MonthStart(z + 1) - 1
              && r.start == MonthStart(if from.Some? then Moved(MonthOf(from.value)) else z - 11)
  {
    if period.Daily? {
      AddUtcDaysIs(today, 0);
      AddUtcDaysIs(to.GetOr(today), -29);
    } else {
      MonthsAsked(from, to, today);
      LastDayOfMonth(CurrentEnd(Monthly, to, today));
    }
  }

  predicate LabelFits(period: Period, r: Range) {
    if period.Daily? then r.labelStart == r.start && r.labelEnd == r.endInclusive
    else r.labelStart == MonthOf(r.start) && r.labelEnd == MonthOf(r.endInclusive)
  }

  lemma DayBeforeMonth(a: int)
    requires a >= 0
    ensures AddUtcDays(MonthStart(a), -1) == MonthStart(Moved(a)) - 1
    ensures MonthOf(MonthStart(Moved(a)) - 1) == Moved(a) - 1
  {
    MonthOfStart(a);
    UtcMonthIs(MonthStart(a), 0);
    MonthBefore(Moved(a) - 1);
  }

  lemma StartMonthIs(d: int)
    requires MonthOf(d) >= 0
    ensures MonthOf(StartOfUtcMonth(d)) == Moved(MonthOf(d))
  {
    UtcMonthIs(d, 0);
    MonthOfStart(Moved(MonthOf(d)));
  }

  lemma PreviousLabelFits(a: int, last: int)
    requires a >= 0 && last == AddUtcDays(MonthStart(a), -1)
    ensures MonthOf(StartOfUtcMonth(last)) == MonthOf(last) <==> a != 1200
  {
    DayBeforeMonth(a);
    StartMonthIs(last);
  }

  lemma MonthlyLabels(start: int, end: int)
    requires start == MonthStart(MonthOf(start)) && end == MonthStart(MonthOf(end)) && YearOf(end) >= 100 && MonthOf(start) >= 0
    ensures var r := MonthlyRanges(start, end);
            LabelFits(Monthly, r.current) && (LabelFits(Monthly, r.previous) <==> MonthOf(start) != 1200)
  {
    LastDayOfMonth(end);
    PreviousLabelFits(MonthOf(start), AddUtcDays(start, -1));
  }

  /** The labels name the first and the last day or month of their range, except that the previous range that ends
      with the year 99 is labelled as if with 1999. */
  lemma LabelsFitExactlyWhen(period: Period, from: Option<int>, to: Option<int>, today: int)
    requires Parsed(from) && Parsed(to) && YearOf(today) >= 100
    requires ResolveRevenueRanges(period, from, to, today).Ok?
    ensures var r := ResolveRevenueRanges(period, from, to, today).value;
            && LabelFits(period, r.current)
            && (LabelFits(period, r.previous) <==>
                  period.Daily? || (if from.Some? then MonthOf(from.value) != 1200 else MonthOf(to.GetOr(today)) != 1211))
  {
    if period.Monthly? {
      var end := CurrentEnd(Monthly, to, today);
      MonthsAsked(from, to, today);
      MonthlyLabels(CurrentStart(Monthly, from, end), end);
    }
  }

  // ----- the series -----

  /** A row of the breakdown query; its total in millionths. */
  datatype Row = Row(bucket: int, total: int, count: nat)

  datatype Point = Point(date: int, feeRevenueUsd: int, settlementCount: nat)

  function Label(period: Period, cursor: int): int {
    if period.Daily? then cursor else MonthOf(cursor)
  }

  function Next(period: Period, cursor: int): int {
    if period.Daily? then AddUtcDays(cursor, 1) else AddUtcMonths(cursor, 1)
  }

  lemma NextIsLater(period: Period, cursor: int)
    ensures Next(period, cursor) > cursor
  {
    var month := MonthOf(cursor);
    AddUtcDaysIs(cursor, 1);
    UtcMonthIs(cursor, 1);
    MonthLength(month);
    MonthsInOrder(month + 1, month + 1 + if Kept(cursor) then 0 else 22800);
  }

  /** The last row of a bucket. */
  function RowOf(rows: seq<Row>, bucket: int): Option<Row> {
    if rows == [] then None
    else if rows[|rows| - 1].bucket == bucket then Some(rows[|rows| - 1])
    else RowOf(rows[..|rows| - 1], bucket)
  }

  function PointOf(rows: seq<Row>, date: int): Point {
    match RowOf(rows, date)
    case Some(row) => Point(date, row.total, row.count)
    case None => Point(date, 0, 0)
  }

  function Series(period: Period, rows: seq<Row>, cursor: int, end: int): seq<Point>
    decreases end - cursor
  {
    if cursor >= end then [] else
      NextIsLater(period, cursor);
      [PointOf(rows, Label(period, cursor))] + Series(period, rows, Next(period, cursor), end)
  }

  lemma SeriesStep(period: Period, rows: seq<Row>, cursor: int, end: int, done: seq<Point>)
    requires cursor < end
    ensures Next(period, cursor) > cursor
    ensures done + Series(period, rows, cursor, end)
            == done + [PointOf(rows, Label(period, cursor))] + Series(period, rows, Next(period, cursor), end)
  {
    NextIsLater(period, cursor);
  }

  method BuildRevenueSeries(period: Period, range: Range, rows: seq<Row>) returns (series: seq<Point>)
    ensures series == Series(period, rows, range.start, range.endExclusive)
  {
    var values: map<int, Row> := map[];
    for i := 0 to |rows|
      invariant forall b :: (if b in values then Some(values[b]) else None) == RowOf(rows[..i], b)
    {
      values := values[rows[i].bucket := rows[i]];
      assert rows[..i + 1][..i] == rows[..i];
    }
    assert rows[..|rows|] == rows;

    series := [];
    var cursor := range.start;
    while cursor < range.endExclusive
      invariant series + Series(period, rows, cursor, range.endExclusive) == Series(period, rows, range.start, range.endExclusive)
      decreases range.endExclusive - cursor
    {
      SeriesStep(period, rows, cursor, range.endExclusive, series);
      var date := Label(period, cursor);
      assert (if date in values then Some(values[date]) else None) == RowOf(rows, date);
      series := series + [if date in values then Point(date, values[date].total, values[date].count) else Point(date, 0, 0)];
      cursor := Next(period, cursor);
    }
  }

  /** One point for each of the `n` buckets from `first` on. */
  function Points(rows: seq<Row>, first: int, n: nat): (p: seq<Point>)
    ensures |p| == n
  {
    if n == 0 then [] else Points(rows, first, n - 1) + [PointOf(rows, first + n - 1)]
  }

  lemma {:induction false} PointsFront(rows: seq<Row>, first: int, n: nat)
    requires n > 0
    ensures Points(rows, first, n) == [PointOf(rows, first)] + Points(rows, first + 1, n - 1)
    decreases n
  {
    if n > 1 {
      PointsFront(rows, first, n - 1);
    }
  }

  /** The buckets from a cursor to the end of the range are the `n` from `first` on. */
  predicate Covers(period: Period, cursor: int, end: int, first: int, n: nat) {
    && YearOf(cursor) >= 100
    && if period.Daily? then cursor == first && end == first + n
       else cursor == MonthStart(first) && end == MonthStart(first + n)
  }

  lemma CoversNext(period: Period, cursor: int, end: int, first: int, n: nat)
    requires Covers(period, cursor, end, first, n) && n > 0
    ensures Label(period, cursor) == first && cursor < end
    ensures Covers(period, Next(period, cursor), end, first + 1, n - 1)
  {
    NextIsLater(period, cursor);
    MonthOfMonotone(cursor, Next(period, cursor));
    AddUtcDaysIs(cursor, 1);
    if period.Monthly? {
      MonthOfStart(first);
      UtcMonthIs(cursor, 1);
      MonthsInOrder(first, first + n);
    }
  }

  lemma {:induction false} SeriesIs(period: Period, rows: seq<Row>, cursor: int, end: int, first: int, n: nat)
    requires Covers(period, cursor, end, first, n)
    ensures Series(period, rows, cursor, end) == Points(rows, first, n)
    decreases n
  {
    if n > 0 {
      CoversNext(period, cursor, end, first, n);
      PointsFront(rows, first, n);
      SeriesIs(period, rows, Next(period, cursor), end, first + 1, n - 1);
    }
  }

  /** The number of buckets of a range. */
  function Buckets(period: Period, r: Range): int {
    if period.Daily? then r.endInclusive - r.start + 1 else MonthOf(r.endInclusive) - MonthOf(r.start) + 1
  }

  lemma {:induction false} PointsInOrder(rows: seq<Row>, first: int, n: nat, i: nat)
    requires i < n
    ensures Points(rows, first, n)[i] == PointOf(rows, first + i) && Points(rows, first, n)[i].date == first + i
    decreases n
  {
    if i < n - 1 {
      PointsInOrder(rows, first, n - 1, i);
    }
  }

  lemma DailyCovers(r: Ranges)
    requires DaysAdjoin(r) && YearOf(r.current.start) >= 100 && r.current.start <= r.current.endInclusive
    ensures Buckets(Daily, r.current) > 0
    ensures Covers(Daily, r.current.start, r.current.endExclusive, Label(Daily, r.current.start), Buckets(Daily, r.current))
  {
  }

  lemma MonthlyCovers(r: Ranges)
    requires MonthsAdjoin(r) && YearOf(r.current.start) >= 100
    ensures Buckets(Monthly, r.current) > 0
    ensures Covers(Monthly, r.current.start, r.current.endExclusive, Label(Monthly, r.current.start), Buckets(Monthly, r.current))
  {
  }

  lemma SeriesFromYear100(period: Period, from: Option<int>, to: Option<int>, today: int, rows: seq<Row>)
    requires Parsed(from) && Parsed(to) && YearOf(today) >= 100
    requires ResolveRevenueRanges(period, from, to, today).Ok?
    requires YearOf(ResolveRevenueRanges(period, from, to, today).value.current.start) >= 100
    ensures var r := ResolveRevenueRanges(period, from, to, today).value.current;
            && Buckets(period, r) > 0
            && Series(period, rows, r.start, r.endExclusive) == Points(rows, Label(period, r.start), Buckets(period, r))
  {
    var r := ResolveRevenueRanges(period, from, to, today).value;
    if period.Daily? {
      DailyAdjoinByStart(from, to, today);
      DailyCovers(r);
    } else {
      MonthlyAdjoinByStart(from, to, today);
      MonthlyCovers(r);
    }
    SeriesIs(period, rows, r.current.start, r.current.endExclusive, Label(period, r.current.start), Buckets(period, r.current));
  }

  lemma LateLabel(period: Period, cursor: int)
    requires !Kept(cursor)
    ensures Label(period, Next(period, cursor)) > Label(period, cursor) + 1
  {
    AddUtcDaysIs(cursor, 1);
    UtcMonthIs(cursor, 1);
    MonthOfStart(MonthOf(cursor) + 1 + 22800);
  }

  lemma SeriesSkips(period: Period, rows: seq<Row>, cursor: int, end: int, n: nat)
    requires !Kept(cursor) && n >= 2
    ensures Series(period, rows, cursor, end) != Points(rows, Label(period, cursor), n)
  {
    LateLabel(period, cursor);
    PointsInOrder(rows, Label(period, cursor), n, 1);
    var next := Next(period, cursor);
    if cursor < end {
      if next < end {
        assert Series(period, rows, next, end)[0] == PointOf(rows, Label(period, next));
        assert Series(period, rows, cursor, end)[1] == Series(period, rows, next, end)[0];
      }
    }
  }

  lemma DefaultMonths(to: Option<int>, today: int)
    requires Parsed(to) && YearOf(today) >= 0
    ensures var end := CurrentEnd(Monthly, to, today);
            Buckets(Monthly, MonthlyRanges(CurrentStart(Monthly, None, end), end).current) == 12
  {
    var end := CurrentEnd(Monthly, to, today);
    MonthlyBounds(None, to, today);
    UtcMonthIs(end, -11);
    MonthOfStart(MonthOf(end) - 11);
    LastDayOfMonth(end);
  }

  lemma OneBucketSeries(rows: seq<Row>, day: int)
    ensures Series(Daily, rows, day, AddUtcDays(day, 1)) == Points(rows, day, 1)
  {
    NextIsLater(Daily, day);
    assert Points(rows, day, 1) == Points(rows, day, 0) + [PointOf(rows, day)];
  }

  lemma SeriesBeforeYear100(period: Period, from: Option<int>, to: Option<int>, today: int, rows: seq<Row>)
    requires Parsed(from) && Parsed(to) && YearOf(today) >= 100
    requires ResolveRevenueRanges(period, from, to, today).Ok?
    requires YearOf(ResolveRevenueRanges(period, from, to, today).value.current.start) < 100
    ensures var r := ResolveRevenueRanges(period, from, to, today).value.current;
            && Buckets(period, r) > 0
            && (Series(period, rows, r.start, r.endExclusive) == Points(rows, Label(period, r.start), Buckets(period, r))
                <==> Buckets(period, r) == 1)
  {
    var r := ResolveRevenueRanges(period, from, to, today).value.current;
    if period.Daily? {
      AddUtcDaysIs(today, 0);
      DailyStartNotNegative(from, CurrentEnd(Daily, to, today));
    } else {
      DefaultMonths(to, today);
      MonthlyBounds(from, to, today);
    }
    if Buckets(period, r) >= 2 {
      SeriesSkips(period, rows, r.start, r.endExclusive, Buckets(period, r));
    } else {
      OneBucketSeries(rows, r.start);
    }
  }

  lemma EarlyBuckets(period: Period, from: Option<int>, to: Option<int>, today: int)
    requires Parsed(from) && Parsed(to) && YearOf(today) >= 100
    requires ResolveRevenueRanges(period, from, to, today).Ok? && !StartsLate(period, from, to, today)
    ensures Buckets(period, ResolveRevenueRanges(period, from, to, today).value.current) == 1
            <==> period.Daily? && from.Some? && to == from
  {
    if period.Daily? {
      AddUtcDaysIs(today, 0);
      AddUtcDaysIs(to.GetOr(today), -29);
    } else {
      DefaultMonths(to, today);
    }
  }

  /** The series has one point for each bucket of the range, in order, exactly when the range starts late enough or
      one early day is asked for. */
  lemma SeriesHasEveryBucket(period: Period, from: Option<int>, to: Option<int>, today: int, rows: seq<Row>)
    requires Parsed(from) && Parsed(to) && YearOf(today) >= 100
    requires ResolveRevenueRanges(period, from, to, today).Ok?
    ensures var r := ResolveRevenueRanges(period, from, to, today).value.current;
            && Buckets(period, r) > 0
            && (Series(period, rows, r.start, r.endExclusive) == Points(rows, Label(period, r.start), Buckets(period, r))
                <==> StartsLate(period, from, to, today) || (period.Daily? && from.Some? && to == from))
  {
    if period.Daily? {
      DailyStartIsLate(from, to, today);
    } else {
      MonthlyStartIsLate(from, to, today);
    }
    if StartsLate(period, from, to, today) {
      SeriesFromYear100(period, from, to, today, rows);
    } else {
      SeriesBeforeYear100(period, from, to, today, rows);
      EarlyBuckets(period, from, to, today);
    }
  }

  // ----- the sum of the series -----

  function Fees(series: seq<Point>): int {
    if series == [] then 0 else Fees(series[..|series| - 1]) + series[|series| - 1].feeRevenueUsd
  }

  predicate DistinctBuckets(rows: seq<Row>) {
    forall i, j :: 0 <= i < j < |rows| ==> rows[i].bucket != rows[j].bucket
  }

  /** The totals of the rows with a bucket among the `n` from `first` on. */
  function InRange(rows: seq<Row>, first: int, n: nat): int {
    if rows == [] then 0 else
      var row := rows[|rows| - 1];
      InRange(rows[..|rows| - 1], first, n) + if first <= row.bucket < first + n then row.total else 0
  }

  lemma {:induction false} NoRowOf(rows: seq<Row>, bucket: int)
    requires forall i :: 0 <= i < |rows| ==> rows[i].bucket != bucket
    ensures RowOf(rows, bucket) == None
    decreases |rows|
  {
    if rows != [] {
      NoRowOf(rows[..|rows| - 1], bucket);
    }
  }

  lemma {:induction false} RowOfIs(rows: seq<Row>, i: nat)
    requires i < |rows| && forall j :: i < j < |rows| ==> rows[j].bucket != rows[i].bucket
    ensures RowOf(rows, rows[i].bucket) == Some(rows[i])
    decreases |rows|
  {
    if i < |rows| - 1 {
      RowOfIs(rows[..|rows| - 1], i);
    }
  }

  /** A point has the total and the count of its bucket's last row, the only one if the buckets are distinct, and zeros without one. */
  lemma PointIsRow(rows: seq<Row>, date: int)
    ensures forall i :: 0 <= i < |rows| && rows[i].bucket == date && (forall j :: i < j < |rows| ==> rows[j].bucket != date) ==>
              PointOf(rows, date) == Point(date, rows[i].total, rows[i].count)
    ensures (forall i :: 0 <= i < |rows| ==> rows[i].bucket != date) ==> PointOf(rows, date) == Point(date, 0, 0)
  {
    forall i | 0 <= i < |rows| && rows[i].bucket == date && (forall j :: i < j < |rows| ==> rows[j].bucket != date)
      ensures PointOf(rows, date) == Point(date, rows[i].total, rows[i].count)
    {
      RowOfIs(rows, i);
    }
    if forall i :: 0 <= i < |rows| ==> rows[i].bucket != date {
      NoRowOf(rows, date);
    }
  }

  function RangeFees(rows: seq<Row>, first: int, n: nat): int {
    if n == 0 then 0 else RangeFees(rows, first, n - 1) + PointOf(rows, first + n - 1).feeRevenueUsd
  }

  lemma {:induction false} FeesAreRangeFees(rows: seq<Row>, first: int, n: nat)
    ensures Fees(Points(rows, first, n)) == RangeFees(rows, first, n)
    decreases n
  {
    if n > 0 {
      FeesAreRangeFees(rows, first, n - 1);
      assert Points(rows, first, n)[..n - 1] == Points(rows, first, n - 1);
    }
  }

  lemma {:induction false} NoRangeFees(first: int, n: nat)
    ensures RangeFees([], first, n) == 0
    decreases n
  {
    if n > 0 {
      NoRangeFees(first, n - 1);
    }
  }

  lemma PointOneRowMore(rows: seq<Row>, row: Row, date: int)
    requires RowOf(rows, row.bucket) == None
    ensures PointOf(rows + [row], date).feeRevenueUsd
            == PointOf(rows, date).feeRevenueUsd + if date == row.bucket then row.total else 0
  {
    assert (rows + [row])[..|rows|] == rows;
  }

  lemma {:induction false} OneRowMore(rows: seq<Row>, row: Row, first: int, n: nat)
    requires RowOf(rows, row.bucket) == None
    ensures RangeFees(rows + [row], first, n)
            == RangeFees(rows, first, n) + if first <= row.bucket < first + n then row.total else 0
    decreases n
  {
    if n > 0 {
      OneRowMore(rows, row, first, n - 1);
      PointOneRowMore(rows, row, first + n - 1);
    }
  }

  lemma {:induction false} RangeFeesAddUp(rows: seq<Row>, first: int, n: nat)
    requires DistinctBuckets(rows)
    ensures RangeFees(rows, first, n) == InRange(rows, first, n)
    decreases |rows|
  {
    if rows == [] {
      NoRangeFees(first, n);
    } else {
      var front, row := rows[..|rows| - 1], rows[|rows| - 1];
      RangeFeesAddUp(front, first, n);
      NoRowOf(front, row.bucket);
      OneRowMore(front, row, first, n);
      assert front + [row] == rows;
    }
  }

  lemma PointsAddUp(rows: seq<Row>, first: int, n: nat)
    requires DistinctBuckets(rows)
    ensures Fees(Points(rows, first, n)) == InRange(rows, first, n)
  {
    FeesAreRangeFees(rows, first, n);
    RangeFeesAddUp(rows, first, n);
  }

  /** The fees of a range's series add up to the totals of the rows in the range; the query groups by bucket. */
  lemma SeriesAddsUp(period: Period, from: Option<int>, to: Option<int>, today: int, rows: seq<Row>)
    requires Parsed(from) && Parsed(to) && YearOf(today) >= 100 && DistinctBuckets(rows)
    requires ResolveRevenueRanges(period, from, to, today).Ok?
    requires StartsLate(period, from, to, today) || (period.Daily? && from.Some? && to == from)
    ensures var r := ResolveRevenueRanges(period, from, to, today).value.current;
            && Buckets(period, r) > 0
            && Fees(Series(period, rows, r.start, r.endExclusive)) == InRange(rows, Label(period, r.start), Buckets(period, r))
  {
    var r := ResolveRevenueRanges(period, from, to, today).value.current;
    SeriesHasEveryBucket(period, from, to, today, rows);
    PointsAddUp(rows, Label(period, r.start), Buckets(period, r));
  }
}
