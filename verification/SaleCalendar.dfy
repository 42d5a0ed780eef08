/** The calendar of statistics/tasks.py and the roll-up of daily rows over weeks, months, quarters and
    years. Dates are proleptic Gregorian, counted in days as Python's `toordinal` counts them. */
module SaleCalendar {
  import opened SaleStats

  datatype Date = Date(year: int, month: int, day: int)

  predicate Leap(y: int) {
    y % 4 == 0 && (y % 100 != 0 || y % 400 == 0)
  }

  function MonthDays(y: int, m: int): int {
    if m == 2 then if Leap(y) then 29 else 28
    else if m == 4 || m == 6 || m == 9 || m == 11 then 30
    else 31
  }

  predicate Valid(d: Date) {
    1 <= d.year && 1 <= d.month <= 12 && 1 <= d.day <= MonthDays(d.year, d.month)
  }

  function YearDays(y: int): int {
    if Leap(y) then 366 else 365
  }

  function DaysBeforeYear(y: int): int
    decreases y
  {
    if y <= 1 then 0 else DaysBeforeYear(y - 1) + YearDays(y - 1)
  }

  /** The days of a year before a month; month 13 stands for the end of the year. */
  function DaysBeforeMonth(y: int, m: nat): int
    decreases m
  {
    if m <= 1 then 0 else DaysBeforeMonth(y, m - 1) + MonthDays(y, m - 1)
  }

  function Ordinal(d: Date): int
    requires Valid(d)
  {
    DaysBeforeYear(d.year) + DaysBeforeMonth(d.year, d.month) + d.day
  }

  /** Monday is 0. */
  function Weekday(ordinal: int): int {
    (ordinal + 6) % 7
  }

  // ---- Years and months follow one another ----

  /** The closed form by which Python counts the days before a year. */
  lemma {:induction false} DaysBeforeYearClosed(y: int)
    requires 1 <= y
    ensures DaysBeforeYear(y) == 365 * (y - 1) + (y - 1) / 4 - (y - 1) / 100 + (y - 1) / 400
    decreases y
  {
    if y > 1 {
      DaysBeforeYearClosed(y - 1);
      LeapQuotients(y - 1);
    }
  }

  lemma LeapQuotients(y: int)
    ensures y / 4 - (y - 1) / 4 - (y / 100 - (y - 1) / 100) + (y / 400 - (y - 1) / 400) == if Leap(y) then 1 else 0
  {
    Quotient(y, 4);
    Quotient(y, 100);
    Quotient(y, 400);
    Multiples(y);
  }

  lemma Multiples(y: int)
    ensures y % 400 == 0 ==> y % 100 == 0
    ensures y % 100 == 0 ==> y % 4 == 0
  {
    Hundreds(y, y / 400);
    Fours(y, y / 100);
  }

  lemma Hundreds(y: int, q: int)
    ensures y == 400 * q ==> y % 100 == 0
  {
    var h := 4 * q;
    assert y == 400 * q ==> y == 100 * h;
  }

  lemma Fours(y: int, q: int)
    ensures y == 100 * q ==> y % 4 == 0
  {
    var h := 25 * q;
    assert y == 100 * q ==> y == 4 * h;
  }

  lemma Quotient(y: int, k: int)
    requires k == 4 || k == 100 || k == 400
    ensures y / k - (y - 1) / k == if y % k == 0 then 1 else 0
  {
  }

  lemma MonthsFill(y: int)
    ensures DaysBeforeMonth(y, 13) == YearDays(y)
    ensures DaysBeforeMonth(y, 4) == DaysBeforeMonth(y, 3) + 31
    ensures DaysBeforeMonth(y, 7) == DaysBeforeMonth(y, 6) + 30
    ensures DaysBeforeMonth(y, 10) == DaysBeforeMonth(y, 9) + 30
  {
    assert DaysBeforeMonth(y, 2) == 31;
    assert DaysBeforeMonth(y, 4) == 62 + MonthDays(y, 2);
    assert DaysBeforeMonth(y, 6) == 123 + MonthDays(y, 2);
    assert DaysBeforeMonth(y, 8) == 184 + MonthDays(y, 2);
    assert DaysBeforeMonth(y, 10) == 245 + MonthDays(y, 2);
    assert DaysBeforeMonth(y, 12) == 306 + MonthDays(y, 2);
  }

  lemma {:induction false} MonthsGrow(y: int, m: nat, n: nat)
    requires 1 <= m < n <= 13
    ensures DaysBeforeMonth(y, m) + MonthDays(y, m) <= DaysBeforeMonth(y, n)
    decreases n
  {
    if m < n - 1 {
      MonthsGrow(y, m, n - 1);
    }
  }

  lemma {:induction false} YearsGrow(y: int, z: int)
    requires 1 <= y < z
    ensures DaysBeforeYear(y + 1) <= DaysBeforeYear(z)
    decreases z - y
  {
    if y + 1 < z {
      YearsGrow(y, z - 1);
    }
  }

  /** A day lies in its year and in its month. */
  lemma InYearAndMonth(d: Date)
    requires Valid(d)
    ensures DaysBeforeYear(d.year) < Ordinal(d) <= DaysBeforeYear(d.year + 1)
    ensures var start := DaysBeforeYear(d.year);
      start + DaysBeforeMonth(d.year, d.month) < Ordinal(d) <= start + DaysBeforeMonth(d.year, d.month + 1)
    ensures DaysBeforeMonth(d.year, d.month + 1) <= DaysBeforeMonth(d.year, 13)
    ensures DaysBeforeMonth(d.year, d.month) >= 0
  {
    MonthsFill(d.year);
    if d.month < 12 {
      MonthsGrow(d.year, d.month + 1, 13);
    }
    if d.month > 1 {
      MonthsGrow(d.year, 1, d.month);
    }
  }

  lemma YearOfDay(d: Date, y: int)
    requires Valid(d) && 1 <= y
    ensures DaysBeforeYear(y) < Ordinal(d) <= DaysBeforeYear(y + 1) <==> d.year == y
  {
    InYearAndMonth(d);
    if d.year < y {
      YearsGrow(d.year, y);
    } else if y < d.year {
      YearsGrow(y, d.year);
    }
  }

  lemma MonthStretch(y: int, k: nat, m: nat, n: nat, x: int)
    requires 1 <= k <= 12 && 1 <= m < n <= 13
    requires DaysBeforeMonth(y, k) < x <= DaysBeforeMonth(y, k + 1)
    ensures DaysBeforeMonth(y, m) < x <= DaysBeforeMonth(y, n) <==> m <= k < n
  {
    if k < m {
      MonthsGrow(y, k, m);
    } else if m < k {
      MonthsGrow(y, m, k);
    }
    if n < k {
      MonthsGrow(y, n, k);
    } else if k < n {
      MonthsGrow(y, k, n);
    }
  }

  /** A stretch of months from `m` up to but not including `n`. */
  lemma MonthsOfDay(d: Date, y: int, m: nat, n: nat)
    requires Valid(d) && 1 <= y && 1 <= m < n <= 13
    ensures DaysBeforeYear(y) + DaysBeforeMonth(y, m) < Ordinal(d) <= DaysBeforeYear(y) + DaysBeforeMonth(y, n)
      <==> d.year == y && m <= d.month < n
  {
    InYearAndMonth(d);
    if d.year == y {
      MonthStretch(y, d.month, m, n, Ordinal(d) - DaysBeforeYear(y));
    } else {
      YearOfDay(d, y);
      MonthsFill(y);
      if n < 13 {
        MonthsGrow(y, n, 13);
      }
      if 1 < m {
        MonthsGrow(y, 1, m);
      }
    }
  }

  // ---- Periods ----

  datatype Period = Week | Month | Quarter | Year

  datatype Range = Range(from: int, to: int)

  predicate Contains(r: Range, ordinal: int) {
    r.from <= ordinal <= r.to
  }

  /** The first and the last day of the period of a date. */
  function RangeOf(d: Date, p: Period): Range
    requires Valid(d)
  {
    match p
    case Week =>
      var from := Ordinal(d) - Weekday(Ordinal(d));
      Range(from, from + 6)
    case Month =>
      Range(Ordinal(Date(d.year, d.month, 1)), Ordinal(Date(d.year, d.month, MonthDays(d.year, d.month))))
    case Quarter =>
      if d.month in [1, 2, 3] then Range(Ordinal(Date(d.year, 1, 1)), Ordinal(Date(d.year, 3, 31)))
      else if d.month in [4, 5, 6] then Range(Ordinal(Date(d.year, 4, 1)), Ordinal(Date(d.year, 6, 30)))
      else if d.month in [7, 8, 9] then Range(Ordinal(Date(d.year, 7, 1)), Ordinal(Date(d.year, 9, 30)))
      else Range(Ordinal(Date(d.year, 10, 1)), Ordinal(Date(d.year, 12, 31)))
    case Year =>
      Range(Ordinal(Date(d.year, 1, 1)), Ordinal(Date(d.year, 12, 31)))
  }

  function QuarterStart(m: int): int
    requires 1 <= m <= 12
  {
    if m <= 3 then 1 else if m <= 6 then 4 else if m <= 9 then 7 else 10
  }

  /** The first month of a period that is not a week, and the month behind it. */
  function FirstMonth(m: int, p: Period): (first: nat)
    requires 1 <= m <= 12
    ensures 1 <= first <= m
  {
    if p == Month then m else if p == Quarter then QuarterStart(m) else 1
  }

  function NextMonth(m: int, p: Period): (next: nat)
    requires 1 <= m <= 12
    ensures m < next <= 13
  {
    if p == Month then m + 1 else if p == Quarter then QuarterStart(m) + 3 else 13
  }

  function Months(y: int, m: nat, n: nat): Range {
    Range(DaysBeforeYear(y) + DaysBeforeMonth(y, m) + 1, DaysBeforeYear(y) + DaysBeforeMonth(y, n))
  }

  /** Months, quarters and years are stretches of whole months. */
  lemma RangeIsMonths(d: Date, p: Period)
    requires Valid(d) && p != Week
    ensures RangeOf(d, p) == Months(d.year, FirstMonth(d.month, p), NextMonth(d.month, p))
  {
    if p == Quarter {
      QuarterIsRange(d);
    } else if p == Year {
      MonthsFill(d.year);
    }
  }

  lemma QuarterIsRange(d: Date)
    requires Valid(d)
    ensures RangeOf(d, Quarter) == Months(d.year, QuarterStart(d.month), QuarterStart(d.month) + 3)
  {
    MonthsFill(d.year);
  }

  /** The days of a year before each month: 31 of January, 28 or 29 of February, and so on. */
  lemma MonthTable(y: int)
    ensures var leap := if y % 4 == 0 && (y % 100 != 0 || y % 400 == 0) then 1 else 0;
      && DaysBeforeMonth(y, 1) == 0 && DaysBeforeMonth(y, 2) == 31 && DaysBeforeMonth(y, 3) == 59 + leap
      && DaysBeforeMonth(y, 4) == 90 + leap && DaysBeforeMonth(y, 5) == 120 + leap
      && DaysBeforeMonth(y, 6) == 151 + leap && DaysBeforeMonth(y, 7) == 181 + leap
      && DaysBeforeMonth(y, 8) == 212 + leap && DaysBeforeMonth(y, 9) == 243 + leap
      && DaysBeforeMonth(y, 10) == 273 + leap && DaysBeforeMonth(y, 11) == 304 + leap
      && DaysBeforeMonth(y, 12) == 334 + leap && DaysBeforeMonth(y, 13) == 365 + leap
  {
    assert DaysBeforeMonth(y, 3) == 31 + MonthDays(y, 2);
    assert DaysBeforeMonth(y, 5) == 92 + MonthDays(y, 2);
    assert DaysBeforeMonth(y, 7) == 153 + MonthDays(y, 2);
    assert DaysBeforeMonth(y, 9) == 215 + MonthDays(y, 2);
    assert DaysBeforeMonth(y, 11) == 276 + MonthDays(y, 2);
  }

  /** A week goes from Monday to Sunday: day 1, the first of January of year 1, was a Monday. */
  lemma WeeksStartOnMonday(d: Date)
    requires Valid(d)
    ensures RangeOf(d, Week).from % 7 == 1 && RangeOf(d, Week).to == RangeOf(d, Week).from + 6
    ensures Contains(RangeOf(d, Week), Ordinal(d))
  {
    MondayBefore(Ordinal(d), RangeOf(d, Week));
  }

  lemma FirstDay()
    ensures Ordinal(Date(1, 1, 1)) == 1
  {
  }

  lemma MondayBefore(o: int, r: Range)
    requires r == Range(o - Weekday(o), o - Weekday(o) + 6)
    ensures r.from % 7 == 1 && Contains(r, o)
  {
    var x := (o + 6) / 7 - 1;
    assert r.from == 7 * x + 1;
  }

  /** A month ends on the day before the next one starts. */
  lemma MonthBorders(d: Date)
    requires Valid(d)
    ensures RangeOf(d, Month)
         == Range(Ordinal(Date(d.year, d.month, 1)), NextFirst(d.year, d.month + 1) - 1)
  {
    RangeIsMonths(d, Month);
    MonthStarts(d.year, d.month);
    MonthStarts(d.year, d.month + 1);
  }

  /** Quarters start on the first of January, April, July and October. */
  lemma QuarterBorders(d: Date, q: int)
    requires Valid(d) && q == 3 * ((d.month - 1) / 3) + 1
    ensures RangeOf(d, Quarter) == Range(Ordinal(Date(d.year, q, 1)), NextFirst(d.year, q + 3) - 1)
  {
    QuarterIsRange(d);
    assert q == QuarterStart(d.month);
    MonthStarts(d.year, q);
    MonthStarts(d.year, q + 3);
  }

  lemma YearBorders(d: Date)
    requires Valid(d)
    ensures RangeOf(d, Year) == Range(NextFirst(d.year, 1), NextFirst(d.year, 13) - 1)
  {
    RangeIsMonths(d, Year);
    MonthStarts(d.year, 1);
    MonthStarts(d.year, 13);
  }

  lemma MonthStarts(y: int, m: nat)
    requires 1 <= y && 1 <= m <= 13
    ensures NextFirst(y, m) == DaysBeforeYear(y) + DaysBeforeMonth(y, m) + 1
    ensures m <= 12 ==> NextFirst(y, m) == Ordinal(Date(y, m, 1))
  {
    MonthsFill(y);
  }

  /** The first of a month, where month 13 is January of the next year. */
  function NextFirst(y: int, m: int): int
    requires 1 <= y && 1 <= m <= 13
  {
    if m == 13 then Ordinal(Date(y + 1, 1, 1)) else Ordinal(Date(y, m, 1))
  }

  lemma WeekOf(a: int, b: int)
    ensures a - Weekday(a) <= b <= a - Weekday(a) + 6 <==> b - Weekday(b) == a - Weekday(a)
  {
    var x, y := (a + 6) / 7, (b + 6) / 7;
    assert a + 6 == 7 * x + Weekday(a) && b + 6 == 7 * y + Weekday(b);
    assert a - Weekday(a) == 7 * x - 6 && b - Weekday(b) == 7 * y - 6;
  }

  lemma ContainsMonths(a: Date, b: Date, p: Period)
    requires Valid(a) && Valid(b) && p != Week
    ensures Contains(RangeOf(a, p), Ordinal(b))
      <==> b.year == a.year && FirstMonth(a.month, p) <= b.month < NextMonth(a.month, p)
  {
    RangeIsMonths(a, p);
    MonthsOfDay(b, a.year, FirstMonth(a.month, p), NextMonth(a.month, p));
  }

  /** Each kind of period tiles the calendar: a date is in the period of another exactly when they have
      the same period. In particular every period contains its own date. */
  lemma SamePeriod(a: Date, b: Date, p: Period)
    requires Valid(a) && Valid(b)
    ensures Contains(RangeOf(a, p), Ordinal(b)) <==> RangeOf(b, p) == RangeOf(a, p)
    ensures Contains(RangeOf(a, p), Ordinal(a))
  {
    if p == Week {
      WeekOf(Ordinal(a), Ordinal(b));
      WeekOf(Ordinal(a), Ordinal(a));
    } else {
      ContainsMonths(a, a, p);
      ContainsMonths(a, b, p);
      ContainsMonths(b, b, p);
      if Contains(RangeOf(a, p), Ordinal(b)) {
        assert FirstMonth(b.month, p) == FirstMonth(a.month, p);
        assert NextMonth(b.month, p) == NextMonth(a.month, p);
        RangeIsMonths(a, p);
        RangeIsMonths(b, p);
      }
    }
  }

  /** Different days have different numbers. */
  lemma OrdinalInjective(a: Date, b: Date)
    requires Valid(a) && Valid(b) && Ordinal(a) == Ordinal(b)
    ensures a == b
  {
    MonthsOfDay(a, a.year, a.month, a.month + 1);
    MonthsOfDay(b, a.year, a.month, a.month + 1);
  }

  // ---- Sums over days ----

  /** The daily rows of one id, record type and status; a missing day counts as nothing. */
  type Days = map<int, Amount>

  function DayAmount(days: Days, o: int): Amount {
    if o in days then days[o] else ZERO
  }

  function DayParts(days: Days, from: int, n: nat): seq<Amount> {
    seq(n, i requires 0 <= i < n => DayAmount(days, from + i))
  }

  /** What the aggregation query returns for a stretch of days. */
  function DaySum(days: Days, r: Range): Amount {
    Sum(DayParts(days, r.from, if r.from <= r.to then r.to - r.from + 1 else 0))
  }

  lemma {:induction false} SumAppend(a: seq<Amount>, b: seq<Amount>)
    ensures Sum(a + b) == Plus(Sum(a), Sum(b))
  {
    if a == [] {
      assert a + b == b;
    } else {
      assert (a + b)[1..] == a[1..] + b;
      SumAppend(a[1..], b);
    }
  }

  lemma DaySumSplit(days: Days, from: int, mid: int, to: int)
    requires from <= mid < to
    ensures DaySum(days, Range(from, to)) == Plus(DaySum(days, Range(from, mid)), DaySum(days, Range(mid + 1, to)))
  {
    var a, b := DayParts(days, from, mid - from + 1), DayParts(days, mid + 1, to - mid);
    assert DayParts(days, from, to - from + 1) == a + b;
    SumAppend(a, b);
  }

  lemma DayAmountUpdate(days: Days, o: int, a: Amount, i: int)
    ensures DayAmount(days[o := a], i) == if i == o then a else DayAmount(days, i)
  {
    if i == o {
      assert days[o := a][i] == a;
    } else {
      assert i in days[o := a] <==> i in days;
    }
  }

  lemma DaySumUpdate(days: Days, r: Range, o: int, a: Amount)
    requires r.from <= r.to
    ensures DaySum(days[o := a], r)
      == if Contains(r, o)
         then Plus(DaySum(days, r), Amount(a.num - DayAmount(days, o).num, a.pay - DayAmount(days, o).pay))
         else DaySum(days, r)
  {
    var n := r.to - r.from + 1;
    var before, after := DayParts(days, r.from, n), DayParts(days[o := a], r.from, n);
    forall i | 0 <= i < n
      ensures after[i] == if i == o - r.from then a else before[i]
    {
      DayAmountUpdate(days, o, a, r.from + i);
    }
    if Contains(r, o) {
      assert after == before[o - r.from := a];
      assert before[o - r.from] == DayAmount(days, o);
      SumUpdate(before, o - r.from, a);
    } else {
      assert after == before;
    }
  }

  function FirstOf(y: int, m: int): (d: Date)
    requires 1 <= y && 1 <= m <= 12
    ensures Valid(d) && d.year == y && d.month == m
  {
    Date(y, m, 1)
  }

  predicate SumOfTwo(total: Amount, a: Amount, b: Amount) {
    total.num == a.num + b.num && total.pay == a.pay + b.pay
  }

  predicate SumOfThree(total: Amount, a: Amount, b: Amount, c: Amount) {
    total.num == a.num + b.num + c.num && total.pay == a.pay + b.pay + c.pay
  }

  predicate SumOfFour(total: Amount, a: Amount, b: Amount, c: Amount, d: Amount) {
    total.num == a.num + b.num + c.num + d.num && total.pay == a.pay + b.pay + c.pay + d.pay
  }

  /** The sum over the period of the first day of a month. */
  function PeriodSum(days: Days, y: int, m: int, p: Period): Amount
    requires 1 <= y && 1 <= m <= 12
  {
    DaySum(days, RangeOf(FirstOf(y, m), p))
  }

  function MonthsSum(days: Days, y: int, m: nat, n: nat): Amount {
    DaySum(days, Months(y, m, n))
  }

  lemma {:induction false} PeriodIsMonths(days: Days, y: int, m: int, p: Period)
    requires 1 <= y && 1 <= m <= 12 && p != Week
    ensures PeriodSum(days, y, m, p) == MonthsSum(days, y, FirstMonth(m, p), NextMonth(m, p))
  {
    RangeIsMonths(FirstOf(y, m), p);
  }

  lemma MonthsSumSplit(days: Days, y: int, a: nat, b: nat, c: nat)
    requires 1 <= a < b < c <= 13
    ensures SumOfTwo(MonthsSum(days, y, a, c), MonthsSum(days, y, a, b), MonthsSum(days, y, b, c))
  {
    MonthsFollow(y, a, b, c);
    DaySumSplit(days, Months(y, a, b).from, Months(y, a, b).to, Months(y, b, c).to);
  }

  lemma MonthsFollow(y: int, a: nat, b: nat, c: nat)
    requires 1 <= a < b < c <= 13
    ensures var first, second := Months(y, a, b), Months(y, b, c);
      && Months(y, a, c) == Range(first.from, second.to)
      && second.from == first.to + 1
      && first.from <= first.to < second.to
  {
    MonthsGrow(y, a, b);
    MonthsGrow(y, b, c);
  }

  /** Quarters are made of months, years of quarters: the sums add up. */
  lemma {:induction false} QuarterIsMonths(days: Days, y: int, q: int)
    requires 1 <= y && (q == 1 || q == 4 || q == 7 || q == 10)
    ensures SumOfThree(PeriodSum(days, y, q, Quarter),
      PeriodSum(days, y, q, Month), PeriodSum(days, y, q + 1, Month), PeriodSum(days, y, q + 2, Month))
  {
    PeriodIsMonths(days, y, q, Quarter);
    PeriodIsMonths(days, y, q, Month);
    PeriodIsMonths(days, y, q + 1, Month);
    PeriodIsMonths(days, y, q + 2, Month);
    MonthsSumSplit(days, y, q, q + 2, q + 3);
    MonthsSumSplit(days, y, q, q + 1, q + 2);
  }

  lemma {:induction false} YearIsQuarters(days: Days, y: int)
    requires 1 <= y
    ensures SumOfFour(PeriodSum(days, y, 1, Year), PeriodSum(days, y, 1, Quarter),
      PeriodSum(days, y, 4, Quarter), PeriodSum(days, y, 7, Quarter), PeriodSum(days, y, 10, Quarter))
  {
    PeriodIsMonths(days, y, 1, Year);
    PeriodIsMonths(days, y, 1, Quarter);
    PeriodIsMonths(days, y, 4, Quarter);
    PeriodIsMonths(days, y, 7, Quarter);
    PeriodIsMonths(days, y, 10, Quarter);
    MonthsSumSplit(days, y, 1, 7, 13);
    MonthsSumSplit(days, y, 1, 4, 7);
    MonthsSumSplit(days, y, 7, 10, 13);
  }

  // ---- The stored period rows ----

  datatype PeriodKey = PeriodKey(period: Period, from: int)

  datatype Aggregates = Aggregates(days: Days, rows: map<PeriodKey, Amount>)

  function Stored(st: Aggregates, p: Period, from: int): Amount {
    if PeriodKey(p, from) in st.rows then st.rows[PeriodKey(p, from)] else ZERO
  }

  datatype Refreshed = Refreshed(st: Aggregates, saved: bool)

  /** `task_update_agg_sale_stats`: a missing row is created unless it counts no pieces, an existing one
      is saved if it changes. */
  function Refresh(st: Aggregates, d: Date, p: Period): Refreshed
    requires Valid(d)
  {
    var r := RangeOf(d, p);
    var key, total := PeriodKey(p, r.from), DaySum(st.days, r);
    if if key in st.rows then st.rows[key] != total else total.num != 0
    then Refreshed(st.(rows := st.rows[key := total]), true)
    else Refreshed(st, false)
  }

  predicate SaneDays(days: Days) {
    forall o :: o in days ==> Sane(days[o])
  }

  predicate UpToDate(st: Aggregates, d: Date, p: Period)
    requires Valid(d)
  {
    Stored(st, p, RangeOf(d, p).from) == DaySum(st.days, RangeOf(d, p))
  }

  ghost predicate AllUpToDate(st: Aggregates) {
    SaneDays(st.days) && forall d, p :: Valid(d) ==> UpToDate(st, d, p)
  }

  lemma DaySumIsSane(days: Days, r: Range)
    requires SaneDays(days)
    ensures Sane(DaySum(days, r))
  {
    var parts := DayParts(days, r.from, if r.from <= r.to then r.to - r.from + 1 else 0);
    forall i | 0 <= i < |parts|
      ensures Sane(parts[i])
    {
      assert parts[i] == DayAmount(days, r.from + i);
    }
    SumIsSane(parts);
  }

  lemma RangeNotEmpty(d: Date, p: Period)
    requires Valid(d)
    ensures RangeOf(d, p).from <= RangeOf(d, p).to
  {
    SamePeriod(d, d, p);
  }

  lemma RefreshSpec(st: Aggregates, d: Date, p: Period)
    requires Valid(d) && SaneDays(st.days)
    ensures var r := Refresh(st, d, p);
      && r.st.days == st.days
      && UpToDate(r.st, d, p)
      && (forall q, from :: q != p || from != RangeOf(d, p).from ==> Stored(r.st, q, from) == Stored(st, q, from))
      && (!r.saved ==> r.st == st)
  {
    DaySumIsSane(st.days, RangeOf(d, p));
  }

  /** For any amounts: a task brings its row up to date unless there was none and the days have money but
      no pieces, since such a row is not made. */
  lemma RefreshIff(st: Aggregates, d: Date, p: Period)
    requires Valid(d)
    ensures UpToDate(Refresh(st, d, p).st, d, p)
      <==> PeriodKey(p, RangeOf(d, p).from) in st.rows
           || DaySum(st.days, RangeOf(d, p)).num != 0
           || DaySum(st.days, RangeOf(d, p)) == ZERO
  {
    var r := RangeOf(d, p);
    RefreshRow(st, PeriodKey(p, r.from), DaySum(st.days, r));
  }

  lemma RefreshRow(st: Aggregates, key: PeriodKey, total: Amount)
    ensures var saves := if key in st.rows then st.rows[key] != total else total.num != 0;
      var after := if saves then st.(rows := st.rows[key := total]) else st;
      Stored(after, key.period, key.from) == total <==> key in st.rows || total.num != 0 || total == ZERO
  {
  }

  /** The first days of the month and of the quarter of a date are in the periods of the date. */
  lemma SamePeriods(d: Date)
    requires Valid(d)
    ensures RangeOf(Date(d.year, d.month, 1), Quarter) == RangeOf(d, Quarter)
    ensures RangeOf(Date(d.year, QuarterStart(d.month), 1), Year) == RangeOf(d, Year)
  {
  }

  /** Periods of one kind that start on the same day are the same. */
  lemma SamePeriodStart(a: Date, b: Date, p: Period)
    requires Valid(a) && Valid(b)
    ensures RangeOf(a, p).from == RangeOf(b, p).from <==> RangeOf(a, p) == RangeOf(b, p)
  {
    if p != Week && RangeOf(a, p).from == RangeOf(b, p).from {
      RangeIsMonths(a, p);
      RangeIsMonths(b, p);
      var c, d := Date(a.year, FirstMonth(a.month, p), 1), Date(b.year, FirstMonth(b.month, p), 1);
      OrdinalInjective(c, d);
    }
  }

  /** A changed day shows in each of its periods. */
  lemma ChangedDayShows(st: Aggregates, d: Date, a: Amount, p: Period)
    requires Valid(d) && UpToDate(st, d, p)
    ensures UpToDate(st.(days := st.days[Ordinal(d) := a]), d, p) <==> a == DayAmount(st.days, Ordinal(d))
  {
    SamePeriod(d, d, p);
    ChangedSum(st.days, RangeOf(d, p), Ordinal(d), a);
  }

  lemma ChangedSum(days: Days, r: Range, o: int, a: Amount)
    requires Contains(r, o)
    ensures DaySum(days[o := a], r) == DaySum(days, r) <==> a == DayAmount(days, o)
  {
    DaySumUpdate(days, r, o, a);
    DifferenceShows(DaySum(days, r), DayAmount(days, o), a);
  }

  lemma DifferenceShows(total: Amount, was: Amount, a: Amount)
    ensures total == Plus(total, Amount(a.num - was.num, a.pay - was.pay)) <==> a == was
  {
  }

  lemma NoDaysNoSum(r: Range)
    ensures DaySum(map[], r) == ZERO
  {
    var n := if r.from <= r.to then r.to - r.from + 1 else 0;
    var none: Days := map[];
    var parts := DayParts(none, r.from, n);
    forall i | 0 <= i < |parts|
      ensures parts[i] == ZERO
    {
      assert parts[i] == DayAmount(none, r.from + i);
    }
    SumZeros(parts);
  }

  // ---- The rows of one year ----

  /** The stored row of the period of the first day of a month. */
  function PeriodRow(st: Aggregates, y: int, m: int, p: Period): Amount
    requires 1 <= y && 1 <= m <= 12
  {
    Stored(st, p, RangeOf(FirstOf(y, m), p).from)
  }

  /** The stored row of that period is right. */
  predicate RowRight(st: Aggregates, y: int, m: int, p: Period)
    requires 1 <= y && 1 <= m <= 12
  {
    PeriodRow(st, y, m, p) == PeriodSum(st.days, y, m, p)
  }

  lemma UpToDateRow(st: Aggregates, y: int, m: int, p: Period)
    requires AllUpToDate(st) && 1 <= y && 1 <= m <= 12
    ensures RowRight(st, y, m, p)
  {
    assert UpToDate(st, FirstOf(y, m), p);
  }

  /** Calendar roll-up: over right month rows, a quarter row is their sum exactly when it is right. */
  lemma {:induction false} QuarterRowIsMonthRows(st: Aggregates, y: int, q: int)
    requires 1 <= y && (q == 1 || q == 4 || q == 7 || q == 10)
    requires RowRight(st, y, q, Month) && RowRight(st, y, q + 1, Month) && RowRight(st, y, q + 2, Month)
    ensures SumOfThree(PeriodRow(st, y, q, Quarter),
      PeriodRow(st, y, q, Month), PeriodRow(st, y, q + 1, Month), PeriodRow(st, y, q + 2, Month))
      <==> RowRight(st, y, q, Quarter)
  {
    QuarterIsMonths(st.days, y, q);
    ThreeMakeOne(PeriodRow(st, y, q, Quarter), PeriodSum(st.days, y, q, Quarter),
      PeriodRow(st, y, q, Month), PeriodRow(st, y, q + 1, Month), PeriodRow(st, y, q + 2, Month));
  }

  lemma ThreeMakeOne(row: Amount, total: Amount, a: Amount, b: Amount, c: Amount)
    requires SumOfThree(total, a, b, c)
    ensures SumOfThree(row, a, b, c) <==> row == total
  {
  }

  /** Over right quarter rows, a year row is their sum exactly when it is right. */
  lemma {:induction false} YearRowIsQuarterRows(st: Aggregates, y: int)
    requires 1 <= y
    requires RowRight(st, y, 1, Quarter) && RowRight(st, y, 4, Quarter)
    requires RowRight(st, y, 7, Quarter) && RowRight(st, y, 10, Quarter)
    ensures SumOfFour(PeriodRow(st, y, 1, Year), PeriodRow(st, y, 1, Quarter),
      PeriodRow(st, y, 4, Quarter), PeriodRow(st, y, 7, Quarter), PeriodRow(st, y, 10, Quarter))
      <==> RowRight(st, y, 1, Year)
  {
    YearIsQuarters(st.days, y);
    FourMakeOne(PeriodRow(st, y, 1, Year), PeriodSum(st.days, y, 1, Year), PeriodRow(st, y, 1, Quarter),
      PeriodRow(st, y, 4, Quarter), PeriodRow(st, y, 7, Quarter), PeriodRow(st, y, 10, Quarter));
  }

  lemma FourMakeOne(row: Amount, total: Amount, a: Amount, b: Amount, c: Amount, d: Amount)
    requires SumOfFour(total, a, b, c, d)
    ensures SumOfFour(row, a, b, c, d) <==> row == total
  {
  }

  /** A year row is the sum of the days of the year, leap years included, exactly when it is right. */
  lemma {:induction false} YearRowIsDays(st: Aggregates, y: int)
    requires 1 <= y
    ensures PeriodRow(st, y, 1, Year)
         == DaySum(st.days, Range(DaysBeforeYear(y) + 1, DaysBeforeYear(y) + YearDays(y)))
      <==> RowRight(st, y, 1, Year)
  {
    PeriodIsMonths(st.days, y, 1, Year);
    MonthsFill(y);
  }

  lemma QuarterAddsUp(st: Aggregates, y: int, q: int)
    requires AllUpToDate(st) && 1 <= y && (q == 1 || q == 4 || q == 7 || q == 10)
    ensures SumOfThree(PeriodRow(st, y, q, Quarter),
      PeriodRow(st, y, q, Month), PeriodRow(st, y, q + 1, Month), PeriodRow(st, y, q + 2, Month))
  {
    UpToDateRow(st, y, q, Quarter);
    UpToDateRow(st, y, q, Month);
    UpToDateRow(st, y, q + 1, Month);
    UpToDateRow(st, y, q + 2, Month);
    QuarterRowIsMonthRows(st, y, q);
  }

  lemma YearAddsUp(st: Aggregates, y: int)
    requires AllUpToDate(st) && 1 <= y
    ensures SumOfFour(PeriodRow(st, y, 1, Year), PeriodRow(st, y, 1, Quarter),
      PeriodRow(st, y, 4, Quarter), PeriodRow(st, y, 7, Quarter), PeriodRow(st, y, 10, Quarter))
  {
    UpToDateRow(st, y, 1, Year);
    UpToDateRow(st, y, 1, Quarter);
    UpToDateRow(st, y, 4, Quarter);
    UpToDateRow(st, y, 7, Quarter);
    UpToDateRow(st, y, 10, Quarter);
    YearRowIsQuarterRows(st, y);
  }

  lemma YearCountsDays(st: Aggregates, y: int)
    requires AllUpToDate(st) && 1 <= y
    ensures PeriodRow(st, y, 1, Year)
         == DaySum(st.days, Range(DaysBeforeYear(y) + 1, DaysBeforeYear(y) + YearDays(y)))
  {
    UpToDateRow(st, y, 1, Year);
    YearRowIsDays(st, y);
  }
}
