/** The calendar tasks of statistics/tasks.py as they really run: saving a row only makes tasks due
    (statistics/models/models.py), and due tasks run in any order, between and after other saves. */
module CalendarQueue {
  import opened SaleStats
  import opened SaleCalendar

  /** The task that recomputes the row of a date's period. */
  datatype Job = Job(date: Date, period: Period)

  datatype Queue = Queue(agg: Aggregates, due: seq<Job>)

  const NOTHING := Queue(Aggregates(map[], map[]), [])

  /** What saving a row makes due: nothing behind a week or a year. */
  function Next(t: Job): seq<Job>
    requires Valid(t.date)
  {
    match t.period
    case Month => [Job(Date(t.date.year, t.date.month, 1), Quarter)]
    case Quarter => [Job(Date(t.date.year, QuarterStart(t.date.month), 1), Year)]
    case _ => []
  }

  predicate ValidJobs(due: seq<Job>) {
    forall i :: 0 <= i < |due| ==> Valid(due[i].date)
  }

  function SetDay(agg: Aggregates, d: Date, a: Amount): Aggregates
    requires Valid(d)
  {
    agg.(days := agg.days[Ordinal(d) := a])
  }

  /** Saving a daily row. */
  function AfterSave(q: Queue, d: Date, a: Amount): Queue
    requires Valid(d)
  {
    Queue(SetDay(q.agg, d, a), q.due + [Job(d, Week), Job(d, Month)])
  }

  /** The trigger of the row that a task has saved. */
  function Triggered(agg: Aggregates, t: Job): seq<Job>
    requires Valid(t.date)
  {
    if Refresh(agg, t.date, t.period).saved then Next(t) else []
  }

  function Perform(q: Queue, i: nat): Queue
    requires i < |q.due| && Valid(q.due[i].date)
  {
    var t := q.due[i];
    Queue(Refresh(q.agg, t.date, t.period).st, q.due[..i] + q.due[i + 1..] + Triggered(q.agg, t))
  }

  // ---- Periods of dates ----

  predicate Same(a: Date, b: Date, p: Period)
    requires Valid(a) && Valid(b)
  {
    RangeOf(a, p) == RangeOf(b, p)
  }

  /** A task for the period of a date is due. */
  predicate IsDue(due: seq<Job>, d: Date, p: Period)
    requires Valid(d)
  {
    exists i :: 0 <= i < |due| && Serves(due[i], d, p)
  }

  predicate Serves(t: Job, d: Date, p: Period)
    requires Valid(d)
  {
    t.period == p && Valid(t.date) && Same(t.date, d, p)
  }

  /** A month lies in one quarter, a quarter in one year. */
  lemma Nested(a: Date, b: Date)
    requires Valid(a) && Valid(b)
    ensures Same(a, b, Month) ==> Same(a, b, Quarter)
    ensures Same(a, b, Quarter) ==> Same(a, b, Year)
  {
    if Same(a, b, Month) {
      SamePeriod(a, b, Month);
      SamePeriod(b, b, Month);
      ContainsMonths(a, b, Month);
      assert b.year == a.year && b.month == a.month;
    }
    if Same(a, b, Quarter) {
      SamePeriod(a, b, Quarter);
      SamePeriod(b, b, Quarter);
      ContainsMonths(a, b, Quarter);
      assert b.year == a.year;
    }
  }

  lemma NextServes(t: Job)
    requires Valid(t.date)
    ensures ValidJobs(Next(t))
    ensures t.period == Month ==> |Next(t)| == 1 && Serves(Next(t)[0], t.date, Quarter)
    ensures t.period == Quarter ==> |Next(t)| == 1 && Serves(Next(t)[0], t.date, Year)
    ensures t.period == Week || t.period == Year ==> Next(t) == []
  {
    SamePeriods(t.date);
  }

  // ---- One task and one save ----

  /** A task saves its row exactly when it was out of date, and touches no other. */
  lemma RefreshEffect(st: Aggregates, d: Date, p: Period, e: Date, s: Period)
    requires Valid(d) && Valid(e) && SaneDays(st.days)
    ensures var r := Refresh(st, d, p);
      && r.st.days == st.days
      && (r.saved <==> !UpToDate(st, d, p))
      && (!r.saved ==> r.st == st)
      && UpToDate(r.st, d, p)
      && (s == p && Same(e, d, p) ==> UpToDate(r.st, e, s))
      && (!(s == p && Same(e, d, p)) ==>
            Stored(r.st, s, RangeOf(e, s).from) == Stored(st, s, RangeOf(e, s).from)
            && (UpToDate(r.st, e, s) <==> UpToDate(st, e, s)))
  {
    RefreshSpec(st, d, p);
    RefreshSaves(st, d, p);
    if s == p {
      SamePeriodStart(e, d, p);
    }
  }

  lemma RefreshSaves(st: Aggregates, d: Date, p: Period)
    requires Valid(d) && SaneDays(st.days)
    ensures Refresh(st, d, p).saved <==> !UpToDate(st, d, p)
  {
    DaySumIsSane(st.days, RangeOf(d, p));
  }

  lemma SameIsUpToDate(st: Aggregates, d: Date, e: Date, p: Period)
    requires Valid(d) && Valid(e) && Same(d, e, p)
    ensures UpToDate(st, d, p) <==> UpToDate(st, e, p)
  {
  }

  /** A changed day touches the rows of its own periods only. */
  lemma SetDayEffect(agg: Aggregates, d: Date, a: Amount, e: Date, p: Period)
    requires Valid(d) && Valid(e) && !Same(e, d, p)
    ensures UpToDate(SetDay(agg, d, a), e, p) <==> UpToDate(agg, e, p)
  {
    RangeNotEmpty(e, p);
    SamePeriod(e, d, p);
    DaySumUpdate(agg.days, RangeOf(e, p), Ordinal(d), a);
  }

  lemma IsDueAppend(a: seq<Job>, b: seq<Job>, d: Date, p: Period)
    requires Valid(d)
    ensures IsDue(a + b, d, p) <==> IsDue(a, d, p) || IsDue(b, d, p)
  {
    if i :| 0 <= i < |a| && Serves(a[i], d, p) {
      assert (a + b)[i] == a[i];
    }
    if i :| 0 <= i < |b| && Serves(b[i], d, p) {
      assert (a + b)[|a| + i] == b[i];
    }
  }

  lemma IsDueOne(t: Job, d: Date, p: Period)
    requires Valid(d)
    ensures IsDue([t], d, p) <==> Serves(t, d, p)
  {
    assert [t][0] == t;
  }

  lemma DueAfter(q: Queue, i: nat, e: Date, p: Period)
    requires ValidJobs(q.due) && i < |q.due| && Valid(e)
    ensures ValidJobs(Perform(q, i).due)
    ensures var t, after := q.due[i], Perform(q, i).due;
      && (!Serves(t, e, p) && IsDue(q.due, e, p) ==> IsDue(after, e, p))
      && (IsDue(after, e, p) ==> IsDue(q.due, e, p) || IsDue(Triggered(q.agg, t), e, p))
      && (IsDue(Triggered(q.agg, t), e, p) ==> IsDue(after, e, p))
  {
    NextServes(q.due[i]);
    DueInstead(q.due, i, Triggered(q.agg, q.due[i]), e, p);
  }

  /** One task has made way for others. */
  lemma DueInstead(due: seq<Job>, i: nat, more: seq<Job>, e: Date, p: Period)
    requires ValidJobs(due) && ValidJobs(more) && i < |due| && Valid(e)
    ensures var after := due[..i] + due[i + 1..] + more;
      && ValidJobs(after)
      && (!Serves(due[i], e, p) && IsDue(due, e, p) ==> IsDue(after, e, p))
      && (IsDue(after, e, p) ==> IsDue(due, e, p) || IsDue(more, e, p))
      && (IsDue(more, e, p) ==> IsDue(after, e, p))
  {
    assert due == due[..i] + [due[i]] + due[i + 1..];
    DueWithout(due[..i], due[i], due[i + 1..], more, e, p);
  }

  lemma DueWithout(left: seq<Job>, t: Job, right: seq<Job>, more: seq<Job>, e: Date, p: Period)
    requires Valid(e)
    ensures IsDue(left + [t] + right, e, p) <==> IsDue(left, e, p) || Serves(t, e, p) || IsDue(right, e, p)
    ensures IsDue(left + right + more, e, p) <==> IsDue(left, e, p) || IsDue(right, e, p) || IsDue(more, e, p)
  {
    IsDueAppend(left + [t], right, e, p);
    IsDueAppend(left, [t], e, p);
    IsDueOne(t, e, p);
    IsDueAppend(left + right, more, e, p);
    IsDueAppend(left, right, e, p);
  }

  lemma DueSaved(q: Queue, d: Date, a: Amount, e: Date, p: Period)
    requires ValidJobs(q.due) && Valid(d) && Valid(e)
    ensures ValidJobs(AfterSave(q, d, a).due)
    ensures IsDue(AfterSave(q, d, a).due, e, p)
      <==> IsDue(q.due, e, p) || ((p == Week || p == Month) && Same(d, e, p))
  {
    var more := [Job(d, Week), Job(d, Month)];
    var after := AfterSave(q, d, a).due;
    assert after == q.due + more;
    assert forall j :: 0 <= j < |q.due| ==> after[j] == q.due[j];
    assert after[|q.due|] == more[0] && after[|q.due| + 1] == more[1];
  }

  // ---- Weeks and months: right or due ----

  predicate Right(q: Queue, d: Date, p: Period)
    requires Valid(d)
  {
    UpToDate(q.agg, d, p)
  }

  predicate RightOrDueAt(q: Queue, d: Date, p: Period)
    requires Valid(d)
  {
    Right(q, d, p) || IsDue(q.due, d, p)
  }

  ghost predicate RightOrDue(q: Queue, p: Period) {
    forall d {:trigger RightOrDueAt(q, d, p)} :: Valid(d) ==> RightOrDueAt(q, d, p)
  }

  ghost predicate Sound(q: Queue) {
    ValidJobs(q.due) && SaneDays(q.agg.days) && RightOrDue(q, Week) && RightOrDue(q, Month)
  }

  lemma SaveRightOrDue(q: Queue, d: Date, a: Amount, p: Period)
    requires ValidJobs(q.due) && Valid(d) && (p == Week || p == Month) && RightOrDue(q, p)
    ensures ValidJobs(AfterSave(q, d, a).due) && RightOrDue(AfterSave(q, d, a), p)
  {
    DueSaved(q, d, a, d, p);
    forall e | Valid(e)
      ensures RightOrDueAt(AfterSave(q, d, a), e, p)
    {
      DueSaved(q, d, a, e, p);
      if !Same(d, e, p) {
        SetDayEffect(q.agg, d, a, e, p);
        assert RightOrDueAt(q, e, p);
      }
    }
  }

  lemma SaveIsSound(q: Queue, d: Date, a: Amount)
    requires Sound(q) && Valid(d) && Sane(a)
    ensures Sound(AfterSave(q, d, a))
  {
    SaveRightOrDue(q, d, a, Week);
    SaveRightOrDue(q, d, a, Month);
  }

  lemma PerformRightOrDue(q: Queue, i: nat, p: Period)
    requires ValidJobs(q.due) && SaneDays(q.agg.days) && i < |q.due| && RightOrDue(q, p)
    ensures ValidJobs(Perform(q, i).due) && RightOrDue(Perform(q, i), p)
  {
    var t := q.due[i];
    DueAfter(q, i, t.date, p);
    forall e | Valid(e)
      ensures RightOrDueAt(Perform(q, i), e, p)
    {
      RefreshEffect(q.agg, t.date, t.period, e, p);
      DueAfter(q, i, e, p);
      assert RightOrDueAt(q, e, p);
    }
  }

  lemma PerformIsSound(q: Queue, i: nat)
    requires Sound(q) && i < |q.due|
    ensures Sound(Perform(q, i))
  {
    PerformRightOrDue(q, i, Week);
    PerformRightOrDue(q, i, Month);
    RefreshEffect(q.agg, q.due[i].date, q.due[i].period, q.due[i].date, Week);
  }

  // ---- Quarters and years: covered ----

  /** A month of the quarter of `d` is stale and its task is due. */
  predicate StaleMonthDue(q: Queue, d: Date, e: Date)
    requires Valid(d) && Valid(e)
  {
    Same(e, d, Quarter) && !Right(q, e, Month) && IsDue(q.due, e, Month)
  }

  ghost predicate MonthWaits(q: Queue, d: Date)
    requires Valid(d)
  {
    exists e {:trigger StaleMonthDue(q, d, e)} :: Valid(e) && StaleMonthDue(q, d, e)
  }

  /** The quarter's row is right, or its task is due, or will be when a month is saved. */
  ghost predicate QuarterCovered(q: Queue, d: Date)
    requires Valid(d)
  {
    Right(q, d, Quarter) || IsDue(q.due, d, Quarter) || MonthWaits(q, d)
  }

  ghost predicate StaleQuarterCovered(q: Queue, d: Date, e: Date)
    requires Valid(d) && Valid(e)
  {
    Same(e, d, Year) && !Right(q, e, Quarter) && QuarterCovered(q, e)
  }

  ghost predicate QuarterWaits(q: Queue, d: Date)
    requires Valid(d)
  {
    exists e {:trigger StaleQuarterCovered(q, d, e)} :: Valid(e) && StaleQuarterCovered(q, d, e)
  }

  ghost predicate YearCovered(q: Queue, d: Date)
    requires Valid(d)
  {
    Right(q, d, Year) || IsDue(q.due, d, Year) || QuarterWaits(q, d)
  }

  lemma StaleMonthKept(q: Queue, i: nat, d: Date, e: Date)
    requires Sound(q) && i < |q.due| && Valid(d) && Valid(e) && !Serves(q.due[i], e, Month)
    ensures ValidJobs(Perform(q, i).due)
    ensures StaleMonthDue(Perform(q, i), d, e) <==> StaleMonthDue(q, d, e)
  {
    var t := q.due[i];
    RefreshEffect(q.agg, t.date, t.period, e, Month);
    DueAfter(q, i, e, Month);
    NextServes(t);
  }

  /** A task of the own period, or of a month that it repairs, leaves the quarter covered. */
  lemma PerformedInQuarter(q: Queue, i: nat, d: Date)
    requires Sound(q) && i < |q.due| && Valid(d)
    requires Serves(q.due[i], d, Quarter)
          || (q.due[i].period == Month && Same(q.due[i].date, d, Quarter) && !Right(q, q.due[i].date, Month))
    ensures ValidJobs(Perform(q, i).due)
    ensures QuarterCovered(q, d) && QuarterCovered(Perform(q, i), d)
  {
    var t := q.due[i];
    RefreshEffect(q.agg, t.date, t.period, d, Quarter);
    DueAfter(q, i, d, Quarter);
    NextServes(t);
    if t.period == Month {
      assert Serves(t, t.date, Month);
      assert StaleMonthDue(q, d, t.date);
      assert Serves(Next(t)[0], d, Quarter);
    }
  }

  /** Any other task changes nothing for the quarter. */
  lemma PerformedElsewhere(q: Queue, i: nat, d: Date)
    requires Sound(q) && i < |q.due| && Valid(d) && !Serves(q.due[i], d, Quarter)
    requires !(q.due[i].period == Month && Same(q.due[i].date, d, Quarter) && !Right(q, q.due[i].date, Month))
    ensures ValidJobs(Perform(q, i).due)
    ensures QuarterCovered(Perform(q, i), d) <==> QuarterCovered(q, d)
  {
    NotTriggered(q, i, d, Month, Quarter);
    RowOrDueSame(q, i, d, Quarter);
    forall e | Valid(e)
      ensures StaleMonthDue(Perform(q, i), d, e) <==> StaleMonthDue(q, d, e)
    {
      SameStaleMonth(q, i, d, e);
    }
    assert MonthWaits(Perform(q, i), d) <==> MonthWaits(q, d);
  }

  lemma SameStaleMonth(q: Queue, i: nat, d: Date, e: Date)
    requires Sound(q) && i < |q.due| && Valid(d) && Valid(e)
    requires !(q.due[i].period == Month && Same(q.due[i].date, d, Quarter) && !Right(q, q.due[i].date, Month))
    ensures StaleMonthDue(Perform(q, i), d, e) <==> StaleMonthDue(q, d, e)
  {
    if Serves(q.due[i], e, Month) {
      MonthServed(q, i, d, e);
    } else {
      StaleMonthKept(q, i, d, e);
    }
  }

  /** The month that a task has recomputed is right; if it lies in the quarter it was so before. */
  lemma MonthServed(q: Queue, i: nat, d: Date, e: Date)
    requires Sound(q) && i < |q.due| && Valid(d) && Valid(e) && Serves(q.due[i], e, Month)
    requires !(Same(q.due[i].date, d, Quarter) && !Right(q, q.due[i].date, Month))
    ensures ValidJobs(Perform(q, i).due)
    ensures !StaleMonthDue(q, d, e) && !StaleMonthDue(Perform(q, i), d, e)
  {
    var t := q.due[i];
    DueAfter(q, i, e, Month);
    RefreshEffect(q.agg, t.date, t.period, e, Month);
    Nested(t.date, e);
    SameIsUpToDate(q.agg, t.date, e, Month);
  }

  /** Tasks keep a quarter covered, and do not cover it either. */
  lemma PerformQuarterIff(q: Queue, i: nat, d: Date)
    requires Sound(q) && i < |q.due| && Valid(d)
    ensures ValidJobs(Perform(q, i).due)
    ensures QuarterCovered(Perform(q, i), d) <==> QuarterCovered(q, d)
  {
    var t := q.due[i];
    if Serves(t, d, Quarter) || (t.period == Month && Same(t.date, d, Quarter) && !Right(q, t.date, Month)) {
      PerformedInQuarter(q, i, d);
    } else {
      PerformedElsewhere(q, i, d);
    }
  }

  /** The same of years. */
  lemma PerformYearIff(q: Queue, i: nat, d: Date)
    requires Sound(q) && i < |q.due| && Valid(d)
    ensures ValidJobs(Perform(q, i).due)
    ensures YearCovered(Perform(q, i), d) <==> YearCovered(q, d)
  {
    var t := q.due[i];
    if Serves(t, d, Year) || (t.period == Quarter && Same(t.date, d, Year) && !Right(q, t.date, Quarter)) {
      PerformedInYear(q, i, d);
    } else {
      PerformedOutsideYear(q, i, d);
    }
  }

  lemma PerformedInYear(q: Queue, i: nat, d: Date)
    requires Sound(q) && i < |q.due| && Valid(d)
    requires Serves(q.due[i], d, Year)
          || (q.due[i].period == Quarter && Same(q.due[i].date, d, Year) && !Right(q, q.due[i].date, Quarter))
    ensures ValidJobs(Perform(q, i).due)
    ensures YearCovered(q, d) && YearCovered(Perform(q, i), d)
  {
    var t := q.due[i];
    RefreshEffect(q.agg, t.date, t.period, d, Year);
    DueAfter(q, i, d, Year);
    NextServes(t);
    if t.period == Quarter {
      assert Serves(t, t.date, Quarter);
      assert StaleQuarterCovered(q, d, t.date);
      assert Serves(Next(t)[0], d, Year);
    }
  }

  lemma PerformedOutsideYear(q: Queue, i: nat, d: Date)
    requires Sound(q) && i < |q.due| && Valid(d) && !Serves(q.due[i], d, Year)
    requires !(q.due[i].period == Quarter && Same(q.due[i].date, d, Year) && !Right(q, q.due[i].date, Quarter))
    ensures ValidJobs(Perform(q, i).due)
    ensures YearCovered(Perform(q, i), d) <==> YearCovered(q, d)
  {
    NotTriggered(q, i, d, Quarter, Year);
    RowOrDueSame(q, i, d, Year);
    forall e | Valid(e)
      ensures StaleQuarterCovered(Perform(q, i), d, e) <==> StaleQuarterCovered(q, d, e)
    {
      SameStaleQuarter(q, i, d, e);
    }
    assert QuarterWaits(Perform(q, i), d) <==> QuarterWaits(q, d);
  }

  /** A task that neither recomputes the row nor triggers its task leaves both as they were. */
  lemma RowOrDueSame(q: Queue, i: nat, d: Date, p: Period)
    requires ValidJobs(q.due) && SaneDays(q.agg.days) && i < |q.due| && Valid(d) && !Serves(q.due[i], d, p)
    requires !IsDue(Triggered(q.agg, q.due[i]), d, p)
    ensures ValidJobs(Perform(q, i).due)
    ensures Right(Perform(q, i), d, p) <==> Right(q, d, p)
    ensures IsDue(Perform(q, i).due, d, p) <==> IsDue(q.due, d, p)
  {
    var t := q.due[i];
    RefreshEffect(q.agg, t.date, t.period, d, p);
    DueAfter(q, i, d, p);
  }

  lemma NotTriggered(q: Queue, i: nat, d: Date, below: Period, p: Period)
    requires ValidJobs(q.due) && SaneDays(q.agg.days) && i < |q.due| && Valid(d)
    requires (below == Month && p == Quarter) || (below == Quarter && p == Year)
    requires !(q.due[i].period == below && Same(q.due[i].date, d, p) && !Right(q, q.due[i].date, below))
    ensures !IsDue(Triggered(q.agg, q.due[i]), d, p)
  {
    NextServes(q.due[i]);
    RefreshSaves(q.agg, q.due[i].date, q.due[i].period);
  }

  lemma SameStaleQuarter(q: Queue, i: nat, d: Date, e: Date)
    requires Sound(q) && i < |q.due| && Valid(d) && Valid(e)
    requires !(q.due[i].period == Quarter && Same(q.due[i].date, d, Year) && !Right(q, q.due[i].date, Quarter))
    ensures StaleQuarterCovered(Perform(q, i), d, e) <==> StaleQuarterCovered(q, d, e)
  {
    var t := q.due[i];
    PerformQuarterIff(q, i, e);
    RefreshEffect(q.agg, t.date, t.period, e, Quarter);
    if Serves(t, e, Quarter) {
      Nested(t.date, e);
      SameIsUpToDate(q.agg, t.date, e, Quarter);
    }
  }
  // ---- Which saves lose a quarter or a year ----

  /** With the new amount, the quarter's row is wrong and no task of the quarter is due, yet every month
      row of the quarter is right: no month will be saved, so nothing will visit the quarter. */
  ghost predicate LosesQuarter(q: Queue, d: Date, a: Amount)
    requires Valid(d)
  {
    && !UpToDate(SetDay(q.agg, d, a), d, Quarter)
    && !IsDue(q.due, d, Quarter)
    && forall e :: Valid(e) && Same(e, d, Quarter) ==> UpToDate(SetDay(q.agg, d, a), e, Month)
  }

  ghost predicate LosesYear(q: Queue, d: Date, a: Amount)
    requires Valid(d)
  {
    && !UpToDate(SetDay(q.agg, d, a), d, Year)
    && !IsDue(q.due, d, Year)
    && forall e :: Valid(e) && Same(e, d, Year) ==> UpToDate(SetDay(q.agg, d, a), e, Quarter)
  }

  /** After a save its quarter is covered unless the save loses it, whatever it was before. */
  lemma SavedQuarterIff(q: Queue, d: Date, a: Amount, e: Date)
    requires Sound(q) && Valid(d) && Sane(a) && Valid(e) && Same(e, d, Quarter)
    ensures ValidJobs(AfterSave(q, d, a).due)
    ensures QuarterCovered(AfterSave(q, d, a), e) <==> !LosesQuarter(q, d, a)
  {
    var after := AfterSave(q, d, a);
    SaveIsSound(q, d, a);
    DueSaved(q, d, a, e, Quarter);
    SameIsDue(q.due, e, d, Quarter);
    SameIsUpToDate(after.agg, e, d, Quarter);
    forall f | Valid(f)
      ensures StaleMonthDue(after, e, f) <==> Same(f, d, Quarter) && !UpToDate(after.agg, f, Month)
    {
      assert RightOrDueAt(after, f, Month);
    }
  }

  lemma SameIsDue(due: seq<Job>, d: Date, e: Date, p: Period)
    requires ValidJobs(due) && Valid(d) && Valid(e) && Same(d, e, p)
    ensures IsDue(due, d, p) <==> IsDue(due, e, p)
  {
    assert forall i :: 0 <= i < |due| ==> (Serves(due[i], d, p) <==> Serves(due[i], e, p));
  }

  /** The other quarters are left as they were. */
  lemma SaveKeepsQuarter(q: Queue, d: Date, a: Amount, e: Date)
    requires Sound(q) && Valid(d) && Sane(a) && Valid(e) && !Same(e, d, Quarter)
    ensures ValidJobs(AfterSave(q, d, a).due)
    ensures QuarterCovered(AfterSave(q, d, a), e) <==> QuarterCovered(q, e)
  {
    var after := AfterSave(q, d, a);
    DueSaved(q, d, a, e, Quarter);
    SetDayEffect(q.agg, d, a, e, Quarter);
    forall f | Valid(f)
      ensures StaleMonthDue(after, e, f) <==> StaleMonthDue(q, e, f)
    {
      if Same(f, e, Quarter) {
        Nested(f, d);
        SetDayEffect(q.agg, d, a, f, Month);
        DueSaved(q, d, a, f, Month);
      }
    }
  }

  ghost predicate QuartersCovered(q: Queue) {
    forall d {:trigger QuarterCovered(q, d)} :: Valid(d) ==> QuarterCovered(q, d)
  }

  ghost predicate YearsCovered(q: Queue) {
    forall d {:trigger YearCovered(q, d)} :: Valid(d) ==> YearCovered(q, d)
  }

  lemma SaveQuartersIff(q: Queue, d: Date, a: Amount)
    requires Sound(q) && QuartersCovered(q) && Valid(d) && Sane(a)
    ensures ValidJobs(AfterSave(q, d, a).due)
    ensures QuartersCovered(AfterSave(q, d, a)) <==> !LosesQuarter(q, d, a)
  {
    SavedQuarterIff(q, d, a, d);
    forall e | Valid(e)
      ensures QuarterCovered(AfterSave(q, d, a), e) <==> !(Same(e, d, Quarter) && LosesQuarter(q, d, a))
    {
      if Same(e, d, Quarter) {
        SavedQuarterIff(q, d, a, e);
      } else {
        SaveKeepsQuarter(q, d, a, e);
        assert QuarterCovered(q, e);
      }
    }
  }

  lemma SavedYearIff(q: Queue, d: Date, a: Amount, e: Date)
    requires Sound(q) && Valid(d) && Sane(a) && Valid(e) && Same(e, d, Year)
    requires ValidJobs(AfterSave(q, d, a).due) && QuartersCovered(AfterSave(q, d, a))
    ensures YearCovered(AfterSave(q, d, a), e) <==> !LosesYear(q, d, a)
  {
    var after := AfterSave(q, d, a);
    DueSaved(q, d, a, e, Year);
    SameIsDue(q.due, e, d, Year);
    SameIsUpToDate(after.agg, e, d, Year);
    forall f | Valid(f)
      ensures StaleQuarterCovered(after, e, f) <==> Same(f, d, Year) && !UpToDate(after.agg, f, Quarter)
    {
      assert QuarterCovered(after, f);
    }
  }

  lemma SaveKeepsYear(q: Queue, d: Date, a: Amount, e: Date)
    requires Sound(q) && Valid(d) && Sane(a) && Valid(e) && !Same(e, d, Year)
    ensures ValidJobs(AfterSave(q, d, a).due)
    ensures YearCovered(AfterSave(q, d, a), e) <==> YearCovered(q, e)
  {
    var after := AfterSave(q, d, a);
    DueSaved(q, d, a, e, Year);
    SetDayEffect(q.agg, d, a, e, Year);
    forall f | Valid(f)
      ensures StaleQuarterCovered(after, e, f) <==> StaleQuarterCovered(q, e, f)
    {
      if Same(f, e, Year) {
        Nested(f, d);
        SetDayEffect(q.agg, d, a, f, Quarter);
        SaveKeepsQuarter(q, d, a, f);
      }
    }
  }

  /** Every row is right or will be visited. */
  ghost predicate Covered(q: Queue) {
    Sound(q) && QuartersCovered(q) && YearsCovered(q)
  }

  /** A save keeps everything covered exactly when it loses neither its quarter nor its year. */
  lemma SaveCoveredIff(q: Queue, d: Date, a: Amount)
    requires Covered(q) && Valid(d) && Sane(a)
    ensures Covered(AfterSave(q, d, a)) <==> !LosesQuarter(q, d, a) && !LosesYear(q, d, a)
  {
    SaveIsSound(q, d, a);
    SaveQuartersIff(q, d, a);
    if !LosesQuarter(q, d, a) {
      SavedYearIff(q, d, a, d);
      forall e | Valid(e)
        ensures YearCovered(AfterSave(q, d, a), e) <==> !(Same(e, d, Year) && LosesYear(q, d, a))
      {
        if Same(e, d, Year) {
          SavedYearIff(q, d, a, e);
        } else {
          SaveKeepsYear(q, d, a, e);
          assert YearCovered(q, e);
        }
      }
    }
  }

  lemma PerformCoverage(q: Queue, i: nat, d: Date)
    requires Sound(q) && i < |q.due| && Valid(d)
    ensures Sound(Perform(q, i))
    ensures QuarterCovered(Perform(q, i), d) <==> QuarterCovered(q, d)
    ensures YearCovered(Perform(q, i), d) <==> YearCovered(q, d)
  {
    PerformIsSound(q, i);
    PerformQuarterIff(q, i, d);
    PerformYearIff(q, i, d);
  }

  lemma PerformCovered(q: Queue, i: nat)
    requires Covered(q) && i < |q.due|
    ensures Covered(Perform(q, i))
  {
    PerformIsSound(q, i);
    forall d | Valid(d)
      ensures QuarterCovered(Perform(q, i), d) && YearCovered(Perform(q, i), d)
    {
      PerformQuarterIff(q, i, d);
      PerformYearIff(q, i, d);
      assert QuarterCovered(q, d) && YearCovered(q, d);
    }
  }

  /** While every row is right, no save loses anything. */
  lemma RightLosesNothing(q: Queue, d: Date, a: Amount)
    requires AllUpToDate(q.agg) && Valid(d) && Sane(a)
    ensures !LosesQuarter(q, d, a) && !LosesYear(q, d, a)
  {
    assert UpToDate(q.agg, d, Month) && UpToDate(q.agg, d, Quarter) && UpToDate(q.agg, d, Year);
    ChangedDayShows(q.agg, d, a, Month);
    ChangedDayShows(q.agg, d, a, Quarter);
    ChangedDayShows(q.agg, d, a, Year);
  }

  // ---- Runs ----

  datatype Op = OpSave(date: Date, amount: Amount) | OpPerform(i: nat)

  predicate Enabled(q: Queue, op: Op) {
    match op
    case OpSave(d, a) => Valid(d) && Sane(a)
    case OpPerform(i) => i < |q.due| && Valid(q.due[i].date)
  }

  function Apply(q: Queue, op: Op): Queue
    requires Enabled(q, op)
  {
    match op
    case OpSave(d, a) => AfterSave(q, d, a)
    case OpPerform(i) => Perform(q, i)
  }

  predicate IsRun(q: Queue, ops: seq<Op>)
    decreases |ops|
  {
    ops == [] || (Enabled(q, ops[0]) && IsRun(Apply(q, ops[0]), ops[1..]))
  }

  function End(q: Queue, ops: seq<Op>): Queue
    requires IsRun(q, ops)
    decreases |ops|
  {
    if ops == [] then q else End(Apply(q, ops[0]), ops[1..])
  }

  /** No save of the run loses its quarter or its year. */
  ghost predicate LosesNothing(q: Queue, ops: seq<Op>)
    requires IsRun(q, ops)
    decreases |ops|
  {
    ops == []
    || ((ops[0].OpSave? ==>
           !LosesQuarter(q, ops[0].date, ops[0].amount) && !LosesYear(q, ops[0].date, ops[0].amount))
        && LosesNothing(Apply(q, ops[0]), ops[1..]))
  }

  lemma StepIsSound(q: Queue, op: Op)
    requires Sound(q) && Enabled(q, op)
    ensures Sound(Apply(q, op))
  {
    match op
    case OpSave(d, a) => SaveIsSound(q, d, a);
    case OpPerform(i) => PerformIsSound(q, i);
  }

  lemma {:induction false} RunIsSound(q: Queue, ops: seq<Op>)
    requires Sound(q) && IsRun(q, ops)
    ensures Sound(End(q, ops))
    decreases |ops|
  {
    if ops != [] {
      StepIsSound(q, ops[0]);
      RunIsSound(Apply(q, ops[0]), ops[1..]);
    }
  }

  lemma NothingIsCovered()
    ensures Covered(NOTHING)
  {
    forall d, p | Valid(d)
      ensures Right(NOTHING, d, p)
    {
      NoDaysNoSum(RangeOf(d, p));
    }
  }

  /** In every run from empty tables, saves and tasks in any order: whenever nothing is due, every week
      row and every month row is right. */
  lemma WeeksAndMonthsAreExact(ops: seq<Op>, d: Date)
    requires IsRun(NOTHING, ops) && Valid(d)
    ensures End(NOTHING, ops).due == [] ==> Right(End(NOTHING, ops), d, Week) && Right(End(NOTHING, ops), d, Month)
  {
    var end := End(NOTHING, ops);
    NothingIsCovered();
    RunIsSound(NOTHING, ops);
    assert RightOrDueAt(end, d, Week);
    assert RightOrDueAt(end, d, Month);
  }

  lemma QuietIsRight(q: Queue, d: Date)
    requires q.due == [] && Valid(d)
    ensures QuarterCovered(q, d) <==> Right(q, d, Quarter)
    ensures YearCovered(q, d) <==> Right(q, d, Year)
  {
    forall e | Valid(e)
      ensures !StaleQuarterCovered(q, d, e)
    {
      assert forall f :: Valid(f) ==> !StaleMonthDue(q, e, f);
    }
  }

  predicate OnlyTasks(ops: seq<Op>) {
    forall k :: 0 <= k < |ops| ==> ops[k].OpPerform?
  }

  lemma {:induction false} TasksKeepCoverage(q: Queue, ops: seq<Op>, d: Date)
    requires Sound(q) && IsRun(q, ops) && Valid(d) && OnlyTasks(ops)
    ensures QuarterCovered(End(q, ops), d) <==> QuarterCovered(q, d)
    ensures YearCovered(End(q, ops), d) <==> YearCovered(q, d)
    decreases |ops|
  {
    if ops != [] {
      PerformCoverage(q, ops[0].i, d);
      assert forall k :: 0 <= k < |ops[1..]| ==> ops[1..][k] == ops[k + 1];
      TasksKeepCoverage(Apply(q, ops[0]), ops[1..], d);
    }
  }

  /** When the tasks have run out after the last save, in whatever order, the row of a quarter or of a
      year is right exactly when it was covered after that save. */
  lemma CoverageDecides(q: Queue, ops: seq<Op>, d: Date)
    requires Sound(q) && IsRun(q, ops) && Valid(d) && OnlyTasks(ops) && End(q, ops).due == []
    ensures Right(End(q, ops), d, Quarter) <==> QuarterCovered(q, d)
    ensures Right(End(q, ops), d, Year) <==> YearCovered(q, d)
  {
    TasksKeepCoverage(q, ops, d);
    QuietIsRight(End(q, ops), d);
  }

  lemma {:induction false} RunIsCovered(q: Queue, ops: seq<Op>)
    requires Covered(q) && IsRun(q, ops) && LosesNothing(q, ops)
    ensures Covered(End(q, ops))
    decreases |ops|
  {
    if ops != [] {
      StepIsSound(q, ops[0]);
      match ops[0] {
        case OpSave(d, a) => SaveCoveredIff(q, d, a);
        case OpPerform(i) => PerformCovered(q, i);
      }
      RunIsCovered(Apply(q, ops[0]), ops[1..]);
    }
  }

  /** Over every run from empty tables whose saves lose nothing, whenever nothing is due every row of
      every period is right. */
  lemma QuietIsUpToDate(ops: seq<Op>)
    requires IsRun(NOTHING, ops) && LosesNothing(NOTHING, ops) && End(NOTHING, ops).due == []
    ensures AllUpToDate(End(NOTHING, ops).agg)
  {
    NothingIsCovered();
    RunIsCovered(NOTHING, ops);
    QuietCoveredIsRight(End(NOTHING, ops));
  }

  lemma QuietCoveredIsRight(q: Queue)
    requires Covered(q) && q.due == []
    ensures AllUpToDate(q.agg)
  {
    forall d, p | Valid(d)
      ensures UpToDate(q.agg, d, p)
    {
      QuietIsRight(q, d);
      assert Right(q, d, p) by {
        match p
        case Week => assert RightOrDueAt(q, d, Week);
        case Month => assert RightOrDueAt(q, d, Month);
        case Quarter => assert QuarterCovered(q, d);
        case Year => assert YearCovered(q, d);
      }
    }
  }

  /** In every run, whenever nothing is due, a quarter row is the sum of its month rows exactly when it is
      right. */
  lemma QuarterAddsUpIff(ops: seq<Op>, y: int, q: int)
    requires IsRun(NOTHING, ops) && End(NOTHING, ops).due == []
    requires 1 <= y && (q == 1 || q == 4 || q == 7 || q == 10)
    ensures var st := End(NOTHING, ops).agg;
      SumOfThree(PeriodRow(st, y, q, Quarter),
        PeriodRow(st, y, q, Month), PeriodRow(st, y, q + 1, Month), PeriodRow(st, y, q + 2, Month))
      <==> RowRight(st, y, q, Quarter)
  {
    WeeksAndMonthsAreExact(ops, FirstOf(y, q));
    WeeksAndMonthsAreExact(ops, FirstOf(y, q + 1));
    WeeksAndMonthsAreExact(ops, FirstOf(y, q + 2));
    QuarterRowIsMonthRows(End(NOTHING, ops).agg, y, q);
  }

  /** Over every run from empty tables whose saves lose nothing, whenever nothing is due each quarter row is
      the sum of its month rows, and each year row the sum of its quarter rows and of its days. */
  lemma RowsAddUp(ops: seq<Op>, y: int, q: int)
    requires IsRun(NOTHING, ops) && LosesNothing(NOTHING, ops) && End(NOTHING, ops).due == []
    requires 1 <= y && (q == 1 || q == 4 || q == 7 || q == 10)
    ensures var st := End(NOTHING, ops).agg;
      && SumOfThree(PeriodRow(st, y, q, Quarter),
           PeriodRow(st, y, q, Month), PeriodRow(st, y, q + 1, Month), PeriodRow(st, y, q + 2, Month))
      && SumOfFour(PeriodRow(st, y, 1, Year), PeriodRow(st, y, 1, Quarter),
           PeriodRow(st, y, 4, Quarter), PeriodRow(st, y, 7, Quarter), PeriodRow(st, y, 10, Quarter))
      && PeriodRow(st, y, 1, Year)
         == DaySum(st.days, Range(DaysBeforeYear(y) + 1, DaysBeforeYear(y) + YearDays(y)))
  {
    var st := End(NOTHING, ops).agg;
    QuietIsUpToDate(ops);
    QuarterAddsUp(st, y, q);
    YearAddsUp(st, y);
    YearCountsDays(st, y);
  }

  /** A save into right tables with nothing due, followed by its tasks in any order until none is due,
      leaves every row right. */
  lemma OneSaveAtATime(q: Queue, d: Date, a: Amount, ops: seq<Op>)
    requires q.due == [] && AllUpToDate(q.agg) && Valid(d) && Sane(a)
    requires IsRun(AfterSave(q, d, a), ops) && OnlyTasks(ops)
    requires End(AfterSave(q, d, a), ops).due == []
    ensures AllUpToDate(End(AfterSave(q, d, a), ops).agg)
  {
    RightIsCovered(q);
    RightLosesNothing(q, d, a);
    SaveCoveredIff(q, d, a);
    PerformsLoseNothing(AfterSave(q, d, a), ops);
    RunIsCovered(AfterSave(q, d, a), ops);
    QuietCoveredIsRight(End(AfterSave(q, d, a), ops));
  }

  lemma {:induction false} TasksKeepDays(q: Queue, ops: seq<Op>)
    requires Sound(q) && IsRun(q, ops) && OnlyTasks(ops)
    ensures End(q, ops).agg.days == q.agg.days
    decreases |ops|
  {
    if ops != [] {
      var t := q.due[ops[0].i];
      RefreshEffect(q.agg, t.date, t.period, t.date, t.period);
      PerformIsSound(q, ops[0].i);
      assert forall k :: 0 <= k < |ops[1..]| ==> ops[1..][k] == ops[k + 1];
      TasksKeepDays(Apply(q, ops[0]), ops[1..]);
    }
  }

  /** Such a save moves the rows of the week, the month, the quarter and the year of the day by the change of
      the day's amount, and no other row. */
  lemma SavedDayShows(q: Queue, d: Date, a: Amount, ops: seq<Op>, e: Date, p: Period)
    requires q.due == [] && AllUpToDate(q.agg) && Valid(d) && Sane(a) && Valid(e)
    requires IsRun(AfterSave(q, d, a), ops) && OnlyTasks(ops) && End(AfterSave(q, d, a), ops).due == []
    ensures var was, from := DayAmount(q.agg.days, Ordinal(d)), RangeOf(e, p).from;
      Stored(End(AfterSave(q, d, a), ops).agg, p, from)
      == if Contains(RangeOf(e, p), Ordinal(d))
         then Plus(Stored(q.agg, p, from), Amount(a.num - was.num, a.pay - was.pay))
         else Stored(q.agg, p, from)
  {
    OneSaveAtATime(q, d, a, ops);
    RightIsCovered(q);
    SaveIsSound(q, d, a);
    TasksKeepDays(AfterSave(q, d, a), ops);
    RangeNotEmpty(e, p);
    DaySumUpdate(q.agg.days, RangeOf(e, p), Ordinal(d), a);
    assert UpToDate(q.agg, e, p) && UpToDate(End(AfterSave(q, d, a), ops).agg, e, p);
  }

  /** Each save of the run finds nothing due. */
  predicate Serial(q: Queue, ops: seq<Op>)
    requires IsRun(q, ops)
    decreases |ops|
  {
    ops == [] || ((ops[0].OpSave? ==> q.due == []) && Serial(Apply(q, ops[0]), ops[1..]))
  }

  /** Saves that wait for the tasks of the one before lose nothing, so a whole run of them stays right. */
  lemma {:induction false} SerialLosesNothing(q: Queue, ops: seq<Op>)
    requires Covered(q) && IsRun(q, ops) && Serial(q, ops)
    ensures LosesNothing(q, ops)
    decreases |ops|
  {
    if ops != [] {
      match ops[0] {
        case OpSave(d, a) =>
          QuietCoveredIsRight(q);
          RightLosesNothing(q, d, a);
          SaveCoveredIff(q, d, a);
        case OpPerform(i) => PerformCovered(q, i);
      }
      SerialLosesNothing(Apply(q, ops[0]), ops[1..]);
    }
  }

  lemma RightIsCovered(q: Queue)
    requires q.due == [] && AllUpToDate(q.agg)
    ensures Covered(q)
  {
    forall d, p | Valid(d)
      ensures Right(q, d, p)
    {
      assert UpToDate(q.agg, d, p);
    }
  }

  lemma {:induction false} PerformsLoseNothing(q: Queue, ops: seq<Op>)
    requires IsRun(q, ops) && OnlyTasks(ops)
    ensures LosesNothing(q, ops)
    decreases |ops|
  {
    if ops != [] {
      assert forall k :: 0 <= k < |ops[1..]| ==> ops[1..][k] == ops[k + 1];
      PerformsLoseNothing(Apply(q, ops[0]), ops[1..]);
    }
  }

  // ---- A save that loses its quarter ----

  /** Into right tables: day `d` becomes `a`, day `e` of another month becomes `b`; then the tasks of the
      month of `e` and of the quarter run, before that of the month of `d`. */
  function Overtaken(agg: Aggregates, d: Date, a: Amount, e: Date, b: Amount): Queue
    requires Valid(d) && Valid(e)
    requires SaneDays(agg.days) && Sane(a) && Sane(b) && !UpToDate(SetDay(SetDay(agg, d, a), e, b), e, Month)
  {
    var saved := AfterSave(AfterSave(Queue(agg, []), d, a), e, b);
    MonthIsSaved(agg, d, a, e, b);
    Perform(Perform(saved, 3), 3)
  }

  lemma MonthIsSaved(agg: Aggregates, d: Date, a: Amount, e: Date, b: Amount)
    requires Valid(d) && Valid(e)
    requires SaneDays(agg.days) && Sane(a) && Sane(b) && !UpToDate(SetDay(SetDay(agg, d, a), e, b), e, Month)
    ensures var saved := AfterSave(AfterSave(Queue(agg, []), d, a), e, b);
      && saved.due == [Job(d, Week), Job(d, Month), Job(e, Week), Job(e, Month)]
      && Perform(saved, 3).due == [Job(d, Week), Job(d, Month), Job(e, Week)] + Next(Job(e, Month))
  {
    var saved := AfterSave(AfterSave(Queue(agg, []), d, a), e, b);
    assert saved.due == [Job(d, Week), Job(d, Month), Job(e, Week), Job(e, Month)];
    assert saved.due[..3] + saved.due[4..] == [Job(d, Week), Job(d, Month), Job(e, Week)];
    RefreshSaves(saved.agg, e, Month);
  }

  /** What is then right, and what is as it was. */
  lemma OvertakenState(agg: Aggregates, d: Date, a: Amount, e: Date, b: Amount, f: Date)
    requires AllUpToDate(agg) && Valid(d) && Valid(e) && Sane(a) && Sane(b) && Valid(f)
    requires Same(d, e, Quarter) && !Same(d, e, Month)
    requires !UpToDate(SetDay(SetDay(agg, d, a), e, b), e, Month)
    ensures var q := Overtaken(agg, d, a, e, b);
      && q.agg.days == agg.days[Ordinal(d) := a][Ordinal(e) := b]
      && Right(q, d, Quarter)
      && (Same(f, e, Month) ==> Right(q, f, Month))
      && (!Same(f, e, Month) ==>
            Stored(q.agg, Month, RangeOf(f, Month).from) == Stored(agg, Month, RangeOf(f, Month).from))
  {
    var saved := AfterSave(AfterSave(Queue(agg, []), d, a), e, b);
    MonthIsSaved(agg, d, a, e, b);
    NextServes(Job(e, Month));
    var one := Perform(saved, 3);
    RefreshEffect(saved.agg, e, Month, f, Month);
    RefreshEffect(one.agg, one.due[3].date, Quarter, f, Month);
    RefreshEffect(one.agg, one.due[3].date, Quarter, d, Quarter);
  }

  lemma OvertakenDue(agg: Aggregates, d: Date, a: Amount, e: Date, b: Amount)
    requires SaneDays(agg.days) && Valid(d) && Valid(e) && Sane(a) && Sane(b)
    requires !UpToDate(SetDay(SetDay(agg, d, a), e, b), e, Month)
    ensures !IsDue(Overtaken(agg, d, a, e, b).due, d, Quarter)
  {
    var saved := AfterSave(AfterSave(Queue(agg, []), d, a), e, b);
    MonthIsSaved(agg, d, a, e, b);
    NextServes(Job(e, Month));
    var one := Perform(saved, 3);
    NextServes(one.due[3]);
    assert one.due[..3] + one.due[4..] == [Job(d, Week), Job(d, Month), Job(e, Week)];
  }

  /** If day `d` now gets its old amount back, the save loses the quarter exactly when the day had really
      been changed. */
  lemma OvertakingSaveLosesIff(agg: Aggregates, d: Date, a: Amount, e: Date, b: Amount)
    requires AllUpToDate(agg) && Valid(d) && Valid(e) && Sane(a) && Sane(b)
    requires Same(d, e, Quarter) && !Same(d, e, Month) && b != DayAmount(agg.days, Ordinal(e))
    ensures !UpToDate(SetDay(SetDay(agg, d, a), e, b), e, Month)
    ensures LosesQuarter(Overtaken(agg, d, a, e, b), d, DayAmount(agg.days, Ordinal(d)))
      <==> a != DayAmount(agg.days, Ordinal(d))
  {
    var was := DayAmount(agg.days, Ordinal(d));
    MonthGoesStale(agg, d, a, e, b);
    var q := Overtaken(agg, d, a, e, b);
    OvertakenState(agg, d, a, e, b, d);
    OvertakenDue(agg, d, a, e, b);
    DayAmountUpdate(agg.days, Ordinal(d), a, Ordinal(d));
    DayAmountUpdate(agg.days[Ordinal(d) := a], Ordinal(e), b, Ordinal(d));
    DifferentDays(d, e);
    ChangedDayShows(q.agg, d, was, Quarter);
    forall f | Valid(f) && Same(f, d, Quarter)
      ensures UpToDate(SetDay(q.agg, d, was), f, Month)
    {
      MonthComesBack(agg, d, a, e, b, f);
    }
  }

  /** Whatever tasks then run, in whatever order, once none is due the row of the quarter is right exactly
      when the day had not really been changed. */
  lemma OvertakenQuarterIsStale(agg: Aggregates, d: Date, a: Amount, e: Date, b: Amount, ops: seq<Op>)
    requires AllUpToDate(agg) && Valid(d) && Valid(e) && Sane(a) && Sane(b)
    requires Same(d, e, Quarter) && !Same(d, e, Month)
    requires b != DayAmount(agg.days, Ordinal(e)) && !UpToDate(SetDay(SetDay(agg, d, a), e, b), e, Month)
    requires var last := AfterSave(Overtaken(agg, d, a, e, b), d, DayAmount(agg.days, Ordinal(d)));
      && IsRun(last, ops)
      && OnlyTasks(ops)
      && End(last, ops).due == []
    ensures var last := AfterSave(Overtaken(agg, d, a, e, b), d, DayAmount(agg.days, Ordinal(d)));
      Right(End(last, ops), d, Quarter) <==> a == DayAmount(agg.days, Ordinal(d))
  {
    var was := DayAmount(agg.days, Ordinal(d));
    assert Sane(was) by {
      assert Ordinal(d) in agg.days ==> Sane(agg.days[Ordinal(d)]);
    }
    OvertakingSaveLosesIff(agg, d, a, e, b);
    OvertakenIsSound(agg, d, a, e, b);
    var q := Overtaken(agg, d, a, e, b);
    SavedQuarterIff(q, d, was, d);
    SaveIsSound(q, d, was);
    CoverageDecides(AfterSave(q, d, was), ops, d);
  }

  // ---- A run that ends with a stale quarter ----

  /** The task will save nothing that has a next longer period. */
  predicate IsIdle(q: Queue, t: Job) {
    Valid(t.date) && (t.period == Week || t.period == Year || (t.period == Month && Right(q, t.date, Month)))
  }

  predicate AllIdle(q: Queue) {
    forall i :: 0 <= i < |q.due| ==> IsIdle(q, q.due[i])
  }

  lemma PerformIdle(q: Queue)
    requires AllIdle(q) && q.due != [] && SaneDays(q.agg.days)
    ensures Perform(q, 0).due == q.due[1..] && AllIdle(Perform(q, 0)) && SaneDays(Perform(q, 0).agg.days)
  {
    var t := q.due[0];
    assert IsIdle(q, t);
    RefreshEffect(q.agg, t.date, t.period, t.date, t.period);
    NextServes(t);
    assert Triggered(q.agg, t) == [];
    assert q.due[..0] + q.due[1..] + [] == q.due[1..];
    forall i | 1 <= i < |q.due|
      ensures IsIdle(Perform(q, 0), q.due[i])
    {
      assert IsIdle(q, q.due[i]);
      RefreshEffect(q.agg, t.date, t.period, q.due[i].date, Month);
    }
  }

  /** One task after the other, the oldest first. */
  function InTurn(n: nat): seq<Op> {
    if n == 0 then [] else [OpPerform(0)] + InTurn(n - 1)
  }

  lemma {:induction false} IdleRunsOut(q: Queue)
    requires AllIdle(q) && SaneDays(q.agg.days)
    ensures var ops := InTurn(|q.due|); IsRun(q, ops) && OnlyTasks(ops) && End(q, ops).due == []
    decreases |q.due|
  {
    if q.due != [] {
      var ops := InTurn(|q.due|);
      assert IsIdle(q, q.due[0]);
      PerformIdle(q);
      IdleRunsOut(Perform(q, 0));
      assert ops[0] == OpPerform(0) && ops[1..] == InTurn(|q.due| - 1);
      assert forall k :: 0 < k < |ops| ==> ops[k] == ops[1..][k - 1];
    }
  }

  lemma {:induction false} RunAppend(q: Queue, a: seq<Op>, b: seq<Op>)
    requires IsRun(q, a) && IsRun(End(q, a), b)
    ensures IsRun(q, a + b) && End(q, a + b) == End(End(q, a), b)
    decreases |a|
  {
    if a == [] {
      assert a + b == b;
    } else {
      assert (a + b)[1..] == a[1..] + b && (a + b)[0] == a[0];
      RunAppend(Apply(q, a[0]), a[1..], b);
    }
  }

  lemma RunSnoc(q: Queue, ops: seq<Op>, op: Op)
    requires IsRun(q, ops) && Enabled(End(q, ops), op)
    ensures IsRun(q, ops + [op]) && End(q, ops + [op]) == Apply(End(q, ops), op)
  {
    assert [op][1..] == [] && IsRun(Apply(End(q, ops), op), []);
    RunAppend(q, ops, [op]);
  }

  /** Two days of a quarter are saved, the task of the second one's month overtakes that of the first one's,
      and the first day is set back to nothing. */
  function OvertakingRun(d: Date, a: Amount, e: Date, b: Amount): seq<Op> {
    [OpSave(d, a)] + [OpSave(e, b)] + [OpPerform(3)] + [OpPerform(3)] + [OpSave(d, ZERO)]
  }

  predicate CanOvertake(d: Date, a: Amount, e: Date, b: Amount) {
    && Valid(d) && Valid(e) && Same(d, e, Quarter) && !Same(d, e, Month)
    && Sane(a) && Sane(b) && a != ZERO && b != ZERO
  }

  lemma NothingIsUpToDate()
    ensures AllUpToDate(NOTHING.agg)
  {
    forall d, p | Valid(d)
      ensures UpToDate(NOTHING.agg, d, p)
    {
      NoDaysNoSum(RangeOf(d, p));
    }
  }

  /** From empty tables the quarter's row is then saved with both days. */
  lemma QuarterIsSaved(d: Date, a: Amount, e: Date, b: Amount)
    requires CanOvertake(d, a, e, b)
    ensures !UpToDate(SetDay(SetDay(NOTHING.agg, d, a), e, b), e, Month)
    ensures var q := Overtaken(NOTHING.agg, d, a, e, b);
      && |q.due| == 4 && q.due[..3] == [Job(d, Week), Job(d, Month), Job(e, Week)]
      && q.due[3].period == Year && Valid(q.due[3].date)
  {
    NothingIsUpToDate();
    MonthGoesStale(NOTHING.agg, d, a, e, b);
    var saved := AfterSave(AfterSave(NOTHING, d, a), e, b);
    MonthIsSaved(NOTHING.agg, d, a, e, b);
    NextServes(Job(e, Month));
    var one := Perform(saved, 3);
    var t := one.due[3];
    BothDaysCount(d, a, e, b);
    RefreshEffect(saved.agg, e, Month, t.date, Quarter);
    SameIsUpToDate(saved.agg, t.date, d, Quarter);
    RefreshSaves(one.agg, t.date, Quarter);
    NextServes(t);
    assert one.due[..3] + one.due[4..] == [Job(d, Week), Job(d, Month), Job(e, Week)];
  }

  lemma BothDaysCount(d: Date, a: Amount, e: Date, b: Amount)
    requires CanOvertake(d, a, e, b)
    ensures !UpToDate(SetDay(SetDay(NOTHING.agg, d, a), e, b), d, Quarter)
  {
    var r, one := RangeOf(d, Quarter), SetDay(NOTHING.agg, d, a);
    NoDaysNoSum(r);
    SamePeriod(d, d, Quarter);
    SamePeriod(d, e, Quarter);
    DaySumUpdate(NOTHING.agg.days, r, Ordinal(d), a);
    DifferentDays(d, e);
    DayAmountUpdate(NOTHING.agg.days, Ordinal(d), a, Ordinal(e));
    DaySumUpdate(one.days, r, Ordinal(e), b);
  }

  lemma OvertakingIsRun(d: Date, a: Amount, e: Date, b: Amount)
    requires CanOvertake(d, a, e, b)
    ensures !UpToDate(SetDay(SetDay(NOTHING.agg, d, a), e, b), e, Month)
    ensures IsRun(NOTHING, OvertakingRun(d, a, e, b))
    ensures End(NOTHING, OvertakingRun(d, a, e, b)) == AfterSave(Overtaken(NOTHING.agg, d, a, e, b), d, ZERO)
  {
    QuarterIsSaved(d, a, e, b);
    MonthIsSaved(NOTHING.agg, d, a, e, b);
    NextServes(Job(e, Month));
    var ops := [];
    RunSnoc(NOTHING, ops, OpSave(d, a));
    ops := [] + [OpSave(d, a)];
    RunSnoc(NOTHING, ops, OpSave(e, b));
    ops := ops + [OpSave(e, b)];
    RunSnoc(NOTHING, ops, OpPerform(3));
    ops := ops + [OpPerform(3)];
    RunSnoc(NOTHING, ops, OpPerform(3));
    ops := ops + [OpPerform(3)];
    RunSnoc(NOTHING, ops, OpSave(d, ZERO));
    assert ops + [OpSave(d, ZERO)] == OvertakingRun(d, a, e, b);
  }

  lemma OnlyIdleLeft(d: Date, a: Amount, e: Date, b: Amount)
    requires CanOvertake(d, a, e, b)
    ensures !UpToDate(SetDay(SetDay(NOTHING.agg, d, a), e, b), e, Month)
    ensures var last := AfterSave(Overtaken(NOTHING.agg, d, a, e, b), d, ZERO);
      |last.due| == 6 && AllIdle(last) && SaneDays(last.agg.days)
  {
    NothingIsUpToDate();
    QuarterIsSaved(d, a, e, b);
    OvertakenIsSound(NOTHING.agg, d, a, e, b);
    MonthComesBack(NOTHING.agg, d, a, e, b, d);
  }

  /** A whole run from empty tables: the tasks that are left run one after the other, nothing is due any
      more, and the quarter's row is wrong. */
  lemma StaleQuarterRun(d: Date, a: Amount, e: Date, b: Amount)
    requires CanOvertake(d, a, e, b)
    ensures var ops := OvertakingRun(d, a, e, b) + InTurn(6);
      && IsRun(NOTHING, ops)
      && End(NOTHING, ops).due == []
      && !Right(End(NOTHING, ops), d, Quarter)
  {
    NothingIsUpToDate();
    QuarterIsSaved(d, a, e, b);
    OvertakingIsRun(d, a, e, b);
    OnlyIdleLeft(d, a, e, b);
    IdleRunsOut(AfterSave(Overtaken(NOTHING.agg, d, a, e, b), d, ZERO));
    RunAppend(NOTHING, OvertakingRun(d, a, e, b), InTurn(6));
    OvertakenQuarterIsStale(NOTHING.agg, d, a, e, b, InTurn(6));
  }

  lemma OvertakenIsSound(agg: Aggregates, d: Date, a: Amount, e: Date, b: Amount)
    requires AllUpToDate(agg) && Valid(d) && Valid(e) && Sane(a) && Sane(b)
    requires !UpToDate(SetDay(SetDay(agg, d, a), e, b), e, Month)
    ensures Sound(Overtaken(agg, d, a, e, b))
  {
    var q := Queue(agg, []);
    RightIsCovered(q);
    SaveIsSound(q, d, a);
    SaveIsSound(AfterSave(q, d, a), e, b);
    MonthIsSaved(agg, d, a, e, b);
    PerformIsSound(AfterSave(AfterSave(q, d, a), e, b), 3);
    PerformIsSound(Perform(AfterSave(AfterSave(q, d, a), e, b), 3), 3);
  }

  lemma DifferentDays(d: Date, e: Date)
    requires Valid(d) && Valid(e) && !Same(d, e, Month)
    ensures Ordinal(d) != Ordinal(e)
  {
    if Ordinal(d) == Ordinal(e) {
      OrdinalInjective(d, e);
    }
  }

  lemma MonthGoesStale(agg: Aggregates, d: Date, a: Amount, e: Date, b: Amount)
    requires AllUpToDate(agg) && Valid(d) && Valid(e)
    requires !Same(d, e, Month) && b != DayAmount(agg.days, Ordinal(e))
    ensures !UpToDate(SetDay(SetDay(agg, d, a), e, b), e, Month)
  {
    assert UpToDate(agg, e, Month);
    SetDayEffect(agg, d, a, e, Month);
    DayAmountUpdate(agg.days, Ordinal(d), a, Ordinal(e));
    DifferentDays(d, e);
    ChangedDayShows(SetDay(agg, d, a), e, b, Month);
  }

  lemma MonthComesBack(agg: Aggregates, d: Date, a: Amount, e: Date, b: Amount, f: Date)
    requires AllUpToDate(agg) && Valid(d) && Valid(e) && Sane(a) && Sane(b) && Valid(f)
    requires Same(d, e, Quarter) && !Same(d, e, Month)
    requires !UpToDate(SetDay(SetDay(agg, d, a), e, b), e, Month)
    ensures UpToDate(SetDay(Overtaken(agg, d, a, e, b).agg, d, DayAmount(agg.days, Ordinal(d))), f, Month)
  {
    var q, was := Overtaken(agg, d, a, e, b), DayAmount(agg.days, Ordinal(d));
    OvertakenState(agg, d, a, e, b, f);
    if Same(f, e, Month) {
      SetDayEffect(q.agg, d, was, f, Month);
    } else {
      assert UpToDate(agg, f, Month);
      DifferentDays(d, e);
      SamePeriod(f, e, Month);
      SumComesBack(agg.days, Ordinal(d), a, Ordinal(e), b, RangeOf(f, Month));
    }
  }

  lemma SumComesBack(days: Days, o: int, a: Amount, n: int, b: Amount, r: Range)
    requires o != n && !Contains(r, n)
    ensures DaySum(days[o := a][n := b][o := DayAmount(days, o)], r) == DaySum(days, r)
  {
    var one, was := days[o := a], DayAmount(days, o);
    var two := one[n := b];
    if r.from <= r.to {
      DaySumUpdate(days, r, o, a);
      DaySumUpdate(one, r, n, b);
      DayAmountUpdate(days, o, a, o);
      DayAmountUpdate(one, n, b, o);
      DaySumUpdate(two, r, o, was);
      ThereAndBack(DaySum(days, r), was, a);
    }
  }

  lemma ThereAndBack(total: Amount, was: Amount, a: Amount)
    ensures var there := Plus(total, Amount(a.num - was.num, a.pay - was.pay));
      Plus(there, Amount(was.num - a.num, was.pay - a.pay)) == total
  {
  }

  // ---- The tasks run out ----

  function Weight(t: Job): nat {
    match t.period
    case Month => 3
    case Quarter => 2
    case _ => 1
  }

  function Load(due: seq<Job>): nat {
    if due == [] then 0 else Weight(due[0]) + Load(due[1..])
  }

  lemma {:induction false} LoadAppend(a: seq<Job>, b: seq<Job>)
    ensures Load(a + b) == Load(a) + Load(b)
  {
    if a == [] {
      assert a + b == b;
    } else {
      assert (a + b)[1..] == a[1..] + b;
      LoadAppend(a[1..], b);
    }
  }

  lemma PerformLowersLoad(q: Queue, i: nat)
    requires i < |q.due| && Valid(q.due[i].date)
    ensures Load(Perform(q, i).due) < Load(q.due)
  {
    var t, rest := q.due[i], q.due[i + 1..];
    var more := Triggered(q.agg, t);
    assert q.due == q.due[..i] + ([t] + rest);
    assert ([t] + rest)[1..] == rest;
    LoadAppend(q.due[..i], [t] + rest);
    LoadAppend(q.due[..i] + rest, more);
    LoadAppend(q.due[..i], rest);
    if more != [] {
      assert more[1..] == [];
    }
  }

  /** Without new saves a run has at most as many steps as the load at its start. */
  lemma {:induction false} PerformsEnd(q: Queue, ops: seq<Op>)
    requires IsRun(q, ops) && OnlyTasks(ops)
    ensures |ops| <= Load(q.due)
    decreases |ops|
  {
    if ops != [] {
      PerformLowersLoad(q, ops[0].i);
      assert forall k :: 0 <= k < |ops[1..]| ==> ops[1..][k] == ops[k + 1];
      PerformsEnd(Apply(q, ops[0]), ops[1..]);
    }
  }

  // ---- The tables and the queue, updated in place ----

  class CalendarStore {
    var days: Days
    var rows: map<PeriodKey, Amount>
    var due: seq<Job>

    function Now(): Queue
      reads this
    {
      Queue(Aggregates(days, rows), due)
    }

    /** Saving a daily row, with its two triggers. */
    method SaveDaily(d: Date, a: Amount)
      requires Valid(d)
      modifies this
      ensures Now() == AfterSave(old(Now()), d, a)
    {
      days := days[Ordinal(d) := a];
      due := due + [Job(d, Week)];
      due := due + [Job(d, Month)];
      assert due == old(due) + [Job(d, Week), Job(d, Month)];
    }

    /** `task_update_agg_sale_stats`; whether it saved a row. */
    method UpdateAgg(d: Date, p: Period) returns (saved: bool)
      requires Valid(d)
      modifies this`rows
      ensures Refreshed(Aggregates(days, rows), saved) == Refresh(old(Aggregates(days, rows)), d, p)
    {
      var r := RangeOf(d, p);
      var key := PeriodKey(p, r.from);
      var total := DaySum(days, r);
      saved := false;
      if key !in rows {
        if total.num == 0 {
          return;
        }
        rows := rows[key := total];
        saved := true;
      } else if rows[key] != total {
        rows := rows[key := total];
        saved := true;
      }
    }

    /** Performs one of the due tasks, with the trigger of the row it saves. */
    method PerformJob(i: nat)
      requires i < |due| && Valid(due[i].date)
      modifies this
      ensures Now() == Perform(old(Now()), i)
    {
      var t := due[i];
      due := due[..i] + due[i + 1..];
      var saved := UpdateAgg(t.date, t.period);
      if saved {
        due := due + Next(t);
      }
    }
  }
}
