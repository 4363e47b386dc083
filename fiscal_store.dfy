/**
 * The month navigator of src/stores/fiscal.store.ts: the store keeps the
 * fiscal period shown on screen as a year and a month index 0..11, and
 * prevMonth / nextMonth step it one month back or forward, wrapping over
 * the turn of the year.
 */
module FiscalStore {

  /** A fiscal period: a year and a month index, 0 for January. */
  datatype Period = Period(year: int, month: int)

  predicate ValidPeriod(p: Period) {
    0 <= p.month <= 11
  }

  /** The number of months since January of year 0. */
  function MonthIndex(p: Period): int {
    p.year * 12 + p.month
  }

  /** The period a month index stands for. */
  function PeriodOfIndex(i: int): (p: Period)
    ensures ValidPeriod(p) && MonthIndex(p) == i
  {
    Period(i / 12, i % 12)
  }

  /** A valid period is determined by its month index. */
  lemma IndexDeterminesPeriod(p: Period, q: Period)
    requires ValidPeriod(p) && ValidPeriod(q) && MonthIndex(p) == MonthIndex(q)
    ensures p == q
  {
    assert (p.year - q.year) * 12 == q.month - p.month;
  }

  lemma PeriodOfIndexOf(p: Period)
    requires ValidPeriod(p)
    ensures PeriodOfIndex(MonthIndex(p)) == p
  {
    IndexDeterminesPeriod(PeriodOfIndex(MonthIndex(p)), p);
  }

  /** The step prevMonth takes: January goes to December of the year
      before, any other month to the month before. */
  function PrevPeriod(p: Period): (q: Period)
    requires ValidPeriod(p)
    ensures ValidPeriod(q) && MonthIndex(q) == MonthIndex(p) - 1
  {
    if p.month == 0 then Period(p.year - 1, 11) else Period(p.year, p.month - 1)
  }

  /** The step nextMonth takes: December goes to January of the year
      after, any other month to the month after. */
  function NextPeriod(p: Period): (q: Period)
    requires ValidPeriod(p)
    ensures ValidPeriod(q) && MonthIndex(q) == MonthIndex(p) + 1
  {
    if p.month == 11 then Period(p.year + 1, 0) else Period(p.year, p.month + 1)
  }

  /** The two steps are the month before and the month after on the
      calendar: nothing else satisfies their contracts. */
  lemma StepsAreCalendarNeighbours(p: Period)
    requires ValidPeriod(p)
    ensures PrevPeriod(p) == PeriodOfIndex(MonthIndex(p) - 1)
    ensures NextPeriod(p) == PeriodOfIndex(MonthIndex(p) + 1)
  {
    IndexDeterminesPeriod(PrevPeriod(p), PeriodOfIndex(MonthIndex(p) - 1));
    IndexDeterminesPeriod(NextPeriod(p), PeriodOfIndex(MonthIndex(p) + 1));
  }

  /** One step back then one forward, or the other way round, is back where
      it started. */
  lemma StepsUndoEachOther(p: Period)
    requires ValidPeriod(p)
    ensures NextPeriod(PrevPeriod(p)) == p
    ensures PrevPeriod(NextPeriod(p)) == p
  {
    IndexDeterminesPeriod(NextPeriod(PrevPeriod(p)), p);
    IndexDeterminesPeriod(PrevPeriod(NextPeriod(p)), p);
  }

  /** Twelve steps forward reach the same month of the next year. */
  function Forward(p: Period, n: nat): (q: Period)
    requires ValidPeriod(p)
    ensures ValidPeriod(q) && MonthIndex(q) == MonthIndex(p) + n
  {
    if n == 0 then p else NextPeriod(Forward(p, n - 1))
  }

  lemma TwelveStepsIsAYear(p: Period)
    requires ValidPeriod(p)
    ensures Forward(p, 12) == Period(p.year + 1, p.month)
  {
    IndexDeterminesPeriod(Forward(p, 12), Period(p.year + 1, p.month));
  }

  /** The store's navigation state. */
  class FiscalNavigator {
    var currentYear: int
    var currentMonth: int

    predicate Valid()
      reads this
    {
      0 <= currentMonth <= 11
    }

    function Current(): Period
      reads this
    {
      Period(currentYear, currentMonth)
    }

    /** The state starts at a given year and month, as the store takes them
        from the clock. */
    constructor (year: int, month: int)
      requires 0 <= month <= 11
      ensures Valid() && currentYear == year && currentMonth == month
    {
      currentYear := year;
      currentMonth := month;
    }

    /** prevMonth, without the summary fetch it starts. */
    method PrevMonth()
      requires Valid()
      modifies this
      ensures Valid() && Current() == PrevPeriod(old(Current()))
      ensures old(currentMonth) == 0 ==> currentMonth == 11 && currentYear == old(currentYear) - 1
      ensures old(currentMonth) != 0 ==> currentMonth == old(currentMonth) - 1 && currentYear == old(currentYear)
    {
      if currentMonth == 0 {
        currentMonth := 11;
        currentYear := currentYear - 1;
      } else {
        currentMonth := currentMonth - 1;
      }
    }

    /** nextMonth, without the summary fetch it starts. */
    method NextMonth()
      requires Valid()
      modifies this
      ensures Valid() && Current() == NextPeriod(old(Current()))
      ensures old(currentMonth) == 11 ==> currentMonth == 0 && currentYear == old(currentYear) + 1
      ensures old(currentMonth) != 11 ==> currentMonth == old(currentMonth) + 1 && currentYear == old(currentYear)
    {
      if currentMonth == 11 {
        currentMonth := 0;
        currentYear := currentYear + 1;
      } else {
        currentMonth := currentMonth + 1;
      }
    }
  }

  /** Going back a month and then forward again leaves the navigator where
      it was. */
  method BackAndForth(nav: FiscalNavigator)
    requires nav.Valid()
    modifies nav
    ensures nav.Valid() && nav.Current() == old(nav.Current())
  {
    ghost var start := nav.Current();
    nav.PrevMonth();
    nav.NextMonth();
    StepsUndoEachOther(start);
  }
}
