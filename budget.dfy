/**
 * The budget accountant of a project: hours used before a cutoff date, entries of one
 * calendar month, months elapsed since the project's start month, the signed carry-over
 * of the monthly budget and the hours that remain in the current month.
 */
module Budget {
  import opened Wrappers
  import opened Dates
  import opened TimeEntries

  const Hour: int := 3600

  /** A project's start date and monthly budget, in seconds; the page's total budget is handled by `TimesheetView.BudgetFieldsOf`. */
  datatype Project = Project(startDate: Option<Date>, monthlyBudget: Option<int>)

  function BilledBefore(cutoff: Date): TimeEntry -> bool {
    (e: TimeEntry) => e.billable && Before(e.date, cutoff)
  }

  function NonBilledBefore(cutoff: Date): TimeEntry -> bool {
    (e: TimeEntry) => !e.billable && Before(e.date, cutoff)
  }

  function DatedBefore(cutoff: Date): TimeEntry -> bool {
    (e: TimeEntry) => Before(e.date, cutoff)
  }

  function DatedInMonth(month: int, year: int): TimeEntry -> bool {
    (e: TimeEntry) => e.date.month == month && e.date.year == year
  }

  function BilledInMonth(month: int, year: int): TimeEntry -> bool {
    (e: TimeEntry) => e.billable && e.date.month == month && e.date.year == year
  }

  /** `billable_duration_before_time(cutoff)`: billable hours dated strictly before the cutoff. */
  function BillableDurationBefore(es: seq<TimeEntry>, cutoff: Date): int {
    SumDurations(Filter(es, BilledBefore(cutoff)))
  }

  /** `duration_before_time(cutoff)`: all hours dated strictly before the cutoff, billable or not. */
  function DurationBefore(es: seq<TimeEntry>, cutoff: Date): int {
    SumDurations(Filter(es, DatedBefore(cutoff)))
  }

  /** `events_in_month(month, year)`: the entries of that month of that year, in their order. */
  function EventsInMonth(es: seq<TimeEntry>, month: int, year: int): (r: seq<TimeEntry>)
    ensures forall e :: e in r <==> e in es && e.date.month == month && e.date.year == year
  {
    Filter(es, DatedInMonth(month, year))
  }

  /** Billable hours booked in one calendar month. */
  function BillableDurationIn(es: seq<TimeEntry>, month: int, year: int): int {
    SumDurations(Filter(es, BilledInMonth(month, year)))
  }

  /** Whole calendar months from the first of the start month to the first of `asOf`'s month. */
  function MonthsElapsed(start: Date, asOf: Date): int {
    (asOf.year - start.year) * 12 + (asOf.month - start.month)
  }

  /**
   * `carried_over_duration(as_of)`: billable hours before `as_of` minus the monthly budget
   * times the months elapsed; positive means over budget, negative means unused allowance.
   * Zero when the project has no start date or no monthly budget.
   */
  function CarriedOverDuration(p: Project, es: seq<TimeEntry>, asOf: Date): int {
    if p.startDate.None? || p.monthlyBudget.None? then 0
    else BillableDurationBefore(es, asOf) - p.monthlyBudget.value * MonthsElapsed(p.startDate.value, asOf)
  }

  /** Hours left in the month that starts at `monthStart`: budget − carry-over − billable hours of the month. */
  function RemainingThisMonth(p: Project, es: seq<TimeEntry>, monthStart: Date): (r: Option<int>)
    requires monthStart.day == 1
    ensures r.Some? <==> p.monthlyBudget.Some?
  {
    if p.monthlyBudget.None? then None
    else Some(p.monthlyBudget.value - CarriedOverDuration(p, es, monthStart)
              - BillableDurationIn(es, monthStart.month, monthStart.year))
  }

  /** Billable hours before a cutoff add up over any split of the entries. */
  lemma BillableDurationBeforeAppend(a: seq<TimeEntry>, b: seq<TimeEntry>, cutoff: Date)
    ensures BillableDurationBefore(a + b, cutoff) == BillableDurationBefore(a, cutoff) + BillableDurationBefore(b, cutoff)
  {
    FilterAppend(a, b, BilledBefore(cutoff));
    SumAppend(Filter(a, BilledBefore(cutoff)), Filter(b, BilledBefore(cutoff)));
  }

  /**
   * An entry counts towards `billable_duration_before_time(cutoff)` exactly when it is billable
   * and dated before the cutoff, wherever it stands among the entries.
   */
  lemma BillableDurationBeforeCounts(a: seq<TimeEntry>, e: TimeEntry, b: seq<TimeEntry>, cutoff: Date)
    ensures BillableDurationBefore(a + [e] + b, cutoff)
         == BillableDurationBefore(a + b, cutoff) + (if e.billable && Before(e.date, cutoff) then e.duration else 0)
  {
    BillableDurationBeforeAppend(a + [e], b, cutoff);
    BillableDurationBeforeAppend(a, [e], cutoff);
    BillableDurationBeforeAppend(a, b, cutoff);
    assert Filter([e], BilledBefore(cutoff)) == Filter([], BilledBefore(cutoff)) + (if e.billable && Before(e.date, cutoff) then [e] else []);
  }

  /** All hours before a cutoff are the billable ones plus the non-billable ones. */
  lemma {:induction false} DurationBeforeSplitsByBillable(es: seq<TimeEntry>, cutoff: Date)
    ensures DurationBefore(es, cutoff)
         == BillableDurationBefore(es, cutoff) + SumDurations(Filter(es, NonBilledBefore(cutoff)))
  {
    if es != [] {
      var init := es[..|es| - 1];
      var last := es[|es| - 1];
      DurationBeforeSplitsByBillable(init, cutoff);
      SumAppend(Filter(init, DatedBefore(cutoff)), if Before(last.date, cutoff) then [last] else []);
      SumAppend(Filter(init, BilledBefore(cutoff)), if last.billable && Before(last.date, cutoff) then [last] else []);
      SumAppend(Filter(init, NonBilledBefore(cutoff)),
                if !last.billable && Before(last.date, cutoff) then [last] else []);
    }
  }

  /** With non-negative durations, billable hours before a cutoff never exceed all hours before it. */
  lemma {:induction false} BillableAtMostAll(es: seq<TimeEntry>, cutoff: Date)
    requires forall i :: 0 <= i < |es| ==> es[i].duration >= 0
    ensures 0 <= BillableDurationBefore(es, cutoff) <= DurationBefore(es, cutoff)
  {
    DurationBeforeSplitsByBillable(es, cutoff);
    SumFilterAtMost(es, BilledBefore(cutoff));
    SumFilterAtMost(es, NonBilledBefore(cutoff));
  }

  /** The month count ignores the start day: it counts from the first of the start month. */
  lemma MonthsElapsedFromFirstOfStartMonth(start: Date, asOf: Date)
    ensures MonthsElapsed(start, asOf) == MonthsElapsed(FirstOfMonth(start), asOf)
    ensures MonthsElapsed(start, FirstOfMonth(start)) == 0
  {
  }

  lemma MonthsElapsedNextMonth(start: Date, asOf: Date)
    requires 1 <= asOf.month <= 12
    ensures MonthsElapsed(start, FirstOfNextMonth(asOf)) == MonthsElapsed(start, asOf) + 1
  {
  }

  /** The sign convention: over-use gives a positive carry-over, under-use a negative one. */
  lemma CarryOverSign(p: Project, es: seq<TimeEntry>, asOf: Date)
    requires p.startDate.Some? && p.monthlyBudget.Some?
    ensures var allotted := p.monthlyBudget.value * MonthsElapsed(p.startDate.value, asOf);
      && (CarriedOverDuration(p, es, asOf) > 0 <==> BillableDurationBefore(es, asOf) > allotted)
      && (CarriedOverDuration(p, es, asOf) < 0 <==> BillableDurationBefore(es, asOf) < allotted)
  {
  }

  /** With budget tracking switched off the carry-over is exactly zero, whatever was booked. */
  lemma CarryOverDisabled(p: Project, es: seq<TimeEntry>, asOf: Date)
    requires p.startDate.None? || p.monthlyBudget.None?
    ensures CarriedOverDuration(p, es, asOf) == 0
  {
  }

  /** A non-billable entry, wherever it stands, has no effect on the carry-over. */
  lemma CarryOverIgnoresNonBillable(p: Project, a: seq<TimeEntry>, e: TimeEntry, b: seq<TimeEntry>, asOf: Date)
    requires !e.billable
    ensures CarriedOverDuration(p, a + [e] + b, asOf) == CarriedOverDuration(p, a + b, asOf)
  {
    BillableDurationBeforeCounts(a, e, b, asOf);
  }

  /** Entries of real dates: months 1 to 12, days from 1. */
  predicate EntryDatesValid(es: seq<TimeEntry>) {
    forall i :: 0 <= i < |es| ==> 1 <= es[i].date.month <= 12 && es[i].date.day >= 1
  }

  /** Moving the cutoff from the first of a month to the first of the next adds that month's billable hours. */
  lemma {:induction false} BillableBeforeNextMonth(es: seq<TimeEntry>, monthStart: Date)
    requires EntryDatesValid(es)
    requires monthStart.day == 1 && 1 <= monthStart.month <= 12
    ensures BillableDurationBefore(es, FirstOfNextMonth(monthStart))
         == BillableDurationBefore(es, monthStart) + BillableDurationIn(es, monthStart.month, monthStart.year)
  {
    if es != [] {
      var init := es[..|es| - 1];
      var last := es[|es| - 1];
      assert EntryDatesValid(init) by {
        forall i | 0 <= i < |init| ensures 1 <= init[i].date.month <= 12 && init[i].date.day >= 1 {
          assert init[i] == es[i];
        }
      }
      BillableBeforeNextMonth(init, monthStart);
      var next := FirstOfNextMonth(monthStart);
      assert BilledBefore(next)(last)
        == (BilledBefore(monthStart)(last) || BilledInMonth(monthStart.month, monthStart.year)(last));
      assert !(BilledBefore(monthStart)(last) && BilledInMonth(monthStart.month, monthStart.year)(last));
      SumAppend(Filter(init, BilledBefore(next)), if BilledBefore(next)(last) then [last] else []);
      SumAppend(Filter(init, BilledBefore(monthStart)), if BilledBefore(monthStart)(last) then [last] else []);
      SumAppend(Filter(init, BilledInMonth(monthStart.month, monthStart.year)),
                if BilledInMonth(monthStart.month, monthStart.year)(last) then [last] else []);
    }
  }

  /**
   * Month over month, the carry-over grows by the month's billable hours and shrinks by
   * one monthly budget.
   */
  lemma CarryOverRollsForward(p: Project, es: seq<TimeEntry>, monthStart: Date)
    requires p.startDate.Some? && p.monthlyBudget.Some?
    requires EntryDatesValid(es)
    requires monthStart.day == 1 && 1 <= monthStart.month <= 12
    ensures CarriedOverDuration(p, es, FirstOfNextMonth(monthStart))
         == CarriedOverDuration(p, es, monthStart)
            + BillableDurationIn(es, monthStart.month, monthStart.year) - p.monthlyBudget.value
  {
    BillableBeforeNextMonth(es, monthStart);
    MonthsElapsedNextMonth(p.startDate.value, monthStart);
    var m := p.monthlyBudget.value;
    var k := MonthsElapsed(p.startDate.value, monthStart);
    assert m * (k + 1) == m * k + m;
  }

  /** What remains of this month's budget is the carry-over the next month starts with, negated. */
  lemma RemainingIsNextMonthsCarryOver(p: Project, es: seq<TimeEntry>, monthStart: Date)
    requires p.startDate.Some? && p.monthlyBudget.Some?
    requires EntryDatesValid(es)
    requires monthStart.day == 1 && 1 <= monthStart.month <= 12
    ensures RemainingThisMonth(p, es, monthStart) == Some(-CarriedOverDuration(p, es, FirstOfNextMonth(monthStart)))
  {
    CarryOverRollsForward(p, es, monthStart);
  }

  /** Without a start date the remaining hours are the monthly budget less this month's billable hours. */
  lemma RemainingWithoutStartDate(p: Project, es: seq<TimeEntry>, monthStart: Date)
    requires p.startDate.None? && p.monthlyBudget.Some?
    requires monthStart.day == 1
    ensures RemainingThisMonth(p, es, monthStart)
         == Some(p.monthlyBudget.value - BillableDurationIn(es, monthStart.month, monthStart.year))
  {
  }

  /** The same month of two different years never shares an entry. */
  lemma EventsInMonthKeepsYearsApart(es: seq<TimeEntry>, month: int, y1: int, y2: int)
    requires y1 != y2
    ensures forall e :: e in EventsInMonth(es, month, y1) ==> e !in EventsInMonth(es, month, y2)
  {
  }
}
