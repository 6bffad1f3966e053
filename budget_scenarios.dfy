/**
 * The worked budget scenarios of the project's test suite, each as a lemma about the model:
 * a project started on 2024-01-15 with a 40 hour monthly budget and a 500 hour total budget.
 */
module BudgetScenarios {
  import opened Wrappers
  import opened Dates
  import opened TimeEntries
  import opened Budget

  function TestProject(): Project {
    Project(Some(Date(2024, 1, 15)), Some(40 * Hour))
  }

  function Entry(y: int, m: int, d: int, hours: int, billable: bool): TimeEntry {
    TimeEntry(Date(y, m, d), hours * Hour, "", billable)
  }

  lemma EventsInMonthFiltersByYear()
    ensures var es := [Entry(2023, 8, 15, 10, true), Entry(2024, 8, 15, 5, true)];
      && EventsInMonth(es, 8, 2023) == [es[0]]
      && EventsInMonth(es, 8, 2024) == [es[1]]
  {
    var es := [Entry(2023, 8, 15, 10, true), Entry(2024, 8, 15, 5, true)];
    assert es[..1] == [es[0]];
    assert [es[0]][..0] == [];
  }

  /** 30h + 35h billable against 2 × 40h: 15 hours of slack. */
  lemma CarryOverUnderUse()
    ensures CarriedOverDuration(TestProject(), [Entry(2024, 1, 20, 30, true), Entry(2024, 2, 20, 35, true)], Date(2024, 3, 1))
         == -15 * Hour
  {
    SumFilterPair(Entry(2024, 1, 20, 30, true), Entry(2024, 2, 20, 35, true), BilledBefore(Date(2024, 3, 1)));
  }

  /** 50h + 45h billable against 2 × 40h: 15 hours over budget. */
  lemma CarryOverOverUse()
    ensures CarriedOverDuration(TestProject(), [Entry(2024, 1, 20, 50, true), Entry(2024, 2, 20, 45, true)], Date(2024, 3, 1))
         == 15 * Hour
  {
    SumFilterPair(Entry(2024, 1, 20, 50, true), Entry(2024, 2, 20, 45, true), BilledBefore(Date(2024, 3, 1)));
  }

  /** 30h billable and 20h non-billable in January against one month: 10 hours of slack. */
  lemma CarryOverIgnoresNonBillableScenario()
    ensures CarriedOverDuration(TestProject(), [Entry(2024, 1, 20, 30, true), Entry(2024, 1, 25, 20, false)], Date(2024, 2, 1))
         == -10 * Hour
  {
    SumFilterPair(Entry(2024, 1, 20, 30, true), Entry(2024, 1, 25, 20, false), BilledBefore(Date(2024, 2, 1)));
  }

  /** Months are counted from 1 January for a start on 15 January. */
  lemma MidMonthStartMonths()
    ensures MonthsElapsed(Date(2024, 1, 15), Date(2024, 3, 1)) == 2
    ensures MonthsElapsed(Date(2024, 1, 15), Date(2024, 2, 1)) == 1
  {
  }

  /** A start on 15 January still gives two months at 1 March: 60h against 80h. */
  lemma CarryOverMidMonthStart()
    ensures CarriedOverDuration(TestProject(), [Entry(2024, 1, 20, 20, true), Entry(2024, 2, 10, 40, true)], Date(2024, 3, 1))
         == -20 * Hour
  {
    SumFilterPair(Entry(2024, 1, 20, 20, true), Entry(2024, 2, 10, 40, true), BilledBefore(Date(2024, 3, 1)));
  }

  /** Before 1 March only the 10 billable hours count: not the 15 non-billable, not the 20 of 10 March. */
  lemma BillableDurationBeforeScenario()
    ensures BillableDurationBefore([Entry(2024, 1, 20, 10, true), Entry(2024, 2, 15, 15, false), Entry(2024, 3, 10, 20, true)],
                                   Date(2024, 3, 1))
         == 10 * Hour
  {
    var a, b, c := Entry(2024, 1, 20, 10, true), Entry(2024, 2, 15, 15, false), Entry(2024, 3, 10, 20, true);
    var cutoff := Date(2024, 3, 1);
    assert [a, b, c] == [a, b] + [c];
    SumFilterPair(a, b, BilledBefore(cutoff));
    SumFilterAppend([a, b], [c], BilledBefore(cutoff));
    SumFilterSingle(c, BilledBefore(cutoff));
  }

  /** Before 1 March all 25 hours count, billable or not. */
  lemma DurationBeforeScenario()
    ensures DurationBefore([Entry(2024, 1, 20, 10, true), Entry(2024, 2, 15, 15, false)], Date(2024, 3, 1)) == 25 * Hour
  {
    SumFilterPair(Entry(2024, 1, 20, 10, true), Entry(2024, 2, 15, 15, false), DatedBefore(Date(2024, 3, 1)));
  }

  lemma CarryOverNoStartDate(es: seq<TimeEntry>)
    ensures CarriedOverDuration(Project(None, Some(40 * Hour)), es, Date(2024, 3, 1)) == 0
  {
  }

  lemma CarryOverNoMonthlyBudget(es: seq<TimeEntry>)
    ensures CarriedOverDuration(Project(Some(Date(2024, 1, 15)), None), es, Date(2024, 3, 1)) == 0
  {
  }

  /** A January 10 hours under budget leaves 40 − (−10) − 25 = 25 hours in February. */
  lemma RemainingAfterUnderUse()
    ensures var es := [Entry(2024, 1, 20, 30, true), Entry(2024, 2, 15, 25, true)];
      && CarriedOverDuration(TestProject(), es, Date(2024, 2, 1)) == -10 * Hour
      && RemainingThisMonth(TestProject(), es, Date(2024, 2, 1)) == Some(25 * Hour)
  {
    SumFilterPair(Entry(2024, 1, 20, 30, true), Entry(2024, 2, 15, 25, true), BilledBefore(Date(2024, 2, 1)));
    SumFilterPair(Entry(2024, 1, 20, 30, true), Entry(2024, 2, 15, 25, true), BilledInMonth(2, 2024));
  }

  /** A January 10 hours over budget leaves 40 − 10 − 25 = 5 hours in February. */
  lemma RemainingAfterOverUse()
    ensures var es := [Entry(2024, 1, 20, 50, true), Entry(2024, 2, 15, 25, true)];
      && CarriedOverDuration(TestProject(), es, Date(2024, 2, 1)) == 10 * Hour
      && RemainingThisMonth(TestProject(), es, Date(2024, 2, 1)) == Some(5 * Hour)
  {
    SumFilterPair(Entry(2024, 1, 20, 50, true), Entry(2024, 2, 15, 25, true), BilledBefore(Date(2024, 2, 1)));
    SumFilterPair(Entry(2024, 1, 20, 50, true), Entry(2024, 2, 15, 25, true), BilledInMonth(2, 2024));
  }
}
