/**
 * The day windows of a timesheet in a local zone with daylight saving time: the two change
 * days of Europe/Amsterdam in 2024.
 */
module TimesheetScenarios {
  import opened Dates
  import opened Events
  import opened Timesheets

  /** 1 a.m. UTC on 31 March 2024 and on 27 October 2024, when Europe/Amsterdam changes its offset. */
  const SpringChange: int := 1711846800
  const FallChange: int := 1729990800

  /**
   * Europe/Amsterdam through 2024: one hour ahead of UTC, two hours between the changes. A
   * wall-clock time in the skipped hour or the repeated hour gets the offset in force before the
   * change, as `fold=0` does.
   */
  function Amsterdam2024(): Zone {
    Zone(t => if SpringChange <= t < FallChange then 7200 else 3600,
         w => if SpringChange + 7200 <= w < FallChange + 7200 then 7200 else 3600)
  }

  /**
   * 31 March 2024 lasts 23 hours: its window ends at 23:00 UTC, so an event at 23:30 UTC is
   * selected by neither that day nor the next.
   */
  lemma SpringForwardGap()
    ensures var o := Ordinal(Date(2024, 3, 31));
      && Shift(Amsterdam2024(), WindowStart(o)) == -3600
      && DayWindow(Amsterdam2024(), o) == Window(1711843200, 1711926000)
      && !InWindow(Event(1711927800, 0, ""), DayWindow(Amsterdam2024(), o))
      && !InWindow(Event(1711927800, 0, ""), DayWindow(Amsterdam2024(), o + 1))
  {
    var o := Ordinal(Date(2024, 3, 31));
    assert WindowStart(o) == 1711843200;
    assert WindowStart(o + 1) == 1711929600;
    ShiftedDayGapAndOverlap(Amsterdam2024(), Event(1711927800, 0, ""), o);
  }

  /**
   * 27 October 2024 lasts 25 hours: its window ends at 1:00 UTC on the 28th, so an event at
   * 0:30 UTC on the 28th is selected by both days.
   */
  lemma FallBackOverlap()
    ensures var o := Ordinal(Date(2024, 10, 27));
      && Shift(Amsterdam2024(), WindowStart(o)) == 3600
      && DayWindow(Amsterdam2024(), o) == Window(1729987200, 1730077200)
      && InWindow(Event(1730075400, 0, ""), DayWindow(Amsterdam2024(), o))
      && InWindow(Event(1730075400, 0, ""), DayWindow(Amsterdam2024(), o + 1))
  {
    var o := Ordinal(Date(2024, 10, 27));
    assert WindowStart(o) == 1729987200;
    assert WindowStart(o + 1) == 1730073600;
    assert Shift(Amsterdam2024(), WindowStart(o + 1)) == 0;
    ShiftedDayGapAndOverlap(Amsterdam2024(), Event(1730075400, 0, ""), o);
  }

  /** The day after a change lasts 24 hours again. */
  lemma DayAfterSpringIsSteady()
    ensures Shift(Amsterdam2024(), WindowStart(Ordinal(Date(2024, 4, 1)))) == 0
  {
    assert WindowStart(Ordinal(Date(2024, 4, 1))) == 1711929600;
  }
}
