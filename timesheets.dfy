/**
 * Timesheets and their days: the one-day window of a day, the events it selects, the text
 * handed to the summarising agent, and the loop that creates or regenerates the day records
 * of a timesheet's range.
 */
module Timesheets {
  import opened Wrappers
  import opened Dates
  import opened Strings
  import opened Events
  import opened DateRange

  /**
   * `utc_start_time`: midnight at the start of the date with ordinal `ordinal`. The naive
   * `datetime.combine(date, time.min)` is read in the process zone, which Django sets to
   * `TIME_ZONE = "UTC"`, so the window starts at the date's UTC midnight; `astimezone` then
   * gives that instant as a wall-clock time of `AS_LOCAL_TIME_ZONE`.
   */
  function WindowStart(ordinal: int): int {
    DayStart(ordinal)
  }

  /**
   * `AS_LOCAL_TIME_ZONE`, a zone the user configures, as far as the window needs it: the UTC
   * offset it has at an instant (what `astimezone` uses), and the offset it gives a wall-clock
   * time with `fold=0` (what the aware result of adding a `timedelta` gets). Wall-clock times
   * are seconds on the same scale as instants.
   */
  datatype Zone = Zone(offsetAt: int -> int, offsetOfWall: int -> int)

  /** A zone whose offset never changes, such as UTC itself. */
  function FixedZone(offset: int): Zone {
    Zone(t => offset, w => offset)
  }

  /** The wall-clock time of `utc_start_time + timedelta(days=1)`: one calendar day after the start's. */
  function EndWall(zone: Zone, start: int): int {
    start + zone.offsetAt(start) + SecondsPerDay
  }

  /**
   * `utc_end_time`: adding a day to an aware datetime adds it to the wall-clock time, and the
   * result takes the offset of that wall-clock time.
   */
  function WindowEnd(zone: Zone, start: int): int {
    EndWall(zone, start) - zone.offsetOfWall(EndWall(zone, start))
  }

  /** How far the window's end lies past 24 hours after its start: the change of the zone's offset within the day. */
  function Shift(zone: Zone, start: int): int {
    zone.offsetAt(start) - zone.offsetOfWall(EndWall(zone, start))
  }

  /** The instants a timesheet day's `timestamp__range` runs between. */
  datatype Window = Window(start: int, end: int)

  function DayWindow(zone: Zone, ordinal: int): (w: Window)
    ensures w.start == WindowStart(ordinal)
    ensures w.end == WindowStart(ordinal) + SecondsPerDay + Shift(zone, WindowStart(ordinal))
  {
    Window(WindowStart(ordinal), WindowEnd(zone, WindowStart(ordinal)))
  }

  /** `timestamp__range=[start, end]`: both ends are included. */
  predicate InWindow(e: Event, w: Window) {
    w.start <= e.timestamp <= w.end
  }

  /** A zone of fixed offset never shifts a window: every day lasts 24 hours. */
  lemma FixedZoneSteady(offset: int, start: int)
    ensures Shift(FixedZone(offset), start) == 0
    ensures WindowEnd(FixedZone(offset), start) == start + SecondsPerDay
  {
  }

  /** One day's window ends where the next day's starts, moved by the offset change of the day. */
  lemma WindowsMeet(zone: Zone, ordinal: int)
    ensures DayWindow(zone, ordinal).end == DayWindow(zone, ordinal + 1).start + Shift(zone, WindowStart(ordinal))
    ensures DayWindow(zone, ordinal).end == DayWindow(zone, ordinal + 1).start <==> Shift(zone, WindowStart(ordinal)) == 0
  {
  }

  /** On a day the zone's offset does not change, the window covers exactly the instants of that UTC date, plus the next midnight. */
  lemma WindowIsUtcDate(zone: Zone, ordinal: int, t: int)
    ensures Shift(zone, WindowStart(ordinal)) == 0
      ==> (DayWindow(zone, ordinal).start <= t < DayWindow(zone, ordinal).end <==> DayOf(t) == ordinal)
  {
    if WindowStart(ordinal) <= t < WindowStart(ordinal) + SecondsPerDay {
      DivUnique(t, SecondsPerDay, ordinal - EpochOrdinal, t - DayStart(ordinal));
    }
  }

  /** A day's window ends at the midnight that starts the next calendar date, moved by the offset change of the day. */
  lemma WindowEndIsNextDate(zone: Zone, d: Date)
    requires Valid(d) && d != Date(9999, 12, 31)
    ensures DayWindow(zone, Ordinal(d)).end == WindowStart(Ordinal(NextDay(d))) + Shift(zone, WindowStart(Ordinal(d)))
  {
    NextDayOrdinal(d);
  }

  /**
   * Unless the day's window ends early, an event exactly at the next midnight is selected by both
   * days (when the next day does not shift too). When neither this day nor the one before shifts, an event strictly inside the UTC date
   * is selected by its own day only.
   */
  lemma BoundaryEventInBothDays(zone: Zone, e: Event, ordinal: int)
    ensures Shift(zone, WindowStart(ordinal)) >= 0 && Shift(zone, WindowStart(ordinal + 1)) == 0
      && e.timestamp == WindowStart(ordinal + 1)
      ==> InWindow(e, DayWindow(zone, ordinal)) && InWindow(e, DayWindow(zone, ordinal + 1))
    ensures Shift(zone, WindowStart(ordinal)) == 0 && Shift(zone, WindowStart(ordinal - 1)) == 0
      && WindowStart(ordinal) < e.timestamp < WindowStart(ordinal + 1)
      ==> InWindow(e, DayWindow(zone, ordinal)) && !InWindow(e, DayWindow(zone, ordinal + 1))
          && !InWindow(e, DayWindow(zone, ordinal - 1))
  {
    assert WindowStart(ordinal + 1) == WindowStart(ordinal) + SecondsPerDay;
    assert WindowStart(ordinal) == WindowStart(ordinal - 1) + SecondsPerDay;
    WindowsMeet(zone, ordinal);
    WindowsMeet(zone, ordinal - 1);
  }

  /**
   * A day on which the zone's offset grows (spring forward) ends its window early: the
   * instants between its end and the next midnight are in neither day. A day on which it
   * shrinks (fall back) ends late: the instants from the next midnight to its end are in both
   * (when the next day does not shift too, and the change is under a day).
   */
  lemma ShiftedDayGapAndOverlap(zone: Zone, e: Event, ordinal: int)
    ensures Shift(zone, WindowStart(ordinal)) < 0
      && DayWindow(zone, ordinal).end < e.timestamp < WindowStart(ordinal + 1)
      ==> !InWindow(e, DayWindow(zone, ordinal)) && !InWindow(e, DayWindow(zone, ordinal + 1))
    ensures 0 < Shift(zone, WindowStart(ordinal)) <= SecondsPerDay && Shift(zone, WindowStart(ordinal + 1)) == 0
      && WindowStart(ordinal + 1) <= e.timestamp <= DayWindow(zone, ordinal).end
      ==> InWindow(e, DayWindow(zone, ordinal)) && InWindow(e, DayWindow(zone, ordinal + 1))
  {
    assert WindowStart(ordinal + 1) == WindowStart(ordinal) + SecondsPerDay;
    WindowsMeet(zone, ordinal);
  }

  /** `source__in=project.source_set.filter(enabled=True)`. */
  predicate EnabledFor(sources: map<int, Source>, project: int, id: int) {
    id in sources && sources[id].enabled && sources[id].project == Some(project)
  }

  function DayFilter(sources: map<int, Source>, project: int, w: Window): Event -> bool {
    (e: Event) => InWindow(e, w) && EnabledFor(sources, project, e.source)
  }

  predicate SortedByTime(es: seq<Event>) {
    forall i, j :: 0 <= i < j < |es| ==> es[i].timestamp <= es[j].timestamp
  }

  /** Puts `e` into the sorted list `es` before the first later-or-equal event. */
  function InsertByTime(e: Event, es: seq<Event>): (r: seq<Event>)
    requires SortedByTime(es)
    ensures SortedByTime(r)
    ensures multiset(r) == multiset(es) + multiset{e}
  {
    if es == [] || e.timestamp <= es[0].timestamp then
      SortedCons(e, es);
      [e] + es
    else
      var rest := InsertByTime(e, es[1..]);
      assert es == [es[0]] + es[1..];
      EarliestFirst(es, e, rest);
      SortedCons(es[0], rest);
      [es[0]] + rest
  }

  /** An event no later than every event of a sorted list can go first. */
  lemma SortedCons(x: Event, rest: seq<Event>)
    requires SortedByTime(rest)
    requires forall y :: y in rest ==> x.timestamp <= y.timestamp
    ensures SortedByTime([x] + rest)
  {
    var r := [x] + rest;
    forall i, j | 0 <= i < j < |r|
      ensures r[i].timestamp <= r[j].timestamp
    {
      assert r[j] == rest[j - 1];
      if i > 0 {
        assert r[i] == rest[i - 1];
      }
    }
  }

  lemma EarliestFirst(es: seq<Event>, e: Event, rest: seq<Event>)
    requires es != [] && SortedByTime(es) && es[0].timestamp < e.timestamp
    requires multiset(rest) == multiset(es[1..]) + multiset{e}
    ensures forall y :: y in rest ==> es[0].timestamp <= y.timestamp
  {
    forall y | y in rest
      ensures es[0].timestamp <= y.timestamp
    {
      assert y in multiset(rest);
      if y != e {
        assert y in multiset(es[1..]);
        var k :| 0 <= k < |es[1..]| && es[1..][k] == y;
        assert es[k + 1] == y;
      }
    }
  }

  /** `order_by('timestamp')`: the same events, ascending in time (ties in an order of the model's choosing). */
  function SortByTime(es: seq<Event>): (r: seq<Event>)
    ensures SortedByTime(r)
    ensures multiset(r) == multiset(es)
  {
    if es == [] then []
    else
      assert es == [es[0]] + es[1..];
      InsertByTime(es[0], SortByTime(es[1..]))
  }

  /** `events()`: the stored events of the window `w`, from the project's enabled sources, in time order. */
  function DayEvents(store: seq<Event>, sources: map<int, Source>, project: int, w: Window): (r: seq<Event>)
    ensures SortedByTime(r)
    ensures multiset(r) == multiset(Select(store, DayFilter(sources, project, w)))
    ensures forall e :: e in r <==> e in store && InWindow(e, w) && EnabledFor(sources, project, e.source)
  {
    var selected := Select(store, DayFilter(sources, project, w));
    var r := SortByTime(selected);
    assert forall e :: e in r <==> e in store && InWindow(e, w) && EnabledFor(sources, project, e.source) by {
      forall e
        ensures e in r <==> e in selected
      {
        assert e in r <==> e in multiset(r);
        assert e in selected <==> e in multiset(selected);
      }
    }
    r
  }

  /** A store that keeps the `unique_event` constraint gives every day distinct events. */
  lemma DayEventsDistinct(store: seq<Event>, sources: map<int, Source>, project: int, w: Window)
    requires UniqueKeys(store)
    ensures UniqueKeys(DayEvents(store, sources, project, w))
  {
    SelectKeepsUnique(store, DayFilter(sources, project, w));
    PermutationKeepsUnique(Select(store, DayFilter(sources, project, w)), DayEvents(store, sources, project, w));
  }

  /** `f'{event.source.source_type} | {event.timestamp}: {event.event_text}'`; `fmt` renders the timestamp. */
  function EventLine(e: Event, sources: map<int, Source>, fmt: int -> string): string
    requires e.source in sources
  {
    sources[e.source].sourceType + " | " + fmt(e.timestamp) + ": " + e.text
  }

  function Lines(es: seq<Event>, sources: map<int, Source>, fmt: int -> string): (r: seq<string>)
    requires forall e :: e in es ==> e.source in sources
    ensures |r| == |es| && forall i :: 0 <= i < |es| ==> r[i] == EventLine(es[i], sources, fmt)
  {
    seq(|es|, i requires 0 <= i < |es| => EventLine(es[i], sources, fmt))
  }

  /** `joined_events_text`: one line per selected event, in time order, joined by newlines. */
  function JoinedEventsText(store: seq<Event>, sources: map<int, Source>, project: int, w: Window,
                            fmt: int -> string): string
  {
    Join(Lines(DayEvents(store, sources, project, w), sources, fmt), "\n")
  }

  /** A day without events gives the empty text. */
  lemma JoinedEventsTextEmpty(store: seq<Event>, sources: map<int, Source>, project: int, w: Window, fmt: int -> string)
    requires DayEvents(store, sources, project, w) == []
    ensures JoinedEventsText(store, sources, project, w, fmt) == ""
  {
  }

  /**
   * When no event text, source type or rendered timestamp holds a newline, the text cuts back
   * at its newlines into exactly one line per event, in order.
   */
  lemma JoinedEventsTextLines(store: seq<Event>, sources: map<int, Source>, project: int, w: Window, fmt: int -> string)
    requires DayEvents(store, sources, project, w) != []
    requires forall id :: id in sources ==> '\n' !in sources[id].sourceType
    requires forall t :: '\n' !in fmt(t)
    requires forall e :: e in store ==> '\n' !in e.text
    ensures var es := DayEvents(store, sources, project, w);
      Split(JoinedEventsText(store, sources, project, w, fmt), "\n") == Lines(es, sources, fmt)
  {
    var es := DayEvents(store, sources, project, w);
    var lines := Lines(es, sources, fmt);
    forall i | 0 <= i < |lines|
      ensures '\n' !in lines[i]
    {
      var e := es[i];
      assert e in es;
      var a, b := sources[e.source].sourceType, fmt(e.timestamp);
      assert lines[i] == a + " | " + b + ": " + e.text;
      assert forall c :: c in lines[i] ==> c in a || c in " | " || c in b || c in ": " || c in e.text;
    }
    SplitJoin(lines, '\n');
  }

  /**
   * What `TimesheetDay.generate` needs from outside the model: the stored events, the source
   * rows by key, the local zone `AS_LOCAL_TIME_ZONE`, how a timestamp is rendered in text, and
   * what the agent saves as html when shown a day's event text (None when it saves nothing).
   */
  datatype Env = Env(store: seq<Event>, sources: map<int, Source>, zone: Zone,
                     fmt: int -> string, agent: string -> Option<string>)

  function EventsOfDay(env: Env, project: int, ordinal: int): seq<Event> {
    DayEvents(env.store, env.sources, project, DayWindow(env.zone, ordinal))
  }

  function TextOfDay(env: Env, project: int, ordinal: int): string {
    JoinedEventsText(env.store, env.sources, project, DayWindow(env.zone, ordinal), env.fmt)
  }

  /**
   * `TimesheetDay.generate` on a day whose html is `html`: nothing happens without events;
   * otherwise the html becomes whatever the agent saves, if it saves anything.
   */
  function GenerateDay(html: Option<string>, env: Env, project: int, ordinal: int): (r: Option<string>)
    ensures EventsOfDay(env, project, ordinal) == [] ==> r == html
    ensures EventsOfDay(env, project, ordinal) != [] && env.agent(TextOfDay(env, project, ordinal)).Some?
      ==> r == env.agent(TextOfDay(env, project, ordinal))
    ensures env.agent(TextOfDay(env, project, ordinal)).None? ==> r == html
    ensures r != html ==> r == env.agent(TextOfDay(env, project, ordinal))
  {
    if EventsOfDay(env, project, ordinal) == [] then html
    else
      var saved := env.agent(TextOfDay(env, project, ordinal));
      if saved.Some? then saved else html
  }

  /** `not timesheet_day.html`: no html or the empty string. */
  predicate Blank(html: Option<string>) {
    html.None? || html.value == ""
  }

  /** How a day record's html is regenerated, given the html it has and the day's ordinal. */
  type Generator = (Option<string>, int) -> Option<string>

  /** `TimesheetDay.generate` for the days of project `project`. */
  function DayGenerator(env: Env, project: int): Generator {
    (html: Option<string>, ordinal: int) => GenerateDay(html, env, project, ordinal)
  }

  /**
   * One pass of `Timesheet.generate`'s loop: `get_or_create` the day's record (a new one has no
   * html), then generate it when `replace` is set or its html is blank.
   */
  function VisitDay(days: map<int, Option<string>>, ordinal: int, replace: bool, gen: Generator): map<int, Option<string>> {
    var html := if ordinal in days then days[ordinal] else None;
    days[ordinal := if replace || Blank(html) then gen(html, ordinal) else html]
  }

  /** The day records after visiting the days `ordinals` in order. */
  function GenerateAll(days: map<int, Option<string>>, ordinals: seq<int>, replace: bool, gen: Generator)
    : map<int, Option<string>>
  {
    if ordinals == [] then days
    else VisitDay(GenerateAll(days, ordinals[..|ordinals| - 1], replace, gen), ordinals[|ordinals| - 1], replace, gen)
  }

  lemma GenerateAllAppend(days: map<int, Option<string>>, ordinals: seq<int>, o: int, replace: bool, gen: Generator)
    ensures GenerateAll(days, ordinals + [o], replace, gen) == VisitDay(GenerateAll(days, ordinals, replace, gen), o, replace, gen)
  {
    assert (ordinals + [o])[..|ordinals|] == ordinals;
  }

  /** Every visited day gets a record, other records stay, and there is never more than one per day. */
  lemma {:induction false} GenerateAllKeys(days: map<int, Option<string>>, ordinals: seq<int>, replace: bool, gen: Generator)
    ensures GenerateAll(days, ordinals, replace, gen).Keys == days.Keys + (set o | o in ordinals)
  {
    if ordinals != [] {
      var init := ordinals[..|ordinals| - 1];
      GenerateAllKeys(days, init, replace, gen);
      assert ordinals == init + [ordinals[|ordinals| - 1]];
      assert (set o | o in ordinals) == (set o | o in init) + {ordinals[|ordinals| - 1]};
    }
  }

  /** A day outside the range keeps its record as it was. */
  lemma {:induction false} GenerateAllUnvisited(days: map<int, Option<string>>, ordinals: seq<int>, replace: bool, gen: Generator,
                                                o: int)
    requires o in days && o !in ordinals
    ensures o in GenerateAll(days, ordinals, replace, gen)
    ensures GenerateAll(days, ordinals, replace, gen)[o] == days[o]
  {
    if ordinals != [] {
      var init := ordinals[..|ordinals| - 1];
      assert ordinals == init + [ordinals[|ordinals| - 1]];
      GenerateAllUnvisited(days, init, replace, gen, o);
    }
  }

  /** Without `replace`, a day whose html is already filled in is left alone. */
  lemma {:induction false} GenerateAllKeepsFilled(days: map<int, Option<string>>, ordinals: seq<int>, gen: Generator, o: int)
    requires o in days && !Blank(days[o])
    ensures o in GenerateAll(days, ordinals, false, gen)
    ensures GenerateAll(days, ordinals, false, gen)[o] == days[o]
  {
    if ordinals != [] {
      GenerateAllKeepsFilled(days, ordinals[..|ordinals| - 1], gen, o);
    }
  }

  /** A visited day whose generation changes nothing keeps the html it had, or gets an empty record. */
  lemma {:induction false} GenerateAllFixedDay(days: map<int, Option<string>>, ordinals: seq<int>, replace: bool, gen: Generator,
                                               o: int)
    requires o in ordinals
    requires forall html :: gen(html, o) == html
    ensures o in GenerateAll(days, ordinals, replace, gen)
    ensures GenerateAll(days, ordinals, replace, gen)[o] == if o in days then days[o] else None
  {
    var init := ordinals[..|ordinals| - 1];
    var last := ordinals[|ordinals| - 1];
    assert ordinals == init + [last];
    if o in init {
      GenerateAllFixedDay(days, init, replace, gen, o);
    } else if o in days {
      GenerateAllUnvisited(days, init, replace, gen, o);
    } else {
      GenerateAllKeys(days, init, replace, gen);
    }
  }

  /** With `replace`, a visited day whose generation always saves `saved` ends up with `saved`. */
  lemma {:induction false} GenerateAllReplaced(days: map<int, Option<string>>, ordinals: seq<int>, gen: Generator, o: int,
                                               saved: Option<string>)
    requires o in ordinals
    requires forall html :: gen(html, o) == saved
    ensures o in GenerateAll(days, ordinals, true, gen)
    ensures GenerateAll(days, ordinals, true, gen)[o] == saved
  {
    var init := ordinals[..|ordinals| - 1];
    var last := ordinals[|ordinals| - 1];
    assert ordinals == init + [last];
    if last != o {
      GenerateAllReplaced(days, init, gen, o, saved);
    }
  }

  /** Without `replace`, a visited day that was missing or blank gets what generation produces for it. */
  lemma {:induction false} GenerateAllFillsBlank(days: map<int, Option<string>>, ordinals: seq<int>, gen: Generator, o: int)
    requires o in ordinals
    requires forall i, j :: 0 <= i < j < |ordinals| ==> ordinals[i] != ordinals[j]
    requires Blank(if o in days then days[o] else None)
    ensures o in GenerateAll(days, ordinals, false, gen)
    ensures GenerateAll(days, ordinals, false, gen)[o] == gen(if o in days then days[o] else None, o)
  {
    var init := ordinals[..|ordinals| - 1];
    var last := ordinals[|ordinals| - 1];
    assert ordinals == init + [last];
    if last != o {
      GenerateAllFillsBlank(days, init, gen, o);
    } else {
      assert o !in init by {
        forall i | 0 <= i < |init| ensures init[i] != o {
          assert ordinals[i] != ordinals[|ordinals| - 1];
        }
      }
      if o in days {
        GenerateAllUnvisited(days, init, false, gen, o);
      } else {
        GenerateAllKeys(days, init, false, gen);
      }
    }
  }

  /** The update the loop body makes is one `VisitDay`. */
  lemma VisitDayStep(days: map<int, Option<string>>, ordinal: int, replace: bool, gen: Generator, html: Option<string>)
    requires var h := if ordinal in days then days[ordinal] else None;
      html == if replace || Blank(h) then gen(h, ordinal) else h
    ensures days[ordinal := html] == VisitDay(days, ordinal, replace, gen)
  {
  }

  lemma GenerateAllStep(days: map<int, Option<string>>, visited: seq<int>, t: int, replace: bool, gen: Generator)
    ensures GenerateAll(days, OrdinalsOf(visited + [t]), replace, gen)
         == VisitDay(GenerateAll(days, OrdinalsOf(visited), replace, gen), DayOf(t), replace, gen)
  {
    assert OrdinalsOf(visited + [t]) == OrdinalsOf(visited) + [DayOf(t)];
    GenerateAllAppend(days, OrdinalsOf(visited), DayOf(t), replace, gen);
  }

  /** A day of the range without events keeps the html it had, or gets an empty record. */
  lemma QuietDayUnchanged(days: map<int, Option<string>>, ordinals: seq<int>, replace: bool, env: Env, project: int, o: int)
    requires o in ordinals && EventsOfDay(env, project, o) == []
    ensures o in GenerateAll(days, ordinals, replace, DayGenerator(env, project))
    ensures GenerateAll(days, ordinals, replace, DayGenerator(env, project))[o] == if o in days then days[o] else None
  {
    GenerateAllFixedDay(days, ordinals, replace, DayGenerator(env, project), o);
  }

  /** With `replace`, a day of the range with events gets the html the agent saves for its text. */
  lemma ReplacedDayHasAgentHtml(days: map<int, Option<string>>, ordinals: seq<int>, env: Env, project: int, o: int)
    requires o in ordinals && EventsOfDay(env, project, o) != []
    requires env.agent(TextOfDay(env, project, o)).Some?
    ensures o in GenerateAll(days, ordinals, true, DayGenerator(env, project))
    ensures GenerateAll(days, ordinals, true, DayGenerator(env, project))[o] == env.agent(TextOfDay(env, project, o))
  {
    GenerateAllReplaced(days, ordinals, DayGenerator(env, project), o, env.agent(TextOfDay(env, project, o)));
  }

  /** The dates `Timesheet.days` walks through: the date of each instant a day apart from start to end. */
  function DaysVisited(startTime: int, endTime: int): (r: seq<int>) {
    var steps := Steps(startTime, endTime, SecondsPerDay);
    seq(|steps|, i requires 0 <= i < |steps| => DayOf(steps[i]))
  }

  /** The walk visits consecutive dates, starting with the start's, one per day of the range. */
  lemma DaysVisitedConsecutive(startTime: int, endTime: int)
    ensures forall k :: 0 <= k < |DaysVisited(startTime, endTime)| ==> DaysVisited(startTime, endTime)[k] == DayOf(startTime) + k
    ensures startTime <= endTime ==> |DaysVisited(startTime, endTime)| == (endTime - startTime) / SecondsPerDay + 1
    ensures startTime > endTime ==> DaysVisited(startTime, endTime) == []
  {
    DailyStepsVisitConsecutiveDays(startTime, endTime);
    StepsLength(startTime, endTime, SecondsPerDay);
  }

  /** Hence no date is visited twice. */
  lemma DaysVisitedDistinct(startTime: int, endTime: int)
    ensures forall i, j :: 0 <= i < j < |DaysVisited(startTime, endTime)| ==> DaysVisited(startTime, endTime)[i] != DaysVisited(startTime, endTime)[j]
  {
    DaysVisitedConsecutive(startTime, endTime);
  }

  /**
   * `Timesheet.generate` without `replace`: a day of the range with events, whose record was
   * missing or blank, gets the html the agent saves for its text.
   */
  lemma BlankDayGetsAgentHtml(days: map<int, Option<string>>, startTime: int, endTime: int, env: Env, project: int, o: int)
    requires o in DaysVisited(startTime, endTime) && EventsOfDay(env, project, o) != []
    requires env.agent(TextOfDay(env, project, o)).Some?
    requires Blank(if o in days then days[o] else None)
    ensures o in GenerateAll(days, DaysVisited(startTime, endTime), false, DayGenerator(env, project))
    ensures GenerateAll(days, DaysVisited(startTime, endTime), false, DayGenerator(env, project))[o]
         == env.agent(TextOfDay(env, project, o))
  {
    DaysVisitedDistinct(startTime, endTime);
    GenerateAllFillsBlank(days, DaysVisited(startTime, endTime), DayGenerator(env, project), o);
  }

  function OrdinalsOf(instants: seq<int>): (r: seq<int>)
    ensures |r| == |instants| && forall i :: 0 <= i < |instants| ==> r[i] == DayOf(instants[i])
  {
    seq(|instants|, i requires 0 <= i < |instants| => DayOf(instants[i]))
  }

  lemma VisitedAreDaysVisited(startTime: int, endTime: int)
    ensures OrdinalsOf(Steps(startTime, endTime, SecondsPerDay)) == DaysVisited(startTime, endTime)
  {
  }

  /** A `Timesheet` row with its `TimesheetDay` records, keyed by their date's ordinal. */
  class Timesheet {
    const project: int
    const startTime: int
    const endTime: int
    var days: map<int, Option<string>>

    constructor(project: int, startTime: int, endTime: int)
      ensures this.project == project && this.startTime == startTime && this.endTime == endTime
      ensures days == map[]
    {
      this.project := project;
      this.startTime := startTime;
      this.endTime := endTime;
      days := map[];
    }

    /** The loop body of `generate`: `get_or_create` the day's record, then generate it if asked to or if it is blank. */
    method VisitDate(ordinal: int, replace: bool, env: Env)
      modifies this
      ensures days == VisitDay(old(days), ordinal, replace, DayGenerator(env, project))
    {
      var html := if ordinal in days then days[ordinal] else None;
      ghost var before := html;
      if replace || Blank(html) {
        html := GenerateDay(html, env, project, ordinal);
      }
      assert html == if replace || Blank(before) then DayGenerator(env, project)(before, ordinal) else before;
      VisitDayStep(days, ordinal, replace, DayGenerator(env, project), html);
      days := days[ordinal := html];
    }

    /** `generate(replace)`: visits each day of the range in order through a `DateRangeIterator`. */
    method Generate(replace: bool, env: Env)
      modifies this
      ensures days == GenerateAll(old(days), DaysVisited(startTime, endTime), replace, DayGenerator(env, project))
    {
      var it := new DateRangeIterator(Instant(startTime), Instant(endTime), 1);
      ghost var visited: seq<int> := [];
      var next := it.Next();
      while next.Some?
        invariant it.Valid() && it.start == startTime && it.end == endTime && it.delta == 1
        invariant next.Some? ==> it.yielded == visited + [next.value]
        invariant next.None? ==> visited == it.yielded == Steps(startTime, endTime, SecondsPerDay)
        invariant days == GenerateAll(old(days), OrdinalsOf(visited), replace, DayGenerator(env, project))
        decreases |it.Remaining()| + (if next.Some? then 1 else 0)
      {
        GenerateAllStep(old(days), visited, next.value, replace, DayGenerator(env, project));
        VisitDate(DayOf(next.value), replace, env);
        visited := visited + [next.value];
        StepsLength(it.current, it.end, it.Step());
        next := it.Next();
      }
      VisitedAreDaysVisited(startTime, endTime);
    }
  }
}
