# logsheet, modelled in Dafny

logsheet is a Django application that collects activity events from external sources (GitHub
commits, Azure CSV exports, Outlook mail, and stub importers for AWS, Jira and Slack). It asks a
language model to turn each day's events into a timesheet page. It also shows a project's booked
time entries against a monthly and a total hour budget. This project models the core of that
application and proves properties of the model:

- **Budget accounting** (`Budget`, `BudgetScenarios`):
  - billable hours and all hours booked before a cutoff date;
  - the entries of one calendar month;
  - the months elapsed since the project's start month;
  - the signed carry-over of the monthly budget;
  - the hours that remain in the current month.

  Every worked example of the test suite is restated as a lemma.
- **The timesheet page** (`TimesheetView`):
  - choosing the entries of a month;
  - the first and last date;
  - grouping the entries by date, with per-day and grand totals;
  - the bulleted summary taken from an entry's notes;
  - the `format_duration` text, which is proved to read back as the minutes it came from;
  - the budget fields the page shows.
- **The date iterator** (`DateRange`). `DateRangeIterator` is a class whose `Next` yields the
  walk start, start + Δ days, … up to and including the end. It is proved against a
  specification function `Steps`. Lemmas give the walk's length, its bounds and when it includes
  the end.
- **Timesheet generation** (`Timesheets`):
  - the window of a timesheet day, from its UTC midnight to one local calendar day later, and its
    events in time order; `TimesheetScenarios` shows the 23- and 25-hour days of a daylight
    saving zone;
  - the joined event text;
  - the generation of one day;
  - `Timesheet.generate`, a loop over a `DateRangeIterator` that creates missing day records.
    Only blank days are regenerated, unless `replace` is set.
- **Importing events** (`Importers`, `Events`):
  - picking the importer class by source type, or failing with the source's message;
  - the importer's batch of unsaved events;
  - `sync` (fetch, then bulk-insert ignoring conflicts, then reset the batch, then stamp the
    last sync);
  - turning Azure CSV rows into events;
  - the event table's uniqueness constraint, which bulk insertion is proved to preserve.

Supporting modules:

- `Wrappers` defines Option and Result.
- `Dates` covers the civil calendar and day ordinals as Python's `date.toordinal` counts them.
- `Strings` covers `join`, `split`, `strip` and decimal digits.
- `TimeEntries` covers filtering and summing entries.

Representation choices:

- Instants are whole seconds since the Unix epoch, in UTC.
- Durations are whole seconds.
- Dates are `(year, month, day)`.
- Timesheet day records are keyed by the date's ordinal. `Dates.OrdinalInjective` shows each
  date has its own key.

The methods of `Project` that `project/tests.py` exercises (`events_in_month`,
`billable_duration_before_time`, `duration_before_time`, `carried_over_duration`) are not
defined in `project/models.py`. The same holds for the `TimeEntry` and `Client` models that the
tests and `project/views.py` use. The budget functions are written to agree with every
value the tests assert. Where the tests leave a case open, the model makes a choice of its
own:

- "Before" a cutoff date means strictly before. No test books an entry on the cutoff date
  itself, so this is a choice.
- Months are counted from the first of the project's start month, as the mid-month start test
  requires.
- A missing start date or monthly budget makes the carry-over zero, as the tests require.
- A cutoff before the start month gives a negative month count (see "## Left out").
- A monthly budget of zero counts as a budget (see "## Left out").

The day window of a timesheet day starts at midnight UTC of its date (project/models.py:53-56).
`datetime.combine(date, time.min)` gives a naive datetime. Python reads a naive datetime in the
process time zone, which Django sets from `TIME_ZONE = "UTC"` (logsheet/settings.py:112).
`astimezone(AS_LOCAL_TIME_ZONE)` keeps that instant but attaches the configured local zone
(logsheet/settings.py:114-115). The zone matters for the window's end (project/models.py:49-51):
adding `timedelta(days=1)` to an aware datetime adds a day to its wall-clock time. On a day when
the local zone changes its UTC offset, the window therefore lasts 23 or 25 hours. A 23-hour day
leaves an hour of events that neither day selects, and a 25-hour day shares an hour of events
with the next day. The model gives the local zone as two offset functions (`Timesheets.Zone`).
`TimesheetScenarios` works through both 2024 change days of Europe/Amsterdam. The days visited
by `Timesheet.generate` are UTC dates.

## Model

| member | source | states |
|---|---|---|
| Budget.BillableDurationBefore | project/tests.py:144-171 | billable_duration_before_time: the hours of the billable entries dated strictly before the cutoff; BillableDurationBeforeCounts pins down which entries count |
| Budget.DurationBefore | project/tests.py:173-193 | duration_before_time: the hours of all entries dated strictly before the cutoff; DurationBeforeSplitsByBillable relates it to the billable hours |
| Budget.BillableDurationIn | project/tests.py:223-285 | The billable hours of one calendar month; BillableBeforeNextMonth shows it is what a one-month move of the cutoff adds |
| Budget.MonthsElapsed | project/tests.py:117-142 | Whole months from the start month to the as-of month; MidMonthStartMonths and MonthsElapsedNextMonth pin it down |
| Budget.CarriedOverDuration | project/tests.py:45-142 | carried_over_duration: billable hours before the date less the monthly budget times the months elapsed, zero without a start date or monthly budget; the CarryOver lemmas and scenarios pin it down |
| Budget.BillableDurationBeforeCounts | project/tests.py:144-171 | An entry adds its hours to billable_duration_before_time exactly when it is billable and dated strictly before the cutoff, wherever it stands |
| Budget.BillableDurationBeforeAppend | project/tests.py:144-171 | Billable hours before a cutoff add up over any split of the entries |
| Budget.DurationBeforeSplitsByBillable | project/tests.py:173-193 | duration_before_time counts all hours: the billable ones plus the non-billable ones |
| Budget.BillableAtMostAll | project/tests.py:144-193 | With non-negative durations, 0 ≤ billable hours before a cutoff ≤ all hours before it |
| Budget.EventsInMonth | project/tests.py:21-43 | events_in_month keeps exactly the entries whose month and year both match |
| Budget.EventsInMonthKeepsYearsApart | project/tests.py:21-43 | The same month of two different years never shares an entry |
| Budget.MonthsElapsedFromFirstOfStartMonth | project/tests.py:117-142 | The month count ignores the start day; the start month's first has zero months elapsed |
| Budget.MonthsElapsedNextMonth | project/tests.py:117-142 | Moving to the next month's first adds one month elapsed, across year ends too |
| Budget.CarryOverSign | project/tests.py:45-91 | Carry-over is positive exactly when billable hours exceed the allotted budget, negative exactly when they fall short |
| Budget.CarryOverDisabled | project/tests.py:195-221 | Without a start date or a monthly budget the carry-over is zero whatever was booked |
| Budget.CarryOverIgnoresNonBillable | project/tests.py:93-115 | Adding a non-billable entry anywhere leaves the carry-over unchanged |
| Budget.BillableBeforeNextMonth | project/tests.py:223-285 | Moving the cutoff from one month's first to the next adds exactly that month's billable hours |
| Budget.CarryOverRollsForward | project/tests.py:223-285 | Next month's carry-over = this month's + this month's billable hours − one monthly budget |
| Budget.RemainingThisMonth | project/tests.py:223-285 | A remaining figure exists exactly when the project has a monthly budget |
| Budget.RemainingIsNextMonthsCarryOver | project/tests.py:223-285 | The hours remaining this month are the negated carry-over the next month starts with |
| Budget.RemainingWithoutStartDate | project/tests.py:195-207 | Without a start date the remaining hours are the monthly budget less the month's billable hours |
| BudgetScenarios.EventsInMonthFiltersByYear | project/tests.py:21-43 | August 2023 and August 2024 each select only their own entry |
| BudgetScenarios.CarryOverUnderUse | project/tests.py:45-67 | 30 h + 35 h against two 40 h months carries over −15 h |
| BudgetScenarios.CarryOverOverUse | project/tests.py:69-91 | 50 h + 45 h against two 40 h months carries over +15 h |
| BudgetScenarios.CarryOverIgnoresNonBillableScenario | project/tests.py:93-115 | Non-billable hours do not count: the carry-over is −10 h |
| BudgetScenarios.MidMonthStartMonths | project/tests.py:117-142 | A project started on 15 January has two months elapsed on 1 March |
| BudgetScenarios.CarryOverMidMonthStart | project/tests.py:117-142 | A mid-month start still allots whole months: the carry-over is −20 h |
| BudgetScenarios.BillableDurationBeforeScenario | project/tests.py:144-171 | Only billable hours before the cutoff count: 10 h |
| BudgetScenarios.DurationBeforeScenario | project/tests.py:173-193 | All hours before the cutoff count: 25 h |
| BudgetScenarios.CarryOverNoStartDate | project/tests.py:195-207 | No start date gives a zero carry-over |
| BudgetScenarios.CarryOverNoMonthlyBudget | project/tests.py:209-221 | No monthly budget gives a zero carry-over |
| BudgetScenarios.RemainingAfterUnderUse | project/tests.py:223-253 | Carry-over −10 h and 25 h remaining in the month |
| BudgetScenarios.RemainingAfterOverUse | project/tests.py:255-285 | Carry-over +10 h and 5 h remaining in the month |
| TimeEntries.Filter | project/tests.py:21-43 | Filtering keeps exactly the entries the predicate accepts and never lengthens the list |
| TimeEntries.FilterAppend | project/tests.py:21-43 | Filtering a concatenation filters each part and keeps their order, so the entries stay in the order listed |
| TimesheetView.FormatDuration | project/views.py:66-73 | format_duration; FormatDurationShape gives its three shapes and ParseFormatDuration shows it reads back as the total minutes |
| TimesheetView.ItemOf | project/views.py:38-41 | One listed entry: its formatted duration and its summary items |
| TimesheetView.TotalMinutes | project/views.py:67 | int(seconds / 60) truncates toward zero: the minutes lie within one minute of the seconds, on the side of zero |
| TimesheetView.HoursAndMinutes | project/views.py:68 | divmod by 60 floors: minutes in 0..59 and hours·60 + minutes = total minutes |
| TimesheetView.FormatDurationShape | project/views.py:69-73 | The text is "H hr M min", "H hr" or "M min" according to which parts are non-zero; under a minute reads "0 min" |
| TimesheetView.FormatDurationOfOverrun | project/views.py:56-73 | A budget overrun of m minutes (0 < m < 60) shows as "-1 hr (60 − m) min", as floor divmod gives |
| TimesheetView.ParseFormatDuration | project/views.py:66-73 | Reading the formatted text back gives the total minutes: format_duration loses nothing but the seconds |
| TimesheetView.ParseHoursAndMinutes | project/views.py:70 | "H hr M min" reads back as H·60 + M minutes |
| TimesheetView.NonBlankStripped | project/views.py:40 | The summary keeps at most as many items as there are pieces, each non-empty and stripped |
| TimesheetView.NonBlankStrippedMembers | project/views.py:40 | An item is in the summary exactly when it is the non-empty strip of some piece |
| TimesheetView.NonBlankStrippedOfStripped | project/views.py:40 | Pieces already non-empty and stripped are kept as they are |
| TimesheetView.SummaryItems | project/views.py:40 | Every summary item of a note is non-empty and has no surrounding white space |
| TimesheetView.SummaryItemsMembers | project/views.py:40 | The summary items are exactly the non-empty stripped pieces of the notes split at "- " |
| TimesheetView.SummaryPiecesCoverNotes | project/views.py:40 | Splitting the notes at "- " loses nothing: joining the pieces gives the notes back |
| TimesheetView.SelectEntries | project/views.py:16-27 | 'all' keeps every entry; a month keeps exactly the entries of that month number, of any year |
| TimesheetView.MonthViewIgnoresYear | project/views.py:26-27 | The month filter matches month numbers only: August 2023 shows on an August 2024 page |
| TimesheetView.MinDate | project/views.py:29 | No date for no entries; otherwise the date of some entry, not after any entry's date |
| TimesheetView.MaxDate | project/views.py:30 | No date for no entries; otherwise the date of some entry, not before any entry's date |
| TimesheetView.GroupStep | project/views.py:35-43 | Adding one entry to a correct grouping gives the correct grouping of the longer list |
| TimesheetView.BucketStep | project/views.py:38-42 | Adding an entry appends its item and its hours to its own date's bucket only |
| TimesheetView.GroupByDate | project/views.py:32-43 | Keys are exactly the entries' dates; each bucket holds that date's items in order and their total; the buckets are created in DateOrder; the grand total is all hours |
| TimesheetView.DateOrder | project/views.py:35-48 | The order in which the dictionary gains its date keys: each date of the entries once, in order of its first entry |
| TimesheetView.DateOrderNewestFirst | project/views.py:17 | Entries listed newest date first, as order_by('-date') lists them, give the days newest first |
| TimesheetView.PageDayTotalsAddUp | project/views.py:42-48 | The day totals, in the page's day order, add up to the grand total |
| TimesheetView.EntryInOwnBucketOnly | project/views.py:36-38 | An entry lands in a date's bucket exactly when it is dated that day |
| TimesheetView.FormatDayTotals | project/views.py:45-46 | Same dates; each day's total is replaced by its formatted text and its items are kept |
| TimesheetView.SumDayTotalsIsFilteredSum | project/views.py:42-43 | The day totals over distinct dates add up to the hours dated on those dates |
| TimesheetView.GrandTotalIsSumOfDayTotals | project/views.py:42-43 | Over the distinct dates of the entries, the day totals add up to the grand total |
| TimesheetView.Truthy | project/views.py:52-58 | Python truthiness of an optional duration: None and zero are false |
| TimesheetView.BudgetFieldsOf | project/views.py:51-62 | No budget: only the month total and no remaining hours; a monthly budget: itself and budget − total; a total budget overrides with the project's totals |
| TimesheetView.TimesheetContext | project/views.py:14-64 | The page holds the chosen entries, their first and last date, each date's items and formatted total, the dates in the order the page lists them, and the budget fields |
| DateRange.EnsureUtc | utils.py:27-34 | ensure_utc_datetime for UTC; EnsureUtcOfDate states what it gives |
| DateRange.Steps | utils.py:19-25 | The values the iterator yields; pinned down by StepsAt, StepsLength, StepsBounds and StepsIncludesEnd |
| DateRange.EnsureUtcOfDate | utils.py:27-34 | A plain date becomes the first second of that day, 1970-01-01 becoming instant 0; a UTC instant is kept |
| DateRange.StepsAt | utils.py:19-25 | The k-th value yielded is start + k·step |
| DateRange.StepsLength | utils.py:19-25 | Nothing is yielded when the start is after the end; otherwise ⌊(end − start)/step⌋ + 1 values |
| DateRange.StepsBounds | utils.py:20 | Every value yielded lies between start and end, both included |
| DateRange.StepsIncludesEnd | utils.py:20 | The end is yielded exactly when it is a whole number of steps after the start |
| DateRange.StepsConsecutive | utils.py:24 | Consecutive values are one step apart |
| DateRange.DailyStepsVisitConsecutiveDays | utils.py:24 | Daily steps visit consecutive dates, beginning with the start's own |
| DateRange.DateRangeIterator.constructor | utils.py:9-14 | start and end are the UTC forms of the arguments, current starts at start, nothing yielded yet |
| DateRange.DateRangeIterator.Next | utils.py:19-25 | Past the end it stops and changes nothing; otherwise it returns current and advances by delta days; what it yields is the Steps walk |
| Dates.Ordinal | project/models.py:39 | Python's date.toordinal, the key of a day record; OrdinalStrictlyIncreasing and NextDayOrdinal pin down its order |
| Dates.OrdinalInjective | project/models.py:39 | Distinct valid dates have distinct ordinals, so day records keyed by ordinal are one per date |
| Dates.OrdinalStrictlyIncreasing | project/models.py:39 | A valid date before another has a smaller ordinal |
| Dates.NextDayOrdinal | project/models.py:51 | The next calendar day has the next ordinal |
| Dates.DayOfDayStart | project/models.py:53-56 | The window of a day begins at a second that DayOf maps back to that day |
| Timesheets.WindowStart | project/models.py:53-56 | utc_start_time: midnight UTC of the date; WindowIsUtcDate states what the window covers |
| Timesheets.WindowEnd | project/models.py:49-51 | utc_end_time: one calendar day later on the local wall clock, at the offset of that wall-clock time; DayWindow, FixedZoneSteady and WindowsMeet state where it falls |
| Timesheets.EndWall | project/models.py:51 | The wall-clock time a day after the start's own, in the local zone |
| Timesheets.Shift | project/models.py:49-56 | The window's length minus 24 hours: the start's offset less the offset at the end's wall-clock time |
| Timesheets.DayWindow | project/models.py:49-56 | A day's range starts at its UTC midnight and ends 24 hours plus the day's shift later |
| Timesheets.InWindow | project/models.py:60 | timestamp__range: both ends of the window are included |
| Timesheets.FixedZoneSteady | project/models.py:49-51 | In a zone of fixed offset, UTC among them, a window lasts exactly 24 hours |
| Timesheets.WindowIsUtcDate | project/models.py:49-56 | On a day without a shift, the window from its start up to (not including) its end holds exactly the instants of that UTC date |
| Timesheets.WindowEndIsNextDate | project/models.py:49-51 | A day's window ends at the midnight that starts the next calendar date, moved by the day's shift |
| Timesheets.WindowsMeet | project/models.py:49-56 | A day's window ends at the next day's start plus its shift, so the two meet exactly when the day does not shift |
| Timesheets.BoundaryEventInBothDays | project/models.py:49-60 | Without an early end, an event at the next midnight is in both days; without shifts, one strictly inside the UTC date is in its own day only |
| Timesheets.ShiftedDayGapAndOverlap | project/models.py:49-60 | A day that springs forward leaves the instants between its end and the next midnight in neither day; one that falls back puts those from the next midnight to its end in both |
| TimesheetScenarios.SpringForwardGap | project/models.py:49-60 | In Europe/Amsterdam, 31 March 2024 ends at 23:00 UTC and an event at 23:30 UTC is in neither day |
| TimesheetScenarios.FallBackOverlap | project/models.py:49-60 | In Europe/Amsterdam, 27 October 2024 ends at 1:00 UTC on the 28th and an event at 0:30 UTC is in both days |
| TimesheetScenarios.DayAfterSpringIsSteady | project/models.py:49-51 | The day after the change lasts 24 hours |
| Timesheets.InsertByTime | project/models.py:62 | Insertion keeps a list ordered by timestamp and adds exactly the new event |
| Timesheets.SortByTime | project/models.py:62 | The result is ordered by timestamp and is a permutation of the input |
| Timesheets.EnabledFor | project/models.py:61 | source__in the project's enabled sources: the source exists, is enabled and belongs to the project |
| Timesheets.DayEvents | project/models.py:58-62 | A day's events are exactly the stored events in its window (DayWindow), both ends included, from enabled sources of the project, ordered by timestamp |
| Timesheets.DayEventsDistinct | project/models.py:58-62 | A store that keeps unique_event gives each day distinct events |
| Timesheets.EventLine | project/models.py:65 | The f-string line: source type, " \| ", the rendered timestamp, ": ", the event text |
| Timesheets.JoinedEventsText | project/models.py:64-66 | joined_events_text; JoinedEventsTextEmpty and JoinedEventsTextLines state what it holds |
| Timesheets.JoinedEventsTextEmpty | project/models.py:64-66 | No events give the empty text |
| Timesheets.JoinedEventsTextLines | project/models.py:64-66 | With no newlines inside the parts, splitting the joined text at newlines gives one line per event (source type, time, text), in order. This covers single-line texts only: Outlook texts and Azure rows of two or more columns contain newlines |
| Timesheets.GenerateDay | project/models.py:68-84 | No events leave the day's html as it was; with events the agent's saved html is stored; if the agent saves nothing the html is kept; any change is the agent's html |
| Timesheets.Blank | project/models.py:40 | not timesheet_day.html: no html or the empty string |
| Timesheets.VisitDay | project/models.py:39-41 | One pass of the loop; VisitDayStep and the GenerateAll lemmas state its effect |
| Timesheets.GenerateAll | project/models.py:37-41 | The day records after visiting the days in order: every visited day gets a record (GenerateAllKeys), unvisited ones stay (GenerateAllUnvisited), and a visited day is regenerated exactly when replace is set (GenerateAllReplaced) or its html is blank (GenerateAllFillsBlank, GenerateAllKeepsFilled) |
| Timesheets.DaysVisited | project/models.py:33-38 | The dates the walk visits; DaysVisitedConsecutive and DaysVisitedDistinct pin it down |
| Timesheets.GenerateAllKeys | project/models.py:37-39 | Afterwards there is a day record for every date visited and for every record there was |
| Timesheets.GenerateAllUnvisited | project/models.py:37-41 | A record whose date is not visited is untouched |
| Timesheets.GenerateAllKeepsFilled | project/models.py:40 | Without replace, a day that already has html keeps it |
| Timesheets.GenerateAllFixedDay | project/models.py:38-41 | A visited day whose generation changes nothing keeps its html, or is created empty |
| Timesheets.GenerateAllFillsBlank | project/models.py:39-41 | Without replace, a visited day that had no record or blank html, in a walk that visits no day twice, gets what generation produces for it |
| Timesheets.BlankDayGetsAgentHtml | project/models.py:33-41 | Without replace, a blank or new day of the range with events gets the agent's saved html; DaysVisitedDistinct supplies the no-repeat requirement of GenerateAllFillsBlank |
| Timesheets.GenerateAllReplaced | project/models.py:40-41 | With replace, every visited day gets what generation produces for it |
| Timesheets.QuietDayUnchanged | project/models.py:38-41 | A visited day without events keeps its html, or is created empty |
| Timesheets.ReplacedDayHasAgentHtml | project/models.py:40-41 | With replace, a visited day with events ends with the html the agent saved |
| Timesheets.DaysVisitedConsecutive | project/models.py:33-38 | The days visited are the consecutive dates from the start's day, on (end − start)/86400 + 1 days, none if the start is after the end |
| Timesheets.DaysVisitedDistinct | project/models.py:38-39 | No date is visited twice |
| Timesheets.Timesheet.constructor | project/models.py:22-28 | A timesheet has its project, start and end and no day records yet |
| Timesheets.Timesheet.VisitDate | project/models.py:39-41 | get_or_create the day's record, then generate it when replace is set or its html is blank |
| Timesheets.Timesheet.Generate | project/models.py:37-41 | The day records become GenerateAll over the days the iterator visits |
| Events.UniqueKeys | project/models.py:120-123 | The unique_event constraint: no two stored rows agree on timestamp, source and text; PermutationKeepsUnique, SelectKeepsUnique and InsertAllKeepsUnique show it is kept |
| Events.PermutationKeepsUnique | project/models.py:120-123 | Rearranging rows that satisfy unique_event keeps it satisfied |
| Events.SelectKeepsUnique | project/models.py:120-123 | Selecting from rows that satisfy the unique_event constraint keeps it satisfied |
| Importers.InsertAll | project/importers.py:23 | bulk_create with ignore_conflicts; the InsertAll lemmas state its effect |
| Importers.InsertAllMembers | project/importers.py:23 | After bulk insertion a row is stored exactly when it was stored before or was in the batch |
| Importers.InsertAllExtends | project/importers.py:23 | Bulk insertion keeps every stored row, in place, and only appends |
| Importers.InsertAllKeepsUnique | project/importers.py:23 | Ignoring conflicts keeps the unique_event constraint however many duplicates the batch holds |
| Importers.InsertAllNoOp | project/importers.py:23 | A batch of rows already stored changes nothing |
| Importers.InsertAllIdempotent | project/importers.py:23 | Inserting the same batch twice equals inserting it once |
| Importers.EventStore.BulkCreate | project/importers.py:23 | The stored rows become InsertAll of the old rows and the batch |
| Importers.KindName | project/importers.py:133-140 | The name each importer is registered under; GetImporterFindsEveryKind shows each one finds it |
| Importers.GetImporter | project/importers.py:132-145 | A found importer has the source type's name; otherwise the failure carries "No importer found for source type: " and the type |
| Importers.GetImporterFindsEveryKind | project/importers.py:133-140 | Each of the six source types finds its own importer |
| Importers.GetImporterRefusesUnknown | project/importers.py:141-145 | The lookup fails exactly when the type names none of the six importers |
| Importers.SavedEvents | project/importers.py:27-32 | Each fetched (text, timestamp) pair becomes one event of this source, in order |
| Importers.Importer.constructor | project/importers.py:13-15 | A new importer holds its source and an empty batch |
| Importers.Importer.SaveEvent | project/importers.py:27-32 | Appends one event of this source, with this text and timestamp, to the batch |
| Importers.Importer.FetchEvents | project/importers.py:39-129 | GitHub, Azure and Outlook save each fetched event in order; the AWS, Jira and Slack importers save nothing |
| Importers.Importer.UpdateLastSync | project/importers.py:34-36 | The source's last sync becomes now |
| Importers.Importer.Sync | project/importers.py:21-25 | The store gains the old batch and the fetched events, ignoring conflicts; the batch is emptied; the last sync is now |
| Importers.Importer.ProcessCsvRows | project/importers.py:56-61 | Rows, each with distinct column names as a dictionary has, up to the first without a Time column become events of the joined "key: value" lines and the parsed time; ok exactly when every row had one |
| Importers.RowLines | project/importers.py:60 | One "key: value" line per column, in column order |
| Importers.Lookup | project/importers.py:61 | No value exactly when the row has no such column; a value comes from a column of that key |
| Importers.LookupOfDistinct | project/importers.py:61 | With distinct column names, each column's value is found under its name |
| Importers.RowText | project/importers.py:60 | An Azure event's text; RowTextLines states it splits back into the row's lines |
| Importers.RowTextLines | project/importers.py:60 | Without newlines in keys and values, the event text splits back into the row's lines |
| Importers.RowsWithTime | project/importers.py:59-61 | The rows processed all have a Time column, and the row that stops the loop has none |
| Importers.CsvEvents | project/importers.py:59-61 | One event per row: its parsed Time and its joined text, in order |
| Importers.SyncSource | project/models.py:109-111 | The importer is that of the source's type; an unknown type fails and changes neither the store nor the last sync; a known one inserts what its importer fetched and stamps the last sync |
| Strings.Join | project/models.py:65 | '\n'.join of event lines (also project/importers.py:60); SplitJoin shows it is undone by splitting |
| Strings.Split | project/views.py:40 | notes.split('- '): at least one piece; JoinSplit shows the pieces rejoin to the notes |
| Strings.Strip | project/views.py:40 | part.strip(): the result starts and ends with no white space; StripCuts and StripIdempotent pin it down |
| Strings.SplitJoin | project/importers.py:60 | Splitting at a one-character separator undoes joining pieces that do not contain it |
| Strings.JoinSplit | project/views.py:40 | Joining the pieces of a split with its separator gives the string back |
| Strings.StripCuts | project/views.py:40 | Stripping cuts white space off both ends only: what remains sits inside the original |
| Strings.StripIdempotent | project/views.py:40 | Stripping twice is stripping once |

## Left out

- Time zones: the process zone is UTC, as the settings make it; a process zone other than UTC is left out. The local zone `AS_LOCAL_TIME_ZONE` is given as its two offset functions (`Timesheets.Zone`): the zone database itself, and ZoneInfo's reading of offsets, are left out.
- DateRange.EnsureUtc: only plain dates and UTC instants are modelled. Naive datetimes in another zone, and strings parsed by `dateutil`, are left out.
- The `'current'` month of the page reads the wall clock, and a `'%Y-%m'` argument goes through `strptime`. Both are left out: the month number is a parameter (`MonthArg`).
- The language-model agent (project/agent.py) is not part of this model. Its effect on a day is an arbitrary function `Env.agent` from the joined event text to the html it saves, or nothing. Timesheets.GenerateDay models one call of `save_html` or none; repeated calls, and the rest of the prompt (timesheet prompt, project description, html format), are folded into that function.
- The console messages of `generate` are left out, and so are the `print` calls elsewhere.
- Network and file access in `fetch_events` are left out: the GitHub pages, the Outlook mail pages, and the CSV files under `media/azure`. What was fetched is a parameter of `Sync` (`fetched`), and Azure rows are a parameter of `ProcessCsvRows`.
- Importers.Importer.Sync does not model an exception raised during fetching, which aborts the sync before anything is inserted.
- The Outlook access token is left out, both acquiring it and failing to acquire it.
- Outlook's per-mail `try`/`except` is left out.
- Importers.Importer.ProcessCsvRows: `csv.DictReader`'s handling of short and long rows is left out, as is timestamp parsing (`parseTime` is a parameter). A row without `Time` raises in the source; the model stops there and reports `ok == false`.
- `format_duration` divides floats: `int(seconds / 60)` is modelled on whole seconds as truncation toward zero. Sub-second durations and float rounding are left out.
- TimesheetView.BudgetFieldsOf takes `total_time_delta()` and `remaining_duration()` as the parameters `spent` and `remaining`. These Project methods are not defined in project/models.py.
- `notes` being `None`, and non-positive `delta` in the iterator (which in the source never stops or never starts), are left out: notes is a string, and `delta > 0` is required.
- Database ordering is left out. The `order_by('-date')` on the page is taken as the given order of the entries; TimesheetView.DateOrderNewestFirst shows what it gives the day order when that order is newest first. `order_by('timestamp')` ties between events keep no particular order (the proved ordering is by timestamp only).
- CarriedOverDuration: for an as-of date before the start month, the month count is negative and the model gives the unused budget as a positive carry-over (start 2024-03-15, as of 2024-01-01, nothing booked: +80 h). The project's real method is not defined in project/models.py, and no test covers this case.
- CarriedOverDuration: a monthly budget of zero counts as a budget, whereas the page (project/views.py:52) treats a zero duration as no budget. No test fixes which one the project's method follows.
- RemainingThisMonth: defined for the first of a month only (`monthStart.day == 1`), as the tests use it.
- TimesheetView.FormatDuration: a negative duration is rendered as the source renders it, with floor `divmod`, so `remaining_hours` shows 30 minutes over budget as "-1 hr 30 min" (FormatDurationOfOverrun). ParseDuration reads back non-negative durations only.
- Strings.Strip, Strings.IsSpace: `IsSpace` knows the white space among the first 256 code points only, not every Unicode space that `str.strip` removes.
- `created_at`, `Project.__str__`, `LazyImport`, and the other models (`EventBlock`, harvest sync, calendar) are not part of this model.
