/**
 * The timesheet page of a project: the entries of the selected month grouped by date with
 * per-day and overall totals, each entry's notes split into bullet items, the first and
 * last date shown, the budget figures, and durations rendered as "H hr M min".
 */
module TimesheetView {
  import opened Wrappers
  import opened Dates
  import opened Strings
  import opened TimeEntries

  /** `int(duration.total_seconds() / 60)`: whole minutes, truncated toward zero. */
  function TotalMinutes(seconds: int): (m: int)
    ensures seconds >= 0 ==> 0 <= m * 60 <= seconds < m * 60 + 60
    ensures seconds < 0 ==> m * 60 - 60 < seconds <= m * 60 <= 0
  {
    if seconds >= 0 then seconds / 60 else -((-seconds) / 60)
  }

  /** `divmod(total_minutes, 60)`: Python's floor division, so the minutes are never negative. */
  function HoursAndMinutes(seconds: int): (hm: (int, int))
    ensures 0 <= hm.1 < 60
    ensures hm.0 * 60 + hm.1 == TotalMinutes(seconds)
    ensures seconds >= 0 ==> hm.0 >= 0
  {
    var m := TotalMinutes(seconds);
    (m / 60, m % 60)
  }

  /** `format_duration`: "H hr M min", "H hr" when the minutes are 0, otherwise "M min". */
  function FormatDuration(seconds: int): string {
    var (hours, minutes) := HoursAndMinutes(seconds);
    if hours != 0 && minutes != 0 then IntToString(hours) + " hr " + IntToString(minutes) + " min"
    else if hours != 0 then IntToString(hours) + " hr"
    else IntToString(minutes) + " min"
  }

  /**
   * A shortfall of under an hour, as `remaining_hours` shows an overrun budget: floor `divmod`
   * gives -1 hours and 60 - m minutes, so 30 minutes over reads "-1 hr 30 min".
   */
  lemma FormatDurationOfOverrun(m: int)
    requires 0 < m < 60
    ensures FormatDuration(-60 * m) == "-1 hr " + NatToString(60 - m) + " min"
  {
    assert TotalMinutes(-60 * m) == -m;
    assert HoursAndMinutes(-60 * m) == (-1, 60 - m);
  }

  /** Reads a rendered duration back into whole minutes; the inverse of `FormatDuration` on non-negative durations. */
  function ParseDuration(s: string): Option<int> {
    var k := LeadingDigits(s);
    if k == 0 then None else ParseUnit(DigitsValue(s[..k]), s[k..])
  }

  /** What follows the leading number `n`: " min", " hr", or " hr " and a number of minutes. */
  function ParseUnit(n: int, rest: string): Option<int> {
    if rest == " min" then Some(n)
    else if rest == " hr" then Some(n * 60)
    else if |rest| > 4 && rest[..4] == " hr " then ParseMinutesAfterHours(n, rest[4..])
    else None
  }

  function ParseMinutesAfterHours(hours: int, t: string): Option<int> {
    var j := LeadingDigits(t);
    if j > 0 && t[j..] == " min" then Some(hours * 60 + DigitsValue(t[..j])) else None
  }

  /** Which of the three renderings is chosen; zero is "0 min". */
  lemma FormatDurationShape(seconds: int)
    requires seconds >= 0
    ensures var (h, m) := HoursAndMinutes(seconds);
      FormatDuration(seconds)
        == if h > 0 && m > 0 then NatToString(h) + " hr " + NatToString(m) + " min"
           else if h > 0 then NatToString(h) + " hr"
           else NatToString(m) + " min"
    ensures 0 <= seconds < 60 ==> FormatDuration(seconds) == "0 min"
  {
  }

  lemma ParseMinutesOnly(m: nat)
    ensures ParseDuration(NatToString(m) + " min") == Some(m)
  {
    ReadNatToString(m, " min");
  }

  lemma ParseHoursOnly(h: nat)
    ensures ParseDuration(NatToString(h) + " hr") == Some(h * 60)
  {
    ReadNatToString(h, " hr");
  }

  lemma ConcatRight(a: string, b: string, c: string, d: string)
    ensures a + b + c + d == a + (b + (c + d))
  {
  }

  lemma ParseUnitHoursAndMinutes(h: nat, m: nat)
    ensures ParseUnit(h, " hr " + (NatToString(m) + " min")) == Some(h * 60 + m)
  {
    var t := NatToString(m) + " min";
    var rest := " hr " + t;
    ReadNatToString(m, " min");
    assert ParseMinutesAfterHours(h, t) == Some(h * 60 + m);
    assert rest[..4] == " hr " && rest[4..] == t;
    assert rest != " min" && rest != " hr" by {
      assert |rest| > 4;
    }
  }

  lemma ParseHoursAndMinutes(h: nat, m: nat)
    ensures ParseDuration(NatToString(h) + " hr " + NatToString(m) + " min") == Some(h * 60 + m)
  {
    var rest := " hr " + (NatToString(m) + " min");
    ConcatRight(NatToString(h), " hr ", NatToString(m), " min");
    ReadNatToString(h, rest);
    ParseUnitHoursAndMinutes(h, m);
  }

  /** A rendered non-negative duration always reads back as its whole minutes: no two render alike. */
  lemma ParseFormatDuration(seconds: int)
    requires seconds >= 0
    ensures ParseDuration(FormatDuration(seconds)) == Some(TotalMinutes(seconds))
  {
    var (h, m) := HoursAndMinutes(seconds);
    FormatDurationShape(seconds);
    if h > 0 && m > 0 {
      ParseHoursAndMinutes(h, m);
    } else if h > 0 {
      ParseHoursOnly(h);
    } else {
      ParseMinutesOnly(m);
    }
  }

  /** Strips each piece and drops the ones left empty, keeping their order. */
  function NonBlankStripped(pieces: seq<string>): (items: seq<string>)
    ensures |items| <= |pieces|
    ensures AllNonBlankStripped(items)
  {
    if pieces == [] then []
    else
      var p := Strip(pieces[0]);
      var rest := NonBlankStripped(pieces[1..]);
      if p == [] then rest
      else
        AllNonBlankStrippedCons(p, rest);
        [p] + rest
  }

  predicate AllNonBlankStripped(items: seq<string>) {
    forall i :: 0 <= i < |items| ==> items[i] != [] && IsStripped(items[i])
  }

  lemma AllNonBlankStrippedCons(p: string, rest: seq<string>)
    requires p != [] && IsStripped(p) && AllNonBlankStripped(rest)
    ensures AllNonBlankStripped([p] + rest)
  {
    forall i | 1 <= i < |rest| + 1
      ensures ([p] + rest)[i] == rest[i - 1]
    {
    }
  }

  /** An item is exactly a piece that is not blank once stripped. */
  lemma {:induction false} NonBlankStrippedMembers(pieces: seq<string>)
    ensures forall x :: x in NonBlankStripped(pieces) <==> exists p :: p in pieces && Strip(p) == x && x != []
  {
    if pieces != [] {
      var tail := pieces[1..];
      var p := Strip(pieces[0]);
      NonBlankStrippedMembers(tail);
      assert NonBlankStripped(pieces) == if p == [] then NonBlankStripped(tail) else [p] + NonBlankStripped(tail);
      assert forall q :: q in pieces <==> q == pieces[0] || q in tail by {
        assert pieces == [pieces[0]] + tail;
      }
      forall x
        ensures x in NonBlankStripped(pieces) <==> exists q :: q in pieces && Strip(q) == x && x != []
      {
        if x in NonBlankStripped(pieces) && !(p != [] && x == p) {
          assert x in NonBlankStripped(tail);
          var q :| q in tail && Strip(q) == x && x != [];
          assert q in pieces;
        }
        if p != [] && x == p {
          assert pieces[0] in pieces;
        }
      }
    }
  }

  /** Non-blank stripped pieces pass through unchanged, so doing it twice is doing it once. */
  lemma {:induction false} NonBlankStrippedOfStripped(pieces: seq<string>)
    requires forall i :: 0 <= i < |pieces| ==> pieces[i] != [] && IsStripped(pieces[i])
    ensures NonBlankStripped(pieces) == pieces
  {
    if pieces != [] {
      StripOfStripped(pieces[0]);
      NonBlankStrippedOfStripped(pieces[1..]);
    }
  }

  /** `[part.strip() for part in notes.split('- ') if part.strip()]`: an entry's bullet items. */
  function SummaryItems(notes: string): (items: seq<string>)
    ensures forall i :: 0 <= i < |items| ==> items[i] != [] && IsStripped(items[i])
  {
    NonBlankStripped(Split(notes, "- "))
  }

  /** The items are the non-blank stripped pieces of the notes cut at every "- ". */
  lemma SummaryItemsMembers(notes: string)
    ensures forall x :: x in SummaryItems(notes) <==> exists p :: p in Split(notes, "- ") && Strip(p) == x && x != []
  {
    NonBlankStrippedMembers(Split(notes, "- "));
  }

  /** The items are cut from pieces that join back, with "- ", into the notes. */
  lemma SummaryPiecesCoverNotes(notes: string)
    ensures Join(Split(notes, "- "), "- ") == notes
  {
    JoinSplit(notes, "- ");
  }

  /** The `month` argument of the page: every entry, or one month number. */
  datatype MonthArg = AllMonths | MonthNumber(month: int)

  function InMonthNumber(month: int): TimeEntry -> bool {
    (e: TimeEntry) => e.date.month == month
  }

  /** The entries shown: all of them, or those whose month is the given number, in any year. */
  function SelectEntries(es: seq<TimeEntry>, arg: MonthArg): (r: seq<TimeEntry>)
    ensures arg.AllMonths? ==> r == es
    ensures arg.MonthNumber? ==> forall e :: e in r <==> e in es && e.date.month == arg.month
  {
    match arg
    case AllMonths => es
    case MonthNumber(m) => Filter(es, InMonthNumber(m))
  }

  /** `aggregate(Min('date'))`: the earliest date, None when nothing is selected. */
  function MinDate(es: seq<TimeEntry>): (r: Option<Date>)
    ensures r.None? <==> es == []
    ensures r.Some? ==> (exists i :: 0 <= i < |es| && es[i].date == r.value)
    ensures r.Some? ==> forall i :: 0 <= i < |es| ==> NotAfter(r.value, es[i].date)
  {
    if es == [] then None
    else
      var rest := MinDate(es[1..]);
      if rest.None? || NotAfter(es[0].date, rest.value) then Some(es[0].date)
      else
        assert es[1..][0] == es[1];
        Some(rest.value)
  }

  /** `aggregate(Max('date'))`: the latest date, None when nothing is selected. */
  function MaxDate(es: seq<TimeEntry>): (r: Option<Date>)
    ensures r.None? <==> es == []
    ensures r.Some? ==> (exists i :: 0 <= i < |es| && es[i].date == r.value)
    ensures r.Some? ==> forall i :: 0 <= i < |es| ==> NotAfter(es[i].date, r.value)
  {
    if es == [] then None
    else
      var rest := MaxDate(es[1..]);
      if rest.None? || NotAfter(rest.value, es[0].date) then Some(es[0].date)
      else
        assert es[1..][0] == es[1];
        Some(rest.value)
  }

  /** One entry as the page lists it: its rendered duration and its bullet items. */
  datatype DayItem = DayItem(duration: string, summary: seq<string>)

  /** A date's bucket while the entries are being grouped: its items and its running total in seconds. */
  datatype DayBucket = DayBucket(events: seq<DayItem>, totalDuration: int)

  /** A date's bucket once its total has been rendered. */
  datatype FormattedDay = FormattedDay(events: seq<DayItem>, totalDuration: string)

  function ItemOf(e: TimeEntry): DayItem {
    DayItem(FormatDuration(e.duration), SummaryItems(e.notes))
  }

  /** The items of the entries `es`, in order, each rendered by `item`. */
  function Items(es: seq<TimeEntry>, item: TimeEntry -> DayItem): (r: seq<DayItem>)
    ensures |r| == |es| && forall i :: 0 <= i < |es| ==> r[i] == item(es[i])
  {
    seq(|es|, i requires 0 <= i < |es| => item(es[i]))
  }

  function OnDate(d: Date): TimeEntry -> bool {
    (e: TimeEntry) => e.date == d
  }

  /** The entries booked on date `d`, in the order they were listed. */
  function EntriesOn(es: seq<TimeEntry>, d: Date): seq<TimeEntry> {
    Filter(es, OnDate(d))
  }

  /** What the bucket of date `d` holds once every entry of `es` has been seen. */
  function BucketOf(es: seq<TimeEntry>, d: Date, item: TimeEntry -> DayItem): DayBucket {
    DayBucket(Items(EntriesOn(es, d), item), SumDurations(EntriesOn(es, d)))
  }

  function DatesOf(es: seq<TimeEntry>): set<Date> {
    set e | e in es :: e.date
  }

  /** Seeing one more entry changes only the bucket of its own date. */
  lemma BucketStep(xs: seq<TimeEntry>, e: TimeEntry, d: Date, item: TimeEntry -> DayItem)
    ensures var b := BucketOf(xs, d, item);
      BucketOf(xs + [e], d, item)
        == if e.date == d then DayBucket(b.events + [item(e)], b.totalDuration + e.duration) else b
  {
    assert (xs + [e])[..|xs|] == xs;
    var before := EntriesOn(xs, d);
    if e.date == d {
      assert EntriesOn(xs + [e], d) == before + [e];
      assert Items(before + [e], item) == Items(before, item) + [item(e)];
    } else {
      assert EntriesOn(xs + [e], d) == before;
    }
  }

  lemma DatesOfAppend(xs: seq<TimeEntry>, e: TimeEntry)
    ensures DatesOf(xs + [e]) == DatesOf(xs) + {e.date}
  {
  }

  /** A date no entry has has an empty bucket. */
  lemma EmptyBucket(xs: seq<TimeEntry>, d: Date, item: TimeEntry -> DayItem)
    requires d !in DatesOf(xs)
    ensures BucketOf(xs, d, item) == DayBucket([], 0)
  {
    FilterNone(xs, OnDate(d));
  }

  /**
   * The dates of `es` in the order of their first entry: the order in which the page's
   * dictionary gains its keys, and so the order `dict(event_blocks_by_date)` lists them in.
   */
  function DateOrder(es: seq<TimeEntry>): (r: seq<Date>)
    ensures forall i, j :: 0 <= i < j < |r| ==> r[i] != r[j]
    ensures DateSet(r) == DatesOf(es)
  {
    if es == [] then []
    else
      var init := es[..|es| - 1];
      var last := es[|es| - 1];
      assert es == init + [last];
      DatesOfAppend(init, last);
      var before := DateOrder(init);
      var r := before + (if last.date in DatesOf(init) then [] else [last.date]);
      assert DateSet(r) == DateSet(before) + (if last.date in DatesOf(init) then {} else {last.date});
      r
  }

  lemma DateOrderAppend(xs: seq<TimeEntry>, e: TimeEntry)
    ensures DateOrder(xs + [e]) == DateOrder(xs) + (if e.date in DatesOf(xs) then [] else [e.date])
  {
    assert (xs + [e])[..|xs|] == xs;
  }

  /** Entries listed newest date first, as `order_by('-date')` lists them, give the page's days newest first. */
  lemma {:induction false} DateOrderNewestFirst(es: seq<TimeEntry>)
    requires forall i, j :: 0 <= i < j < |es| ==> NotAfter(es[j].date, es[i].date)
    ensures forall i, j :: 0 <= i < j < |DateOrder(es)| ==> Before(DateOrder(es)[j], DateOrder(es)[i])
  {
    if es != [] {
      var init := es[..|es| - 1];
      var last := es[|es| - 1];
      assert es == init + [last];
      DateOrderNewestFirst(init);
      DateOrderAppend(init, last);
      var before := DateOrder(init);
      if last.date !in DatesOf(init) {
        forall i | 0 <= i < |before|
          ensures Before(last.date, before[i])
        {
          assert before[i] in DateSet(before);
          var k :| 0 <= k < |init| && init[k].date == before[i];
          assert NotAfter(es[|es| - 1].date, es[k].date);
        }
      }
    }
  }

  /** `byDate` holds exactly the buckets of the entries `xs`: one per date they carry. */
  predicate Grouped(byDate: map<Date, DayBucket>, xs: seq<TimeEntry>, item: TimeEntry -> DayItem) {
    && byDate.Keys == DatesOf(xs)
    && forall d :: d in byDate ==> byDate[d] == BucketOf(xs, d, item)
  }

  /** The update one entry makes: its item and duration go into the bucket of its date. */
  function AddEntry(byDate: map<Date, DayBucket>, e: TimeEntry, item: TimeEntry -> DayItem): map<Date, DayBucket> {
    var b := if e.date in byDate then byDate[e.date] else DayBucket([], 0);
    byDate[e.date := DayBucket(b.events + [item(e)], b.totalDuration + e.duration)]
  }

  /** One step of the first loop keeps the buckets equal to those of the entries seen so far. */
  lemma GroupStep(byDate: map<Date, DayBucket>, xs: seq<TimeEntry>, e: TimeEntry, item: TimeEntry -> DayItem)
    requires Grouped(byDate, xs, item)
    ensures Grouped(AddEntry(byDate, e, item), xs + [e], item)
  {
    var next := AddEntry(byDate, e, item);
    DatesOfAppend(xs, e);
    assert next.Keys == DatesOf(xs + [e]);
    forall d | d in next
      ensures next[d] == BucketOf(xs + [e], d, item)
    {
      BucketStep(xs, e, d, item);
      if d !in byDate {
        EmptyBucket(xs, d, item);
      }
    }
  }

  /** The loop body of `GroupByDate` keeps its invariants. */
  lemma GroupByDateStep(es: seq<TimeEntry>, i: int, byDate: map<Date, DayBucket>, order: seq<Date>, total: int)
    requires 0 <= i < |es|
    requires Grouped(byDate, es[..i], ItemOf)
    requires order == DateOrder(es[..i])
    requires total == SumDurations(es[..i])
    ensures Grouped(AddEntry(byDate, es[i], ItemOf), es[..i + 1], ItemOf)
    ensures (if es[i].date in byDate then order else order + [es[i].date]) == DateOrder(es[..i + 1])
    ensures total + es[i].duration == SumDurations(es[..i + 1])
  {
    var e := es[i];
    assert es[..i + 1] == es[..i] + [e];
    GroupStep(byDate, es[..i], e, ItemOf);
    SumAppend(es[..i], [e]);
    DateOrderAppend(es[..i], e);
  }

  /**
   * The first loop of the page: appends each entry's item to its date's bucket and adds its
   * duration to that bucket's total and to the overall total. `order` is the order in which
   * the buckets were created.
   */
  method GroupByDate(es: seq<TimeEntry>) returns (byDate: map<Date, DayBucket>, order: seq<Date>, total: int)
    ensures byDate.Keys == DatesOf(es)
    ensures forall d :: d in byDate ==> byDate[d] == BucketOf(es, d, ItemOf)
    ensures order == DateOrder(es)
    ensures total == SumDurations(es)
  {
    byDate := map[];
    order := [];
    total := 0;
    var i := 0;
    while i < |es|
      invariant 0 <= i <= |es|
      invariant Grouped(byDate, es[..i], ItemOf)
      invariant order == DateOrder(es[..i])
      invariant total == SumDurations(es[..i])
    {
      var e := es[i];
      GroupByDateStep(es, i, byDate, order, total);
      if e.date !in byDate {
        order := order + [e.date];
      }
      byDate := AddEntry(byDate, e, ItemOf);
      total := total + e.duration;
      i := i + 1;
    }
    assert es[..|es|] == es;
  }

  /** The second loop of the page: renders every bucket's total, leaving its items as they are. */
  method FormatDayTotals(byDate: map<Date, DayBucket>) returns (out: map<Date, FormattedDay>)
    ensures out.Keys == byDate.Keys
    ensures forall d :: d in out ==> out[d] == FormattedDay(byDate[d].events, FormatDuration(byDate[d].totalDuration))
  {
    out := map[];
    var todo := byDate.Keys;
    while todo != {}
      invariant todo <= byDate.Keys
      invariant out.Keys == byDate.Keys - todo
      invariant forall d :: d in out ==> out[d] == FormattedDay(byDate[d].events, FormatDuration(byDate[d].totalDuration))
      decreases |todo|
    {
      var d :| d in todo;
      out := out[d := FormattedDay(byDate[d].events, FormatDuration(byDate[d].totalDuration))];
      todo := todo - {d};
    }
  }

  /** Each entry lands in exactly one bucket: the one of its own date. */
  lemma EntryInOwnBucketOnly(es: seq<TimeEntry>, i: int, d: Date)
    requires 0 <= i < |es|
    ensures es[i] in EntriesOn(es, d) <==> es[i].date == d
  {
  }

  function DatedIn(ds: set<Date>): TimeEntry -> bool {
    (e: TimeEntry) => e.date in ds
  }

  /** The bucket totals of the dates `ds`, added up. */
  function SumDayTotals(es: seq<TimeEntry>, ds: seq<Date>): int {
    if ds == [] then 0 else SumDayTotals(es, ds[..|ds| - 1]) + SumDurations(EntriesOn(es, ds[|ds| - 1]))
  }

  lemma {:induction false} SumFilterAddDate(es: seq<TimeEntry>, ds: set<Date>, d: Date)
    requires d !in ds
    ensures SumDurations(Filter(es, DatedIn(ds + {d})))
         == SumDurations(Filter(es, DatedIn(ds))) + SumDurations(EntriesOn(es, d))
  {
    if es != [] {
      var init := es[..|es| - 1];
      var last := es[|es| - 1];
      SumFilterAddDate(init, ds, d);
      SumAppend(Filter(init, DatedIn(ds + {d})), if DatedIn(ds + {d})(last) then [last] else []);
      SumAppend(Filter(init, DatedIn(ds)), if DatedIn(ds)(last) then [last] else []);
      SumAppend(Filter(init, OnDate(d)), if OnDate(d)(last) then [last] else []);
    }
  }

  function DateSet(ds: seq<Date>): set<Date> {
    set d | d in ds
  }

  /** The last of distinct dates is not among the others, and it adds one date to their set. */
  lemma LastOfDistinct(ds: seq<Date>)
    requires ds != []
    requires forall i, j :: 0 <= i < j < |ds| ==> ds[i] != ds[j]
    ensures ds[|ds| - 1] !in ds[..|ds| - 1]
    ensures DateSet(ds) == DateSet(ds[..|ds| - 1]) + {ds[|ds| - 1]}
  {
    var init := ds[..|ds| - 1];
    var last := ds[|ds| - 1];
    assert ds == init + [last];
    forall j | 0 <= j < |init|
      ensures init[j] != last
    {
      assert init[j] == ds[j];
    }
  }

  lemma {:induction false} SumDayTotalsIsFilteredSum(es: seq<TimeEntry>, ds: seq<Date>)
    requires forall i, j :: 0 <= i < j < |ds| ==> ds[i] != ds[j]
    ensures SumDayTotals(es, ds) == SumDurations(Filter(es, DatedIn(DateSet(ds))))
  {
    if ds == [] {
      FilterNone(es, DatedIn(DateSet(ds)));
    } else {
      var init := ds[..|ds| - 1];
      var last := ds[|ds| - 1];
      SumDayTotalsIsFilteredSum(es, init);
      LastOfDistinct(ds);
      SumFilterAddDate(es, DateSet(init), last);
    }
  }

  /**
   * The overall total is the sum of the per-day totals, added up over the dates in any
   * order, each date once.
   */
  lemma GrandTotalIsSumOfDayTotals(es: seq<TimeEntry>, ds: seq<Date>)
    requires forall i, j :: 0 <= i < j < |ds| ==> ds[i] != ds[j]
    requires DateSet(ds) == DatesOf(es)
    ensures SumDayTotals(es, ds) == SumDurations(es)
  {
    SumDayTotalsIsFilteredSum(es, ds);
    FilterEvery(es, DatedIn(DatesOf(es)));
  }

  /** Listed in the page's day order, the day totals add up to the grand total. */
  lemma PageDayTotalsAddUp(es: seq<TimeEntry>)
    ensures SumDayTotals(es, DateOrder(es)) == SumDurations(es)
  {
    GrandTotalIsSumOfDayTotals(es, DateOrder(es));
  }

  /** Python's truth value of an optional duration: None and a zero duration are both false. */
  predicate Truthy(d: Option<int>) {
    d.Some? && d.value != 0
  }

  /** The budget figures of the page, rendered. */
  datatype BudgetFields = BudgetFields(
    totalDuration: string, monthDuration: Option<string>, totalBudget: Option<string>, remainingHours: Option<string>)

  /**
   * The budget figures: the monthly-budget branch first, then the total-budget branch, which
   * overwrites what the first one set. `spent` and `remaining` are the project's
   * `total_time_delta()` and `remaining_duration()`.
   */
  function BudgetFieldsOf(monthly: Option<int>, totalBudget: Option<int>, shown: int, spent: int, remaining: int): (f: BudgetFields)
    ensures !Truthy(monthly) && !Truthy(totalBudget)
      ==> f == BudgetFields(FormatDuration(shown), None, None, None)
    ensures Truthy(monthly) && !Truthy(totalBudget)
      ==> f == BudgetFields(FormatDuration(shown), Some(FormatDuration(shown)), Some(FormatDuration(monthly.value)),
                            Some(FormatDuration(monthly.value - shown)))
    ensures Truthy(totalBudget)
      ==> f == BudgetFields(FormatDuration(spent), Some(FormatDuration(shown)), Some(FormatDuration(totalBudget.value)),
                            Some(FormatDuration(remaining)))
  {
    var initial := BudgetFields(FormatDuration(shown), None, None, None);
    var afterMonthly :=
      if Truthy(monthly) then
        initial.(monthDuration := Some(FormatDuration(shown)), totalBudget := Some(FormatDuration(monthly.value)),
                 remainingHours := Some(FormatDuration(monthly.value - shown)))
      else initial;
    if Truthy(totalBudget) then
      afterMonthly.(monthDuration := Some(FormatDuration(shown)), totalDuration := FormatDuration(spent),
                    totalBudget := Some(FormatDuration(totalBudget.value)), remainingHours := Some(FormatDuration(remaining)))
    else afterMonthly
  }

  /**
   * What the page shows: the chosen entries (`event_blocks`), their first and last date, the
   * days' buckets, the order in which the page lists the days, and the budget figures.
   */
  datatype Context = Context(
    entries: seq<TimeEntry>, startDate: Option<Date>, endDate: Option<Date>,
    byDate: map<Date, FormattedDay>, dayOrder: seq<Date>, budget: BudgetFields)

  /**
   * `get_context_data` for the project's entries `es`, in the order the store lists them
   * (newest date first). `spent` and `remaining` are the project's own total figures.
   */
  method TimesheetContext(es: seq<TimeEntry>, arg: MonthArg, monthly: Option<int>, totalBudget: Option<int>,
                          spent: int, remaining: int)
    returns (ctx: Context)
    ensures var shown := SelectEntries(es, arg);
      && ctx.entries == shown
      && ctx.startDate == MinDate(shown) && ctx.endDate == MaxDate(shown)
      && ctx.byDate.Keys == DatesOf(shown)
      && (forall d :: d in ctx.byDate ==>
            ctx.byDate[d] == FormattedDay(Items(EntriesOn(shown, d), ItemOf), FormatDuration(SumDurations(EntriesOn(shown, d)))))
      && ctx.dayOrder == DateOrder(shown)
      && ctx.budget == BudgetFieldsOf(monthly, totalBudget, SumDurations(shown), spent, remaining)
  {
    var shown := SelectEntries(es, arg);
    var buckets, order, total := GroupByDate(shown);
    var byDate := FormatDayTotals(buckets);
    ctx := Context(shown, MinDate(shown), MaxDate(shown), byDate, order,
                   BudgetFieldsOf(monthly, totalBudget, total, spent, remaining));
  }

  /** The month view keeps August 2023 and August 2024 together: it looks at the month number only. */
  lemma MonthViewIgnoresYear()
    ensures var a := TimeEntry(Date(2023, 8, 15), 36000, "", true);
      var b := TimeEntry(Date(2024, 8, 15), 18000, "", true);
      SelectEntries([a, b], MonthNumber(8)) == [a, b]
  {
    var a := TimeEntry(Date(2023, 8, 15), 36000, "", true);
    var b := TimeEntry(Date(2024, 8, 15), 18000, "", true);
    FilterEvery([a, b], InMonthNumber(8));
  }
}
