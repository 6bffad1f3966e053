/** Time entries as the budget accountant and the timesheet view read them, with filters and sums over them. */
module TimeEntries {
  import opened Dates

  /** A `TimeEntry` row: the day it was booked on, its duration in seconds, its notes and whether it is billable. */
  datatype TimeEntry = TimeEntry(date: Date, duration: int, notes: string, billable: bool)

  /** The entries `keep` accepts, in their original order (a query's `filter`). */
  function Filter(es: seq<TimeEntry>, keep: TimeEntry -> bool): (r: seq<TimeEntry>)
    ensures |r| <= |es|
    ensures forall e :: e in r <==> e in es && keep(e)
    ensures forall i :: 0 <= i < |r| ==> keep(r[i])
  {
    if es == [] then []
    else
      var init := es[..|es| - 1];
      assert es == init + [es[|es| - 1]];
      Filter(init, keep) + (if keep(es[|es| - 1]) then [es[|es| - 1]] else [])
  }

  /** The sum of the entries' durations; the empty sum is the zero duration. */
  function SumDurations(es: seq<TimeEntry>): int {
    if es == [] then 0 else SumDurations(es[..|es| - 1]) + es[|es| - 1].duration
  }

  lemma {:induction false} FilterAppend(a: seq<TimeEntry>, b: seq<TimeEntry>, keep: TimeEntry -> bool)
    ensures Filter(a + b, keep) == Filter(a, keep) + Filter(b, keep)
    decreases |b|
  {
    if b == [] {
      assert a + b == a;
    } else {
      var init := b[..|b| - 1];
      assert (a + b)[..|a + b| - 1] == a + init;
      FilterAppend(a, init, keep);
    }
  }

  lemma {:induction false} SumAppend(a: seq<TimeEntry>, b: seq<TimeEntry>)
    ensures SumDurations(a + b) == SumDurations(a) + SumDurations(b)
    decreases |b|
  {
    if b == [] {
      assert a + b == a;
    } else {
      var init := b[..|b| - 1];
      assert (a + b)[..|a + b| - 1] == a + init;
      SumAppend(a, init);
    }
  }

  /** A filtered sum adds up over any split of the entries. */
  lemma SumFilterAppend(a: seq<TimeEntry>, b: seq<TimeEntry>, keep: TimeEntry -> bool)
    ensures SumDurations(Filter(a + b, keep)) == SumDurations(Filter(a, keep)) + SumDurations(Filter(b, keep))
  {
    FilterAppend(a, b, keep);
    SumAppend(Filter(a, keep), Filter(b, keep));
  }

  lemma SumFilterSingle(e: TimeEntry, keep: TimeEntry -> bool)
    ensures SumDurations(Filter([e], keep)) == if keep(e) then e.duration else 0
  {
    assert [e][..0] == [];
  }

  lemma SumFilterPair(a: TimeEntry, b: TimeEntry, keep: TimeEntry -> bool)
    ensures SumDurations(Filter([a, b], keep)) == (if keep(a) then a.duration else 0) + (if keep(b) then b.duration else 0)
  {
    assert [a, b] == [a] + [b];
    SumFilterAppend([a], [b], keep);
    SumFilterSingle(a, keep);
    SumFilterSingle(b, keep);
  }

  /** With non-negative durations, a filtered sum never exceeds the whole sum. */
  lemma {:induction false} SumFilterAtMost(es: seq<TimeEntry>, keep: TimeEntry -> bool)
    requires forall i :: 0 <= i < |es| ==> es[i].duration >= 0
    ensures 0 <= SumDurations(Filter(es, keep)) <= SumDurations(es)
  {
    if es != [] {
      var init := es[..|es| - 1];
      var last := es[|es| - 1];
      SumFilterAtMost(init, keep);
      SumAppend(Filter(init, keep), if keep(last) then [last] else []);
    }
  }

  /** Nothing is kept when `keep` accepts no entry. */
  lemma {:induction false} FilterNone(es: seq<TimeEntry>, keep: TimeEntry -> bool)
    requires forall e :: e in es ==> !keep(e)
    ensures Filter(es, keep) == []
  {
    if es != [] {
      var init := es[..|es| - 1];
      assert es == init + [es[|es| - 1]];
      assert forall e :: e in init ==> e in es;
      FilterNone(init, keep);
    }
  }

  /** Everything is kept, in order, when `keep` accepts every entry. */
  lemma {:induction false} FilterEvery(es: seq<TimeEntry>, keep: TimeEntry -> bool)
    requires forall e :: e in es ==> keep(e)
    ensures Filter(es, keep) == es
  {
    if es != [] {
      var init := es[..|es| - 1];
      var last := es[|es| - 1];
      assert es == init + [last];
      assert forall e :: e in init ==> e in es;
      FilterEvery(init, keep);
      assert keep(last);
    }
  }
}
