/**
 * `DateRangeIterator`: yields the instants start, start + Δ days, start + 2Δ days, … up to and
 * including the end, after turning plain dates into their midnight.
 */
module DateRange {
  import opened Wrappers
  import opened Dates

  /** What the iterator may be given: a plain date or an instant already in UTC. */
  datatype Timestamp = DateValue(date: Date) | Instant(seconds: int)

  predicate WellFormed(t: Timestamp) {
    t.DateValue? ==> Valid(t.date)
  }

  /** `ensure_utc_datetime` for UTC: a plain date becomes the midnight that starts it. */
  function EnsureUtc(t: Timestamp): (r: int)
    requires WellFormed(t)
  {
    match t
    case DateValue(d) => Midnight(d)
    case Instant(s) => s
  }

  /** A plain date becomes the first second of that very day; an instant is left as it is. */
  lemma EnsureUtcOfDate(t: Timestamp)
    requires WellFormed(t)
    ensures t.DateValue? ==> DayOf(EnsureUtc(t)) == Ordinal(t.date) && EnsureUtc(t) % SecondsPerDay == 0
    ensures t.Instant? ==> EnsureUtc(t) == t.seconds
    ensures t == DateValue(Date(1970, 1, 1)) ==> EnsureUtc(t) == 0
  {
    if t.DateValue? {
      DayOfDayStart(Ordinal(t.date));
      EpochIsOrdinalOf1970();
    }
  }

  /** Everything the iterator yields from `from` on, `step` seconds apart, while not past `to`. */
  function Steps(from: int, to: int, step: int): seq<int>
    requires step > 0
    decreases if from > to then 0 else to - from + 1
  {
    if from > to then [] else [from] + Steps(from + step, to, step)
  }

  /** The k-th value yielded is k steps after the start. */
  lemma {:induction false} StepsAt(from: int, to: int, step: int)
    requires step > 0
    ensures forall k :: 0 <= k < |Steps(from, to, step)| ==> Steps(from, to, step)[k] == from + k * step
    decreases if from > to then 0 else to - from + 1
  {
    if from <= to {
      StepsAt(from + step, to, step);
      var rest := Steps(from + step, to, step);
      assert Steps(from, to, step) == [from] + rest;
      forall k | 1 <= k < |Steps(from, to, step)|
        ensures Steps(from, to, step)[k] == from + k * step
      {
        assert Steps(from, to, step)[k] == rest[k - 1];
        assert (from + step) + (k - 1) * step == from + k * step;
      }
    }
  }

  /** Nothing is yielded for a start after the end; otherwise ⌊(end − start) / step⌋ + 1 values. */
  lemma {:induction false} StepsLength(from: int, to: int, step: int)
    requires step > 0
    ensures from > to ==> Steps(from, to, step) == []
    ensures from <= to ==> |Steps(from, to, step)| == (to - from) / step + 1
    decreases if from > to then 0 else to - from + 1
  {
    if from <= to {
      StepsLength(from + step, to, step);
      if from + step <= to {
        assert (to - from) / step == (to - (from + step)) / step + 1 by {
          DivShift(to - from - step, step);
        }
      } else {
        assert 0 <= to - from < step;
      }
    }
  }

  /** Moving a number up by one divisor moves its quotient up by one and keeps its remainder. */
  lemma DivShift(n: int, step: int)
    requires step > 0
    ensures (n + step) / step == n / step + 1
    ensures (n + step) % step == n % step
  {
    var q, r := n / step, n % step;
    assert n + step == (q + 1) * step + r;
    DivUnique(n + step, step, q + 1, r);
  }

  /** Every value yielded lies between the start and the end, both included. */
  lemma {:induction false} StepsBounds(from: int, to: int, step: int)
    requires step > 0
    ensures forall v :: v in Steps(from, to, step) ==> from <= v <= to
    decreases if from > to then 0 else to - from + 1
  {
    if from <= to {
      StepsBounds(from + step, to, step);
    }
  }

  /** The end itself is yielded exactly when it is a whole number of steps after the start. */
  lemma {:induction false} StepsIncludesEnd(from: int, to: int, step: int)
    requires step > 0
    ensures to in Steps(from, to, step) <==> from <= to && (to - from) % step == 0
    decreases if from > to then 0 else to - from + 1
  {
    if from <= to {
      StepsIncludesEnd(from + step, to, step);
      var n := to - from;
      if n < step {
        StepsBounds(from + step, to, step);
        DivUnique(n, step, 0, n);
      } else {
        DivShift(n - step, step);
      }
    }
  }

  /** Consecutive values are one step apart. */
  lemma StepsConsecutive(from: int, to: int, step: int, k: int)
    requires step > 0
    requires 0 <= k && k + 1 < |Steps(from, to, step)|
    ensures Steps(from, to, step)[k + 1] == Steps(from, to, step)[k] + step
  {
    StepsAt(from, to, step);
  }

  /** A walk that begins one step later is the tail of the walk. */
  lemma StepsUnfold(from: int, to: int, step: int)
    requires step > 0 && from <= to
    ensures Steps(from, to, step) == [from] + Steps(from + step, to, step)
  {
  }

  /**
   * The iterator object. `yielded` records, for the proofs only, what `Next` has returned so
   * far; `Valid` says that it and what remains make up the whole walk from the start.
   */
  class DateRangeIterator {
    const start: int
    const end: int
    const delta: int
    var current: int
    ghost var yielded: seq<int>

    /** The step in seconds: `timedelta(days=delta)`. */
    function Step(): int
      reads this
    {
      delta * SecondsPerDay
    }

    /** What is still to come. */
    ghost function Remaining(): seq<int>
      reads this
      requires delta > 0
    {
      Steps(current, end, Step())
    }

    ghost predicate Valid()
      reads this
    {
      && delta > 0
      && current == start + |yielded| * Step()
      && yielded + Remaining() == Steps(start, end, Step())
    }

    constructor(startValue: Timestamp, endValue: Timestamp, delta: int)
      requires WellFormed(startValue) && WellFormed(endValue)
      requires delta > 0
      ensures start == EnsureUtc(startValue) && end == EnsureUtc(endValue) && this.delta == delta
      ensures current == start && yielded == []
      ensures Valid()
    {
      start := EnsureUtc(startValue);
      end := EnsureUtc(endValue);
      current := EnsureUtc(startValue);
      this.delta := delta;
      yielded := [];
    }

    /**
     * `__next__`: None stands for `StopIteration`, which leaves the iterator as it is, so every
     * later call stops as well.
     */
    method Next() returns (r: Option<int>)
      requires Valid()
      modifies this
      ensures Valid()
      ensures old(current) > end ==> r == None && current == old(current) && yielded == old(yielded)
      ensures old(current) <= end
        ==> r == Some(old(current)) && current == old(current) + Step() && yielded == old(yielded) + [old(current)]
      ensures r.None? <==> old(Remaining()) == []
      ensures r.None? ==> yielded == Steps(start, end, Step())
    {
      if current > end {
        r := None;
      } else {
        r := Some(current);
        StepsUnfold(current, end, Step());
        assert yielded + [current] + Steps(current + Step(), end, Step()) == yielded + Remaining();
        yielded := yielded + [current];
        current := current + Step();
      }
    }
  }

  /** Stepping an instant by whole days moves its date by as many days. */
  lemma DayOfShift(t: int, k: int)
    ensures DayOf(t + k * SecondsPerDay) == DayOf(t) + k
  {
    assert (t + k * SecondsPerDay) / SecondsPerDay == t / SecondsPerDay + k;
  }

  /** Stepping a day at a time visits consecutive dates, the first being the start's own. */
  lemma DailyStepsVisitConsecutiveDays(from: int, to: int)
    ensures forall k :: 0 <= k < |Steps(from, to, SecondsPerDay)| ==> DayOf(Steps(from, to, SecondsPerDay)[k]) == DayOf(from) + k
  {
    StepsAt(from, to, SecondsPerDay);
    forall k | 0 <= k < |Steps(from, to, SecondsPerDay)|
      ensures DayOf(Steps(from, to, SecondsPerDay)[k]) == DayOf(from) + k
    {
      DayOfShift(from, k);
    }
  }
}
