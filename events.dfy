/** The stored activity: sources of events and the events they produced. */
module Events {
  import opened Wrappers

  /** A `Source` row: its key, its type string, the project it feeds (if any) and whether it is enabled. */
  datatype Source = Source(id: int, sourceType: string, project: Option<int>, enabled: bool)

  /**
   * An `Event` row: when it happened (seconds, UTC), the key of its source and its text.
   * These three fields together are the row's uniqueness key.
   */
  datatype Event = Event(timestamp: int, source: int, text: string)

  /** The `unique_event` constraint: no two stored rows share timestamp, source and text. */
  predicate UniqueKeys(rows: seq<Event>) {
    forall i, j :: 0 <= i < j < |rows| ==> rows[i] != rows[j]
  }

  /** The events `keep` accepts, in their original order. */
  function Select(es: seq<Event>, keep: Event -> bool): (r: seq<Event>)
    ensures |r| <= |es|
    ensures forall e :: e in r <==> e in es && keep(e)
    ensures multiset(r) <= multiset(es)
  {
    if es == [] then []
    else
      var init := es[..|es| - 1];
      assert es == init + [es[|es| - 1]];
      Select(init, keep) + (if keep(es[|es| - 1]) then [es[|es| - 1]] else [])
  }

  /** Selecting from a duplicate-free list leaves it duplicate-free. */
  lemma {:induction false} SelectKeepsUnique(es: seq<Event>, keep: Event -> bool)
    requires UniqueKeys(es)
    ensures UniqueKeys(Select(es, keep))
  {
    if es != [] {
      var init := es[..|es| - 1];
      var last := es[|es| - 1];
      assert UniqueKeys(init);
      SelectKeepsUnique(init, keep);
      assert last !in init;
    }
  }

  /** Duplicate-free rows hold each event at most once. */
  lemma {:induction false} UniqueCountsAtMostOne(rows: seq<Event>, x: Event)
    requires UniqueKeys(rows)
    ensures multiset(rows)[x] <= 1
  {
    if rows != [] {
      var init := rows[..|rows| - 1];
      var last := rows[|rows| - 1];
      assert rows == init + [last];
      assert forall k :: 0 <= k < |init| ==> init[k] == rows[k];
      UniqueCountsAtMostOne(init, x);
      if x == last {
        assert last !in init;
      }
    }
  }

  /** Rows that hold each event at most once are duplicate-free. */
  lemma {:induction false} CountsAtMostOneUnique(rows: seq<Event>)
    requires forall x :: multiset(rows)[x] <= 1
    ensures UniqueKeys(rows)
  {
    if rows != [] {
      var init := rows[..|rows| - 1];
      var last := rows[|rows| - 1];
      assert rows == init + [last];
      assert forall x :: multiset(init)[x] <= multiset(rows)[x];
      CountsAtMostOneUnique(init);
      assert multiset(init)[last] == 0;
      forall i, j | 0 <= i < j < |rows|
        ensures rows[i] != rows[j]
      {
        assert rows[i] == init[i];
        if j < |init| {
          assert rows[j] == init[j];
        } else {
          assert init[i] in multiset(init);
        }
      }
    }
  }

  /** Any rearrangement of duplicate-free rows is duplicate-free. */
  lemma PermutationKeepsUnique(a: seq<Event>, b: seq<Event>)
    requires UniqueKeys(a) && multiset(a) == multiset(b)
    ensures UniqueKeys(b)
  {
    forall x
      ensures multiset(b)[x] <= 1
    {
      UniqueCountsAtMostOne(a, x);
    }
    CountsAtMostOneUnique(b);
  }
}
