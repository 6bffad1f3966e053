/**
 * Importers: an importer collects the events it fetched in a batch, then `sync` inserts the
 * batch into the event store, skipping every event whose key is already stored, empties the
 * batch and records the time of the sync on its source.
 */
module Importers {
  import opened Wrappers
  import opened Strings
  import opened Events

  /** One row of `bulk_create(..., ignore_conflicts=True)`: a conflicting row is skipped. */
  function InsertOne(rows: seq<Event>, e: Event): seq<Event> {
    if e in rows then rows else rows + [e]
  }

  /** `bulk_create(batch, ignore_conflicts=True)`: the batch's rows in order, each unless already there. */
  function InsertAll(rows: seq<Event>, batch: seq<Event>): seq<Event> {
    if batch == [] then rows else InsertOne(InsertAll(rows, batch[..|batch| - 1]), batch[|batch| - 1])
  }

  lemma InsertAllAppend(rows: seq<Event>, batch: seq<Event>, e: Event)
    ensures InsertAll(rows, batch + [e]) == InsertOne(InsertAll(rows, batch), e)
  {
    assert (batch + [e])[..|batch|] == batch;
  }

  /** Afterwards the store holds exactly the old rows and the batch's events. */
  lemma {:induction false} InsertAllMembers(rows: seq<Event>, batch: seq<Event>)
    ensures forall x :: x in InsertAll(rows, batch) <==> x in rows || x in batch
  {
    if batch != [] {
      var init := batch[..|batch| - 1];
      InsertAllMembers(rows, init);
      assert batch == init + [batch[|batch| - 1]];
    }
  }

  /** Stored rows are neither altered nor moved: the old store is a prefix of the new one. */
  lemma {:induction false} InsertAllExtends(rows: seq<Event>, batch: seq<Event>)
    ensures |rows| <= |InsertAll(rows, batch)| && InsertAll(rows, batch)[..|rows|] == rows
  {
    if batch != [] {
      var init := batch[..|batch| - 1];
      InsertAllExtends(rows, init);
      var mid := InsertAll(rows, init);
      assert (mid + [batch[|batch| - 1]])[..|rows|] == mid[..|rows|];
    }
  }

  /** The uniqueness constraint survives, even for duplicates inside the batch. */
  lemma {:induction false} InsertAllKeepsUnique(rows: seq<Event>, batch: seq<Event>)
    requires UniqueKeys(rows)
    ensures UniqueKeys(InsertAll(rows, batch))
  {
    if batch != [] {
      var init := batch[..|batch| - 1];
      var e := batch[|batch| - 1];
      InsertAllKeepsUnique(rows, init);
      var mid := InsertAll(rows, init);
      if e !in mid {
        var r := mid + [e];
        forall i, j | 0 <= i < j < |r|
          ensures r[i] != r[j]
        {
          if j == |mid| {
            assert r[i] == mid[i];
          }
        }
      }
    }
  }

  /** A batch whose events are all stored already changes nothing. */
  lemma {:induction false} InsertAllNoOp(rows: seq<Event>, batch: seq<Event>)
    requires forall x :: x in batch ==> x in rows
    ensures InsertAll(rows, batch) == rows
  {
    if batch != [] {
      var init := batch[..|batch| - 1];
      assert forall x :: x in init ==> x in batch;
      InsertAllNoOp(rows, init);
    }
  }

  /** Syncing the same events a second time leaves the store as the first sync left it. */
  lemma InsertAllIdempotent(rows: seq<Event>, batch: seq<Event>)
    ensures InsertAll(InsertAll(rows, batch), batch) == InsertAll(rows, batch)
  {
    InsertAllMembers(rows, batch);
    InsertAllNoOp(InsertAll(rows, batch), batch);
  }

  /** The table of stored events. */
  class EventStore {
    var rows: seq<Event>

    constructor(rows: seq<Event>)
      ensures this.rows == rows
    {
      this.rows := rows;
    }

    /** `bulk_create(batch, ignore_conflicts=True)`. */
    method BulkCreate(batch: seq<Event>)
      modifies this
      ensures rows == InsertAll(old(rows), batch)
    {
      var i := 0;
      while i < |batch|
        invariant 0 <= i <= |batch|
        invariant rows == InsertAll(old(rows), batch[..i])
      {
        InsertAllAppend(old(rows), batch[..i], batch[i]);
        assert batch[..i + 1] == batch[..i] + [batch[i]];
        if batch[i] !in rows {
          rows := rows + [batch[i]];
        }
        i := i + 1;
      }
      assert batch[..|batch|] == batch;
    }
  }

  /** The importer classes `get_importer` knows. */
  datatype ImporterKind = GitHub | Azure | AWS | Jira | Slack | Outlook

  /** The source type string each importer is registered under. */
  function KindName(k: ImporterKind): string {
    match k
    case GitHub => "github"
    case Azure => "azure"
    case AWS => "aws"
    case Jira => "jira"
    case Slack => "slack"
    case Outlook => "outlook"
  }

  /** `get_importer`: the importer registered for `sourceType`, or the `ValueError` it raises. */
  function GetImporter(sourceType: string): (r: Result<ImporterKind>)
    ensures r.Success? ==> KindName(r.value) == sourceType
    ensures r.Failure? ==> r.error == "No importer found for source type: " + sourceType
  {
    if sourceType == "github" then Success(GitHub)
    else if sourceType == "azure" then Success(Azure)
    else if sourceType == "aws" then Success(AWS)
    else if sourceType == "jira" then Success(Jira)
    else if sourceType == "slack" then Success(Slack)
    else if sourceType == "outlook" then Success(Outlook)
    else Failure("No importer found for source type: " + sourceType)
  }

  /** Every registered name finds its importer, ... */
  lemma GetImporterFindsEveryKind(k: ImporterKind)
    ensures GetImporter(KindName(k)) == Success(k)
  {
  }

  /** ... and every other string is refused. */
  lemma GetImporterRefusesUnknown(sourceType: string)
    ensures GetImporter(sourceType).Failure? <==> forall k: ImporterKind :: KindName(k) != sourceType
  {
    if GetImporter(sourceType).Success? {
      assert KindName(GetImporter(sourceType).value) == sourceType;
    }
  }

  /** AWS, Jira and Slack importers fetch nothing. */
  predicate Fetches(k: ImporterKind) {
    k == GitHub || k == Azure || k == Outlook
  }

  /** The events `save_event` makes of fetched (text, timestamp) pairs for source `id`. */
  function SavedEvents(fetched: seq<(string, int)>, id: int): (r: seq<Event>)
    ensures |r| == |fetched|
    ensures forall i :: 0 <= i < |fetched| ==> r[i] == Event(fetched[i].1, id, fetched[i].0)
  {
    seq(|fetched|, i requires 0 <= i < |fetched| => Event(fetched[i].1, id, fetched[i].0))
  }

  /** A `Source` row as the importer sees it: its fixed fields and its `last_sync`. */
  class SourceRecord {
    const info: Source
    var lastSync: Option<int>

    constructor(info: Source, lastSync: Option<int>)
      ensures this.info == info && this.lastSync == lastSync
    {
      this.info := info;
      this.lastSync := lastSync;
    }
  }

  /** `BaseImporter` and its subclasses, told apart by `kind`. */
  class Importer {
    const kind: ImporterKind
    const source: SourceRecord
    var batch: seq<Event>

    constructor(kind: ImporterKind, source: SourceRecord)
      ensures this.kind == kind && this.source == source
      ensures batch == []
    {
      this.kind := kind;
      this.source := source;
      batch := [];
    }

    /** `save_event`: one more pending event of this source at the end of the batch. */
    method SaveEvent(text: string, timestamp: int)
      modifies this
      ensures batch == old(batch) + [Event(timestamp, source.info.id, text)]
    {
      batch := batch + [Event(timestamp, source.info.id, text)];
    }

    /** `fetch_events`, given what the source's service returned: each item is saved in order. */
    method FetchEvents(fetched: seq<(string, int)>)
      modifies this
      ensures batch == old(batch) + (if Fetches(kind) then SavedEvents(fetched, source.info.id) else [])
    {
      if Fetches(kind) {
        var i := 0;
        while i < |fetched|
          invariant 0 <= i <= |fetched|
          invariant batch == old(batch) + SavedEvents(fetched[..i], source.info.id)
        {
          assert SavedEvents(fetched[..i + 1], source.info.id) == SavedEvents(fetched[..i], source.info.id) + [Event(fetched[i].1, source.info.id, fetched[i].0)];
          SaveEvent(fetched[i].0, fetched[i].1);
          i := i + 1;
        }
        assert fetched[..|fetched|] == fetched;
      }
    }

    /** `update_last_sync`, with `now` standing for `timezone.now()`. */
    method UpdateLastSync(now: int)
      modifies source
      ensures source.lastSync == Some(now)
    {
      source.lastSync := Some(now);
    }

    /** `sync`: fetch, insert the batch ignoring conflicts, empty the batch, record the sync time. */
    method Sync(store: EventStore, fetched: seq<(string, int)>, now: int)
      modifies this, store, source
      ensures store.rows == InsertAll(old(store.rows), old(batch) + (if Fetches(kind) then SavedEvents(fetched, source.info.id) else []))
      ensures batch == [] && source.lastSync == Some(now)
    {
      FetchEvents(fetched);
      store.BulkCreate(batch);
      batch := [];
      UpdateLastSync(now);
    }

    /**
     * `AzureImporter.process_csv_file` on the rows of one file: the first row without a `Time`
     * column raises, leaving the rows before it saved. `parseTime` reads the `Time` text.
     */
    method ProcessCsvRows(rows: seq<Row>, parseTime: string -> int) returns (ok: bool)
      requires forall i :: 0 <= i < |rows| ==> DistinctColumns(rows[i])
      modifies this
      ensures var n := RowsWithTime(rows);
        batch == old(batch) + CsvEvents(rows[..n], source.info.id, parseTime) && (ok <==> n == |rows|)
    {
      var i := 0;
      while i < |rows|
        invariant 0 <= i <= RowsWithTime(rows)
        invariant batch == old(batch) + CsvEvents(rows[..i], source.info.id, parseTime)
      {
        var text := RowText(rows[i]);
        var time := Lookup(rows[i], "Time");
        if time.None? {
          RowsWithTimeStops(rows, i);
          return false;
        }
        RowsWithTimeGoesOn(rows, i);
        assert CsvEvents(rows[..i + 1], source.info.id, parseTime)
            == CsvEvents(rows[..i], source.info.id, parseTime) + [Event(parseTime(time.value), source.info.id, text)];
        SaveEvent(text, parseTime(time.value));
        i := i + 1;
      }
      return true;
    }
  }

  /** A CSV row as `csv.DictReader` gives it: (column, value) pairs in column order. */
  type Row = seq<(string, string)>

  /** A dictionary has each column once. */
  predicate DistinctColumns(row: Row) {
    forall i, j :: 0 <= i < j < |row| ==> row[i].0 != row[j].0
  }

  /** `f'{key}: {value}'` for each column, in order. */
  function RowLines(row: Row): (r: seq<string>)
    ensures |r| == |row| && forall i :: 0 <= i < |row| ==> r[i] == row[i].0 + ": " + row[i].1
  {
    seq(|row|, i requires 0 <= i < |row| => row[i].0 + ": " + row[i].1)
  }

  /** An Azure event's text: the row's lines joined by newlines. */
  function RowText(row: Row): string {
    Join(RowLines(row), "\n")
  }

  /** `row['Time']`: the value of the first column so named, None for a `KeyError`. */
  function Lookup(row: Row, key: string): (r: Option<string>)
    ensures r.None? <==> forall i :: 0 <= i < |row| ==> row[i].0 != key
    ensures r.Some? ==> exists i :: 0 <= i < |row| && row[i] == (key, r.value)
  {
    if row == [] then None
    else if row[0].0 == key then Some(row[0].1)
    else
      var rest := Lookup(row[1..], key);
      if rest.Some? then
        assert exists i :: 0 <= i < |row[1..]| && row[1..][i] == (key, rest.value);
        var i :| 0 <= i < |row[1..]| && row[1..][i] == (key, rest.value);
        assert row[i + 1] == (key, rest.value);
        rest
      else rest
  }

  /** In a dictionary the value found is the one stored under the key. */
  lemma LookupOfDistinct(row: Row, i: int)
    requires DistinctColumns(row) && 0 <= i < |row|
    ensures Lookup(row, row[i].0) == Some(row[i].1)
  {
    var r := Lookup(row, row[i].0);
    assert r.Some?;
    var j :| 0 <= j < |row| && row[j] == (row[i].0, r.value);
    assert j == i;
  }

  /** When no column name or value holds a newline, the text cuts back into one line per column. */
  lemma RowTextLines(row: Row)
    requires |row| >= 1
    requires forall i :: 0 <= i < |row| ==> '\n' !in row[i].0 && '\n' !in row[i].1
    ensures Split(RowText(row), "\n") == RowLines(row)
  {
    var lines := RowLines(row);
    forall i | 0 <= i < |lines|
      ensures '\n' !in lines[i]
    {
      assert forall c :: c in lines[i] ==> c in row[i].0 || c in ": " || c in row[i].1;
    }
    SplitJoin(lines, '\n');
  }

  /** How many rows, from the first, have a `Time` column. */
  function RowsWithTime(rows: seq<Row>): (n: nat)
    ensures n <= |rows|
    ensures forall i :: 0 <= i < n ==> Lookup(rows[i], "Time").Some?
    ensures n < |rows| ==> Lookup(rows[n], "Time").None?
  {
    if rows == [] || Lookup(rows[0], "Time").None? then 0 else 1 + RowsWithTime(rows[1..])
  }

  lemma RowsWithTimeStops(rows: seq<Row>, i: int)
    requires 0 <= i <= RowsWithTime(rows) && i < |rows| && Lookup(rows[i], "Time").None?
    ensures i == RowsWithTime(rows)
  {
  }

  lemma RowsWithTimeGoesOn(rows: seq<Row>, i: int)
    requires 0 <= i <= RowsWithTime(rows) && i < |rows| && Lookup(rows[i], "Time").Some?
    ensures i < RowsWithTime(rows)
  {
  }

  /** The events the rows become, each timestamped by its `Time` column and carrying its whole text. */
  function CsvEvents(rows: seq<Row>, id: int, parseTime: string -> int): (r: seq<Event>)
    requires forall i :: 0 <= i < |rows| ==> Lookup(rows[i], "Time").Some?
    ensures |r| == |rows|
    ensures forall i :: 0 <= i < |rows| ==> r[i] == Event(parseTime(Lookup(rows[i], "Time").value), id, RowText(rows[i]))
  {
    seq(|rows|, i requires 0 <= i < |rows| => Event(parseTime(Lookup(rows[i], "Time").value), id, RowText(rows[i])))
  }

  /**
   * `Source.sync`: look the importer up by the source's type and sync it; an unknown type is
   * refused before anything is touched.
   */
  method SyncSource(source: SourceRecord, store: EventStore, fetched: seq<(string, int)>, now: int)
    returns (r: Result<ImporterKind>)
    modifies source, store
    ensures r == GetImporter(source.info.sourceType)
    ensures r.Failure? ==> store.rows == old(store.rows) && source.lastSync == old(source.lastSync)
    ensures r.Success? ==> source.lastSync == Some(now)
    ensures r.Success?
      ==> store.rows == InsertAll(old(store.rows), if Fetches(r.value) then SavedEvents(fetched, source.info.id) else [])
  {
    r := GetImporter(source.info.sourceType);
    if r.Success? {
      var importer := new Importer(r.value, source);
      importer.Sync(store, fetched, now);
      assert [] + (if Fetches(r.value) then SavedEvents(fetched, source.info.id) else [])
          == (if Fetches(r.value) then SavedEvents(fetched, source.info.id) else []);
    }
  }
}
