/** The relational store the tasks write to, and the effect of each task on it. Each table is a
    field of `Database` that the task methods reassign; what a statement computes is the pure
    function of the module that models it. */
module Warehouse {
  import opened Rows
  import opened Records
  import opened FetchAndImport
  import OperatingPeriods
  import PeriodMetricsAggregation

  class Database {
    var vehicleUpdates: seq<VehicleUpdate>
    var vehicleRegistrations: seq<Registration>
    var operatingPeriods: seq<OperatingPeriod>
    var operatingPeriodMetrics: seq<PeriodMetrics>

    /** `operating_period_metrics` has one row per `operating_period` key. */
    ghost predicate Valid()
      reads this
    {
      PeriodMetricsAggregation.DistinctKeys(operatingPeriodMetrics)
    }

    /** The three tables the import appends to. */
    function Imported(): Inserted
      reads this
    {
      Inserted(vehicleUpdates, vehicleRegistrations, operatingPeriods)
    }

    /** The tables as `ensure_table_creation` leaves them on a fresh database: empty. */
    constructor ()
      ensures Valid()
      ensures vehicleUpdates == [] && vehicleRegistrations == [] && operatingPeriods == []
      ensures operatingPeriodMetrics == []
    {
      vehicleUpdates, vehicleRegistrations, operatingPeriods := [], [], [];
      operatingPeriodMetrics := [];
    }

    /** One turn of the loop of `import_json_to_psql`: the record's (`on`, `event`) pair picks the
        table, and the row built from its keys is inserted; `ok` is false when a key it reads is
        missing, and then nothing is inserted. */
    method InsertRecord(obj: Record, c: Id) returns (ok: bool)
      modifies this
      ensures ok <==> !Route(obj, c).MissingField?
      ensures Imported() == Append(old(Imported()), RowsOf(Route(obj, c)))
      ensures operatingPeriodMetrics == old(operatingPeriodMetrics)
    {
      var on, event := obj.on, obj.event;
      if on == Some("vehicle") && event == Some("update") {
        var row := UpdateOf(obj, c);
        if row.None? {
          return false;
        }
        vehicleUpdates := vehicleUpdates + [row.value];
      } else if on == Some("vehicle") && (event == Some("register") || event == Some("deregister")) {
        var row := RegistrationOf(obj, c);
        if row.None? {
          return false;
        }
        vehicleRegistrations := vehicleRegistrations + [row.value];
      } else if on == Some("operating_period") && (event == Some("create") || event == Some("delete")) {
        var row := PeriodOf(obj, c);
        if row.None? {
          return false;
        }
        operatingPeriods := operatingPeriods + [row.value];
      }
      return true;
    }

    /** `import_json_to_psql` for one file's records. The records are inserted one by one; a
        recognised record that lacks a key it reads raises, and the rows inserted before it stay,
        since the connection commits on exit whatever happened. `ok` is false when it raised. */
    method ImportJsonToPsql(records: seq<Record>, c: Id) returns (ok: bool)
      requires Valid()
      modifies this
      ensures Valid()
      ensures ok <==> FirstMissing(records, c) == |records|
      ensures Imported() == Append(old(Imported()), InsertedRows(records[..FirstMissing(records, c)], c))
      ensures operatingPeriodMetrics == old(operatingPeriodMetrics)
    {
      var i := 0;
      while i < |records|
        invariant 0 <= i <= |records|
        invariant i <= FirstMissing(records, c)
        invariant Imported() == Append(old(Imported()), InsertedRows(records[..i], c))
        invariant operatingPeriodMetrics == old(operatingPeriodMetrics)
      {
        ghost var before := Imported();
        var inserted := InsertRecord(records[i], c);
        if !inserted {
          FirstMissingUnique(records, c, i);
          assert Imported() == before by {
            assert RowsOf(Route(records[i], c)) == Inserted([], [], []);
            assert before.updates + [] == before.updates;
            assert before.registrations + [] == before.registrations;
            assert before.periods + [] == before.periods;
          }
          return false;
        }
        InsertedRowsStep(records, i, c);
        AppendAssociative(old(Imported()), InsertedRows(records[..i], c), RowsOf(Route(records[i], c)));
        i := i + 1;
      }
      assert records[..i] == records;
      return true;
    }

    /** `fetch_and_import_to_psql`: the day's files of the data lake are imported in listing order
        through one connection; the first file that raises ends the task, and what was inserted
        up to that record stays. */
    method FetchAndImportToPsql(files: seq<seq<Record>>, c: Id) returns (ok: bool)
      requires Valid()
      modifies this
      ensures Valid()
      ensures var all := Flatten(files);
        && (ok <==> FirstMissing(all, c) == |all|)
        && Imported() == Append(old(Imported()), InsertedRows(all[..FirstMissing(all, c)], c))
      ensures operatingPeriodMetrics == old(operatingPeriodMetrics)
    {
      var k := 0;
      while k < |files|
        invariant 0 <= k <= |files|
        invariant Valid()
        invariant FirstMissing(Flatten(files[..k]), c) == |Flatten(files[..k])|
        invariant Imported() == Append(old(Imported()), InsertedRows(Flatten(files[..k]), c))
        invariant operatingPeriodMetrics == old(operatingPeriodMetrics)
      {
        ghost var done := Flatten(files[..k]);
        var fileOk := ImportJsonToPsql(files[k], c);
        FlattenStep(files, k);
        if !fileOk {
          FlattenSplit(files, k);
          FailingFileStep(old(Imported()), done, files[k], Flatten(files[k + 1..]), c, Imported());
          return false;
        }
        CleanFileStep(old(Imported()), done, files[k], c, Imported());
        k := k + 1;
      }
      assert files[..k] == files;
      assert Flatten(files)[..|Flatten(files)|] == Flatten(files);
      return true;
    }

    /** `calculate_operating_periods`: the INSERT ... SELECT appends one `operating_period` row per
        joined (register, deregister) pair; `uuids[j]` is the id `uuid_generate_v4()` draws for the
        j-th row. No other table and no existing row changes. */
    method CalculateOperatingPeriods(c: Id, uuids: seq<Id>)
      requires Valid()
      requires |uuids| == |OperatingPeriods.RegisterDeregisterPairs(vehicleRegistrations, c)|
      modifies this
      ensures Valid()
      ensures vehicleUpdates == old(vehicleUpdates) && vehicleRegistrations == old(vehicleRegistrations)
      ensures operatingPeriods == old(operatingPeriods) + OperatingPeriods.DerivedPeriods(vehicleRegistrations, c, uuids)
      ensures operatingPeriodMetrics == old(operatingPeriodMetrics)
    {
      operatingPeriods := operatingPeriods + OperatingPeriods.DerivedPeriods(vehicleRegistrations, c, uuids);
    }

    /** `calculate_operating_periods_metrics`: both upserts run in one transaction. When the run has
        two periods with the same id the first statement raises and the transaction is rolled
        back, so `ok` is false and the table is as it was; otherwise the table becomes what the two
        statements make of it, still with one row per key. */
    method CalculateOperatingPeriodsMetrics(c: Id, dist: Geodesic) returns (ok: bool)
      requires Valid()
      modifies this
      ensures Valid()
      ensures vehicleUpdates == old(vehicleUpdates) && vehicleRegistrations == old(vehicleRegistrations)
      ensures operatingPeriods == old(operatingPeriods)
      ensures ok <==> PeriodMetricsAggregation.RunIdsUnique(operatingPeriods, c)
      ensures var after := PeriodMetricsAggregation.MetricsAfter(old(operatingPeriodMetrics), operatingPeriods, vehicleUpdates, c, dist);
        ok ==> after.Some? && operatingPeriodMetrics == after.value
      ensures !ok ==> operatingPeriodMetrics == old(operatingPeriodMetrics)
    {
      PeriodMetricsAggregation.MetricsFailure(operatingPeriodMetrics, operatingPeriods, vehicleUpdates, c, dist);
      var after := PeriodMetricsAggregation.MetricsAfter(operatingPeriodMetrics, operatingPeriods, vehicleUpdates, c, dist);
      match after
      case None =>
        ok := false;
      case Some(t) =>
        operatingPeriodMetrics := t;
        ok := true;
    }

    /** The database stages of one daily run, in the order the schedule runs them: import of the
        day's files of the data lake, interval reconstruction, then metrics; a stage that fails
        stops the run. `drawIds(n)` is the `n` identifiers `uuid_generate_v4()` produces for a
        statement inserting `n` rows.
        - The import appends the rows of the day's records before the first that raises.
        - When the import succeeds, the derived periods follow the imported ones, and the metrics
          task then succeeds exactly when the run's period ids are distinct, leaving the table
          both statements make of it; on success every period of the run, including a period
          imported with a NULL vehicle, has one metrics row holding its elapsed time.
        - A failing stage leaves the metrics table as it was. */
    method DailyRun(files: seq<seq<Record>>, c: Id, drawIds: nat -> seq<Id>, dist: Geodesic) returns (ok: bool)
      requires Valid()
      requires forall n :: |drawIds(n)| == n
      modifies this
      ensures Valid()
      ensures var all := Flatten(files);
        var imported := Append(old(Imported()), InsertedRows(all[..FirstMissing(all, c)], c));
        && vehicleUpdates == imported.updates
        && vehicleRegistrations == imported.registrations
      ensures var all := Flatten(files);
        var imported := Append(old(Imported()), InsertedRows(all[..FirstMissing(all, c)], c));
        FirstMissing(all, c) < |all| ==>
          && !ok
          && operatingPeriods == imported.periods
          && operatingPeriodMetrics == old(operatingPeriodMetrics)
      ensures var all := Flatten(files);
        var imported := Append(old(Imported()), InsertedRows(all[..FirstMissing(all, c)], c));
        var pairs := OperatingPeriods.RegisterDeregisterPairs(imported.registrations, c);
        FirstMissing(all, c) == |all| ==>
          operatingPeriods == imported.periods + OperatingPeriods.DerivedPeriods(imported.registrations, c, drawIds(|pairs|))
      ensures var all := Flatten(files);
        FirstMissing(all, c) == |all| ==>
          && (ok <==> PeriodMetricsAggregation.RunIdsUnique(operatingPeriods, c))
          && (ok ==> PeriodMetricsAggregation.MetricsAfter(old(operatingPeriodMetrics), operatingPeriods, vehicleUpdates, c, dist)
                       == Some(operatingPeriodMetrics))
          && (!ok ==> operatingPeriodMetrics == old(operatingPeriodMetrics))
      ensures ok ==> forall i :: 0 <= i < |operatingPeriods| && PeriodMetricsAggregation.InRun(operatingPeriods[i], c) ==>
                var m := PeriodMetricsAggregation.Lookup(operatingPeriodMetrics, operatingPeriods[i].operatingPeriodId);
                m.Some? && m.value.timeElapsed == operatingPeriods[i].finish - operatingPeriods[i].start
    {
      ok := FetchAndImportToPsql(files, c);
      if !ok {
        return;
      }
      CalculateOperatingPeriods(c, drawIds(|OperatingPeriods.RegisterDeregisterPairs(vehicleRegistrations, c)|));
      ghost var before := operatingPeriodMetrics;
      ok := CalculateOperatingPeriodsMetrics(c, dist);
      if ok {
        forall i | 0 <= i < |operatingPeriods| && PeriodMetricsAggregation.InRun(operatingPeriods[i], c)
          ensures var m := PeriodMetricsAggregation.Lookup(operatingPeriodMetrics, operatingPeriods[i].operatingPeriodId);
                  m.Some? && m.value.timeElapsed == operatingPeriods[i].finish - operatingPeriods[i].start
        {
          PeriodMetricsAggregation.MetricsForPeriod(before, operatingPeriods, vehicleUpdates, c, dist, i);
        }
      }
    }
  }

  lemma FlattenStep(files: seq<seq<Record>>, k: nat)
    requires k < |files|
    ensures Flatten(files[..k + 1]) == Flatten(files[..k]) + files[k]
  {
    assert files[..k + 1][..k] == files[..k];
  }

  /** Splitting the files after the k-th one. */
  lemma {:induction false} FlattenSplit(files: seq<seq<Record>>, k: nat)
    requires k < |files|
    ensures Flatten(files) == Flatten(files[..k]) + files[k] + Flatten(files[k + 1..])
  {
    if k + 1 == |files| {
      assert files[..|files| - 1] == files[..k];
      assert files[k + 1..] == [];
    } else {
      var front := files[..|files| - 1];
      FlattenSplit(front, k);
      assert front[..k] == files[..k];
      assert front[k] == files[k];
      assert files[k + 1..] == front[k + 1..] + [files[|files| - 1]];
      assert files[k + 1..][..|files[k + 1..]| - 1] == front[k + 1..];
    }
  }
}
