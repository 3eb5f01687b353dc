/** Metrics aggregation (`calculate_operating_periods_metrics`): the LAG window over location
    samples, the SUM of the windowed distances per period, and the two upserts into
    `operating_period_metrics`, a table with one row per `operating_period`. */
module PeriodMetricsAggregation {
  import opened Rows

  // ---------------------------------------------------------------------------------------------
  // LAG over each (vehicle, correlation id) partition of all samples, ordered by location time

  predicate SamePartition(a: VehicleUpdate, b: VehicleUpdate)
  {
    a.vehicleId == b.vehicleId && a.correlationId == b.correlationId
  }

  /** The window order: by `location_time`; samples with equal times are taken in table order,
      one of the orders SQL may choose. */
  predicate WindowLess(us: seq<VehicleUpdate>, j: nat, i: nat)
    requires j < |us| && i < |us|
  {
    us[j].locationTime < us[i].locationTime || (us[j].locationTime == us[i].locationTime && j < i)
  }

  /** `us[j]` comes before `us[i]` in the window partition of `us[i]`. */
  predicate Precedes(us: seq<VehicleUpdate>, j: int, i: nat)
    requires i < |us|
  {
    0 <= j < |us| && SamePartition(us[j], us[i]) && WindowLess(us, j, i)
  }

  /** `us[j]` is the row LAG returns for `us[i]`: the last one before it in its partition. */
  predicate IsLag(us: seq<VehicleUpdate>, j: int, i: nat)
    requires i < |us|
  {
    Precedes(us, j, i) && forall k :: 0 <= k < |us| && Precedes(us, k, i) ==> k == j || WindowLess(us, k, j)
  }

  /** The latest sample among `us[..n]` that precedes `us[i]` in its partition. */
  function LagAmong(us: seq<VehicleUpdate>, i: nat, n: nat): (p: Option<nat>)
    requires i < |us| && n <= |us|
    ensures p.Some? ==> p.value < n
  {
    if n == 0 then None
    else
      var best := LagAmong(us, i, n - 1);
      if Precedes(us, n - 1, i) && (best.None? || WindowLess(us, best.value, n - 1)) then Some(n - 1)
      else best
  }

  /** `LagAmong` finds the window maximum among the predecessors in `us[..n]`, and finds none
      exactly when there is none. */
  lemma {:induction false} LagAmongSpec(us: seq<VehicleUpdate>, i: nat, n: nat)
    requires i < |us| && n <= |us|
    ensures var p := LagAmong(us, i, n);
      && (p.Some? ==> p.value < n && Precedes(us, p.value, i))
      && (p.Some? ==> forall k :: 0 <= k < n && Precedes(us, k, i) ==> k == p.value || WindowLess(us, k, p.value))
      && (p.None? ==> forall k :: 0 <= k < n ==> !Precedes(us, k, i))
  {
    if n > 0 {
      LagAmongSpec(us, i, n - 1);
    }
  }

  function PointOf(v: VehicleUpdate): Point
  {
    Point(v.longitude, v.latitude)
  }

  /** The `distance` column of the windowed subquery for sample `us[i]`: ST_Distance from the
      sample to its LAG, NULL for the first sample of its (vehicle, correlation id) partition. */
  function LagDistance(us: seq<VehicleUpdate>, i: nat, dist: Geodesic): Option<Meters>
    requires i < |us|
  {
    match LagAmong(us, i, |us|)
    case None => None
    case Some(j) => Some(dist(PointOf(us[i]), PointOf(us[j])))
  }

  /** The windowed distance is NULL exactly for a sample without predecessor in its partition,
      and is otherwise the distance to the sample LAG designates. */
  lemma LagDistanceSpec(us: seq<VehicleUpdate>, i: nat, dist: Geodesic)
    requires i < |us|
    ensures LagDistance(us, i, dist).None? <==> forall k :: 0 <= k < |us| ==> !Precedes(us, k, i)
    ensures LagDistance(us, i, dist).Some? ==>
              exists j :: IsLag(us, j, i) && LagDistance(us, i, dist).value == dist(PointOf(us[i]), PointOf(us[j]))
  {
    LagAmongSpec(us, i, |us|);
  }

  // ---------------------------------------------------------------------------------------------
  // The join of periods with samples, and SUM

  /** The ON clause: same vehicle (a NULL vehicle matches nothing), same correlation id, and
      `location_time BETWEEN start AND finish`, both bounds included. */
  predicate InPeriod(o: OperatingPeriod, v: VehicleUpdate)
  {
    && o.vehicleId == Some(v.vehicleId)
    && o.start <= v.locationTime <= o.finish
    && o.correlationId == v.correlationId
  }

  /** The windowed distances of the samples among `us[..n]` that join period `o`, in table order. */
  function MatchedAmong(o: OperatingPeriod, us: seq<VehicleUpdate>, dist: Geodesic, n: nat): seq<Option<Meters>>
    requires n <= |us|
  {
    if n == 0 then []
    else
      MatchedAmong(o, us, dist, n - 1)
      + (if InPeriod(o, us[n - 1]) then [LagDistance(us, n - 1, dist)] else [])
  }

  /** The positions among `us[..n]` of the samples that join period `o`: increasing, each in the
      period, and every sample of the period among them. */
  function PeriodSamples(o: OperatingPeriod, us: seq<VehicleUpdate>, n: nat): (idx: seq<nat>)
    requires n <= |us|
    ensures forall j :: 0 <= j < |idx| ==> idx[j] < n && InPeriod(o, us[idx[j]])
    ensures forall j, j' :: 0 <= j < j' < |idx| ==> idx[j] < idx[j']
    ensures forall i :: 0 <= i < n && InPeriod(o, us[i]) ==> i in idx
  {
    if n == 0 then []
    else PeriodSamples(o, us, n - 1) + (if InPeriod(o, us[n - 1]) then [n - 1] else [])
  }

  /** The join lists, for each sample of the period in table order and exactly once, its windowed
      distance. */
  lemma {:induction false} MatchedAmongPositional(o: OperatingPeriod, us: seq<VehicleUpdate>, dist: Geodesic, n: nat)
    requires n <= |us|
    ensures |MatchedAmong(o, us, dist, n)| == |PeriodSamples(o, us, n)|
    ensures forall j :: 0 <= j < |PeriodSamples(o, us, n)| ==>
              MatchedAmong(o, us, dist, n)[j] == LagDistance(us, PeriodSamples(o, us, n)[j], dist)
  {
    if n > 0 {
      MatchedAmongPositional(o, us, dist, n - 1);
    }
  }

  /** The windowed distances of the samples that join period `o`, in table order. */
  function MatchedDistances(o: OperatingPeriod, us: seq<VehicleUpdate>, dist: Geodesic): seq<Option<Meters>>
  {
    MatchedAmong(o, us, dist, |us|)
  }

  /** The values SUM aggregates for a period: one per sample of the period, in table order, each
      that sample's windowed distance. */
  lemma MatchedDistancesPositional(o: OperatingPeriod, us: seq<VehicleUpdate>, dist: Geodesic)
    ensures var idx, ds := PeriodSamples(o, us, |us|), MatchedDistances(o, us, dist);
      && |ds| == |idx|
      && forall j :: 0 <= j < |idx| ==> ds[j] == LagDistance(us, idx[j], dist)
  {
    MatchedAmongPositional(o, us, dist, |us|);
  }

  /** The join gives no row exactly when no sample is in the period, and each row it gives is the
      windowed distance of a sample in the period. */
  lemma {:induction false} MatchedAmongSpec(o: OperatingPeriod, us: seq<VehicleUpdate>, dist: Geodesic, n: nat)
    requires n <= |us|
    ensures |MatchedAmong(o, us, dist, n)| == 0 <==> forall i :: 0 <= i < n ==> !InPeriod(o, us[i])
    ensures forall x :: x in MatchedAmong(o, us, dist, n) ==>
              exists i :: 0 <= i < n && InPeriod(o, us[i]) && x == LagDistance(us, i, dist)
  {
    if n > 0 {
      MatchedAmongSpec(o, us, dist, n - 1);
    }
  }

  /** The non-NULL values, in order. */
  function NonNull(ds: seq<Option<Meters>>): seq<Meters>
  {
    if ds == [] then []
    else NonNull(ds[..|ds| - 1]) + (if ds[|ds| - 1].Some? then [ds[|ds| - 1].value] else [])
  }

  function Total(xs: seq<Meters>): Meters
  {
    if xs == [] then 0.0 else Total(xs[..|xs| - 1]) + xs[|xs| - 1]
  }

  /** SQL SUM as the aggregate runs it: NULL inputs are skipped and the state stays NULL until the
      first non-NULL input. */
  function SqlSum(ds: seq<Option<Meters>>): Option<Meters>
  {
    if ds == [] then None
    else
      match ds[|ds| - 1]
      case None => SqlSum(ds[..|ds| - 1])
      case Some(v) =>
        match SqlSum(ds[..|ds| - 1])
        case None => Some(v)
        case Some(a) => Some(a + v)
  }

  /** SUM is NULL exactly when every input is NULL, and is otherwise the total of the non-NULL
      inputs. */
  lemma {:induction false} SqlSumSpec(ds: seq<Option<Meters>>)
    ensures SqlSum(ds).None? <==> forall k :: 0 <= k < |ds| ==> ds[k].None?
    ensures SqlSum(ds).Some? ==> SqlSum(ds).value == Total(NonNull(ds))
    ensures NonNull(ds) == [] <==> forall k :: 0 <= k < |ds| ==> ds[k].None?
  {
    if ds != [] {
      var front, x := ds[..|ds| - 1], ds[|ds| - 1];
      SqlSumSpec(front);
      assert NonNull(ds) == NonNull(front) + (if x.Some? then [x.value] else []);
      assert forall k :: 0 <= k < |front| ==> ds[k] == front[k];
      if x.Some? {
        var xs := NonNull(ds);
        assert xs[..|xs| - 1] == NonNull(front) && xs[|xs| - 1] == x.value;
        assert Total(xs) == Total(NonNull(front)) + x.value;
        if SqlSum(front).None? {
          assert NonNull(front) == [];
        }
      } else {
        assert NonNull(ds) == NonNull(front);
      }
    }
  }

  // ---------------------------------------------------------------------------------------------
  // The metrics table and INSERT ... ON CONFLICT (operating_period) DO UPDATE

  /** At most one row per key: the unique constraint that ON CONFLICT relies on. */
  predicate DistinctKeys(t: seq<PeriodMetrics>)
  {
    forall i, j :: 0 <= i < j < |t| ==> t[i].operatingPeriod != t[j].operatingPeriod
  }

  /** The position of the first row with key `k`. */
  function KeyIndex(t: seq<PeriodMetrics>, k: Id): (r: Option<nat>)
    ensures r.Some? ==> r.value < |t| && t[r.value].operatingPeriod == k
    ensures r.Some? ==> forall j :: 0 <= j < r.value ==> t[j].operatingPeriod != k
    ensures r.None? ==> forall j :: 0 <= j < |t| ==> t[j].operatingPeriod != k
  {
    if t == [] then None
    else match KeyIndex(t[..|t| - 1], k)
      case Some(i) => Some(i)
      case None => if t[|t| - 1].operatingPeriod == k then Some(|t| - 1) else None
  }

  /** The row with key `k`, if any. */
  function Lookup(t: seq<PeriodMetrics>, k: Id): (r: Option<PeriodMetrics>)
    ensures r.Some? ==> r.value in t && r.value.operatingPeriod == k
    ensures r.None? <==> forall j :: 0 <= j < |t| ==> t[j].operatingPeriod != k
  {
    match KeyIndex(t, k)
    case Some(i) => Some(t[i])
    case None => None
  }

  /** The column a statement's DO UPDATE SET clause writes from EXCLUDED. */
  datatype Column = TimeElapsedColumn | DistanceTravelledColumn

  function Overwrite(existing: PeriodMetrics, excluded: PeriodMetrics, col: Column): PeriodMetrics
  {
    match col
    case TimeElapsedColumn => existing.(timeElapsed := excluded.timeElapsed)
    case DistanceTravelledColumn => existing.(distanceTravelled := excluded.distanceTravelled)
  }

  /** The row for a key after one proposed row `x` is inserted or merged into what was there. */
  function Merged(existing: Option<PeriodMetrics>, x: PeriodMetrics, col: Column): PeriodMetrics
  {
    match existing
    case None => x
    case Some(e) => Overwrite(e, x, col)
  }

  /** One proposed row: update the conflicting row in place, or append it. */
  function ApplyRow(t: seq<PeriodMetrics>, x: PeriodMetrics, col: Column): seq<PeriodMetrics>
  {
    match KeyIndex(t, x.operatingPeriod)
    case Some(i) => t[i := Overwrite(t[i], x, col)]
    case None => t + [x]
  }

  function ApplyRows(t: seq<PeriodMetrics>, b: seq<PeriodMetrics>, col: Column): seq<PeriodMetrics>
  {
    if b == [] then t else ApplyRow(ApplyRows(t, b[..|b| - 1], col), b[|b| - 1], col)
  }

  /** The statement: PostgreSQL raises ("ON CONFLICT DO UPDATE command cannot affect row a second
      time") when two proposed rows share a key, and then changes nothing. */
  function Upsert(t: seq<PeriodMetrics>, b: seq<PeriodMetrics>, col: Column): Option<seq<PeriodMetrics>>
  {
    if DistinctKeys(b) then Some(ApplyRows(t, b, col)) else None
  }

  lemma LookupSnoc(t: seq<PeriodMetrics>, x: PeriodMetrics, k: Id)
    ensures Lookup(t + [x], k) == if Lookup(t, k).Some? then Lookup(t, k)
                                  else if x.operatingPeriod == k then Some(x) else None
    ensures DistinctKeys(t + [x]) <==> DistinctKeys(t) && Lookup(t, x.operatingPeriod).None?
  {
    var t' := t + [x];
    assert t'[..|t|] == t;
    assert forall j :: 0 <= j < |t| ==> t'[j] == t[j];
    if DistinctKeys(t') {
      forall j | 0 <= j < |t| ensures t[j].operatingPeriod != x.operatingPeriod {
        assert t'[j].operatingPeriod != t'[|t|].operatingPeriod;
      }
    }
  }

  /** In a table with distinct keys, the row found for a key is the one holding it. */
  lemma LookupUnique(t: seq<PeriodMetrics>, j: nat)
    requires DistinctKeys(t) && j < |t|
    ensures Lookup(t, t[j].operatingPeriod) == Some(t[j])
  {
  }

  lemma ApplyRowLookup(t: seq<PeriodMetrics>, x: PeriodMetrics, col: Column, k: Id)
    requires DistinctKeys(t)
    ensures DistinctKeys(ApplyRow(t, x, col))
    ensures Lookup(ApplyRow(t, x, col), k)
         == if k == x.operatingPeriod then Some(Merged(Lookup(t, k), x, col)) else Lookup(t, k)
  {
    var t' := ApplyRow(t, x, col);
    match KeyIndex(t, x.operatingPeriod)
    case Some(i) =>
      assert forall j :: 0 <= j < |t| ==> t'[j].operatingPeriod == t[j].operatingPeriod;
      LookupUnique(t', i);
      LookupUnique(t, i);
      if k != x.operatingPeriod && Lookup(t, k).Some? {
        var j := KeyIndex(t, k).value;
        LookupUnique(t', j);
      }
    case None =>
      LookupSnoc(t, x, k);
  }

  /** The upsert, key by key: a key of the batch gets its proposed row when it was absent and the
      existing row with only `col` overwritten when present; every other key keeps its row; and the
      table still has at most one row per key. */
  lemma {:induction false} ApplyRowsLookup(t: seq<PeriodMetrics>, b: seq<PeriodMetrics>, col: Column, k: Id)
    requires DistinctKeys(t) && DistinctKeys(b)
    ensures DistinctKeys(ApplyRows(t, b, col))
    ensures Lookup(ApplyRows(t, b, col), k)
         == match Lookup(b, k)
            case None => Lookup(t, k)
            case Some(x) => Some(Merged(Lookup(t, k), x, col))
  {
    if b != [] {
      var front, x := b[..|b| - 1], b[|b| - 1];
      assert b == front + [x];
      ApplyRowsLookup(t, front, col, k);
      ApplyRowsLookup(t, front, col, x.operatingPeriod);
      LookupSnoc(front, x, k);
      ApplyRowLookup(ApplyRows(t, front, col), x, col, k);
    }
  }

  // ---------------------------------------------------------------------------------------------
  // The rows the two SELECTs propose

  /** `WHERE correlation_id = c`. */
  predicate InRun(o: OperatingPeriod, c: Id)
  {
    o.correlationId == c
  }

  /** No period of the run has id `k`. */
  predicate NoRunPeriodWith(ps: seq<OperatingPeriod>, c: Id, k: Id)
  {
    forall i :: 0 <= i < |ps| && InRun(ps[i], c) ==> ps[i].operatingPeriodId != k
  }

  /** The periods of the run have pairwise distinct ids. */
  predicate RunIdsUnique(ps: seq<OperatingPeriod>, c: Id)
  {
    forall i, j :: 0 <= i < j < |ps| && InRun(ps[i], c) && InRun(ps[j], c) ==> ps[i].operatingPeriodId != ps[j].operatingPeriodId
  }

  /** The proposed rows of a SELECT over the run's periods, one per period that `row` gives one for. */
  function RunRows(ps: seq<OperatingPeriod>, c: Id, row: OperatingPeriod -> Option<PeriodMetrics>): seq<PeriodMetrics>
  {
    if ps == [] then []
    else
      var o := ps[|ps| - 1];
      RunRows(ps[..|ps| - 1], c, row) + (if InRun(o, c) && row(o).Some? then [row(o).value] else [])
  }

  /** First statement: `(operating_period_id, age(finish, start), correlation_id)`; the
      distance column is not listed and is NULL in a new row. */
  function TimeElapsedRow(o: OperatingPeriod): Option<PeriodMetrics>
  {
    Some(PeriodMetrics(o.operatingPeriodId, o.finish - o.start, None, o.correlationId))
  }

  /** Second statement: a period joined with at least one sample yields
      `(operating_period_id, age(finish, start), sum(distance), correlation_id)`; a period
      joined with none is absent from the inner join. */
  function DistanceRow(o: OperatingPeriod, us: seq<VehicleUpdate>, dist: Geodesic): Option<PeriodMetrics>
  {
    var ds := MatchedDistances(o, us, dist);
    if ds == [] then None
    else Some(PeriodMetrics(o.operatingPeriodId, o.finish - o.start, SqlSum(ds), o.correlationId))
  }

  function TimeElapsedRows(ps: seq<OperatingPeriod>, c: Id): seq<PeriodMetrics>
  {
    RunRows(ps, c, o => TimeElapsedRow(o))
  }

  function DistanceRows(ps: seq<OperatingPeriod>, c: Id, us: seq<VehicleUpdate>, dist: Geodesic): seq<PeriodMetrics>
  {
    RunRows(ps, c, o => DistanceRow(o, us, dist))
  }

  /** Appending a period of the run appends its proposed row, in table order. */
  lemma TimeElapsedRowsSnoc(ps: seq<OperatingPeriod>, o: OperatingPeriod, c: Id)
    ensures TimeElapsedRows(ps + [o], c)
         == TimeElapsedRows(ps, c) + if InRun(o, c) then [PeriodMetrics(o.operatingPeriodId, o.finish - o.start, None, o.correlationId)] else []
  {
    assert (ps + [o])[..|ps|] == ps;
  }

  lemma DistanceRowsSnoc(ps: seq<OperatingPeriod>, o: OperatingPeriod, c: Id, us: seq<VehicleUpdate>, dist: Geodesic)
    ensures DistanceRows(ps + [o], c, us, dist)
         == DistanceRows(ps, c, us, dist) + if InRun(o, c) && DistanceRow(o, us, dist).Some? then [DistanceRow(o, us, dist).value] else []
  {
    assert (ps + [o])[..|ps|] == ps;
  }

  /** Every row `row` proposes for a period carries the period's id as its key. */
  ghost predicate KeyedByPeriod(row: OperatingPeriod -> Option<PeriodMetrics>)
  {
    forall o :: row(o).Some? ==> row(o).value.operatingPeriod == o.operatingPeriodId
  }

  /** A SELECT over the run's periods proposes no row for a key that is no id of the run. */
  lemma {:induction false} RunRowsAbsent(ps: seq<OperatingPeriod>, c: Id, row: OperatingPeriod -> Option<PeriodMetrics>, k: Id)
    requires KeyedByPeriod(row)
    requires NoRunPeriodWith(ps, c, k)
    ensures Lookup(RunRows(ps, c, row), k).None?
  {
    if ps != [] {
      var front, o := ps[..|ps| - 1], ps[|ps| - 1];
      assert ps == front + [o];
      assert NoRunPeriodWith(front, c, k);
      RunRowsAbsent(front, c, row, k);
      if InRun(o, c) && row(o).Some? {
        LookupSnoc(RunRows(front, c, row), row(o).value, k);
      }
    }
  }

  /** When `row` gives a row for every period, every id of the run is a key of the batch. */
  lemma {:induction false} RunRowsPresent(ps: seq<OperatingPeriod>, c: Id, row: OperatingPeriod -> Option<PeriodMetrics>, k: Id)
    requires KeyedByPeriod(row)
    requires forall o :: row(o).Some?
    requires Lookup(RunRows(ps, c, row), k).None?
    ensures NoRunPeriodWith(ps, c, k)
  {
    if ps != [] {
      var front, o := ps[..|ps| - 1], ps[|ps| - 1];
      assert ps == front + [o];
      if InRun(o, c) {
        LookupSnoc(RunRows(front, c, row), row(o).value, k);
      } else {
        assert RunRows(ps, c, row) == RunRows(front, c, row);
      }
      RunRowsPresent(front, c, row, k);
      forall i | 0 <= i < |ps| && InRun(ps[i], c) ensures ps[i].operatingPeriodId != k {
        if i < |front| {
          assert ps[i] == front[i];
        }
      }
    }
  }

  /** The batch has one row per key when the run's period ids are distinct; when `row` gives a
      row for every period, only then. */
  lemma {:induction false} RunRowsDistinct(ps: seq<OperatingPeriod>, c: Id, row: OperatingPeriod -> Option<PeriodMetrics>)
    requires KeyedByPeriod(row)
    ensures RunIdsUnique(ps, c) ==> DistinctKeys(RunRows(ps, c, row))
    ensures (forall o :: row(o).Some?) && DistinctKeys(RunRows(ps, c, row)) ==> RunIdsUnique(ps, c)
  {
    if ps != [] {
      var front, o := ps[..|ps| - 1], ps[|ps| - 1];
      assert ps == front + [o];
      var rs := RunRows(front, c, row);
      RunRowsDistinct(front, c, row);
      assert RunIdsUnique(ps, c) ==> RunIdsUnique(front, c);
      if InRun(o, c) {
        assert RunIdsUnique(ps, c) <==> RunIdsUnique(front, c) && NoRunPeriodWith(front, c, o.operatingPeriodId);
        if NoRunPeriodWith(front, c, o.operatingPeriodId) {
          RunRowsAbsent(front, c, row, o.operatingPeriodId);
        }
        if row(o).Some? {
          LookupSnoc(rs, row(o).value, o.operatingPeriodId);
          if (forall o' :: row(o').Some?) && Lookup(rs, o.operatingPeriodId).None? {
            RunRowsPresent(front, c, row, o.operatingPeriodId);
          }
        }
      } else {
        assert RunRows(ps, c, row) == rs;
        assert RunIdsUnique(ps, c) <==> RunIdsUnique(front, c);
      }
    }
  }

  /** With distinct run ids, the batch's row for a period of the run is the one `row` gives. */
  lemma {:induction false} RunRowsAt(ps: seq<OperatingPeriod>, c: Id, row: OperatingPeriod -> Option<PeriodMetrics>, i: nat)
    requires KeyedByPeriod(row)
    requires RunIdsUnique(ps, c)
    requires i < |ps| && InRun(ps[i], c)
    ensures Lookup(RunRows(ps, c, row), ps[i].operatingPeriodId) == row(ps[i])
  {
    var front, o := ps[..|ps| - 1], ps[|ps| - 1];
    assert ps == front + [o];
    var rs := RunRows(front, c, row);
    var k := ps[i].operatingPeriodId;
    assert RunIdsUnique(front, c);
    if i == |ps| - 1 {
      assert NoRunPeriodWith(front, c, k);
      RunRowsAbsent(front, c, row, k);
      if row(o).Some? {
        LookupSnoc(rs, row(o).value, k);
      } else {
        assert RunRows(ps, c, row) == rs;
      }
    } else {
      assert front[i] == ps[i];
      RunRowsAt(front, c, row, i);
      if InRun(o, c) && row(o).Some? {
        assert o.operatingPeriodId != k;
        LookupSnoc(rs, row(o).value, k);
      } else {
        assert RunRows(ps, c, row) == rs;
      }
    }
  }

  // ---------------------------------------------------------------------------------------------
  // The two statements, in one transaction

  /** Both statements in order; `None` when one of them raises, and then the transaction is
      rolled back and the table is as it was. */
  function MetricsAfter(t: seq<PeriodMetrics>, ps: seq<OperatingPeriod>, us: seq<VehicleUpdate>, c: Id, dist: Geodesic): Option<seq<PeriodMetrics>>
  {
    match Upsert(t, TimeElapsedRows(ps, c), TimeElapsedColumn)
    case None => None
    case Some(t1) => Upsert(t1, DistanceRows(ps, c, us, dist), DistanceTravelledColumn)
  }

  /** The metrics row a period of the run ends with, given the row `t` held for it before. */
  function ExpectedMetrics(t: seq<PeriodMetrics>, o: OperatingPeriod, us: seq<VehicleUpdate>, dist: Geodesic): PeriodMetrics
  {
    var ds := MatchedDistances(o, us, dist);
    match Lookup(t, o.operatingPeriodId)
    case None =>
      PeriodMetrics(o.operatingPeriodId, o.finish - o.start, if ds == [] then None else SqlSum(ds), o.correlationId)
    case Some(e) =>
      PeriodMetrics(e.operatingPeriod, o.finish - o.start, if ds == [] then e.distanceTravelled else SqlSum(ds), e.correlationId)
  }

  /** The first statement fails exactly when two periods of the run share an id. */
  lemma TimeElapsedFailure(t: seq<PeriodMetrics>, ps: seq<OperatingPeriod>, c: Id)
    ensures Upsert(t, TimeElapsedRows(ps, c), TimeElapsedColumn).None? <==> !RunIdsUnique(ps, c)
  {
    RunRowsDistinct(ps, c, o => TimeElapsedRow(o));
  }

  /** The row the first SELECT proposes for a period of the run. */
  lemma TimeElapsedRowAt(ps: seq<OperatingPeriod>, c: Id, i: nat)
    requires RunIdsUnique(ps, c)
    requires i < |ps| && InRun(ps[i], c)
    ensures DistinctKeys(TimeElapsedRows(ps, c))
    ensures Lookup(TimeElapsedRows(ps, c), ps[i].operatingPeriodId) == TimeElapsedRow(ps[i])
  {
    RunRowsDistinct(ps, c, o => TimeElapsedRow(o));
    RunRowsAt(ps, c, o => TimeElapsedRow(o), i);
  }

  /** The first statement's batch proposes no row for a key that is no period id of the run. */
  lemma TimeElapsedRowAbsent(ps: seq<OperatingPeriod>, c: Id, k: Id)
    requires NoRunPeriodWith(ps, c, k)
    ensures Lookup(TimeElapsedRows(ps, c), k).None?
  {
    RunRowsAbsent(ps, c, o => TimeElapsedRow(o), k);
  }

  /** The first statement keeps one row per key. */
  lemma TimeElapsedKeys(t: seq<PeriodMetrics>, ps: seq<OperatingPeriod>, c: Id)
    requires DistinctKeys(t) && RunIdsUnique(ps, c)
    ensures DistinctKeys(TimeElapsedRows(ps, c))
    ensures DistinctKeys(ApplyRows(t, TimeElapsedRows(ps, c), TimeElapsedColumn))
  {
    RunRowsDistinct(ps, c, o => TimeElapsedRow(o));
    ApplyRowsLookup(t, TimeElapsedRows(ps, c), TimeElapsedColumn, "");
  }

  /** The first statement at one period of the run: its row afterwards has
      `time_elapsed = finish - start`, whatever its vehicle; a row that was there keeps its
      distance and its correlation id, a new row has a NULL distance. */
  lemma TimeElapsedAtPeriod(t: seq<PeriodMetrics>, ps: seq<OperatingPeriod>, c: Id, i: nat)
    requires DistinctKeys(t) && RunIdsUnique(ps, c)
    requires i < |ps| && InRun(ps[i], c)
    ensures Lookup(ApplyRows(t, TimeElapsedRows(ps, c), TimeElapsedColumn), ps[i].operatingPeriodId)
         == Some(match Lookup(t, ps[i].operatingPeriodId)
                 case None => PeriodMetrics(ps[i].operatingPeriodId, ps[i].finish - ps[i].start, None, ps[i].correlationId)
                 case Some(e) => e.(timeElapsed := ps[i].finish - ps[i].start))
  {
    TimeElapsedMergedAt(t, ps, c, i);
    TimeElapsedMerged(Lookup(t, ps[i].operatingPeriodId), ps[i]);
  }

  lemma TimeElapsedMergedAt(t: seq<PeriodMetrics>, ps: seq<OperatingPeriod>, c: Id, i: nat)
    requires DistinctKeys(t) && RunIdsUnique(ps, c)
    requires i < |ps| && InRun(ps[i], c)
    ensures Lookup(ApplyRows(t, TimeElapsedRows(ps, c), TimeElapsedColumn), ps[i].operatingPeriodId)
         == Some(Merged(Lookup(t, ps[i].operatingPeriodId), TimeElapsedRow(ps[i]).value, TimeElapsedColumn))
  {
    TimeElapsedRowAt(ps, c, i);
    ApplyRowsLookup(t, TimeElapsedRows(ps, c), TimeElapsedColumn, ps[i].operatingPeriodId);
  }

  /** Merging the first statement's proposed row into what was there. */
  lemma TimeElapsedMerged(e: Option<PeriodMetrics>, o: OperatingPeriod)
    ensures Merged(e, TimeElapsedRow(o).value, TimeElapsedColumn)
         == match e
            case None => PeriodMetrics(o.operatingPeriodId, o.finish - o.start, None, o.correlationId)
            case Some(x) => x.(timeElapsed := o.finish - o.start)
  {
  }

  /** The first statement leaves the row of a key that is no period id of the run alone. */
  lemma TimeElapsedOutsideRun(t: seq<PeriodMetrics>, ps: seq<OperatingPeriod>, c: Id, k: Id)
    requires DistinctKeys(t) && RunIdsUnique(ps, c)
    requires NoRunPeriodWith(ps, c, k)
    ensures Lookup(ApplyRows(t, TimeElapsedRows(ps, c), TimeElapsedColumn), k) == Lookup(t, k)
  {
    TimeElapsedKeys(t, ps, c);
    TimeElapsedRowAbsent(ps, c, k);
    ApplyRowsLookup(t, TimeElapsedRows(ps, c), TimeElapsedColumn, k);
  }

  /** The first statement on the whole table: it succeeds, keeps one row per key, sets the
      elapsed time of every period of the run and leaves every other key alone. */
  lemma TimeElapsedUpsert(t: seq<PeriodMetrics>, ps: seq<OperatingPeriod>, c: Id)
    requires DistinctKeys(t) && RunIdsUnique(ps, c)
    ensures Upsert(t, TimeElapsedRows(ps, c), TimeElapsedColumn).Some?
    ensures var t1 := Upsert(t, TimeElapsedRows(ps, c), TimeElapsedColumn).value;
      && DistinctKeys(t1)
      && (forall i :: 0 <= i < |ps| && InRun(ps[i], c) ==>
            Lookup(t1, ps[i].operatingPeriodId)
              == Some(match Lookup(t, ps[i].operatingPeriodId)
                      case None => PeriodMetrics(ps[i].operatingPeriodId, ps[i].finish - ps[i].start, None, ps[i].correlationId)
                      case Some(e) => e.(timeElapsed := ps[i].finish - ps[i].start)))
      && (forall k :: NoRunPeriodWith(ps, c, k) ==> Lookup(t1, k) == Lookup(t, k))
  {
    TimeElapsedKeys(t, ps, c);
    forall i | 0 <= i < |ps| && InRun(ps[i], c)
      ensures Lookup(ApplyRows(t, TimeElapsedRows(ps, c), TimeElapsedColumn), ps[i].operatingPeriodId)
           == Some(match Lookup(t, ps[i].operatingPeriodId)
                   case None => PeriodMetrics(ps[i].operatingPeriodId, ps[i].finish - ps[i].start, None, ps[i].correlationId)
                   case Some(e) => e.(timeElapsed := ps[i].finish - ps[i].start))
    {
      TimeElapsedAtPeriod(t, ps, c, i);
    }
    forall k | NoRunPeriodWith(ps, c, k)
      ensures Lookup(ApplyRows(t, TimeElapsedRows(ps, c), TimeElapsedColumn), k) == Lookup(t, k)
    {
      TimeElapsedOutsideRun(t, ps, c, k);
    }
  }

  /** The row the second SELECT proposes, if any, for a period of the run. */
  lemma DistanceRowAt(ps: seq<OperatingPeriod>, c: Id, us: seq<VehicleUpdate>, dist: Geodesic, i: nat)
    requires RunIdsUnique(ps, c)
    requires i < |ps| && InRun(ps[i], c)
    ensures DistinctKeys(DistanceRows(ps, c, us, dist))
    ensures Lookup(DistanceRows(ps, c, us, dist), ps[i].operatingPeriodId) == DistanceRow(ps[i], us, dist)
  {
    RunRowsDistinct(ps, c, o => DistanceRow(o, us, dist));
    RunRowsAt(ps, c, o => DistanceRow(o, us, dist), i);
  }

  /** The second statement's batch proposes no row for a key that is no period id of the run. */
  lemma DistanceRowAbsent(ps: seq<OperatingPeriod>, c: Id, us: seq<VehicleUpdate>, dist: Geodesic, k: Id)
    requires NoRunPeriodWith(ps, c, k)
    ensures Lookup(DistanceRows(ps, c, us, dist), k).None?
  {
    RunRowsAbsent(ps, c, o => DistanceRow(o, us, dist), k);
  }

  /** The second statement keeps one row per key. */
  lemma DistanceKeys(t1: seq<PeriodMetrics>, ps: seq<OperatingPeriod>, us: seq<VehicleUpdate>, c: Id, dist: Geodesic)
    requires DistinctKeys(t1) && RunIdsUnique(ps, c)
    ensures DistinctKeys(DistanceRows(ps, c, us, dist))
    ensures DistinctKeys(ApplyRows(t1, DistanceRows(ps, c, us, dist), DistanceTravelledColumn))
  {
    RunRowsDistinct(ps, c, o => DistanceRow(o, us, dist));
    ApplyRowsLookup(t1, DistanceRows(ps, c, us, dist), DistanceTravelledColumn, "");
  }

  /** The second statement at one period of the run: with a joined sample its row gets
      `distance_travelled = SUM(distance)` and nothing else of it changes; with no joined sample
      (always the case for a NULL vehicle) the row is as it was. */
  lemma DistanceAtPeriod(t1: seq<PeriodMetrics>, ps: seq<OperatingPeriod>, us: seq<VehicleUpdate>, c: Id, dist: Geodesic, i: nat)
    requires DistinctKeys(t1) && RunIdsUnique(ps, c)
    requires i < |ps| && InRun(ps[i], c)
    ensures var ds := MatchedDistances(ps[i], us, dist);
      Lookup(ApplyRows(t1, DistanceRows(ps, c, us, dist), DistanceTravelledColumn), ps[i].operatingPeriodId)
        == if ds == [] then Lookup(t1, ps[i].operatingPeriodId)
           else Some(match Lookup(t1, ps[i].operatingPeriodId)
                     case None => PeriodMetrics(ps[i].operatingPeriodId, ps[i].finish - ps[i].start, SqlSum(ds), ps[i].correlationId)
                     case Some(e) => e.(distanceTravelled := SqlSum(ds)))
  {
    DistanceMergedAt(t1, ps, us, c, dist, i);
    DistanceMerged(Lookup(t1, ps[i].operatingPeriodId), ps[i], us, dist);
  }

  lemma DistanceMergedAt(t1: seq<PeriodMetrics>, ps: seq<OperatingPeriod>, us: seq<VehicleUpdate>, c: Id, dist: Geodesic, i: nat)
    requires DistinctKeys(t1) && RunIdsUnique(ps, c)
    requires i < |ps| && InRun(ps[i], c)
    ensures Lookup(ApplyRows(t1, DistanceRows(ps, c, us, dist), DistanceTravelledColumn), ps[i].operatingPeriodId)
         == match DistanceRow(ps[i], us, dist)
            case None => Lookup(t1, ps[i].operatingPeriodId)
            case Some(x) => Some(Merged(Lookup(t1, ps[i].operatingPeriodId), x, DistanceTravelledColumn))
  {
    DistanceRowAt(ps, c, us, dist, i);
    ApplyRowsLookup(t1, DistanceRows(ps, c, us, dist), DistanceTravelledColumn, ps[i].operatingPeriodId);
  }

  /** Merging the second statement's proposed row, if any, into what was there. */
  lemma DistanceMerged(e: Option<PeriodMetrics>, o: OperatingPeriod, us: seq<VehicleUpdate>, dist: Geodesic)
    ensures var ds := MatchedDistances(o, us, dist);
      (match DistanceRow(o, us, dist)
       case None => e
       case Some(x) => Some(Merged(e, x, DistanceTravelledColumn)))
      == if ds == [] then e
         else Some(match e
                   case None => PeriodMetrics(o.operatingPeriodId, o.finish - o.start, SqlSum(ds), o.correlationId)
                   case Some(x) => x.(distanceTravelled := SqlSum(ds)))
  {
  }

  /** The second statement leaves the row of a key that is no period id of the run alone. */
  lemma DistanceOutsideRun(t1: seq<PeriodMetrics>, ps: seq<OperatingPeriod>, us: seq<VehicleUpdate>, c: Id, dist: Geodesic, k: Id)
    requires DistinctKeys(t1) && RunIdsUnique(ps, c)
    requires NoRunPeriodWith(ps, c, k)
    ensures Lookup(ApplyRows(t1, DistanceRows(ps, c, us, dist), DistanceTravelledColumn), k) == Lookup(t1, k)
  {
    DistanceKeys(t1, ps, us, c, dist);
    DistanceRowAbsent(ps, c, us, dist, k);
    ApplyRowsLookup(t1, DistanceRows(ps, c, us, dist), DistanceTravelledColumn, k);
  }

  /** The second statement on the whole table: it cannot fail once the first has succeeded. */
  lemma DistanceUpsert(t1: seq<PeriodMetrics>, ps: seq<OperatingPeriod>, us: seq<VehicleUpdate>, c: Id, dist: Geodesic)
    requires DistinctKeys(t1) && RunIdsUnique(ps, c)
    ensures Upsert(t1, DistanceRows(ps, c, us, dist), DistanceTravelledColumn).Some?
    ensures var t2 := Upsert(t1, DistanceRows(ps, c, us, dist), DistanceTravelledColumn).value;
      && DistinctKeys(t2)
      && (forall i :: 0 <= i < |ps| && InRun(ps[i], c) ==>
            var ds := MatchedDistances(ps[i], us, dist);
            Lookup(t2, ps[i].operatingPeriodId)
              == if ds == [] then Lookup(t1, ps[i].operatingPeriodId)
                 else Some(match Lookup(t1, ps[i].operatingPeriodId)
                           case None => PeriodMetrics(ps[i].operatingPeriodId, ps[i].finish - ps[i].start, SqlSum(ds), ps[i].correlationId)
                           case Some(e) => e.(distanceTravelled := SqlSum(ds))))
      && (forall k :: NoRunPeriodWith(ps, c, k) ==> Lookup(t2, k) == Lookup(t1, k))
  {
    DistanceKeys(t1, ps, us, c, dist);
    forall i | 0 <= i < |ps| && InRun(ps[i], c)
      ensures var ds := MatchedDistances(ps[i], us, dist);
        Lookup(ApplyRows(t1, DistanceRows(ps, c, us, dist), DistanceTravelledColumn), ps[i].operatingPeriodId)
          == if ds == [] then Lookup(t1, ps[i].operatingPeriodId)
             else Some(match Lookup(t1, ps[i].operatingPeriodId)
                       case None => PeriodMetrics(ps[i].operatingPeriodId, ps[i].finish - ps[i].start, SqlSum(ds), ps[i].correlationId)
                       case Some(e) => e.(distanceTravelled := SqlSum(ds)))
    {
      DistanceAtPeriod(t1, ps, us, c, dist, i);
    }
    forall k | NoRunPeriodWith(ps, c, k)
      ensures Lookup(ApplyRows(t1, DistanceRows(ps, c, us, dist), DistanceTravelledColumn), k) == Lookup(t1, k)
    {
      DistanceOutsideRun(t1, ps, us, c, dist, k);
    }
  }

  /** The task fails, and changes nothing, exactly when two periods of the run share an id. */
  lemma MetricsFailure(t: seq<PeriodMetrics>, ps: seq<OperatingPeriod>, us: seq<VehicleUpdate>, c: Id, dist: Geodesic)
    requires DistinctKeys(t)
    ensures MetricsAfter(t, ps, us, c, dist).None? <==> !RunIdsUnique(ps, c)
    ensures MetricsAfter(t, ps, us, c, dist).Some? ==> DistinctKeys(MetricsAfter(t, ps, us, c, dist).value)
  {
    TimeElapsedFailure(t, ps, c);
    if RunIdsUnique(ps, c) {
      TimeElapsedKeys(t, ps, c);
      DistanceKeys(ApplyRows(t, TimeElapsedRows(ps, c), TimeElapsedColumn), ps, us, c, dist);
    }
  }

  /** After both statements every period of the run has exactly one metrics row: the elapsed time
      of the period, the sum of its joined distances when it has joined samples (the previous
      distance, or NULL for a new row, when it has none), and the correlation id of the row that
      was there, or of the run for a new row. */
  lemma MetricsForPeriod(t: seq<PeriodMetrics>, ps: seq<OperatingPeriod>, us: seq<VehicleUpdate>, c: Id, dist: Geodesic, i: nat)
    requires DistinctKeys(t) && RunIdsUnique(ps, c)
    requires i < |ps| && InRun(ps[i], c)
    ensures MetricsAfter(t, ps, us, c, dist).Some?
    ensures Lookup(MetricsAfter(t, ps, us, c, dist).value, ps[i].operatingPeriodId) == Some(ExpectedMetrics(t, ps[i], us, dist))
  {
    MetricsAfterBoth(t, ps, us, c, dist);
    TimeElapsedAtPeriod(t, ps, c, i);
    SecondStatementAt(t, ApplyRows(t, TimeElapsedRows(ps, c), TimeElapsedColumn), ps, us, c, dist, i);
  }

  /** The second statement at a period whose row the first statement has just written. */
  lemma SecondStatementAt(t: seq<PeriodMetrics>, t1: seq<PeriodMetrics>, ps: seq<OperatingPeriod>, us: seq<VehicleUpdate>, c: Id, dist: Geodesic, i: nat)
    requires DistinctKeys(t1) && RunIdsUnique(ps, c)
    requires i < |ps| && InRun(ps[i], c)
    requires Lookup(t1, ps[i].operatingPeriodId)
          == Some(match Lookup(t, ps[i].operatingPeriodId)
                  case None => PeriodMetrics(ps[i].operatingPeriodId, ps[i].finish - ps[i].start, None, ps[i].correlationId)
                  case Some(e) => e.(timeElapsed := ps[i].finish - ps[i].start))
    ensures Lookup(ApplyRows(t1, DistanceRows(ps, c, us, dist), DistanceTravelledColumn), ps[i].operatingPeriodId)
         == Some(ExpectedMetrics(t, ps[i], us, dist))
  {
    var k := ps[i].operatingPeriodId;
    var l1, l2 := Lookup(t1, k), Lookup(ApplyRows(t1, DistanceRows(ps, c, us, dist), DistanceTravelledColumn), k);
    DistanceAtPeriod(t1, ps, us, c, dist, i);
    ExpectedAfterBoth(t, ps[i], us, dist, l1, l2);
  }

  /** With distinct run ids both statements succeed, one after the other. */
  lemma MetricsAfterBoth(t: seq<PeriodMetrics>, ps: seq<OperatingPeriod>, us: seq<VehicleUpdate>, c: Id, dist: Geodesic)
    requires DistinctKeys(t) && RunIdsUnique(ps, c)
    ensures DistinctKeys(ApplyRows(t, TimeElapsedRows(ps, c), TimeElapsedColumn))
    ensures MetricsAfter(t, ps, us, c, dist)
         == Some(ApplyRows(ApplyRows(t, TimeElapsedRows(ps, c), TimeElapsedColumn), DistanceRows(ps, c, us, dist), DistanceTravelledColumn))
  {
    TimeElapsedKeys(t, ps, c);
    DistanceKeys(ApplyRows(t, TimeElapsedRows(ps, c), TimeElapsedColumn), ps, us, c, dist);
  }

  /** The row after the first statement, `l1`, and after the second, `l2`, is the expected row. */
  lemma ExpectedAfterBoth(t: seq<PeriodMetrics>, o: OperatingPeriod, us: seq<VehicleUpdate>, dist: Geodesic,
                          l1: Option<PeriodMetrics>, l2: Option<PeriodMetrics>)
    requires l1 == Some(match Lookup(t, o.operatingPeriodId)
                        case None => PeriodMetrics(o.operatingPeriodId, o.finish - o.start, None, o.correlationId)
                        case Some(e) => e.(timeElapsed := o.finish - o.start))
    requires var ds := MatchedDistances(o, us, dist);
      l2 == if ds == [] then l1
            else Some(match l1
                      case None => PeriodMetrics(o.operatingPeriodId, o.finish - o.start, SqlSum(ds), o.correlationId)
                      case Some(e) => e.(distanceTravelled := SqlSum(ds)))
    ensures l2 == Some(ExpectedMetrics(t, o, us, dist))
  {
  }

  /** Rows of keys that are not ids of the run's periods are left alone. */
  lemma MetricsOutsideRun(t: seq<PeriodMetrics>, ps: seq<OperatingPeriod>, us: seq<VehicleUpdate>, c: Id, dist: Geodesic, k: Id)
    requires DistinctKeys(t) && RunIdsUnique(ps, c)
    requires NoRunPeriodWith(ps, c, k)
    ensures MetricsAfter(t, ps, us, c, dist).Some?
    ensures Lookup(MetricsAfter(t, ps, us, c, dist).value, k) == Lookup(t, k)
  {
    var t1 := ApplyRows(t, TimeElapsedRows(ps, c), TimeElapsedColumn);
    TimeElapsedKeys(t, ps, c);
    TimeElapsedOutsideRun(t, ps, c, k);
    DistanceKeys(t1, ps, us, c, dist);
    DistanceOutsideRun(t1, ps, us, c, dist, k);
  }

  /** Running the task a second time for the same run changes no row and adds none. */
  lemma MetricsIdempotent(t: seq<PeriodMetrics>, ps: seq<OperatingPeriod>, us: seq<VehicleUpdate>, c: Id, dist: Geodesic)
    requires DistinctKeys(t)
    requires MetricsAfter(t, ps, us, c, dist).Some?
    ensures var t1 := MetricsAfter(t, ps, us, c, dist).value;
      && MetricsAfter(t1, ps, us, c, dist).Some?
      && forall k :: Lookup(MetricsAfter(t1, ps, us, c, dist).value, k) == Lookup(t1, k)
  {
    MetricsFailure(t, ps, us, c, dist);
    var t1 := MetricsAfter(t, ps, us, c, dist).value;
    MetricsFailure(t1, ps, us, c, dist);
    var t2 := MetricsAfter(t1, ps, us, c, dist).value;
    forall k ensures Lookup(t2, k) == Lookup(t1, k) {
      if NoRunPeriodWith(ps, c, k) {
        MetricsOutsideRun(t, ps, us, c, dist, k);
        MetricsOutsideRun(t1, ps, us, c, dist, k);
      } else {
        var i :| 0 <= i < |ps| && InRun(ps[i], c) && ps[i].operatingPeriodId == k;
        MetricsForPeriod(t, ps, us, c, dist, i);
        MetricsForPeriod(t1, ps, us, c, dist, i);
      }
    }
  }

  // ---------------------------------------------------------------------------------------------
  // Samples that enter a period's sum

  /** A period with a NULL vehicle joins no sample. */
  lemma NullVehicleJoinsNothing(o: OperatingPeriod, us: seq<VehicleUpdate>, dist: Geodesic)
    requires o.vehicleId.None?
    ensures MatchedDistances(o, us, dist) == []
    ensures DistanceRow(o, us, dist).None?
  {
    MatchedAmongSpec(o, us, dist, |us|);
  }

  /** The LAG window is not restricted to the period: the first sample inside the period
      contributes its distance from the sample before the period started. */
  lemma LagReachesBeforePeriod(v: Id, org: Id, c: Id, op: Id, dist: Geodesic)
    ensures var before := VehicleUpdate(v, 1.0, 2.0, 5, 5, org, c);
      var inside := VehicleUpdate(v, 3.0, 4.0, 15, 15, org, c);
      var o := OperatingPeriod(op, Some(v), 10, 20, "create", 10, org, c);
      MatchedDistances(o, [before, inside], dist) == [Some(dist(PointOf(inside), PointOf(before)))]
  {
    var before := VehicleUpdate(v, 1.0, 2.0, 5, 5, org, c);
    var inside := VehicleUpdate(v, 3.0, 4.0, 15, 15, org, c);
    var us := [before, inside];
    var o := OperatingPeriod(op, Some(v), 10, 20, "create", 10, org, c);
    assert LagAmong(us, 1, 0) == None;
    assert Precedes(us, 0, 1) && !Precedes(us, 1, 1);
    assert LagAmong(us, 1, 1) == Some(0);
    assert LagAmong(us, 1, 2) == Some(0);
    assert !InPeriod(o, us[0]) && InPeriod(o, us[1]);
    assert MatchedAmong(o, us, dist, 1) == [];
  }
}
