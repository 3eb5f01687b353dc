/** A whole run on a small input: one vehicle registers at `t0` and deregisters three hours
    later, and sends three location samples at `t0`, `t0 + 1h` and `t0 + 2h`. Times are in seconds. */
module Scenarios {
  import opened Rows
  import opened OperatingPeriods
  import opened PeriodMetricsAggregation

  const Hour: int := 3600

  function Register(v: Id, o: Id, c: Id, t0: Time): Registration
  {
    Registration(v, "register", t0, o, c)
  }

  function Deregister(v: Id, o: Id, c: Id, t0: Time): Registration
  {
    Registration(v, "deregister", t0 + 3 * Hour, o, c)
  }

  /** The k-th sample, at `t0 + k` hours and position `(lat, lng)`. */
  function Sample(v: Id, o: Id, c: Id, t0: Time, k: int, lat: real, lng: real): VehicleUpdate
  {
    VehicleUpdate(v, lat, lng, t0 + k * Hour, t0 + k * Hour, o, c)
  }

  /** The register and deregister rows give exactly one period, `[t0, t0 + 3h]`. */
  lemma ScenarioPeriods(v: Id, o: Id, c: Id, t0: Time, id: Id)
    ensures var regs := [Register(v, o, c, t0), Deregister(v, o, c, t0)];
      && RegisterDeregisterPairs(regs, c) == [(regs[0], regs[1])]
      && DerivedPeriods(regs, c, [id]) == [OperatingPeriod(id, Some(v), t0, t0 + 3 * Hour, "create", t0, o, c)]
  {
    var r, d := Register(v, o, c, t0), Deregister(v, o, c, t0);
    var regs := [r, d];
    assert regs[..1] == [r] && [r][..0] == [];
    assert PairsFor(r, [r], c) == [];
    assert PairsFor(r, regs, c) == [(r, d)];
    assert PairsFor(d, [r], c) == [];
    assert PairsFor(d, regs, c) == [];
    assert JoinPairs(regs[..1], regs, c) == [(r, d)];
  }

  /** Each sample in the period is joined, with a NULL distance for the first sample of the
      vehicle and the distance to the previous sample for the other two. */
  lemma ScenarioDistances(v: Id, o: Id, c: Id, t0: Time, id: Id, dist: Geodesic,
                          lat0: real, lng0: real, lat1: real, lng1: real, lat2: real, lng2: real)
    ensures var us := [Sample(v, o, c, t0, 0, lat0, lng0), Sample(v, o, c, t0, 1, lat1, lng1), Sample(v, o, c, t0, 2, lat2, lng2)];
      var p := OperatingPeriod(id, Some(v), t0, t0 + 3 * Hour, "create", t0, o, c);
      MatchedDistances(p, us, dist)
        == [None, Some(dist(Point(lng1, lat1), Point(lng0, lat0))), Some(dist(Point(lng2, lat2), Point(lng1, lat1)))]
  {
    var us := [Sample(v, o, c, t0, 0, lat0, lng0), Sample(v, o, c, t0, 1, lat1, lng1), Sample(v, o, c, t0, 2, lat2, lng2)];
    var p := OperatingPeriod(id, Some(v), t0, t0 + 3 * Hour, "create", t0, o, c);
    assert !Precedes(us, 0, 0) && !Precedes(us, 1, 0) && !Precedes(us, 2, 0);
    assert LagAmong(us, 0, 1) == None;
    assert LagAmong(us, 0, 2) == None;
    assert LagAmong(us, 0, 3) == None;
    assert Precedes(us, 0, 1) && !Precedes(us, 1, 1) && !Precedes(us, 2, 1);
    assert LagAmong(us, 1, 1) == Some(0);
    assert LagAmong(us, 1, 3) == Some(0);
    assert Precedes(us, 0, 2) && Precedes(us, 1, 2) && !Precedes(us, 2, 2);
    assert LagAmong(us, 2, 1) == Some(0);
    assert LagAmong(us, 2, 2) == Some(1);
    assert LagAmong(us, 2, 3) == Some(1);
    assert InPeriod(p, us[0]) && InPeriod(p, us[1]) && InPeriod(p, us[2]);
    assert MatchedAmong(p, us, dist, 1) == [None];
    assert MatchedAmong(p, us, dist, 2) == [None, Some(dist(Point(lng1, lat1), Point(lng0, lat0)))];
  }

  /** SUM over one NULL and two distances is the sum of the two. */
  lemma SumOfTwo(d1: Meters, d2: Meters)
    ensures SqlSum([None, Some(d1), Some(d2)]) == Some(d1 + d2)
  {
    var ds: seq<Option<Meters>> := [None, Some(d1), Some(d2)];
    var none: seq<Option<Meters>> := [None];
    assert ds[..2] == [None, Some(d1)] && ds[..2][..1] == none && none[..0] == [];
    assert SqlSum(none) == None;
    assert SqlSum(ds[..2]) == Some(d1);
  }

  /** Starting from an empty metrics table, the run leaves one metrics row: three hours elapsed
      and the sum of the two distances between consecutive samples. */
  lemma ScenarioMetrics(v: Id, o: Id, c: Id, t0: Time, id: Id, dist: Geodesic,
                        lat0: real, lng0: real, lat1: real, lng1: real, lat2: real, lng2: real)
    ensures var us := [Sample(v, o, c, t0, 0, lat0, lng0), Sample(v, o, c, t0, 1, lat1, lng1), Sample(v, o, c, t0, 2, lat2, lng2)];
      var p := OperatingPeriod(id, Some(v), t0, t0 + 3 * Hour, "create", t0, o, c);
      MetricsAfter([], [p], us, c, dist)
        == Some([PeriodMetrics(id, 3 * Hour, Some(dist(Point(lng1, lat1), Point(lng0, lat0)) + dist(Point(lng2, lat2), Point(lng1, lat1))), c)])
  {
    var us := [Sample(v, o, c, t0, 0, lat0, lng0), Sample(v, o, c, t0, 1, lat1, lng1), Sample(v, o, c, t0, 2, lat2, lng2)];
    var p := OperatingPeriod(id, Some(v), t0, t0 + 3 * Hour, "create", t0, o, c);
    var d1, d2 := dist(Point(lng1, lat1), Point(lng0, lat0)), dist(Point(lng2, lat2), Point(lng1, lat1));
    ScenarioDistances(v, o, c, t0, id, dist, lat0, lng0, lat1, lng1, lat2, lng2);
    SumOfTwo(d1, d2);
    var first := PeriodMetrics(id, 3 * Hour, None, c);
    var second := PeriodMetrics(id, 3 * Hour, Some(d1 + d2), c);
    var ps := [p];
    assert [] + [p] == ps;
    TimeElapsedRowsSnoc([], p, c);
    assert DistanceRow(p, us, dist) == Some(second);
    DistanceRowsSnoc([], p, c, us, dist);
    BothStatementsOnEmpty(ps, us, c, dist, first, second);
  }

  /** On an empty table, a first statement proposing one row and a second proposing one row for
      the same key leave that one row, with the second's distance. */
  lemma BothStatementsOnEmpty(ps: seq<OperatingPeriod>, us: seq<VehicleUpdate>, c: Id, dist: Geodesic,
                              first: PeriodMetrics, second: PeriodMetrics)
    requires TimeElapsedRows(ps, c) == [first]
    requires DistanceRows(ps, c, us, dist) == [second]
    requires first.operatingPeriod == second.operatingPeriod
    ensures MetricsAfter([], ps, us, c, dist) == Some([first.(distanceTravelled := second.distanceTravelled)])
  {
    assert ApplyRows([], [first], TimeElapsedColumn) == [first];
    assert KeyIndex([first], first.operatingPeriod) == Some(0);
    assert ApplyRows([first], [second], DistanceTravelledColumn) == [first.(distanceTravelled := second.distanceTravelled)];
  }
}
