/** Interval reconstruction (`calculate_operating_periods`): the self-join of `vehicle_registration`
    that pairs each `register` row of the current run with every later `deregister` row of the
    same vehicle, and the `operating_period` rows that the INSERT ... SELECT appends for the pairs. */
module OperatingPeriods {
  import opened Rows

  /** A (register row, deregister row) pair of the join. */
  type Pair = (Registration, Registration)

  /** The join condition together with the WHERE clause. Only `r` is filtered by correlation id;
      `d` may come from any run and any organization. */
  predicate Joins(r: Registration, d: Registration, c: Id)
  {
    && r.event == "register"
    && r.correlationId == c
    && d.vehicleId == r.vehicleId
    && d.event == "deregister"
    && d.eventTime > r.eventTime
  }

  /** The pairs of `r` with the candidate rows `ds`, in table order. */
  function PairsFor(r: Registration, ds: seq<Registration>, c: Id): (ps: seq<Pair>)
    ensures forall p :: p in ps ==> p.0 == r && p.1 in ds && Joins(r, p.1, c)
  {
    if ds == [] then []
    else
      var d := ds[|ds| - 1];
      PairsFor(r, ds[..|ds| - 1], c) + (if Joins(r, d, c) then [(r, d)] else [])
  }

  /** The nested-loop join of the rows `rs` against the rows `ds`. */
  function JoinPairs(rs: seq<Registration>, ds: seq<Registration>, c: Id): (ps: seq<Pair>)
    ensures forall p :: p in ps ==> p.0 in rs && p.1 in ds && Joins(p.0, p.1, c)
  {
    if rs == [] then []
    else JoinPairs(rs[..|rs| - 1], ds, c) + PairsFor(rs[|rs| - 1], ds, c)
  }

  /** The rows of `vehicle_registration r JOIN vehicle_registration d ...` for run `c`.
      SQL returns them as a bag; the model lists them register-major. */
  function RegisterDeregisterPairs(regs: seq<Registration>, c: Id): (ps: seq<Pair>)
    ensures forall p :: p in ps ==> p.0 in regs && p.1 in regs && Joins(p.0, p.1, c)
  {
    JoinPairs(regs, regs, c)
  }

  /** The `operating_period` row the SELECT list builds from one pair. */
  function PeriodOf(id: Id, p: Pair): OperatingPeriod
  {
    OperatingPeriod(id, Some(p.0.vehicleId), p.0.eventTime, p.1.eventTime, "create",
                    p.0.eventTime, p.0.organizationId, p.0.correlationId)
  }

  /** The rows the statement inserts, one per joined pair in the order of the join; `ids[k]` is the
      `uuid_generate_v4()` value of the k-th row. With `PairMultiplicity`, the bag of rows without
      their ids is the bag of joined pairs. */
  function DerivedPeriods(regs: seq<Registration>, c: Id, ids: seq<Id>): (ps: seq<OperatingPeriod>)
    requires |ids| == |RegisterDeregisterPairs(regs, c)|
    ensures |ps| == |ids|
    ensures forall k :: 0 <= k < |ps| ==> ps[k] == PeriodOf(ids[k], RegisterDeregisterPairs(regs, c)[k])
  {
    var pairs := RegisterDeregisterPairs(regs, c);
    seq(|ids|, k requires 0 <= k < |ids| => PeriodOf(ids[k], pairs[k]))
  }

  // ---------------------------------------------------------------------------------------------
  // Multiplicities of the join

  lemma {:induction false} PairsForCount(r: Registration, ds: seq<Registration>, c: Id, r': Registration, d: Registration)
    ensures multiset(PairsFor(r, ds, c))[(r', d)] == if r' == r && Joins(r, d, c) then multiset(ds)[d] else 0
  {
    if ds != [] {
      var front, last := ds[..|ds| - 1], ds[|ds| - 1];
      assert ds == front + [last];
      PairsForCount(r, front, c, r', d);
    }
  }

  lemma {:induction false} JoinPairsCount(rs: seq<Registration>, ds: seq<Registration>, c: Id, r: Registration, d: Registration)
    ensures multiset(JoinPairs(rs, ds, c))[(r, d)]
         == multiset(rs)[r] * (if Joins(r, d, c) then multiset(ds)[d] else 0)
  {
    if rs != [] {
      var front, last := rs[..|rs| - 1], rs[|rs| - 1];
      JoinPairsCount(front, ds, c, r, d);
      PairsForCount(last, ds, c, r, d);
      JoinPairsLast(rs, ds, c, r, d);
      CountStep(multiset(front)[r], if last == r then 1 else 0, multiset(rs)[r],
                if Joins(r, d, c) then multiset(ds)[d] else 0,
                multiset(JoinPairs(front, ds, c))[(r, d)], multiset(PairsFor(last, ds, c))[(r, d)]);
    }
  }

  /** Splitting off the last register row, in counts. */
  lemma JoinPairsLast(rs: seq<Registration>, ds: seq<Registration>, c: Id, r: Registration, d: Registration)
    requires rs != []
    ensures multiset(JoinPairs(rs, ds, c))[(r, d)]
         == multiset(JoinPairs(rs[..|rs| - 1], ds, c))[(r, d)] + multiset(PairsFor(rs[|rs| - 1], ds, c))[(r, d)]
    ensures multiset(rs)[r] == multiset(rs[..|rs| - 1])[r] + if rs[|rs| - 1] == r then 1 else 0
  {
    MultisetConcatCount(JoinPairs(rs[..|rs| - 1], ds, c), PairsFor(rs[|rs| - 1], ds, c), (r, d));
    MultisetLastCount(rs, r);
  }

  lemma MultisetLastCount<T>(xs: seq<T>, x: T)
    requires xs != []
    ensures multiset(xs)[x] == multiset(xs[..|xs| - 1])[x] + if xs[|xs| - 1] == x then 1 else 0
  {
    assert xs == xs[..|xs| - 1] + [xs[|xs| - 1]];
    MultisetConcatCount(xs[..|xs| - 1], [xs[|xs| - 1]], x);
  }

  lemma MultisetConcatCount<T>(xs: seq<T>, ys: seq<T>, x: T)
    ensures multiset(xs + ys)[x] == multiset(xs)[x] + multiset(ys)[x]
  {
  }

  /** One more register row adds `b` copies of its `k` pairs. */
  lemma CountStep(a: nat, b: nat, m: nat, k: nat, jf: nat, p: nat)
    requires m == a + b
    requires jf == a * k
    requires b == 0 || b == 1
    requires p == if b == 1 then k else 0
    ensures jf + p == m * k
  {
  }

  /** The join is the full bag product: a pair occurs once for every copy of its register row times
      every copy of its deregister row when it satisfies the join condition, and never otherwise.
      So every later deregister is paired, not only the nearest one. */
  lemma PairMultiplicity(regs: seq<Registration>, c: Id, r: Registration, d: Registration)
    ensures multiset(RegisterDeregisterPairs(regs, c))[(r, d)]
         == if Joins(r, d, c) then multiset(regs)[r] * multiset(regs)[d] else 0
  {
    JoinPairsCount(regs, regs, c, r, d);
  }

  /** A pair is produced iff both rows are in the table and satisfy the join condition. */
  lemma PairMembership(regs: seq<Registration>, c: Id, r: Registration, d: Registration)
    ensures (r, d) in RegisterDeregisterPairs(regs, c) <==> r in regs && d in regs && Joins(r, d, c)
  {
    PairMultiplicity(regs, c, r, d);
    ProductPositive(multiset(regs)[r], multiset(regs)[d]);
  }

  lemma ProductPositive(a: nat, b: nat)
    ensures a * b > 0 <==> a > 0 && b > 0
  {
    if a > 0 && b > 0 {
      assert a * b >= b;
    }
  }

  /** Every k-th derived row is the row of a joined pair: start and finish are the two event times,
      strictly increasing; the vehicle, organization and correlation id are those of the register
      row, which belongs to run `c`; the event is `create` at the start time; the id is `ids[k]`. */
  lemma DerivedPeriodShape(regs: seq<Registration>, c: Id, ids: seq<Id>, k: nat)
    requires |ids| == |RegisterDeregisterPairs(regs, c)|
    requires k < |ids|
    ensures var p := DerivedPeriods(regs, c, ids)[k];
      exists r, d ::
        && r in regs && d in regs
        && r.event == "register" && d.event == "deregister" && r.vehicleId == d.vehicleId
        && p.operatingPeriodId == ids[k]
        && p.vehicleId == Some(r.vehicleId)
        && p.start == r.eventTime && p.finish == d.eventTime && p.start < p.finish
        && p.event == "create" && p.eventTime == r.eventTime
        && p.organizationId == r.organizationId && p.correlationId == r.correlationId == c
  {
    var pairs := RegisterDeregisterPairs(regs, c);
    var (r, d) := pairs[k];
    assert (r, d) in pairs;
    PairMembership(regs, c, r, d);
  }

  /** Every joined pair yields a period: a register row of the run and a later deregister row of
      its vehicle give a row with the start and finish of the pair. */
  lemma EveryJoinedPairYieldsPeriod(regs: seq<Registration>, c: Id, ids: seq<Id>, r: Registration, d: Registration)
    requires |ids| == |RegisterDeregisterPairs(regs, c)|
    requires r in regs && d in regs && Joins(r, d, c)
    ensures exists k :: 0 <= k < |ids| && DerivedPeriods(regs, c, ids)[k] == PeriodOf(ids[k], (r, d))
  {
    var pairs := RegisterDeregisterPairs(regs, c);
    PairMembership(regs, c, r, d);
    var k :| 0 <= k < |pairs| && pairs[k] == (r, d);
    assert DerivedPeriods(regs, c, ids)[k] == PeriodOf(ids[k], (r, d));
  }

  /** A register row none of whose vehicle's deregister rows is later gives no period. */
  lemma NoLaterDeregisterNoPeriod(regs: seq<Registration>, c: Id, r: Registration)
    requires forall d :: d in regs && d.vehicleId == r.vehicleId && d.event == "deregister" ==> d.eventTime <= r.eventTime
    ensures forall k :: 0 <= k < |RegisterDeregisterPairs(regs, c)| ==> RegisterDeregisterPairs(regs, c)[k].0 != r
  {
    var pairs := RegisterDeregisterPairs(regs, c);
    forall k | 0 <= k < |pairs| ensures pairs[k].0 != r {
      assert pairs[k] in pairs;
      PairMembership(regs, c, pairs[k].0, pairs[k].1);
    }
  }

  /** Register rows of other runs never give a period, while a deregister row of any run, and of
      any organization, is paired with every earlier register row of the run for its vehicle. */
  lemma CorrelationScope(regs: seq<Registration>, c: Id, r: Registration, d: Registration)
    requires r in regs && d in regs
    ensures r.correlationId != c ==> (r, d) !in RegisterDeregisterPairs(regs, c)
    ensures r.event == "register" && r.correlationId == c && d.event == "deregister"
            && d.vehicleId == r.vehicleId && d.eventTime > r.eventTime
            ==> (r, d) in RegisterDeregisterPairs(regs, c)
  {
    PairMembership(regs, c, r, d);
  }

  /** Insert-only with fresh keys: the old rows stay as they were, the new ones follow them, and
      when the generated ids are pairwise distinct and unused, so are the new rows' ids. */
  lemma DerivedIdsFresh(existing: seq<OperatingPeriod>, regs: seq<Registration>, c: Id, ids: seq<Id>)
    requires |ids| == |RegisterDeregisterPairs(regs, c)|
    requires forall i, j :: 0 <= i < j < |ids| ==> ids[i] != ids[j]
    requires forall i, p :: 0 <= i < |ids| && p in existing ==> ids[i] != p.operatingPeriodId
    ensures var all := existing + DerivedPeriods(regs, c, ids);
      && all[..|existing|] == existing
      && (forall i, j :: |existing| <= i < j < |all| ==> all[i].operatingPeriodId != all[j].operatingPeriodId)
      && (forall i, p :: |existing| <= i < |all| && p in existing ==> all[i].operatingPeriodId != p.operatingPeriodId)
  {
    var all := existing + DerivedPeriods(regs, c, ids);
    forall i | |existing| <= i < |all|
      ensures all[i].operatingPeriodId == ids[i - |existing|]
    {
      DerivedPeriodShape(regs, c, ids, i - |existing|);
    }
  }

  /** Example: one register row and two later deregister rows of its vehicle give two periods,
      the second deregister coming from another run. */
  lemma AllLaterDeregistersPaired(v: Id, o: Id, c: Id, other: Id)
    ensures var r := Registration(v, "register", 10, o, c);
      var d1 := Registration(v, "deregister", 20, o, c);
      var d2 := Registration(v, "deregister", 30, o, other);
      RegisterDeregisterPairs([r, d1, d2], c) == [(r, d1), (r, d2)]
  {
    var r := Registration(v, "register", 10, o, c);
    var d1 := Registration(v, "deregister", 20, o, c);
    var d2 := Registration(v, "deregister", 30, o, other);
    var regs := [r, d1, d2];
    assert regs[..2] == [r, d1] && [r, d1][..1] == [r] && [r][..0] == [];
    forall x | x in regs
      ensures PairsFor(x, [r], c) == [] && PairsFor(x, [r, d1], c) == (if x == r then [(r, d1)] else [])
    {
    }
    assert PairsFor(r, regs, c) == [(r, d1), (r, d2)];
    assert PairsFor(d1, regs, c) == [];
    assert PairsFor(d2, regs, c) == [];
    assert JoinPairs(regs[..1], regs, c) == [(r, d1), (r, d2)];
    assert JoinPairs(regs[..2], regs, c) == [(r, d1), (r, d2)];
  }
}
