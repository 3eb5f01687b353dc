/** Record routing on import (`import_json_to_psql`): each parsed record is classified by its
    (`on`, `event`) pair and mapped field by field into a row of one of three tables, or skipped.
    A record of a recognised kind that lacks one of the keys its branch reads raises `KeyError`,
    which ends the import. */
module FetchAndImport {
  import opened Rows
  import opened Records

  /** What one record makes the loop do. */
  datatype Routed =
    | UpdateRow(update: VehicleUpdate)
    | RegistrationRow(registration: Registration)
    | PeriodRow(period: OperatingPeriod)
    | Skipped
    | MissingField

  /** The `vehicle_update` row of a (`vehicle`, `update`) record, if every key it reads is there. */
  function UpdateOf(obj: Record, c: Id): Option<VehicleUpdate>
  {
    if obj.data.None? then None
    else
      var data := obj.data.value;
      if data.id.None? || data.location.None? then None
      else
        var loc := data.location.value;
        if loc.lat.None? || loc.lng.None? || loc.at.None? || obj.at.None? || obj.organizationId.None? then None
        else Some(VehicleUpdate(data.id.value, loc.lat.value, loc.lng.value, loc.at.value,
                                obj.at.value, obj.organizationId.value, c))
  }

  /** The `vehicle_registration` row of a (`vehicle`, `register`/`deregister`) record. */
  function RegistrationOf(obj: Record, c: Id): Option<Registration>
  {
    if obj.data.None? || obj.data.value.id.None? || obj.event.None? || obj.at.None? || obj.organizationId.None? then None
    else Some(Registration(obj.data.value.id.value, obj.event.value, obj.at.value, obj.organizationId.value, c))
  }

  /** The `operating_period` row of an (`operating_period`, `create`/`delete`) record; its vehicle
      is always NULL. */
  function PeriodOf(obj: Record, c: Id): Option<OperatingPeriod>
  {
    if obj.data.None? then None
    else
      var data := obj.data.value;
      if data.id.None? || data.start.None? || data.finish.None? || obj.event.None? || obj.at.None? || obj.organizationId.None? then None
      else Some(OperatingPeriod(data.id.value, None, data.start.value, data.finish.value, obj.event.value,
                                obj.at.value, obj.organizationId.value, c))
  }

  /** The body of the loop for one record. */
  function Route(obj: Record, c: Id): (r: Routed)
    ensures r.Skipped? <==> KindOf(obj).None?
    ensures r.UpdateRow? ==> KindOf(obj) == Some(VehicleUpdateKind) && r.update.correlationId == c
    ensures r.RegistrationRow? ==> KindOf(obj) == Some(VehicleRegistrationKind) && r.registration.correlationId == c
                                   && r.registration.event in {"register", "deregister"}
                                   && Some(r.registration.event) == obj.event
    ensures r.PeriodRow? ==> KindOf(obj) == Some(OperatingPeriodKind) && r.period.correlationId == c
                             && r.period.vehicleId.None? && r.period.event in {"create", "delete"}
                             && Some(r.period.event) == obj.event
  {
    match KindOf(obj)
    case None => Skipped
    case Some(VehicleUpdateKind) =>
      (match UpdateOf(obj, c) case None => MissingField case Some(u) => UpdateRow(u))
    case Some(VehicleRegistrationKind) =>
      (match RegistrationOf(obj, c) case None => MissingField case Some(g) => RegistrationRow(g))
    case Some(OperatingPeriodKind) =>
      (match PeriodOf(obj, c) case None => MissingField case Some(p) => PeriodRow(p))
  }

  // ---------------------------------------------------------------------------------------------
  // Records as the event feed writes them, for each kind of row

  function UpdateRecord(u: VehicleUpdate): Record
  {
    Record(Some("vehicle"), Some("update"),
           Some(Payload(Some(u.vehicleId), Some(Location(Some(u.latitude), Some(u.longitude), Some(u.locationTime))), None, None)),
           Some(u.eventTime), Some(u.organizationId))
  }

  function RegistrationRecord(g: Registration): Record
  {
    Record(Some("vehicle"), Some(g.event), Some(Payload(Some(g.vehicleId), None, None, None)),
           Some(g.eventTime), Some(g.organizationId))
  }

  function PeriodRecord(p: OperatingPeriod): Record
  {
    Record(Some("operating_period"), Some(p.event), Some(Payload(Some(p.operatingPeriodId), None, Some(p.start), Some(p.finish))),
           Some(p.eventTime), Some(p.organizationId))
  }

  /** A vehicle update record is imported as exactly the row it describes: `vehicle_id = data.id`,
      the location's `lat`, `lng` and `at`, `event_time = at`, its organization, and the run's
      correlation id. */
  lemma UpdateRoundTrip(u: VehicleUpdate)
    ensures Route(UpdateRecord(u), u.correlationId) == UpdateRow(u)
  {
  }

  /** A register or deregister record is imported as the row it describes, event included. */
  lemma RegistrationRoundTrip(g: Registration)
    requires g.event == "register" || g.event == "deregister"
    ensures Route(RegistrationRecord(g), g.correlationId) == RegistrationRow(g)
  {
  }

  /** A create or delete record is imported as the period row it describes, with a NULL vehicle;
      a `delete` record is inserted like a `create` one and removes nothing. */
  lemma PeriodRoundTrip(p: OperatingPeriod)
    requires p.vehicleId.None?
    requires p.event == "create" || p.event == "delete"
    ensures Route(PeriodRecord(p), p.correlationId) == PeriodRow(p)
  {
  }

  /** Any vehicle update record whose keys are all present is imported as the row built from
      those keys alone; whatever else the record carries (a `start`, say) is ignored. */
  lemma UpdateRowFromKeys(obj: Record, c: Id)
    requires KindOf(obj) == Some(VehicleUpdateKind)
    requires obj.data.Some? && obj.data.value.id.Some? && obj.data.value.location.Some?
    requires obj.data.value.location.value.lat.Some? && obj.data.value.location.value.lng.Some?
    requires obj.data.value.location.value.at.Some? && obj.at.Some? && obj.organizationId.Some?
    ensures var data := obj.data.value; var loc := data.location.value;
      Route(obj, c) == UpdateRow(VehicleUpdate(data.id.value, loc.lat.value, loc.lng.value, loc.at.value,
                                               obj.at.value, obj.organizationId.value, c))
  {
  }

  /** Any register or deregister record with `data.id`, `at` and `organization_id` is imported as
      the row built from those keys and its event alone. */
  lemma RegistrationRowFromKeys(obj: Record, c: Id)
    requires KindOf(obj) == Some(VehicleRegistrationKind)
    requires obj.data.Some? && obj.data.value.id.Some? && obj.at.Some? && obj.organizationId.Some?
    ensures obj.event == Some("register") || obj.event == Some("deregister")
    ensures Route(obj, c) == RegistrationRow(Registration(obj.data.value.id.value, obj.event.value, obj.at.value,
                                                          obj.organizationId.value, c))
  {
  }

  /** Any create or delete record with `data.id`, `data.start`, `data.finish`, `at` and
      `organization_id` is imported as the period row built from those keys and its event alone,
      with a NULL vehicle; a `data.location` it may carry is ignored. */
  lemma PeriodRowFromKeys(obj: Record, c: Id)
    requires KindOf(obj) == Some(OperatingPeriodKind)
    requires obj.data.Some? && obj.data.value.id.Some? && obj.data.value.start.Some? && obj.data.value.finish.Some?
    requires obj.at.Some? && obj.organizationId.Some?
    ensures obj.event == Some("create") || obj.event == Some("delete")
    ensures var data := obj.data.value;
      Route(obj, c) == PeriodRow(OperatingPeriod(data.id.value, None, data.start.value, data.finish.value,
                                                 obj.event.value, obj.at.value, obj.organizationId.value, c))
  {
  }

  /** A record of a recognised kind is never skipped: it is imported, or it raises exactly when one
      of the keys its branch reads is missing. An update reads `data.id`, `data.location.lat`,
      `lng` and `at`, `at` and `organization_id`; a registration reads `data.id`, `at` and
      `organization_id`; a period reads `data.id`, `data.start`, `data.finish`, `at` and
      `organization_id`. */
  lemma RecognisedNeverSkipped(obj: Record, c: Id)
    ensures KindOf(obj).Some? ==> !Route(obj, c).Skipped?
    ensures KindOf(obj) == Some(VehicleUpdateKind) ==>
      (Route(obj, c).MissingField? <==>
         obj.data.None? || obj.data.value.id.None? || obj.data.value.location.None?
         || obj.data.value.location.value.lat.None? || obj.data.value.location.value.lng.None?
         || obj.data.value.location.value.at.None? || obj.at.None? || obj.organizationId.None?)
    ensures KindOf(obj) == Some(VehicleRegistrationKind) ==>
      (Route(obj, c).MissingField? <==>
         obj.data.None? || obj.data.value.id.None? || obj.at.None? || obj.organizationId.None?)
    ensures KindOf(obj) == Some(OperatingPeriodKind) ==>
      (Route(obj, c).MissingField? <==>
         obj.data.None? || obj.data.value.id.None? || obj.data.value.start.None?
         || obj.data.value.finish.None? || obj.at.None? || obj.organizationId.None?)
  {
  }

  // ---------------------------------------------------------------------------------------------
  // The rows a sequence of records appends

  /** Rows appended to the three tables, each in record order. */
  datatype Inserted = Inserted(updates: seq<VehicleUpdate>, registrations: seq<Registration>, periods: seq<OperatingPeriod>)

  function Append(a: Inserted, b: Inserted): Inserted
  {
    Inserted(a.updates + b.updates, a.registrations + b.registrations, a.periods + b.periods)
  }

  /** The rows one routed record appends; a skipped record, or one that raised, appends none. */
  function RowsOf(r: Routed): Inserted
  {
    match r
    case UpdateRow(u) => Inserted([u], [], [])
    case RegistrationRow(g) => Inserted([], [g], [])
    case PeriodRow(p) => Inserted([], [], [p])
    case Skipped => Inserted([], [], [])
    case MissingField => Inserted([], [], [])
  }

  /** The rows the records `objs` append, one record after the other. */
  function InsertedRows(objs: seq<Record>, c: Id): Inserted
  {
    if objs == [] then Inserted([], [], [])
    else Append(InsertedRows(objs[..|objs| - 1], c), RowsOf(Route(objs[|objs| - 1], c)))
  }

  /** The position of the first record that raises, or `|objs|` when none does. */
  function FirstMissing(objs: seq<Record>, c: Id): (n: nat)
    ensures n <= |objs|
    ensures forall j :: 0 <= j < n ==> !Route(objs[j], c).MissingField?
    ensures n < |objs| ==> Route(objs[n], c).MissingField?
  {
    if objs == [] then 0
    else
      var n := FirstMissing(objs[..|objs| - 1], c);
      if n < |objs| - 1 then n
      else if Route(objs[|objs| - 1], c).MissingField? then |objs| - 1
      else |objs|
  }

  /** Rows are appended in record order: the rows of `a + b` are those of `a` followed by those
      of `b`, table by table. */
  lemma {:induction false} InsertedRowsConcat(a: seq<Record>, b: seq<Record>, c: Id)
    ensures InsertedRows(a + b, c) == Append(InsertedRows(a, c), InsertedRows(b, c))
  {
    if b == [] {
      assert a + b == a;
    } else {
      var front, last := b[..|b| - 1], b[|b| - 1];
      assert (a + b)[..|a + b| - 1] == a + front;
      assert (a + b)[|a + b| - 1] == last;
      InsertedRowsConcat(a, front, c);
      AppendAssociative(InsertedRows(a, c), InsertedRows(front, c), RowsOf(Route(last, c)));
    }
  }

  lemma AppendAssociative(x: Inserted, y: Inserted, z: Inserted)
    ensures Append(Append(x, y), z) == Append(x, Append(y, z))
  {
    assert (x.updates + y.updates) + z.updates == x.updates + (y.updates + z.updates);
    assert (x.registrations + y.registrations) + z.registrations == x.registrations + (y.registrations + z.registrations);
    assert (x.periods + y.periods) + z.periods == x.periods + (y.periods + z.periods);
  }

  /** Every appended row carries the supplied correlation id; every period row has a NULL vehicle
      and every registration row a `register` or `deregister` event. */
  lemma {:induction false} InsertedRowsCorrelation(objs: seq<Record>, c: Id)
    ensures var ins := InsertedRows(objs, c);
      && (forall u :: u in ins.updates ==> u.correlationId == c)
      && (forall g :: g in ins.registrations ==> g.correlationId == c && g.event in {"register", "deregister"})
      && (forall p :: p in ins.periods ==> p.correlationId == c && p.vehicleId.None?)
  {
    if objs != [] {
      InsertedRowsCorrelation(objs[..|objs| - 1], c);
    }
  }

  /** One more record appends its rows after those of the records before it. */
  lemma InsertedRowsStep(objs: seq<Record>, i: nat, c: Id)
    requires i < |objs|
    ensures InsertedRows(objs[..i + 1], c) == Append(InsertedRows(objs[..i], c), RowsOf(Route(objs[i], c)))
  {
    assert objs[..i + 1][..i] == objs[..i];
  }

  /** `FirstMissing` is the least position of a record that raises. */
  lemma FirstMissingUnique(objs: seq<Record>, c: Id, n: nat)
    requires n <= |objs|
    requires forall j :: 0 <= j < n ==> !Route(objs[j], c).MissingField?
    requires n < |objs| ==> Route(objs[n], c).MissingField?
    ensures FirstMissing(objs, c) == n
  {
  }

  /** The first failure in `a + b` is the first in `a`, or else `|a|` plus the first in `b`. */
  lemma FirstMissingConcat(a: seq<Record>, b: seq<Record>, c: Id)
    ensures FirstMissing(a + b, c) == if FirstMissing(a, c) < |a| then FirstMissing(a, c) else |a| + FirstMissing(b, c)
  {
    var n := if FirstMissing(a, c) < |a| then FirstMissing(a, c) else |a| + FirstMissing(b, c);
    forall j | 0 <= j < n ensures !Route((a + b)[j], c).MissingField? {
      if j < |a| {
        assert (a + b)[j] == a[j];
      } else {
        assert (a + b)[j] == b[j - |a|];
      }
    }
    if n < |a + b| {
      if n < |a| {
        assert (a + b)[n] == a[n];
      } else {
        assert (a + b)[n] == b[n - |a|];
      }
    }
    FirstMissingUnique(a + b, c, n);
  }

  /** The records of several files, file after file. */
  function Flatten(files: seq<seq<Record>>): seq<Record>
  {
    if files == [] then [] else Flatten(files[..|files| - 1]) + files[|files| - 1]
  }

  /** Importing one more file that imports cleanly after files that all did: the rows are those
      of all the records so far, and there is still no failure. */
  lemma CleanFileStep(start: Inserted, done: seq<Record>, file: seq<Record>, c: Id, after: Inserted)
    requires FirstMissing(done, c) == |done|
    requires FirstMissing(file, c) == |file|
    requires after == Append(Append(start, InsertedRows(done, c)), InsertedRows(file[..FirstMissing(file, c)], c))
    ensures FirstMissing(done + file, c) == |done + file|
    ensures after == Append(start, InsertedRows(done + file, c))
  {
    FirstMissingConcat(done, file, c);
    assert file[..FirstMissing(file, c)] == file;
    InsertedRowsConcat(done, file, c);
    AppendAssociative(start, InsertedRows(done, c), InsertedRows(file, c));
  }

  /** A file that raises, after files that all imported cleanly: its failure is the first failure
      of all the records, whatever files follow, and the rows are those of the records before it. */
  lemma FailingFileStep(start: Inserted, done: seq<Record>, file: seq<Record>, rest: seq<Record>, c: Id, after: Inserted)
    requires FirstMissing(done, c) == |done|
    requires FirstMissing(file, c) < |file|
    requires after == Append(Append(start, InsertedRows(done, c)), InsertedRows(file[..FirstMissing(file, c)], c))
    ensures var all := done + file + rest;
      && FirstMissing(all, c) < |all|
      && after == Append(start, InsertedRows(all[..FirstMissing(all, c)], c))
  {
    var m := FirstMissing(file, c);
    var head := done + file;
    FirstMissingConcat(done, file, c);
    assert FirstMissing(head, c) == |done| + m;
    FirstMissingConcat(head, rest, c);
    PrefixThroughFile(done, file, rest, m);
    InsertedRowsConcat(done, file[..m], c);
    AppendAssociative(start, InsertedRows(done, c), InsertedRows(file[..m], c));
  }

  lemma PrefixThroughFile<T>(done: seq<T>, file: seq<T>, rest: seq<T>, m: nat)
    requires m <= |file|
    ensures (done + file + rest)[..|done| + m] == done + file[..m]
  {
  }

  /** A record of any other (`on`, `event`) pair changes no table. */
  lemma UnrecognisedChangesNothing(objs: seq<Record>, obj: Record, c: Id)
    requires KindOf(obj).None?
    ensures InsertedRows(objs + [obj], c) == InsertedRows(objs, c)
  {
    assert (objs + [obj])[..|objs|] == objs;
  }

  /** The positions of the records of a recognised kind. */
  function RecognisedAt(objs: seq<Record>): set<nat>
  {
    set j: nat | j < |objs| && KindOf(objs[j]).Some?
  }

  /** The import of records that all route cleanly appends one row per recognised record. */
  lemma {:induction false} InsertedRowsCount(objs: seq<Record>, c: Id)
    requires FirstMissing(objs, c) == |objs|
    ensures var ins := InsertedRows(objs, c);
      |ins.updates| + |ins.registrations| + |ins.periods| == |RecognisedAt(objs)|
  {
    if objs != [] {
      var front, last := objs[..|objs| - 1], objs[|objs| - 1];
      assert FirstMissing(front, c) == |front|;
      InsertedRowsCount(front, c);
      RecognisedAtSnoc(objs);
      assert !Route(last, c).MissingField?;
    }
  }

  lemma RecognisedAtSnoc(objs: seq<Record>)
    requires objs != []
    ensures |RecognisedAt(objs)| == |RecognisedAt(objs[..|objs| - 1])| + if KindOf(objs[|objs| - 1]).Some? then 1 else 0
  {
    var front := objs[..|objs| - 1];
    var before, after := RecognisedAt(front), RecognisedAt(objs);
    forall j: nat
      ensures j in after <==> j in before || (j == |front| && KindOf(objs[|front|]).Some?)
    {
      if j < |front| {
        assert objs[j] == front[j];
      }
    }
    if KindOf(objs[|objs| - 1]).Some? {
      assert after == before + {|front|};
    } else {
      assert after == before;
    }
  }
}
