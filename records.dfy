/** Parsed event records, and the classification by their (`on`, `event`) pair that both the
    validation of a file and its import into the store use. */
module Records {
  import opened Rows

  /** `data.location` of a vehicle update; an absent key is `None`. */
  datatype Location = Location(lat: Option<real>, lng: Option<real>, at: Option<Time>)

  /** The `data` object of a record; an absent key is `None`. */
  datatype Payload = Payload(
    id: Option<Id>,
    location: Option<Location>,
    start: Option<Time>,
    finish: Option<Time>)

  /** One parsed JSON event record. `on` and `event` are what `obj.get(...)` yields, `None` when the
      key is absent (or holds a non-string, which compares unequal to every string just the same). */
  datatype Record = Record(
    on: Option<string>,
    event: Option<string>,
    data: Option<Payload>,
    at: Option<Time>,
    organizationId: Option<Id>)

  /** The three recognised kinds of record, one per target table and per schema validator. */
  datatype Kind = VehicleUpdateKind | VehicleRegistrationKind | OperatingPeriodKind

  /** The recognised (`on`, `event`) pairs and the kind of each. */
  const KindTable: map<(string, string), Kind> := map[
    ("vehicle", "update") := VehicleUpdateKind,
    ("vehicle", "register") := VehicleRegistrationKind,
    ("vehicle", "deregister") := VehicleRegistrationKind,
    ("operating_period", "create") := OperatingPeriodKind,
    ("operating_period", "delete") := OperatingPeriodKind]

  /** The if/elif chain on (`on`, `event`); `KindOfSpec` relates it to `KindTable`. */
  function KindOf(obj: Record): Option<Kind>
  {
    if obj.on == Some("vehicle") && obj.event == Some("update") then
      Some(VehicleUpdateKind)
    else if obj.on == Some("vehicle") && (obj.event == Some("register") || obj.event == Some("deregister")) then
      Some(VehicleRegistrationKind)
    else if obj.on == Some("operating_period") && (obj.event == Some("create") || obj.event == Some("delete")) then
      Some(OperatingPeriodKind)
    else
      None
  }

  /** A record has a kind iff both `on` and `event` are present and their pair is in `KindTable`,
      and then it has the kind the table gives the pair; every other pair has none. */
  lemma KindOfSpec(obj: Record)
    ensures KindOf(obj).Some? <==> obj.on.Some? && obj.event.Some? && (obj.on.value, obj.event.value) in KindTable
    ensures KindOf(obj).Some? ==> KindOf(obj).value == KindTable[(obj.on.value, obj.event.value)]
  {
  }
}
