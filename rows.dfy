/** Rows of the four tables of the relational store, and the value types they are built from. */
module Rows {

  datatype Option<T> = None | Some(value: T)

  /** Identifiers (vehicle, organization, correlation and operating-period ids) are opaque text. */
  type Id = string

  /** Timestamps and durations, as integral instants; `age(finish, start)` is `finish - start`. */
  type Time = int

  /** A geodesic distance in metres, as ST_Distance over `geography` returns it: never negative. */
  type Meters = r: real | 0.0 <= r

  /** A position, in the `ST_Point(longitude, latitude)` argument order. */
  datatype Point = Point(longitude: real, latitude: real)

  /** The geodesic distance between two points (PostGIS arithmetic, left uninterpreted). */
  type Geodesic = (Point, Point) -> Meters

  /** A row of `vehicle_update`: one location ping. */
  datatype VehicleUpdate = VehicleUpdate(
    vehicleId: Id,
    latitude: real,
    longitude: real,
    locationTime: Time,
    eventTime: Time,
    organizationId: Id,
    correlationId: Id)

  /** A row of `vehicle_registration`: a `register` or `deregister` event. */
  datatype Registration = Registration(
    vehicleId: Id,
    event: string,
    eventTime: Time,
    organizationId: Id,
    correlationId: Id)

  /** A row of `operating_period`; `vehicleId` is NULL for periods imported from events. */
  datatype OperatingPeriod = OperatingPeriod(
    operatingPeriodId: Id,
    vehicleId: Option<Id>,
    start: Time,
    finish: Time,
    event: string,
    eventTime: Time,
    organizationId: Id,
    correlationId: Id)

  /** A row of `operating_period_metrics`, keyed by `operatingPeriod`. */
  datatype PeriodMetrics = PeriodMetrics(
    operatingPeriod: Id,
    timeElapsed: Time,
    distanceTravelled: Option<Meters>,
    correlationId: Id)
}
