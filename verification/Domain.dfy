/** The records and enumerations of the delivery service, with its two pure checks. */
module Domain {

  datatype Option<+T> = None | Some(value: T)

  type OrderId = string
  type DroneId = string
  type UserId = string

  /** An instant; only the order of instants matters. */
  type Time = int

  datatype OrderStatus = Created | Reserved | PickedUp | HandoffRequested | Delivered | Failed | Withdrawn

  datatype DroneStatus = Active | Broken

  /** Degrees. Coordinates are exact reals: rounding and NaN are not modelled. */
  datatype Location = Location(lat: real, lng: real)

  datatype Order = Order(
    id: OrderId,
    userId: UserId,
    origin: Location,
    destination: Location,
    status: OrderStatus,
    assignedDrone: Option<DroneId>,
    handoffOrigin: Option<Location>,
    createdAt: Time,
    updatedAt: Time,
    reservedAt: Option<Time>,
    pickedUpAt: Option<Time>,
    deliveredAt: Option<Time>,
    failedAt: Option<Time>,
    failureReason: Option<string>)

  datatype Drone = Drone(
    id: DroneId,
    status: DroneStatus,
    lastLocation: Option<Location>,
    lastHeartbeatAt: Option<Time>,
    currentOrder: Option<OrderId>,
    createdAt: Time,
    updatedAt: Time)

  /** The service's sentinel errors, and `Database` for every error that comes from below it. */
  datatype Error = NotFound | Conflict | Invalid | Forbidden | NoJob | Precondition | Database

  predicate IsTerminal(status: OrderStatus) {
    status == Delivered || status == Failed || status == Withdrawn
  }

  /** The statuses in which a drone is holding the order. */
  predicate IsActive(status: OrderStatus) {
    status == Reserved || status == PickedUp
  }

  predicate ValidLocation(loc: Location) {
    -90.0 <= loc.lat <= 90.0 && -180.0 <= loc.lng <= 180.0
  }
}
