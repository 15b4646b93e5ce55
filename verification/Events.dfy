/** Outbox events. The JSON payload is the record of the values it carries. */
module Events {
  import opened Domain

  datatype OrderEventKind =
    | OrderCreated | OrderReserved | OrderPickedUp | OrderDelivered | OrderFailed
    | OrderHandoffRequested | OrderWithdrawn | OrderUpdated

  datatype DroneEventKind = DroneBroken | DroneFixed

  datatype Event =
    | OrderEvent(kind: OrderEventKind, orderId: OrderId, status: OrderStatus, userId: UserId,
                 assignee: Option<DroneId>, droneStatus: Option<DroneStatus>, occurredAt: Time)
    | DroneEvent(droneKind: DroneEventKind, droneId: DroneId, state: DroneStatus, occurredAt: Time)

  /** `drone` is present only where the caller passes one; its status is then part of the payload. */
  function NewOrderEvent(kind: OrderEventKind, order: Order, drone: Option<Drone>, occurredAt: Time): Event {
    OrderEvent(kind, order.id, order.status, order.userId, order.assignedDrone,
               if drone.Some? then Some(drone.value.status) else None, occurredAt)
  }

  function NewDroneEvent(kind: DroneEventKind, drone: Drone, occurredAt: Time): Event {
    DroneEvent(kind, drone.id, drone.status, occurredAt)
  }
}
