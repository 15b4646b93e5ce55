/** The order/drone dispatch protocol, one transaction at a time.
    A command reads at most one order row and one drone row, decides, and either writes both rows and
    its events, or refuses and writes nothing. `Decide` holds the business rules over the rows read;
    `Step` reads those rows from the tables. The row-lock model reads them through locks instead. */
module Dispatch {
  import opened Domain
  import opened Events

  /** The tables, and the outbox in commit order. */
  datatype State = State(orders: map<OrderId, Order>, drones: map<DroneId, Drone>, log: seq<Event>)

  const Empty := State(map[], map[], [])

  /** The clock readings of one operation. An operation reads the clock at most twice. */
  datatype Clock = Clock(first: Time, second: Time)

  /** `Reserve.choice` is the row its `FOR UPDATE SKIP LOCKED` query returned. */
  datatype Command =
    | Submit(id: OrderId, user: UserId, origin: Location, dest: Location)
    | Withdraw(user: UserId, id: OrderId)
    | AdminUpdate(id: OrderId, newOrigin: Option<Location>, newDest: Option<Location>)
    | Reserve(drone: DroneId, choice: Option<OrderId>)
    | Pickup(drone: DroneId, id: OrderId)
    | Deliver(drone: DroneId, id: OrderId)
    | Fail(drone: DroneId, id: OrderId, reason: string)
    | MarkBroken(drone: DroneId)
    | MarkFixed(drone: DroneId)
    | Heartbeat(drone: DroneId, loc: Location)

  datatype Reply = OrderReply(order: Order) | DroneReply(droneRow: Drone) | Refused(error: Error)

  datatype Decision =
    | Refuse(error: Error)
    | Write(order: Option<Order>, drone: Option<Drone>, events: seq<Event>, reply: Reply)

  // ---------- Row updates ----------

  function NewOrder(id: OrderId, user: UserId, origin: Location, dest: Location, now: Time): Order {
    Order(id, user, origin, dest, Created, None, None, now, now, None, None, None, None, None)
  }

  function NewDrone(id: DroneId, now: Time): Drone {
    Drone(id, Active, None, None, None, now, now)
  }

  /** The row an operation works on when it gets or creates its drone. */
  function GetOrCreate(drone: Option<Drone>, id: DroneId, now: Time): Drone {
    if drone.Some? then drone.value else NewDrone(id, now)
  }

  function WithdrawnOrder(o: Order, now: Time): Order {
    o.(status := Withdrawn, assignedDrone := None, updatedAt := now)
  }

  function ReservedOrder(o: Order, drone: DroneId, now: Time): Order {
    o.(status := Reserved, assignedDrone := Some(drone), reservedAt := Some(now), updatedAt := now)
  }

  function PickedUpOrder(o: Order, now: Time): Order {
    o.(status := PickedUp, pickedUpAt := Some(now), updatedAt := now)
  }

  function DeliveredOrder(o: Order, now: Time): Order {
    o.(status := Delivered, updatedAt := now, deliveredAt := Some(now))
  }

  function FailedOrder(o: Order, reason: string, now: Time): Order {
    o.(status := Failed, updatedAt := now, failedAt := Some(now), failureReason := Some(reason))
  }

  /** Without a known drone position the hand-off origin keeps its previous value. */
  function HandedOffOrder(o: Order, lastLocation: Option<Location>, now: Time): Order {
    o.(status := HandoffRequested, assignedDrone := None, updatedAt := now,
       handoffOrigin := if lastLocation.Some? then lastLocation else o.handoffOrigin)
  }

  function RequeuedOrder(o: Order, now: Time): Order {
    o.(status := Created, assignedDrone := None, reservedAt := None, handoffOrigin := None, updatedAt := now)
  }

  function FreedDrone(d: Drone, now: Time): Drone {
    d.(currentOrder := None, updatedAt := now)
  }

  function BusyDrone(d: Drone, order: OrderId, now: Time): Drone {
    d.(currentOrder := Some(order), updatedAt := now)
  }

  function BrokenDrone(d: Drone, now: Time): Drone {
    d.(status := Broken, currentOrder := None, updatedAt := now)
  }

  // ---------- Decisions ----------

  function DecideSubmit(id: OrderId, user: UserId, origin: Location, dest: Location, t: Clock,
                        order: Option<Order>): Decision
  {
    if !ValidLocation(origin) || !ValidLocation(dest) then Refuse(Invalid)
    else if order.Some? then Refuse(Database)
    else
      var o := NewOrder(id, user, origin, dest, t.first);
      Write(Some(o), None, [NewOrderEvent(OrderCreated, o, None, t.first)], OrderReply(o))
  }

  function DecideWithdraw(user: UserId, t: Clock, order: Option<Order>, drone: Option<Drone>): Decision {
    if order.None? then Refuse(NotFound)
    else if order.value.userId != user then Refuse(Forbidden)
    else if order.value.status != Created && order.value.status != Reserved then Refuse(Precondition)
    else
      var o := WithdrawnOrder(order.value, t.second);
      var ev := NewOrderEvent(OrderWithdrawn, o, None, t.second);
      if order.value.status == Reserved && order.value.assignedDrone.Some? then
        if drone.None? then Refuse(NotFound)
        else Write(Some(o), Some(FreedDrone(drone.value, t.first)), [ev], OrderReply(o))
      else Write(Some(o), None, [ev], OrderReply(o))
  }

  function DecideAdminUpdate(newOrigin: Option<Location>, newDest: Option<Location>, t: Clock,
                             order: Option<Order>): Decision
  {
    if order.None? then Refuse(NotFound)
    else if IsTerminal(order.value.status) then Refuse(Precondition)
    else if newOrigin.Some? && !ValidLocation(newOrigin.value) then Refuse(Invalid)
    else if newDest.Some? && !ValidLocation(newDest.value) then Refuse(Invalid)
    else
      var o := order.value.(origin := if newOrigin.Some? then newOrigin.value else order.value.origin,
                            destination := if newDest.Some? then newDest.value else order.value.destination,
                            updatedAt := t.first);
      Write(Some(o), None, [NewOrderEvent(OrderUpdated, o, None, t.second)], OrderReply(o))
  }

  function DecideReserve(id: DroneId, t: Clock, order: Option<Order>, drone: Option<Drone>): Decision {
    var d := GetOrCreate(drone, id, t.first);
    if d.status == Broken then Refuse(Precondition)
    else if d.currentOrder.Some? then Refuse(Conflict)
    else if order.None? then Refuse(NoJob)
    else
      var o := ReservedOrder(order.value, d.id, t.second);
      var busy := BusyDrone(d, o.id, t.second);
      Write(Some(o), Some(busy), [NewOrderEvent(OrderReserved, o, Some(busy), t.second)], OrderReply(o))
  }

  function DecidePickup(id: DroneId, t: Clock, order: Option<Order>): Decision {
    if order.None? then Refuse(NotFound)
    else if order.value.assignedDrone != Some(id) then Refuse(Forbidden)
    else if order.value.status != Reserved && order.value.status != HandoffRequested then Refuse(Precondition)
    else
      var o := PickedUpOrder(order.value, t.first);
      Write(Some(o), None, [NewOrderEvent(OrderPickedUp, o, None, t.second)], OrderReply(o))
  }

  /** `reason.None?` delivers, `reason.Some?` fails the order. */
  function DecideComplete(id: DroneId, reason: Option<string>, t: Clock, order: Option<Order>,
                          drone: Option<Drone>): Decision
  {
    if reason == Some("") then Refuse(Invalid)
    else if order.None? then Refuse(NotFound)
    else if order.value.assignedDrone != Some(id) then Refuse(Forbidden)
    else if order.value.status != PickedUp then Refuse(Precondition)
    else if drone.None? then Refuse(NotFound)
    else
      var o := if reason.None? then DeliveredOrder(order.value, t.first)
               else FailedOrder(order.value, reason.value, t.first);
      var d := FreedDrone(drone.value, t.first);
      var kind := if reason.None? then OrderDelivered else OrderFailed;
      Write(Some(o), Some(d), [NewOrderEvent(kind, o, Some(d), t.first)], OrderReply(o))
  }

  function DecideMarkBroken(id: DroneId, t: Clock, order: Option<Order>, drone: Option<Drone>): Decision {
    var d := GetOrCreate(drone, id, t.first);
    var broken := BrokenDrone(d, t.second);
    var ev := NewDroneEvent(DroneBroken, broken, t.second);
    if d.currentOrder.None? then Write(None, Some(broken), [ev], DroneReply(broken))
    else if order.None? then Refuse(NotFound)
    else if order.value.status == PickedUp then
      var o := HandedOffOrder(order.value, d.lastLocation, t.second);
      Write(Some(o), Some(broken), [NewOrderEvent(OrderHandoffRequested, o, Some(broken), t.second), ev],
            DroneReply(broken))
    else if order.value.status == Reserved then
      var o := RequeuedOrder(order.value, t.second);
      Write(Some(o), Some(broken), [NewOrderEvent(OrderUpdated, o, Some(broken), t.second), ev],
            DroneReply(broken))
    else Write(None, Some(broken), [ev], DroneReply(broken))
  }

  function DecideMarkFixed(id: DroneId, t: Clock, drone: Option<Drone>): Decision {
    var d := GetOrCreate(drone, id, t.first).(status := Active, updatedAt := t.second);
    Write(None, Some(d), [NewDroneEvent(DroneFixed, d, t.second)], DroneReply(d))
  }

  function DecideHeartbeat(id: DroneId, loc: Location, t: Clock, drone: Option<Drone>): Decision {
    if !ValidLocation(loc) then Refuse(Invalid)
    else
      var d := GetOrCreate(drone, id, t.first).(lastLocation := Some(loc), lastHeartbeatAt := Some(t.second),
                                               updatedAt := t.second);
      Write(None, Some(d), [], DroneReply(d))
  }

  function Decide(c: Command, t: Clock, order: Option<Order>, drone: Option<Drone>): Decision {
    match c
    case Submit(id, user, origin, dest) => DecideSubmit(id, user, origin, dest, t, order)
    case Withdraw(user, _) => DecideWithdraw(user, t, order, drone)
    case AdminUpdate(_, newOrigin, newDest) => DecideAdminUpdate(newOrigin, newDest, t, order)
    case Reserve(d, _) => DecideReserve(d, t, order, drone)
    case Pickup(d, _) => DecidePickup(d, t, order)
    case Deliver(d, _) => DecideComplete(d, None, t, order, drone)
    case Fail(d, _, reason) => DecideComplete(d, Some(reason), t, order, drone)
    case MarkBroken(d) => DecideMarkBroken(d, t, order, drone)
    case MarkFixed(d) => DecideMarkFixed(d, t, drone)
    case Heartbeat(d, loc) => DecideHeartbeat(d, loc, t, drone)
  }

  // ---------- Atomic steps ----------

  function Get<K, V>(m: map<K, V>, key: K): Option<V> {
    if key in m then Some(m[key]) else None
  }

  /** The drone row a command reads, given the order row it has read. */
  function DroneKey(c: Command, order: Option<Order>): Option<DroneId> {
    match c
    case Withdraw(_, _) =>
      if order.Some? && order.value.status == Reserved then order.value.assignedDrone else None
    case Reserve(d, _) => Some(d)
    case Deliver(d, _) => Some(d)
    case Fail(d, _, _) => Some(d)
    case MarkBroken(d) => Some(d)
    case MarkFixed(d) => Some(d)
    case Heartbeat(d, _) => Some(d)
    case _ => None
  }

  /** The order row a command reads, given the drones table. */
  function OrderKey(c: Command, drones: map<DroneId, Drone>): Option<OrderId> {
    match c
    case Submit(id, _, _, _) => Some(id)
    case Withdraw(_, id) => Some(id)
    case AdminUpdate(id, _, _) => Some(id)
    case Reserve(_, choice) => choice
    case Pickup(_, id) => Some(id)
    case Deliver(_, id) => Some(id)
    case Fail(_, id, _) => Some(id)
    case MarkBroken(d) => if d in drones then drones[d].currentOrder else None
    case _ => None
  }

  function OrderRead(s: State, c: Command): Option<Order> {
    var key := OrderKey(c, s.drones);
    if key.Some? then Get(s.orders, key.value) else None
  }

  function DroneRead(s: State, c: Command): Option<Drone> {
    var key := DroneKey(c, OrderRead(s, c));
    if key.Some? then Get(s.drones, key.value) else None
  }

  function Apply(s: State, order: Option<Order>, drone: Option<Drone>, events: seq<Event>): State {
    State(if order.Some? then s.orders[order.value.id := order.value] else s.orders,
          if drone.Some? then s.drones[drone.value.id := drone.value] else s.drones,
          s.log + events)
  }

  function Resolve(s: State, decision: Decision): (State, Reply) {
    match decision
    case Refuse(e) => (s, Refused(e))
    case Write(o, d, events, reply) => (Apply(s, o, d, events), reply)
  }

  function Step(s: State, c: Command, t: Clock): (State, Reply) {
    Resolve(s, Decide(c, t, OrderRead(s, c), DroneRead(s, c)))
  }

  /** What the reservation query selects from. */
  predicate Available(o: Order) {
    (o.status == Created || o.status == HandoffRequested) && o.assignedDrone == None
  }

  /** A reservation query only ever returns an available row. Rows other transactions hold locked are
      skipped, so it may return any available row, or none. */
  predicate Legal(s: State, c: Command) {
    c.Reserve? && c.choice.Some? ==> c.choice.value in s.orders && Available(s.orders[c.choice.value])
  }

  /** With no concurrent locks the query returns an oldest available row, and none only if there is none. */
  ghost predicate IsOldest(orders: map<OrderId, Order>, choice: Option<OrderId>) {
    match choice
    case None => forall x :: x in orders ==> !Available(orders[x])
    case Some(o) =>
      && o in orders
      && Available(orders[o])
      && forall x :: x in orders && Available(orders[x]) ==> orders[o].createdAt <= orders[x].createdAt
  }

  ghost predicate LegalFifo(s: State, c: Command) {
    c.Reserve? ==> IsOldest(s.orders, c.choice)
  }

  // ---------- Runs ----------

  datatype Action = Action(command: Command, clock: Clock)

  function Exec(s: State, acts: seq<Action>): State
    decreases |acts|
  {
    if acts == [] then s else Exec(Step(s, acts[0].command, acts[0].clock).0, acts[1..])
  }

  predicate LegalRun(s: State, acts: seq<Action>)
    decreases |acts|
  {
    acts == [] ||
    (Legal(s, acts[0].command) && LegalRun(Step(s, acts[0].command, acts[0].clock).0, acts[1..]))
  }

  ghost predicate FifoRun(s: State, acts: seq<Action>)
    decreases |acts|
  {
    acts == [] ||
    (LegalFifo(s, acts[0].command) && FifoRun(Step(s, acts[0].command, acts[0].clock).0, acts[1..]))
  }

  ghost predicate Reachable(s: State) {
    exists acts :: LegalRun(Empty, acts) && Exec(Empty, acts) == s
  }

  /** Runs compose. */
  lemma {:induction false} ExecConcat(s: State, a: seq<Action>, b: seq<Action>)
    ensures Exec(s, a + b) == Exec(Exec(s, a), b)
    ensures LegalRun(s, a + b) <==> LegalRun(s, a) && LegalRun(Exec(s, a), b)
    ensures FifoRun(s, a + b) <==> FifoRun(s, a) && FifoRun(Exec(s, a), b)
    decreases |a|
  {
    if a == [] {
      assert a + b == b;
    } else {
      assert (a + b)[1..] == a[1..] + b;
      ExecConcat(Step(s, a[0].command, a[0].clock).0, a[1..], b);
    }
  }
}
