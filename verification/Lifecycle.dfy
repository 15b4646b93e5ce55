/** Time stamps, reasons and positions of every stored row, over every run with a nondecreasing clock. */
module Lifecycle {
  import opened Domain
  import opened Events
  import opened Dispatch
  import opened Conservation

  predicate Between(lo: Time, t: Option<Time>, hi: Time) {
    t.Some? ==> lo <= t.value <= hi
  }

  predicate StampsOk(o: Order, now: Time) {
    && o.createdAt <= o.updatedAt <= now
    && Between(o.createdAt, o.reservedAt, now)
    && Between(o.createdAt, o.pickedUpAt, now)
    && (o.status == Created ==> o.reservedAt == None && o.handoffOrigin == None)
    && (o.status == Reserved ==> o.reservedAt.Some? && Between(o.createdAt, o.pickedUpAt, o.reservedAt.value))
    && (Carried(o.status) || o.status == HandoffRequested ==>
          o.reservedAt.Some? && o.pickedUpAt.Some? && o.reservedAt.value <= o.pickedUpAt.value)
  }

  predicate OutcomeOk(o: Order, now: Time) {
    && (o.deliveredAt.Some? <==> o.status == Delivered)
    && (o.failedAt.Some? <==> o.status == Failed)
    && (o.failureReason.Some? <==> o.status == Failed)
    && (o.failureReason.Some? ==> o.failureReason.value != "")
    && (o.pickedUpAt.Some? ==> Between(o.pickedUpAt.value, o.deliveredAt, now) &&
                               Between(o.pickedUpAt.value, o.failedAt, now))
  }

  predicate PlacesOk(o: Order) {
    && ValidLocation(o.origin)
    && ValidLocation(o.destination)
    && (o.handoffOrigin.Some? ==> ValidLocation(o.handoffOrigin.value))
  }

  predicate OrderOk(o: Order, now: Time) {
    StampsOk(o, now) && OutcomeOk(o, now) && PlacesOk(o)
  }

  predicate DroneOk(d: Drone, now: Time) {
    && d.createdAt <= d.updatedAt <= now
    && (d.lastLocation.Some? <==> d.lastHeartbeatAt.Some?)
    && Between(d.createdAt, d.lastHeartbeatAt, now)
    && (d.lastLocation.Some? ==> ValidLocation(d.lastLocation.value))
  }

  ghost predicate RowsOk(s: State, now: Time) {
    && (forall o :: o in s.orders ==> OrderOk(s.orders[o], now))
    && (forall d :: d in s.drones ==> DroneOk(s.drones[d], now))
  }

  /** The service reads a clock that never runs backwards. */
  predicate ClockRun(now: Time, acts: seq<Action>)
    decreases |acts|
  {
    acts == [] ||
    (now <= acts[0].clock.first <= acts[0].clock.second && ClockRun(acts[0].clock.second, acts[1..]))
  }

  /** The clock after a run. */
  function ClockAfter(now: Time, acts: seq<Action>): Time
    decreases |acts|
  {
    if acts == [] then now else ClockAfter(acts[0].clock.second, acts[1..])
  }

  /** The rows a command writes are as orderly as the rows it read. */
  ghost predicate KeepsRows(order: Option<Order>, drone: Option<Drone>, now: Time, t: Clock, w: Decision) {
    && now <= t.first <= t.second
    && (order.Some? ==> OrderOk(order.value, now))
    && (drone.Some? ==> DroneOk(drone.value, now))
    && w.Write? ==>
      && (w.order.Some? ==> OrderOk(w.order.value, t.second))
      && (w.drone.Some? ==> DroneOk(w.drone.value, t.second))
  }

  lemma UserRows(c: Command, t: Clock, order: Option<Order>, drone: Option<Drone>, now: Time)
    requires c.Submit? || c.Withdraw? || c.AdminUpdate?
    ensures KeepsRows(order, drone, now, t, Decide(c, t, order, drone))
  {
  }

  lemma CourierRows(c: Command, t: Clock, order: Option<Order>, drone: Option<Drone>, now: Time)
    requires c.Reserve? || c.Pickup?
    requires c.Reserve? && order.Some? ==> Available(order.value)
    ensures KeepsRows(order, drone, now, t, Decide(c, t, order, drone))
  {
  }

  lemma CompletionRows(id: DroneId, reason: Option<string>, t: Clock,
                       order: Option<Order>, drone: Option<Drone>, now: Time)
    ensures KeepsRows(order, drone, now, t, DecideComplete(id, reason, t, order, drone))
  {
  }

  lemma UpkeepRows(c: Command, t: Clock, order: Option<Order>, drone: Option<Drone>, now: Time)
    requires c.MarkFixed? || c.Heartbeat?
    ensures KeepsRows(order, drone, now, t, Decide(c, t, order, drone))
  {
  }

  lemma BreakdownRows(id: DroneId, t: Clock, order: Option<Order>, drone: Option<Drone>, now: Time)
    ensures KeepsRows(order, drone, now, t, DecideMarkBroken(id, t, order, drone))
  {
  }

  lemma WrittenRowsOk(c: Command, t: Clock, order: Option<Order>, drone: Option<Drone>, now: Time)
    requires c.Reserve? && order.Some? ==> Available(order.value)
    ensures KeepsRows(order, drone, now, t, Decide(c, t, order, drone))
  {
    match c
    case Submit(_, _, _, _) => UserRows(c, t, order, drone, now);
    case Withdraw(_, _) => UserRows(c, t, order, drone, now);
    case AdminUpdate(_, _, _) => UserRows(c, t, order, drone, now);
    case Reserve(_, _) => CourierRows(c, t, order, drone, now);
    case Pickup(_, _) => CourierRows(c, t, order, drone, now);
    case Deliver(id, _) => CompletionRows(id, None, t, order, drone, now);
    case Fail(id, _, reason) => CompletionRows(id, Some(reason), t, order, drone, now);
    case MarkBroken(id) => BreakdownRows(id, t, order, drone, now);
    case MarkFixed(_) => UpkeepRows(c, t, order, drone, now);
    case Heartbeat(_, _) => UpkeepRows(c, t, order, drone, now);
  }

  lemma ApplyRowsOk(s: State, order: Option<Order>, drone: Option<Drone>, events: seq<Event>, now: Time, later: Time)
    requires RowsOk(s, now) && now <= later
    requires order.Some? ==> OrderOk(order.value, later)
    requires drone.Some? ==> DroneOk(drone.value, later)
    ensures RowsOk(Apply(s, order, drone, events), later)
  {
  }

  lemma RowsOkStep(s: State, c: Command, t: Clock, now: Time)
    requires RowsOk(s, now) && Legal(s, c) && now <= t.first <= t.second
    ensures RowsOk(Step(s, c, t).0, t.second)
  {
    var order, drone := OrderRead(s, c), DroneRead(s, c);
    var w := Decide(c, t, order, drone);
    WrittenRowsOk(c, t, order, drone, now);
    if w.Write? {
      ApplyRowsOk(s, w.order, w.drone, w.events, now, t.second);
    } else {
      ApplyRowsOk(s, None, None, [], now, t.second);
    }
  }

  /** The life-cycle laws hold after every run. */
  lemma {:induction false} RowsOkRun(s: State, acts: seq<Action>, now: Time)
    requires RowsOk(s, now) && LegalRun(s, acts) && ClockRun(now, acts)
    ensures RowsOk(Exec(s, acts), ClockAfter(now, acts))
    decreases |acts|
  {
    if acts != [] {
      RowsOkStep(s, acts[0].command, acts[0].clock, now);
      RowsOkRun(Step(s, acts[0].command, acts[0].clock).0, acts[1..], acts[0].clock.second);
    }
  }

  /** Every run from the empty tables, started at any time. */
  lemma LifecycleHolds(acts: seq<Action>, now: Time)
    requires LegalRun(Empty, acts) && ClockRun(now, acts)
    ensures RowsOk(Exec(Empty, acts), ClockAfter(now, acts))
  {
    RowsOkRun(Empty, acts, now);
  }
}
