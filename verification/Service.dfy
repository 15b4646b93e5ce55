/** The service's operations, statement by statement. Each is proved to be one atomic step of the dispatch
    protocol, with the same answer, whatever statement of it the database may fail; except that a heartbeat
    reads on after its commit, and may then answer an error although it has been recorded. */
module Service {
  import opened Domain
  import opened Events
  import opened Dispatch
  import opened Pairing
  import opened Postgres
  import opened Eta
  import opened Faults

  /** The operation was command `c` with clock readings `t`; or the database failed and nothing changed. */
  ghost predicate Atomic(before: State, after: State, reliable: bool, c: Command, t: Clock, r: Reply) {
    (after, r) == Step(before, c, t) || (!reliable && after == before && r == Refused(Database))
  }

  /** A heartbeat of a drone that holds an order was recorded, but answered an error. */
  ghost predicate LateError(before: State, after: State, d: DroneId, loc: Location, t: Clock, r: Reply) {
    && Pointer(before, d).Some?
    && Step(before, Heartbeat(d, loc), t).1.DroneReply?
    && after == Step(before, Heartbeat(d, loc), t).0
    && r == Refused(Database)
  }

  /** The row of the drone an order names. */
  function DroneOf(s: State, order: Order): Option<Drone> {
    if order.assignedDrone.Some? then Get(s.drones, order.assignedDrone.value) else None
  }

  /** What a drone is shown of the order it holds. */
  function CurrentView(m: Maths, speed: real, s: State, drone: Drone): Option<OrderView> {
    if drone.currentOrder.None? || drone.currentOrder.value !in s.orders then None
    else
      var order := s.orders[drone.currentOrder.value];
      Some(ViewOf(m, order, DroneOf(s, order), speed))
  }

  /** The view a heartbeat answers with is of the order its drone holds; once that is picked up, it is where
      the heartbeat says. */
  lemma HeartbeatShowsPosition(m: Maths, speed: real, s: State, d: DroneId, loc: Location, t: Clock)
    requires Inv(s) && Step(s, Heartbeat(d, loc), t).1.DroneReply?
    ensures var (s', r) := Step(s, Heartbeat(d, loc), t);
            var view := CurrentView(m, speed, s', r.droneRow);
            && (view.Some? <==> Pointer(s, d).Some?)
            && (view.Some? ==>
                  && Some(view.value.order.id) == Pointer(s, d)
                  && IsActive(view.value.order.status) && view.value.order.assignedDrone == Some(d)
                  && (view.value.order.status == PickedUp ==> view.value.currentLocation == Some(loc)))
  {
    if Pointer(s, d).Some? {
      HeldOrder(s, d, Pointer(s, d).value);
    }
  }

  /** Rows stay under their own ids, so operations can follow one another. */
  lemma KeysKept(before: State, after: State, reliable: bool, c: Command, t: Clock, r: Reply)
    requires Keyed(before)
    requires Atomic(before, after, reliable, c, t, r) ||
             (c.Heartbeat? && LateError(before, after, c.drone, c.loc, t, r))
    ensures Keyed(after)
  {
    var w := Decide(c, t, OrderRead(before, c), DroneRead(before, c));
    assert w.Write? ==> Keyed(Apply(before, w.order, w.drone, w.events));
  }

  /** The order a broken drone held is handed off or requeued, and announced; in any other status it is left
      alone. */
  ghost predicate Released(before: State, after: State, drone: Drone, id: OrderId, now: Time) {
    && id in before.orders
    && var o := before.orders[id];
       match o.status
       case PickedUp =>
         var o' := HandedOffOrder(o, drone.lastLocation, now);
         && after.orders == before.orders[id := o']
         && after.log == before.log + [NewOrderEvent(OrderHandoffRequested, o', Some(drone), now)]
       case Reserved =>
         var o' := RequeuedOrder(o, now);
         && after.orders == before.orders[id := o']
         && after.log == before.log + [NewOrderEvent(OrderUpdated, o', Some(drone), now)]
       case _ => after.orders == before.orders && after.log == before.log
  }

  /** Releasing the order, then writing and announcing the drone, is a breakdown. */
  lemma ReleaseIsBreakdown(s: State, after: State, d: DroneId, t: Clock)
    requires Keyed(s)
    requires var drone := GetOrCreate(Get(s.drones, d), d, t.first).(status := Broken);
             if drone.currentOrder.Some? then Released(s, after, drone, drone.currentOrder.value, t.second)
             else after.orders == s.orders && after.log == s.log
    ensures var drone := BrokenDrone(GetOrCreate(Get(s.drones, d), d, t.first), t.second);
            Step(s, MarkBroken(d), t) ==
            (State(after.orders, s.drones[d := drone], after.log + [NewDroneEvent(DroneBroken, drone, t.second)]),
             DroneReply(drone))
  {
    var drone := BrokenDrone(GetOrCreate(Get(s.drones, d), d, t.first), t.second);
    var ev := NewDroneEvent(DroneBroken, drone, t.second);
    var w := DecideMarkBroken(d, t, OrderRead(s, MarkBroken(d)), Get(s.drones, d));
    assert w.Write? && after.log + [ev] == s.log + w.events;
    assert Apply(s, w.order, w.drone, w.events).orders == after.orders;
  }

  class Service {
    const store: Store
    const maths: Maths
    const speed: real
    var clock: Time

    constructor (store: Store, maths: Maths, speed: real)
      ensures this.store == store && this.maths == maths && this.speed == speed
    {
      this.store := store;
      this.maths := maths;
      this.speed := speed;
      clock := 0;
    }

    method Now() returns (t: Time)
      modifies this`clock
      ensures t == clock && old(clock) <= clock
    {
      t :| clock <= t;
      clock := t;
    }

    /** `id` is the identifier the generator returned. */
    method SubmitOrder(id: OrderId, userId: UserId, origin: Location, dest: Location) returns (r: Reply, ghost t: Clock)
      modifies this`clock, store
      ensures Atomic(old(store.View()), store.View(), store.reliable, Submit(id, userId, origin, dest), t, r)
      ensures old(clock) <= t.first <= t.second <= clock
    {
      t := Clock(clock, clock);
      if !ValidLocation(origin) { return Refused(Invalid), t; }
      if !ValidLocation(dest) { return Refused(Invalid), t; }
      var tx := new Tx(store);
      var now := Now();
      t := Clock(now, now);
      var order := NewOrder(id, userId, origin, dest, now);
      var err := tx.CreateOrder(order);
      if err.Some? { return Refused(err.value), t; }
      err := tx.EnqueueEvent(NewOrderEvent(OrderCreated, order, None, now));
      if err.Some? { return Refused(err.value), t; }
      err := tx.Commit();
      if err.Some? { return Refused(err.value), t; }
      r := OrderReply(order);
    }

    method WithdrawOrder(userId: UserId, orderId: OrderId) returns (r: Reply, ghost t: Clock)
      requires Keyed(store.View())
      modifies this`clock, store
      ensures Atomic(old(store.View()), store.View(), store.reliable, Withdraw(userId, orderId), t, r)
      ensures old(clock) <= t.first <= t.second <= clock
    {
      t := Clock(clock, clock);
      var tx := new Tx(store);
      var found := tx.GetOrderForUpdate(orderId);
      if found.Err? { return Refused(found.error), t; }
      var order := found.value;
      if order.userId != userId { return Refused(Forbidden), t; }
      if order.status != Created && order.status != Reserved { return Refused(Precondition), t; }
      if order.status == Reserved && order.assignedDrone.Some? {
        var held := tx.GetDroneForUpdate(order.assignedDrone.value);
        if held.Err? { return Refused(held.error), t; }
        var drone := held.value;
        drone := drone.(currentOrder := None);
        var freed := Now();
        t := Clock(freed, freed);
        drone := drone.(updatedAt := freed);
        var err := tx.UpdateDrone(drone);
        if err.Some? { return Refused(err.value), t; }
      }
      var now := Now();
      t := Clock(t.first, now);
      order := order.(status := Withdrawn);
      order := order.(assignedDrone := None);
      order := order.(updatedAt := now);
      var err := tx.UpdateOrder(order);
      if err.Some? { return Refused(err.value), t; }
      err := tx.EnqueueEvent(NewOrderEvent(OrderWithdrawn, order, None, now));
      if err.Some? { return Refused(err.value), t; }
      err := tx.Commit();
      if err.Some? { return Refused(err.value), t; }
      r := OrderReply(order);
    }

    method AdminUpdateOrder(orderId: OrderId, origin: Option<Location>, dest: Option<Location>)
      returns (r: Reply, ghost t: Clock)
      requires Keyed(store.View())
      modifies this`clock, store
      ensures Atomic(old(store.View()), store.View(), store.reliable, AdminUpdate(orderId, origin, dest), t, r)
      ensures old(clock) <= t.first <= t.second <= clock
    {
      t := Clock(clock, clock);
      var tx := new Tx(store);
      var found := tx.GetOrderForUpdate(orderId);
      if found.Err? { return Refused(found.error), t; }
      var order := found.value;
      if IsTerminal(order.status) { return Refused(Precondition), t; }
      if origin.Some? {
        if !ValidLocation(origin.value) { return Refused(Invalid), t; }
        order := order.(origin := origin.value);
      }
      if dest.Some? {
        if !ValidLocation(dest.value) { return Refused(Invalid), t; }
        order := order.(destination := dest.value);
      }
      var updated := Now();
      t := Clock(updated, updated);
      order := order.(updatedAt := updated);
      var err := tx.UpdateOrder(order);
      if err.Some? { return Refused(err.value), t; }
      var now := Now();
      t := Clock(updated, now);
      err := tx.EnqueueEvent(NewOrderEvent(OrderUpdated, order, None, now));
      if err.Some? { return Refused(err.value), t; }
      err := tx.Commit();
      if err.Some? { return Refused(err.value), t; }
      r := OrderReply(order);
    }

    /** The drone's row, inserted first if it is not there. */
    method GetOrCreateDrone(tx: Tx, droneId: DroneId, now: Time) returns (r: Result<Drone>)
      requires tx.store == store && (droneId in tx.drones ==> tx.drones[droneId].id == droneId)
      modifies tx`drones
      ensures r.Err? ==> r.error == Database && !store.reliable
      ensures r.Ok? ==>
                && r.value == GetOrCreate(Get(old(tx.drones), droneId), droneId, now)
                && r.value.id == droneId
                && tx.drones == old(tx.drones)[droneId := r.value]
    {
      var found := tx.GetDroneForUpdate(droneId);
      if found.Ok? { return found; }
      if found.error != NotFound { return Err(found.error); }
      var drone := NewDrone(droneId, now);
      var err := tx.CreateDrone(drone);
      if err.Some? { return Err(err.value); }
      r := Ok(drone);
    }

    method DroneReserveJob(droneId: DroneId) returns (r: Reply, ghost choice: Option<OrderId>, ghost t: Clock)
      requires Keyed(store.View())
      modifies this`clock, store
      ensures Atomic(old(store.View()), store.View(), store.reliable, Reserve(droneId, choice), t, r)
      ensures r.OrderReply? || r == Refused(NoJob) ==> IsOldest(old(store.orders), choice)
      ensures old(clock) <= t.first <= t.second <= clock
    {
      choice := None;
      var tx := new Tx(store);
      var first := Now();
      t := Clock(first, first);
      var got := GetOrCreateDrone(tx, droneId, first);
      if got.Err? { return Refused(got.error), choice, t; }
      var drone := got.value;
      if drone.status == Broken { return Refused(Precondition), choice, t; }
      if drone.currentOrder.Some? { return Refused(Conflict), choice, t; }
      var next := tx.ReserveNextOrder([Created, HandoffRequested]);
      if next.Err? { return Refused(next.error), choice, t; }
      choice := next.value;
      if next.value.None? { return Refused(NoJob), choice, t; }
      var now := Now();
      t := Clock(first, now);
      var err, order := AssignJob(tx, drone, tx.orders[next.value.value], now);
      if err.Some? { return Refused(err.value), choice, t; }
      assert tx.drones == old(store.drones)[droneId := BusyDrone(drone, order.id, now)];
      err := tx.Commit();
      if err.Some? { return Refused(err.value), choice, t; }
      r := OrderReply(order);
    }

    /** The statements of a reservation once the job is found. */
    method AssignJob(tx: Tx, drone: Drone, job: Order, now: Time) returns (err: Option<Error>, order: Order)
      requires tx.store == store
      requires Get(tx.orders, job.id) == Some(job) && Get(tx.drones, drone.id) == Some(drone)
      modifies tx
      ensures err.Some? ==> err.value == Database && !store.reliable
      ensures err.None? ==>
                var busy := BusyDrone(drone, job.id, now);
                && order == ReservedOrder(job, drone.id, now)
                && tx.orders == old(tx.orders)[job.id := order]
                && tx.drones == old(tx.drones)[drone.id := busy]
                && tx.log == old(tx.log) + [NewOrderEvent(OrderReserved, order, Some(busy), now)]
    {
      order := job;
      order := order.(status := Reserved);
      order := order.(assignedDrone := Some(drone.id));
      order := order.(reservedAt := Some(now));
      order := order.(updatedAt := now);
      err := tx.UpdateOrder(order);
      if err.Some? { return; }
      var busy := drone;
      busy := busy.(currentOrder := Some(order.id));
      busy := busy.(updatedAt := now);
      err := tx.UpdateDrone(busy);
      if err.Some? { return; }
      err := tx.EnqueueEvent(NewOrderEvent(OrderReserved, order, Some(busy), now));
    }

    method DronePickup(droneId: DroneId, orderId: OrderId) returns (r: Reply, ghost t: Clock)
      requires Keyed(store.View())
      modifies this`clock, store
      ensures Atomic(old(store.View()), store.View(), store.reliable, Pickup(droneId, orderId), t, r)
      ensures old(clock) <= t.first <= t.second <= clock
    {
      t := Clock(clock, clock);
      var tx := new Tx(store);
      var found := tx.GetOrderForUpdate(orderId);
      if found.Err? { return Refused(found.error), t; }
      var order := found.value;
      if order.assignedDrone.None? || order.assignedDrone.value != droneId { return Refused(Forbidden), t; }
      if order.status != Reserved && order.status != HandoffRequested { return Refused(Precondition), t; }
      var now := Now();
      t := Clock(now, now);
      order := order.(status := PickedUp);
      order := order.(pickedUpAt := Some(now));
      order := order.(updatedAt := now);
      var err := tx.UpdateOrder(order);
      if err.Some? { return Refused(err.value), t; }
      var later := Now();
      t := Clock(now, later);
      err := tx.EnqueueEvent(NewOrderEvent(OrderPickedUp, order, None, later));
      if err.Some? { return Refused(err.value), t; }
      err := tx.Commit();
      if err.Some? { return Refused(err.value), t; }
      r := OrderReply(order);
    }

    /** Delivery without a reason, failure with one. */
    method CompleteOrderForDrone(droneId: DroneId, orderId: OrderId, status: OrderStatus, reason: string)
      returns (r: Reply, ghost t: Clock)
      requires Keyed(store.View())
      requires (status == Delivered && reason == "") || (status == Failed && reason != "")
      modifies this`clock, store
      ensures Atomic(old(store.View()), store.View(), store.reliable,
                     if status == Delivered then Deliver(droneId, orderId) else Fail(droneId, orderId, reason), t, r)
      ensures old(clock) <= t.first <= t.second <= clock
    {
      t := Clock(clock, clock);
      var tx := new Tx(store);
      var found := tx.GetOrderForUpdate(orderId);
      if found.Err? { return Refused(found.error), t; }
      var order := found.value;
      if order.assignedDrone.None? || order.assignedDrone.value != droneId { return Refused(Forbidden), t; }
      if order.status != PickedUp { return Refused(Precondition), t; }
      var now := Now();
      t := Clock(now, now);
      order := order.(status := status);
      order := order.(updatedAt := now);
      if status == Delivered {
        order := order.(deliveredAt := Some(now));
      } else {
        order := order.(failedAt := Some(now));
        if reason != "" {
          order := order.(failureReason := Some(reason));
        }
      }
      var err := tx.UpdateOrder(order);
      if err.Some? { return Refused(err.value), t; }
      var held := tx.GetDroneForUpdate(droneId);
      if held.Err? { return Refused(held.error), t; }
      var drone := held.value;
      drone := drone.(currentOrder := None);
      drone := drone.(updatedAt := now);
      err := tx.UpdateDrone(drone);
      if err.Some? { return Refused(err.value), t; }
      var kind := OrderDelivered;
      if status == Failed {
        kind := OrderFailed;
      }
      err := tx.EnqueueEvent(NewOrderEvent(kind, order, Some(drone), now));
      if err.Some? { return Refused(err.value), t; }
      err := tx.Commit();
      if err.Some? { return Refused(err.value), t; }
      r := OrderReply(order);
    }

    method DroneDeliver(droneId: DroneId, orderId: OrderId) returns (r: Reply, ghost t: Clock)
      requires Keyed(store.View())
      modifies this`clock, store
      ensures Atomic(old(store.View()), store.View(), store.reliable, Deliver(droneId, orderId), t, r)
      ensures old(clock) <= t.first <= t.second <= clock
    {
      r, t := CompleteOrderForDrone(droneId, orderId, Delivered, "");
    }

    method DroneFail(droneId: DroneId, orderId: OrderId, reason: string) returns (r: Reply, ghost t: Clock)
      requires Keyed(store.View())
      modifies this`clock, store
      ensures Atomic(old(store.View()), store.View(), store.reliable, Fail(droneId, orderId, reason), t, r)
      ensures old(clock) <= t.first <= t.second <= clock
    {
      t := Clock(clock, clock);
      if reason == "" { return Refused(Invalid), t; }
      r, t := CompleteOrderForDrone(droneId, orderId, Failed, reason);
    }

    /** The case analysis of a breakdown: hand off, requeue, or only let go of the order `orderId`. */
    method ReleaseOrder(tx: Tx, drone: Drone, orderId: OrderId, now: Time) returns (err: Option<Error>, released: Drone)
      requires tx.store == store && (orderId in tx.orders ==> tx.orders[orderId].id == orderId)
      modifies tx`orders, tx`log
      ensures err.Some? ==> (err.value == NotFound && orderId !in tx.orders && orderId !in old(tx.orders))
                            || (err.value == Database && !store.reliable)
      ensures err.None? ==>
                && released == drone.(currentOrder := None)
                && Released(old(tx.View()), tx.View(), drone, orderId, now)
    {
      released := drone;
      var found := tx.GetOrderForUpdate(orderId);
      if found.Err? { return Some(found.error), released; }
      var order := found.value;
      if order.status == PickedUp {
        order := order.(status := HandoffRequested);
        order := order.(assignedDrone := None);
        if drone.lastLocation.Some? {
          order := order.(handoffOrigin := Some(drone.lastLocation.value));
        }
        order := order.(updatedAt := now);
        err := tx.UpdateOrder(order);
        if err.Some? { return; }
        released := released.(currentOrder := None);
        err := tx.EnqueueEvent(NewOrderEvent(OrderHandoffRequested, order, Some(released), now));
      } else if order.status == Reserved {
        order := order.(status := Created);
        order := order.(assignedDrone := None);
        order := order.(reservedAt := None);
        order := order.(handoffOrigin := None);
        order := order.(updatedAt := now);
        err := tx.UpdateOrder(order);
        if err.Some? { return; }
        released := released.(currentOrder := None);
        err := tx.EnqueueEvent(NewOrderEvent(OrderUpdated, order, Some(released), now));
      } else {
        released := released.(currentOrder := None);
        err := None;
      }
    }

    method DroneMarkBroken(droneId: DroneId) returns (r: Reply, ghost t: Clock)
      requires Keyed(store.View())
      modifies this`clock, store
      ensures Atomic(old(store.View()), store.View(), store.reliable, MarkBroken(droneId), t, r)
      ensures old(clock) <= t.first <= t.second <= clock
    {
      ghost var s := store.View();
      var tx := new Tx(store);
      var first := Now();
      t := Clock(first, first);
      var got := GetOrCreateDrone(tx, droneId, first);
      if got.Err? { return Refused(got.error), t; }
      var drone := got.value;
      var now := Now();
      t := Clock(first, now);
      drone := drone.(status := Broken);
      var err: Option<Error> := None;
      if drone.currentOrder.Some? {
        err, drone := ReleaseOrder(tx, drone, drone.currentOrder.value, now);
        if err.Some? { return Refused(err.value), t; }
      }
      ReleaseIsBreakdown(s, tx.View(), droneId, t);
      drone := drone.(updatedAt := now);
      err := tx.UpdateDrone(drone);
      if err.Some? { return Refused(err.value), t; }
      assert tx.drones == s.drones[droneId := drone];
      err := tx.EnqueueEvent(NewDroneEvent(DroneBroken, drone, now));
      if err.Some? { return Refused(err.value), t; }
      err := tx.Commit();
      if err.Some? { return Refused(err.value), t; }
      r := DroneReply(drone);
    }

    method DroneMarkFixed(droneId: DroneId) returns (r: Reply, ghost t: Clock)
      requires Keyed(store.View())
      modifies this`clock, store
      ensures Atomic(old(store.View()), store.View(), store.reliable, MarkFixed(droneId), t, r)
      ensures old(clock) <= t.first <= t.second <= clock
    {
      var tx := new Tx(store);
      var first := Now();
      t := Clock(first, first);
      var got := GetOrCreateDrone(tx, droneId, first);
      if got.Err? { return Refused(got.error), t; }
      var drone := got.value;
      var now := Now();
      t := Clock(first, now);
      drone := drone.(status := Active);
      drone := drone.(updatedAt := now);
      var err := tx.UpdateDrone(drone);
      if err.Some? { return Refused(err.value), t; }
      assert tx.drones == old(store.drones)[droneId := drone];
      err := tx.EnqueueEvent(NewDroneEvent(DroneFixed, drone, now));
      if err.Some? { return Refused(err.value), t; }
      err := tx.Commit();
      if err.Some? { return Refused(err.value), t; }
      r := DroneReply(drone);
    }

    /** Reads the row of the order's drone, if it names one, outside of any transaction. */
    method BuildOrderView(order: Order) returns (r: Result<OrderView>)
      ensures r.Ok? ==> r.value == ViewOf(maths, order, DroneOf(store.View(), order), speed)
      ensures r.Err? ==> r.error == Database && !store.pool.Sound? && order.assignedDrone.Some?
      ensures store.pool.Down? && order.assignedDrone.Some? ==> r.Err?
    {
      var drone: Option<Drone> := None;
      if order.assignedDrone.Some? {
        var found := store.GetDrone(order.assignedDrone.value);
        if found.Err? && found.error != NotFound { return Err(found.error); }
        if found.Ok? {
          drone := Some(found.value);
        }
      }
      var eta := ComputeEta(maths, order, drone, speed);
      var loc := CurrentLocation(order, drone);
      r := Ok(OrderView(order, loc, eta));
    }

    /** The view of the order that `drone` points at. */
    method ReadCurrentOrder(drone: Drone) returns (r: Result<Option<OrderView>>)
      ensures r.Ok? ==> r.value == CurrentView(maths, speed, store.View(), drone)
      ensures r.Err? ==> r.error == Database && !store.pool.Sound? && drone.currentOrder.Some?
      ensures store.pool.Down? && drone.currentOrder.Some? ==> r.Err?
    {
      if drone.currentOrder.None? { return Ok(None); }
      var found := store.GetOrder(drone.currentOrder.value);
      if found.Err? && found.error != NotFound { return Err(found.error); }
      if found.Err? { return Ok(None); }
      var view := BuildOrderView(found.value);
      if view.Err? { return Err(view.error); }
      r := Ok(Some(view.value));
    }

    /** The current order is read after the commit. */
    method DroneHeartbeat(droneId: DroneId, loc: Location) returns (r: Reply, view: Option<OrderView>, ghost t: Clock)
      requires Keyed(store.View())
      modifies this`clock, store
      ensures Atomic(old(store.View()), store.View(), store.reliable, Heartbeat(droneId, loc), t, r)
              || (!store.pool.Sound? && LateError(old(store.View()), store.View(), droneId, loc, t, r))
      ensures store.reliable && store.pool.Down? && ValidLocation(loc) && Pointer(old(store.View()), droneId).Some? ==>
                LateError(old(store.View()), store.View(), droneId, loc, t, r)
      ensures r.DroneReply? ==> view == CurrentView(maths, speed, store.View(), r.droneRow)
      ensures old(clock) <= t.first <= t.second <= clock
    {
      t, view := Clock(clock, clock), None;
      if !ValidLocation(loc) { return Refused(Invalid), None, t; }
      r, t := RecordHeartbeat(droneId, loc);
      if r.Refused? { return; }
      var read := ReadCurrentOrder(r.droneRow);
      if read.Err? { return Refused(read.error), None, t; }
      view := read.value;
    }

    /** The transaction of a heartbeat. */
    method RecordHeartbeat(droneId: DroneId, loc: Location) returns (r: Reply, ghost t: Clock)
      requires Keyed(store.View()) && ValidLocation(loc)
      modifies this`clock, store
      ensures Atomic(old(store.View()), store.View(), store.reliable, Heartbeat(droneId, loc), t, r)
      ensures old(clock) <= t.first <= t.second <= clock
    {
      var tx := new Tx(store);
      var first := Now();
      t := Clock(first, first);
      var got := GetOrCreateDrone(tx, droneId, first);
      if got.Err? { return Refused(got.error), t; }
      var drone := got.value;
      var now := Now();
      t := Clock(first, now);
      drone := drone.(lastLocation := Some(loc));
      drone := drone.(lastHeartbeatAt := Some(now));
      drone := drone.(updatedAt := now);
      var err := tx.UpdateDrone(drone);
      if err.Some? { return Refused(err.value), t; }
      assert tx.drones == old(store.drones)[droneId := drone];
      assert tx.log == old(store.log) + [];
      err := tx.Commit();
      if err.Some? { return Refused(err.value), t; }
      r := DroneReply(drone);
    }
  }

  /** It happens: with the pool down, a drone that sends its first position while holding an order gets an
      error, and the position is stored. */
  method HeartbeatFailsLate(maths: Maths, speed: real, loc: Location)
    returns (store: Store, before: Option<Location>, r: Reply)
    requires ValidLocation(loc)
    ensures r == Refused(Database) && before == None
    ensures "drone" in store.drones && store.drones["drone"].lastLocation == Some(loc)
    ensures store.drones["drone"].currentOrder == Some("order")
  {
    store := new Store(true, Down);
    var service := new Service(store, maths, speed);
    var view;
    ghost var t, choice;
    r, t := service.SubmitOrder("order", "user", loc, loc);
    assert store.orders.Keys == {"order"} && Available(store.orders["order"]);
    r, choice, t := service.DroneReserveJob("drone");
    assert choice == Some("order") && r.OrderReply?;
    before := store.drones["drone"].lastLocation;
    r, view, t := service.DroneHeartbeat("drone", loc);
  }
}
