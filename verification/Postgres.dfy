/** The store and its transactions, as one transaction sees them when nothing runs beside it.
    A transaction works on private versions of the tables and commit publishes them; leaving without a
    commit, which is what the deferred rollback does, discards them. */
module Postgres {
  import opened Domain
  import opened Events
  import opened Dispatch
  import Faults

  datatype Result<+T> = Ok(value: T) | Err(error: Error)

  class Store {
    var orders: map<OrderId, Order>
    var drones: map<DroneId, Drone>
    var log: seq<Event>
    /** Whether every statement of a transaction reaches the database. */
    const reliable: bool
    /** How queries outside of transactions, straight on the pool, fare. */
    const pool: Faults.Health

    constructor (reliable: bool, pool: Faults.Health)
      ensures this.reliable == reliable && this.pool == pool && View() == Empty
    {
      this.reliable := reliable;
      this.pool := pool;
      orders, drones, log := map[], map[], [];
    }

    function View(): State
      reads this
    {
      State(orders, drones, log)
    }

    /** The contract of a read outside of a transaction. */
    predicate Finds<T(==)>(stored: Option<T>, r: Result<T>) {
      match r
      case Ok(value) => !pool.Down? && stored == Some(value)
      case Err(e) => (e == NotFound && !pool.Down? && stored == None) || (e == Database && !pool.Sound?)
    }

    method GetOrder(id: OrderId) returns (r: Result<Order>)
      ensures Finds(Get(orders, id), r)
    {
      var broken := Faults.Breaks(pool.Sound?);
      if broken || pool.Down? { return Err(Database); }
      if id !in orders { return Err(NotFound); }
      r := Ok(orders[id]);
    }

    method GetDrone(id: DroneId) returns (r: Result<Drone>)
      ensures Finds(Get(drones, id), r)
    {
      var broken := Faults.Breaks(pool.Sound?);
      if broken || pool.Down? { return Err(Database); }
      if id !in drones { return Err(NotFound); }
      r := Ok(drones[id]);
    }
  }

  class Tx {
    const store: Store
    var orders: map<OrderId, Order>
    var drones: map<DroneId, Drone>
    var log: seq<Event>

    constructor (store: Store)
      ensures this.store == store && View() == store.View()
    {
      this.store := store;
      orders, drones, log := store.orders, store.drones, store.log;
    }

    function View(): State
      reads this
    {
      State(orders, drones, log)
    }

    method Commit() returns (err: Option<Error>)
      modifies store
      ensures err.None? ==> store.View() == View()
      ensures err.Some? ==> err == Some(Database) && !store.reliable && store.View() == old(store.View())
    {
      var broken := Faults.Breaks(store.reliable);
      if broken { return Some(Database); }
      store.orders, store.drones, store.log := orders, drones, log;
      err := None;
    }

    method GetOrderForUpdate(id: OrderId) returns (r: Result<Order>)
      ensures r.Ok? ==> id in orders && r.value == orders[id]
      ensures r.Err? ==> (r.error == NotFound && id !in orders) || (r.error == Database && !store.reliable)
    {
      var broken := Faults.Breaks(store.reliable);
      if broken { return Err(Database); }
      if id !in orders { return Err(NotFound); }
      r := Ok(orders[id]);
    }

    method GetDroneForUpdate(id: DroneId) returns (r: Result<Drone>)
      ensures r.Ok? ==> id in drones && r.value == drones[id]
      ensures r.Err? ==> (r.error == NotFound && id !in drones) || (r.error == Database && !store.reliable)
    {
      var broken := Faults.Breaks(store.reliable);
      if broken { return Err(Database); }
      if id !in drones { return Err(NotFound); }
      r := Ok(drones[id]);
    }

    /** A duplicate key is a database error, not one of the service's own. */
    method CreateOrder(order: Order) returns (err: Option<Error>)
      modifies this`orders
      ensures err.None? ==> order.id !in old(orders) && orders == old(orders)[order.id := order]
      ensures err.Some? ==> err == Some(Database) && orders == old(orders) && (store.reliable ==> order.id in orders)
    {
      var broken := Faults.Breaks(store.reliable);
      if broken || order.id in orders { return Some(Database); }
      orders := orders[order.id := order];
      err := None;
    }

    method CreateDrone(drone: Drone) returns (err: Option<Error>)
      modifies this`drones
      ensures err.None? ==> drone.id !in old(drones) && drones == old(drones)[drone.id := drone]
      ensures err.Some? ==> err == Some(Database) && drones == old(drones) && (store.reliable ==> drone.id in drones)
    {
      var broken := Faults.Breaks(store.reliable);
      if broken || drone.id in drones { return Some(Database); }
      drones := drones[drone.id := drone];
      err := None;
    }

    /** Updating a row that is not there changes nothing and is no error; the creation time is not among the
        columns updated. */
    method UpdateOrder(order: Order) returns (err: Option<Error>)
      modifies this`orders
      ensures err.None? ==>
                orders == if order.id in old(orders)
                          then old(orders)[order.id := order.(createdAt := old(orders)[order.id].createdAt)]
                          else old(orders)
      ensures err.Some? ==> err == Some(Database) && !store.reliable
    {
      var broken := Faults.Breaks(store.reliable);
      if broken { return Some(Database); }
      if order.id in orders {
        orders := orders[order.id := order.(createdAt := orders[order.id].createdAt)];
      }
      err := None;
    }

    method UpdateDrone(drone: Drone) returns (err: Option<Error>)
      modifies this`drones
      ensures err.None? ==>
                drones == if drone.id in old(drones)
                          then old(drones)[drone.id := drone.(createdAt := old(drones)[drone.id].createdAt)]
                          else old(drones)
      ensures err.Some? ==> err == Some(Database) && !store.reliable
    {
      var broken := Faults.Breaks(store.reliable);
      if broken { return Some(Database); }
      if drone.id in drones {
        drones := drones[drone.id := drone.(createdAt := drones[drone.id].createdAt)];
      }
      err := None;
    }

    method EnqueueEvent(event: Event) returns (err: Option<Error>)
      modifies this`log
      ensures err.None? ==> log == old(log) + [event]
      ensures err.Some? ==> err == Some(Database) && !store.reliable
    {
      var broken := Faults.Breaks(store.reliable);
      if broken { return Some(Database); }
      log := log + [event];
      err := None;
    }

    predicate Selected(order: Order, allowed: seq<OrderStatus>) {
      order.status in allowed && order.assignedDrone == None
    }

    /** An oldest unassigned order in one of the allowed statuses, if there is one. */
    method ReserveNextOrder(allowed: seq<OrderStatus>) returns (r: Result<Option<OrderId>>)
      ensures r.Ok? && allowed == [Created, HandoffRequested] ==> IsOldest(orders, r.value)
      ensures r.Err? ==> r.error == Database && !store.reliable
      ensures r.Ok? && r.value.None? ==> forall x :: x in orders ==> !Selected(orders[x], allowed)
      ensures r.Ok? && r.value.Some? ==>
                && r.value.value in orders
                && Selected(orders[r.value.value], allowed)
                && forall x :: x in orders && Selected(orders[x], allowed) ==>
                     orders[r.value.value].createdAt <= orders[x].createdAt
    {
      if allowed == [] { return Ok(None); }
      var broken := Faults.Breaks(store.reliable);
      if broken { return Err(Database); }
      var best: Option<OrderId> := None;
      var todo := orders.Keys;
      while todo != {}
        invariant todo <= orders.Keys
        invariant best.None? ==> forall x :: x in orders.Keys - todo ==> !Selected(orders[x], allowed)
        invariant best.Some? ==>
                    && best.value in orders.Keys - todo
                    && Selected(orders[best.value], allowed)
                    && forall x :: x in orders.Keys - todo && Selected(orders[x], allowed) ==>
                         orders[best.value].createdAt <= orders[x].createdAt
        decreases todo
      {
        var x :| x in todo;
        if Selected(orders[x], allowed) && (best.None? || orders[x].createdAt < orders[best.value].createdAt) {
          best := Some(x);
        }
        todo := todo - {x};
      }
      r := Ok(best);
      assert allowed == [Created, HandoffRequested] ==>
        forall x :: x in orders ==> (Selected(orders[x], allowed) <==> Available(orders[x]));
    }
  }
}
