/** The two-way pointer between orders and drones, over every run. */
module Pairing {
  import opened Domain
  import opened Dispatch
  import opened Events

  /** Rows are stored under their own id. */
  ghost predicate Keyed(s: State) {
    && (forall o :: o in s.orders ==> s.orders[o].id == o)
    && (forall d :: d in s.drones ==> s.drones[d].id == d)
  }

  /** The order a drone row points at. */
  function Pointer(s: State, d: DroneId): Option<OrderId> {
    if d in s.drones then s.drones[d].currentOrder else None
  }

  /** The drone an order row is held by. Completed orders keep their drone id but are held by nobody. */
  function Holder(o: Order): Option<DroneId> {
    if IsActive(o.status) then o.assignedDrone else None
  }

  function HolderIn(s: State, o: OrderId): Option<DroneId> {
    if o in s.orders then Holder(s.orders[o]) else None
  }

  ghost predicate Paired(s: State) {
    forall d, o :: Pointer(s, d) == Some(o) <==> HolderIn(s, o) == Some(d)
  }

  /** Exactly the held and the completed orders carry a drone id. */
  predicate AssignedByStatus(o: Order) {
    o.assignedDrone.Some? <==> IsActive(o.status) || o.status == Delivered || o.status == Failed
  }

  predicate IdleIfBroken(d: Drone) {
    d.status == Broken ==> d.currentOrder == None
  }

  ghost predicate Inv(s: State) {
    && Keyed(s)
    && Paired(s)
    && (forall o :: o in s.orders ==> AssignedByStatus(s.orders[o]))
    && (forall d :: d in s.drones ==> IdleIfBroken(s.drones[d]))
  }

  // ---------- One step ----------

  predicate NoneOr(pointer: Option<string>, target: string) {
    pointer.Some? ==> pointer.value == target
  }

  /** What a write of one order row and one drone row must respect for the pairing to survive it:
      each pointer is left alone, or is only set to or cleared from the other row. */
  predicate Coherent(s: State, order: Option<Order>, drone: Option<Drone>) {
    && (order.Some? ==>
          var o := order.value;
          && AssignedByStatus(o)
          && (Holder(o) == HolderIn(s, o.id) ||
              (drone.Some? && NoneOr(Holder(o), drone.value.id) && NoneOr(HolderIn(s, o.id), drone.value.id))))
    && (drone.Some? ==>
          var d := drone.value;
          && IdleIfBroken(d)
          && (d.currentOrder == Pointer(s, d.id) ||
              (order.Some? && NoneOr(d.currentOrder, order.value.id) && NoneOr(Pointer(s, d.id), order.value.id))))
    && (order.Some? && drone.Some? ==>
          (drone.value.currentOrder == Some(order.value.id) <==> Holder(order.value) == Some(drone.value.id)))
  }

  lemma CoherentWriteKeepsInv(s: State, order: Option<Order>, drone: Option<Drone>, events: seq<Event>)
    requires Inv(s) && Coherent(s, order, drone)
    ensures Inv(Apply(s, order, drone, events))
  {
    var s' := Apply(s, order, drone, events);
    forall d, o ensures Pointer(s', d) == Some(o) <==> HolderIn(s', o) == Some(d) {
      assert Pointer(s, d) == Some(o) <==> HolderIn(s, o) == Some(d);
    }
  }

  ghost predicate KeepsCoherence(s: State, w: Decision) {
    w.Write? ==> Coherent(s, w.order, w.drone)
  }

  lemma OneRowCoherent(s: State, c: Command, t: Clock)
    requires Inv(s) && (c.Submit? || c.AdminUpdate? || c.Pickup? || c.MarkFixed? || c.Heartbeat?)
    ensures KeepsCoherence(s, Decide(c, t, OrderRead(s, c), DroneRead(s, c)))
  {
  }

  lemma TwoRowsCoherent(s: State, c: Command, t: Clock)
    requires Inv(s) && Legal(s, c) && (c.Withdraw? || c.Reserve? || c.Deliver? || c.Fail? || c.MarkBroken?)
    ensures KeepsCoherence(s, Decide(c, t, OrderRead(s, c), DroneRead(s, c)))
  {
    var order, drone := OrderRead(s, c), DroneRead(s, c);
    if order.Some? && drone.Some? {
      assert Pointer(s, drone.value.id) == Some(order.value.id) <==>
             HolderIn(s, order.value.id) == Some(drone.value.id);
    }
  }

  /** Every decision taken on the rows of a paired state is coherent. */
  lemma DecisionsAreCoherent(s: State, c: Command, t: Clock)
    requires Inv(s) && Legal(s, c)
    ensures KeepsCoherence(s, Decide(c, t, OrderRead(s, c), DroneRead(s, c)))
  {
    if c.Submit? || c.AdminUpdate? || c.Pickup? || c.MarkFixed? || c.Heartbeat? {
      OneRowCoherent(s, c, t);
    } else {
      TwoRowsCoherent(s, c, t);
    }
  }

  /** A command writes back the order row it read; only a submission writes a new one. */
  lemma WritesRowRead(s: State, c: Command, t: Clock)
    requires Inv(s)
    ensures var w := Decide(c, t, OrderRead(s, c), DroneRead(s, c));
            w.Write? && w.order.Some? ==>
              && OrderRead(s, c) == Get(s.orders, w.order.value.id)
              && (OrderRead(s, c).None? ==> c.Submit?)
  {
  }

  /** The order a drone points at exists, is held, and is held by that drone. */
  lemma HeldOrder(s: State, d: DroneId, o: OrderId)
    requires Inv(s) && Pointer(s, d) == Some(o)
    ensures o in s.orders && IsActive(s.orders[o].status) && s.orders[o].assignedDrone == Some(d)
  {
    assert HolderIn(s, o) == Some(d);
  }

  /** Every command keeps the pairing. */
  lemma InvStep(s: State, c: Command, t: Clock)
    requires Inv(s) && Legal(s, c)
    ensures Inv(Step(s, c, t).0)
  {
    DecisionsAreCoherent(s, c, t);
    var w := Decide(c, t, OrderRead(s, c), DroneRead(s, c));
    if w.Write? {
      CoherentWriteKeepsInv(s, w.order, w.drone, w.events);
    }
  }

  /** ... and so does every run. */
  lemma {:induction false} InvRun(s: State, acts: seq<Action>)
    requires Inv(s) && LegalRun(s, acts)
    ensures Inv(Exec(s, acts))
    decreases |acts|
  {
    if acts != [] {
      InvStep(s, acts[0].command, acts[0].clock);
      InvRun(Step(s, acts[0].command, acts[0].clock).0, acts[1..]);
    }
  }

  lemma ReachableInv(s: State)
    requires Reachable(s)
    ensures Inv(s)
  {
    var acts :| LegalRun(Empty, acts) && Exec(Empty, acts) == s;
    InvRun(Empty, acts);
  }
}
