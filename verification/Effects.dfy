/** The protocol by fields and errors instead of by commands: which command writes which field, and when each
    error is answered. `StepIsEffect` says that this account and the decisions are the same. */
module Effects {
  import opened Domain
  import opened Events
  import opened Dispatch
  import opened Pairing

  // ---------- Refusals ----------

  predicate OutOfRange(loc: Location) {
    loc.lat < -90.0 || loc.lat > 90.0 || loc.lng < -180.0 || loc.lng > 180.0
  }

  predicate OutOfRangeIfGiven(loc: Option<Location>) {
    loc.Some? && OutOfRange(loc.value)
  }

  /** Pick-up, delivery, and failure for a reason: commands of the drone an order is assigned to. */
  predicate ByAssignee(c: Command) {
    c.Pickup? || c.Deliver? || (c.Fail? && c.reason != "")
  }

  /** When each error is the answer. */
  predicate RefusedFor(s: State, c: Command, e: Error) {
    match e
    case Invalid =>
      || (c.Submit? && (OutOfRange(c.origin) || OutOfRange(c.dest)))
      || (c.Heartbeat? && OutOfRange(c.loc))
      || (c.Fail? && c.reason == "")
      || (c.AdminUpdate? && c.id in s.orders && s.orders[c.id].status !in {Delivered, Failed, Withdrawn}
          && (OutOfRangeIfGiven(c.newOrigin) || OutOfRangeIfGiven(c.newDest)))
    case NotFound => (c.Withdraw? || c.AdminUpdate? || ByAssignee(c)) && c.id !in s.orders
    case Forbidden =>
      || (c.Withdraw? && c.id in s.orders && s.orders[c.id].userId != c.user)
      || (ByAssignee(c) && c.id in s.orders && s.orders[c.id].assignedDrone != Some(c.drone))
    case Precondition =>
      || (c.Withdraw? && c.id in s.orders && s.orders[c.id].userId == c.user
          && s.orders[c.id].status !in {Created, Reserved})
      || (c.AdminUpdate? && c.id in s.orders && s.orders[c.id].status in {Delivered, Failed, Withdrawn})
      || (ByAssignee(c) && c.id in s.orders && s.orders[c.id].assignedDrone == Some(c.drone)
          && s.orders[c.id].status != if c.Pickup? then Reserved else PickedUp)
      || (c.Reserve? && c.drone in s.drones && s.drones[c.drone].status == Broken)
    case Conflict => c.Reserve? && c.drone in s.drones && s.drones[c.drone].currentOrder.Some?
    case NoJob =>
      c.Reserve? && c.choice == None &&
      (c.drone in s.drones ==> s.drones[c.drone].status == Active && s.drones[c.drone].currentOrder == None)
    case Database => c.Submit? && !OutOfRange(c.origin) && !OutOfRange(c.dest) && c.id in s.orders
  }

  ghost predicate AnsweredFor(s: State, c: Command, t: Clock, e: Error) {
    Step(s, c, t).1 == Refused(e) <==> RefusedFor(s, c, e)
  }

  lemma UserAnswers(s: State, c: Command, t: Clock, e: Error)
    requires Inv(s) && (c.Submit? || c.Withdraw? || c.AdminUpdate?)
    ensures AnsweredFor(s, c, t, e)
  {
    AssigneeFound(s, c.id);
  }

  lemma AssigneeAnswers(s: State, c: Command, t: Clock, e: Error)
    requires Inv(s) && (c.Pickup? || c.Deliver? || c.Fail?)
    ensures AnsweredFor(s, c, t, e)
  {
    AssigneeFound(s, c.id);
  }

  lemma ReserveAnswers(s: State, c: Command, t: Clock, e: Error)
    requires Inv(s) && Legal(s, c) && c.Reserve?
    ensures AnsweredFor(s, c, t, e)
  {
  }

  lemma DroneAnswers(s: State, c: Command, t: Clock, e: Error)
    requires Inv(s) && (c.MarkBroken? || c.MarkFixed? || c.Heartbeat?)
    ensures AnsweredFor(s, c, t, e)
  {
    if Pointer(s, c.drone).Some? {
      HeldOrder(s, c.drone, Pointer(s, c.drone).value);
    }
  }

  /** Each error is answered exactly when it should be, and then nothing changes. */
  lemma Answers(s: State, c: Command, t: Clock, e: Error)
    requires Inv(s) && Legal(s, c)
    ensures Step(s, c, t).1 == Refused(e) <==> RefusedFor(s, c, e)
    ensures Step(s, c, t).1 == Refused(e) ==> Step(s, c, t).0 == s
  {
    if c.Submit? || c.Withdraw? || c.AdminUpdate? {
      UserAnswers(s, c, t, e);
    } else if c.Pickup? || c.Deliver? || c.Fail? {
      AssigneeAnswers(s, c, t, e);
    } else if c.Reserve? {
      ReserveAnswers(s, c, t, e);
    } else {
      DroneAnswers(s, c, t, e);
    }
    RefusalKeepsTables(s, c, t);
  }

  lemma RefusalKeepsTables(s: State, c: Command, t: Clock)
    requires Inv(s) && Legal(s, c)
    ensures Step(s, c, t).1.Refused? ==> Step(s, c, t).0 == s
  {
  }

  lemma AssigneeFound(s: State, o: OrderId)
    requires Inv(s)
    ensures o in s.orders && s.orders[o].status in {Reserved, PickedUp} ==>
              s.orders[o].assignedDrone.Some? && s.orders[o].assignedDrone.value in s.drones
    ensures o in s.orders && s.orders[o].status == HandoffRequested ==> s.orders[o].assignedDrone == None
  {
    if o in s.orders && IsActive(s.orders[o].status) {
      var d := s.orders[o].assignedDrone.value;
      assert HolderIn(s, o) == Some(d) && Pointer(s, d) == Some(o);
    }
  }

  // ---------- Fields ----------

  /** The order row a command that succeeds writes. */
  function OrderTarget(s: State, c: Command): Option<OrderId> {
    match c
    case Reserve(_, choice) => choice
    case MarkBroken(d) => if d in s.drones then s.drones[d].currentOrder else None
    case MarkFixed(_) => None
    case Heartbeat(_, _) => None
    case _ => Some(c.id)
  }

  /** The drone row it writes. */
  function DroneTarget(s: State, c: Command): Option<DroneId> {
    match c
    case Submit(_, _, _, _) => None
    case AdminUpdate(_, _, _) => None
    case Pickup(_, _) => None
    case Withdraw(_, id) =>
      if id in s.orders && s.orders[id].status == Reserved then s.orders[id].assignedDrone else None
    case _ => Some(c.drone)
  }

  predicate SubmittedFields(c: Command, t: Clock, o: Order)
    requires c.Submit?
  {
    && o.id == c.id && o.userId == c.user && o.origin == c.origin && o.destination == c.dest
    && o.status == Created && o.assignedDrone == None && o.handoffOrigin == None
    && o.createdAt == t.first && o.updatedAt == t.first
    && o.reservedAt == None && o.pickedUpAt == None && o.deliveredAt == None && o.failedAt == None
    && o.failureReason == None
  }

  function StatusAfter(c: Command, was: OrderStatus): OrderStatus {
    match c
    case Withdraw(_, _) => Withdrawn
    case Reserve(_, _) => Reserved
    case Pickup(_, _) => PickedUp
    case Deliver(_, _) => Delivered
    case Fail(_, _, _) => Failed
    case MarkBroken(_) => if was == PickedUp then HandoffRequested else Created
    case _ => was
  }

  /** Every field of an existing order after command `c`; `seen` is the last position of the drone that
      breaks down. */
  predicate OrderFields(c: Command, t: Clock, was: Order, seen: Option<Location>, o: Order) {
    && o.id == was.id && o.userId == was.userId && o.createdAt == was.createdAt
    && o.origin == (if c.AdminUpdate? && c.newOrigin.Some? then c.newOrigin.value else was.origin)
    && o.destination == (if c.AdminUpdate? && c.newDest.Some? then c.newDest.value else was.destination)
    && o.status == StatusAfter(c, was.status)
    && o.assignedDrone == (if c.Reserve? then Some(c.drone)
                           else if c.Withdraw? || c.MarkBroken? then None
                           else was.assignedDrone)
    && o.handoffOrigin == (if c.MarkBroken? && was.status == Reserved then None
                           else if c.MarkBroken? && seen.Some? then seen
                           else was.handoffOrigin)
    && o.reservedAt == (if c.Reserve? then Some(t.second)
                        else if c.MarkBroken? && was.status == Reserved then None
                        else was.reservedAt)
    && o.pickedUpAt == (if c.Pickup? then Some(t.first) else was.pickedUpAt)
    && o.deliveredAt == (if c.Deliver? then Some(t.first) else was.deliveredAt)
    && o.failedAt == (if c.Fail? then Some(t.first) else was.failedAt)
    && o.failureReason == (if c.Fail? then Some(c.reason) else was.failureReason)
    && o.updatedAt == (if c.Withdraw? || c.Reserve? || c.MarkBroken? then t.second else t.first)
  }

  /** Every field of a drone row after command `c`. A drone that was not there starts out active and idle,
      without a position, created at the first clock reading. */
  predicate DroneFields(c: Command, t: Clock, id: DroneId, was: Option<Drone>, d: Drone) {
    && d.id == id
    && d.status == (if c.MarkBroken? then Broken
                    else if c.MarkFixed? || was.None? then Active
                    else was.value.status)
    && d.lastLocation == (if c.Heartbeat? then Some(c.loc) else if was.None? then None else was.value.lastLocation)
    && d.lastHeartbeatAt == (if c.Heartbeat? then Some(t.second)
                             else if was.None? then None
                             else was.value.lastHeartbeatAt)
    && d.currentOrder == (if c.Reserve? then c.choice
                          else if (!c.MarkFixed? && !c.Heartbeat?) || was.None? then None
                          else was.value.currentOrder)
    && d.createdAt == (if was.None? then t.first else was.value.createdAt)
    && d.updatedAt == (if c.Withdraw? || c.Deliver? || c.Fail? then t.first else t.second)
  }

  // ---------- Events ----------

  function KindOf(c: Command, was: Option<Order>): OrderEventKind {
    match c
    case Submit(_, _, _, _) => OrderCreated
    case Withdraw(_, _) => OrderWithdrawn
    case Reserve(_, _) => OrderReserved
    case Pickup(_, _) => OrderPickedUp
    case Deliver(_, _) => OrderDelivered
    case Fail(_, _, _) => OrderFailed
    case MarkBroken(_) => if was.Some? && was.value.status == PickedUp then OrderHandoffRequested else OrderUpdated
    case _ => OrderUpdated
  }

  /** The event about the order row `o` that command `c` has written, beside drone row `d`. */
  predicate OrderTold(c: Command, t: Clock, was: Option<Order>, o: Order, d: Option<Drone>, e: Event) {
    && e.OrderEvent?
    && e.kind == KindOf(c, was)
    && e.orderId == o.id && e.status == o.status && e.userId == o.userId && e.assignee == o.assignedDrone
    && e.droneStatus == (if d.Some? && !c.Withdraw? then Some(d.value.status) else None)
    && e.occurredAt == (if c.Submit? || c.Deliver? || c.Fail? then t.first else t.second)
  }

  predicate DroneTold(c: Command, t: Clock, d: Drone, e: Event) {
    e == DroneEvent(if c.MarkBroken? then DroneBroken else DroneFixed, d.id, d.status, t.second)
  }

  // ---------- The whole effect ----------

  predicate OrdersAfter(s: State, c: Command, t: Clock, orders: map<OrderId, Order>) {
    match OrderTarget(s, c)
    case None => orders == s.orders
    case Some(o) =>
      && o in orders
      && orders == s.orders[o := orders[o]]
      && (if c.Submit? then SubmittedFields(c, t, orders[o])
          else
            && o in s.orders
            && var seen := if c.MarkBroken? && c.drone in s.drones then s.drones[c.drone].lastLocation else None;
               OrderFields(c, t, s.orders[o], seen, orders[o]))
  }

  predicate DronesAfter(s: State, c: Command, t: Clock, drones: map<DroneId, Drone>) {
    match DroneTarget(s, c)
    case None => drones == s.drones
    case Some(d) =>
      d in drones && drones == s.drones[d := drones[d]] && DroneFields(c, t, d, Get(s.drones, d), drones[d])
  }

  /** First the order row that was written, then the drone if its status was set. */
  predicate EventsAfter(s: State, c: Command, t: Clock, s': State) {
    var o, d := OrderTarget(s, c), DroneTarget(s, c);
    var n, m := |s.log|, |s'.log|;
    && n <= m && s'.log[..n] == s.log
    && m - n == (if o.Some? then 1 else 0) + (if c.MarkBroken? || c.MarkFixed? then 1 else 0)
    && (o.Some? ==>
          && o.value in s'.orders
          && OrderTold(c, t, Get(s.orders, o.value), s'.orders[o.value],
                       if d.Some? then Get(s'.drones, d.value) else None, s'.log[n]))
    && (c.MarkBroken? || c.MarkFixed? ==> c.drone in s'.drones && DroneTold(c, t, s'.drones[c.drone], s'.log[m - 1]))
  }

  /** The answer is the row written. */
  predicate RowAnswered(s: State, c: Command, s': State, r: Reply) {
    if c.MarkBroken? || c.MarkFixed? || c.Heartbeat?
    then c.drone in s'.drones && r == DroneReply(s'.drones[c.drone])
    else
      var o := OrderTarget(s, c);
      o.Some? && o.value in s'.orders && r == OrderReply(s'.orders[o.value])
  }

  predicate Succeeded(s: State, c: Command, t: Clock, s': State, r: Reply) {
    && OrdersAfter(s, c, t, s'.orders)
    && DronesAfter(s, c, t, s'.drones)
    && EventsAfter(s, c, t, s')
    && RowAnswered(s, c, s', r)
  }

  ghost predicate Effect(s: State, c: Command, t: Clock, s': State, r: Reply) {
    if exists e :: RefusedFor(s, c, e) then s' == s && r.Refused? && RefusedFor(s, c, r.error)
    else Succeeded(s, c, t, s', r)
  }

  // ---------- The decisions have the effect ----------

  lemma WithdrawSucceeds(s: State, c: Command, t: Clock)
    requires Inv(s) && c.Withdraw? && !Step(s, c, t).1.Refused?
    ensures Succeeded(s, c, t, Step(s, c, t).0, Step(s, c, t).1)
  {
  }

  lemma UserSucceeds(s: State, c: Command, t: Clock)
    requires Inv(s) && (c.Submit? || c.AdminUpdate?) && !Step(s, c, t).1.Refused?
    ensures Succeeded(s, c, t, Step(s, c, t).0, Step(s, c, t).1)
  {
  }

  lemma PickupSucceeds(s: State, c: Command, t: Clock)
    requires Inv(s) && c.Pickup? && !Step(s, c, t).1.Refused?
    ensures Succeeded(s, c, t, Step(s, c, t).0, Step(s, c, t).1)
  {
  }

  lemma ReserveSucceeds(s: State, c: Command, t: Clock)
    requires Inv(s) && Legal(s, c) && c.Reserve? && !Step(s, c, t).1.Refused?
    ensures Succeeded(s, c, t, Step(s, c, t).0, Step(s, c, t).1)
  {
  }

  lemma CompletionSucceeds(s: State, c: Command, t: Clock)
    requires Inv(s) && (c.Deliver? || c.Fail?) && !Step(s, c, t).1.Refused?
    ensures Succeeded(s, c, t, Step(s, c, t).0, Step(s, c, t).1)
  {
  }

  lemma BreakdownSucceeds(s: State, c: Command, t: Clock)
    requires Inv(s) && c.MarkBroken?
    ensures Succeeded(s, c, t, Step(s, c, t).0, Step(s, c, t).1)
  {
    if Pointer(s, c.drone).Some? {
      HeldOrder(s, c.drone, Pointer(s, c.drone).value);
    }
  }

  lemma UpkeepSucceeds(s: State, c: Command, t: Clock)
    requires Inv(s) && (c.MarkFixed? || c.Heartbeat?) && !Step(s, c, t).1.Refused?
    ensures Succeeded(s, c, t, Step(s, c, t).0, Step(s, c, t).1)
  {
  }

  /** A command that succeeds writes every field as it should, and no other row. */
  lemma Succeeds(s: State, c: Command, t: Clock)
    requires Inv(s) && Legal(s, c) && !Step(s, c, t).1.Refused?
    ensures Succeeded(s, c, t, Step(s, c, t).0, Step(s, c, t).1)
  {
    if c.Withdraw? {
      WithdrawSucceeds(s, c, t);
    } else if c.Submit? || c.AdminUpdate? {
      UserSucceeds(s, c, t);
    } else if c.Reserve? {
      ReserveSucceeds(s, c, t);
    } else if c.Pickup? {
      PickupSucceeds(s, c, t);
    } else if c.Deliver? || c.Fail? {
      CompletionSucceeds(s, c, t);
    } else if c.MarkBroken? {
      BreakdownSucceeds(s, c, t);
    } else {
      UpkeepSucceeds(s, c, t);
    }
  }

  // ---------- ... and there is no other ----------

  lemma SameTables(s: State, c: Command, t: Clock, s1: State, s2: State)
    requires OrdersAfter(s, c, t, s1.orders) && OrdersAfter(s, c, t, s2.orders)
    requires DronesAfter(s, c, t, s1.drones) && DronesAfter(s, c, t, s2.drones)
    ensures s1.orders == s2.orders && s1.drones == s2.drones
  {
  }

  lemma SameLog(s: State, c: Command, t: Clock, s1: State, s2: State)
    requires s1.orders == s2.orders && s1.drones == s2.drones
    requires EventsAfter(s, c, t, s1) && EventsAfter(s, c, t, s2)
    ensures s1.log == s2.log
  {
    var n := |s.log|;
    assert s1.log[..n] == s2.log[..n];
    assert |s1.log| == |s2.log|;
    forall k | 0 <= k < |s1.log| ensures s1.log[k] == s2.log[k] {
      if k < n {
        assert s1.log[k] == s1.log[..n][k] && s2.log[k] == s2.log[..n][k];
      }
    }
  }

  lemma RefusedIff(s: State, c: Command, t: Clock)
    requires Inv(s) && Legal(s, c)
    ensures Step(s, c, t).1.Refused? <==> exists e :: RefusedFor(s, c, e)
  {
    if e :| RefusedFor(s, c, e) {
      Answers(s, c, t, e);
    }
    if Step(s, c, t).1.Refused? {
      Answers(s, c, t, Step(s, c, t).1.error);
    }
  }

  lemma OnlyEffect(s: State, c: Command, t: Clock, s1: State, r1: Reply, s2: State, r2: Reply)
    requires Succeeded(s, c, t, s1, r1) && Succeeded(s, c, t, s2, r2)
    ensures s1 == s2 && r1 == r2
  {
    SameTables(s, c, t, s1, s2);
    SameLog(s, c, t, s1, s2);
  }

  /** The account is complete: tables, outbox and answer of every command are the only ones it allows. */
  lemma StepIsEffect(s: State, c: Command, t: Clock, s': State, r: Reply)
    requires Inv(s) && Legal(s, c)
    ensures Effect(s, c, t, s', r) <==> (s', r) == Step(s, c, t)
  {
    var step := Step(s, c, t);
    RefusedIff(s, c, t);
    if step.1.Refused? {
      Answers(s, c, t, step.1.error);
      if r.Refused? {
        Answers(s, c, t, r.error);
      }
    } else {
      Succeeds(s, c, t);
      if Succeeded(s, c, t, s', r) {
        OnlyEffect(s, c, t, s', r, step.0, step.1);
      }
    }
  }
}
