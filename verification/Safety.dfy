/** What the pairing and the event counts mean for callers, in every reachable state. */
module Safety {
  import opened Domain
  import opened Dispatch
  import opened Pairing
  import opened EventLog
  import opened Conservation
  import opened Effects
  import opened Events
  import Eta

  // ---------- Assignment ----------

  function BusyDrones(s: State): set<DroneId> {
    set d | d in s.drones && s.drones[d].currentOrder.Some?
  }

  function ActiveOrders(s: State): set<OrderId> {
    set o | o in s.orders && IsActive(s.orders[o].status)
  }

  /** A one-to-one map has as many keys as values. */
  lemma {:induction false} OneToOne(keys: set<string>, values: set<string>, f: map<string, string>)
    requires keys <= f.Keys
    requires forall k :: k in keys ==> f[k] in values
    requires forall v :: v in values ==> exists k :: k in keys && f[k] == v
    requires forall j, k :: j in keys && k in keys && f[j] == f[k] ==> j == k
    ensures |keys| == |values|
    decreases keys
  {
    if k :| k in keys {
      var v := f[k];
      forall v' | v' in values - {v} ensures exists j :: j in keys - {k} && f[j] == v' {
        var j :| j in keys && f[j] == v';
        assert j in keys - {k};
      }
      OneToOne(keys - {k}, values - {v}, f);
      assert |keys| == |keys - {k}| + 1 && |values| == |values - {v}| + 1;
    } else {
      assert keys == {};
      assert forall v :: v !in values;
      assert values == {};
    }
  }

  /** As many drones are busy as orders are active. */
  lemma BusyEqualsActive(s: State)
    requires Inv(s)
    ensures |BusyDrones(s)| == |ActiveOrders(s)|
  {
    var f := map d | d in BusyDrones(s) :: s.drones[d].currentOrder.value;
    forall d | d in BusyDrones(s) ensures HolderIn(s, f[d]) == Some(d) {
      assert Pointer(s, d) == Some(f[d]);
    }
    forall o | o in ActiveOrders(s) ensures exists d :: d in BusyDrones(s) && f[d] == o {
      var d := s.orders[o].assignedDrone.value;
      assert HolderIn(s, o) == Some(d) && Pointer(s, d) == Some(o);
      assert d in BusyDrones(s) && f[d] == o;
    }
    OneToOne(BusyDrones(s), ActiveOrders(s), f);
  }

  /** In every reachable state a drone points at an order exactly when that order is held and names the
      drone; so no order has two drones, and there are as many busy drones as active orders. */
  lemma AssignmentPairing(s: State)
    requires Reachable(s)
    ensures forall d, o :: Pointer(s, d) == Some(o) <==> HolderIn(s, o) == Some(d)
    ensures forall d, o :: (d in s.drones && s.drones[d].currentOrder == Some(o)) <==>
                           (o in s.orders && s.orders[o].status in {Reserved, PickedUp}
                            && s.orders[o].assignedDrone == Some(d))
    ensures forall d, d', o :: Pointer(s, d) == Some(o) && Pointer(s, d') == Some(o) ==> d == d'
    ensures |BusyDrones(s)| == |ActiveOrders(s)|
  {
    ReachableInv(s);
    forall d, o
      ensures (d in s.drones && s.drones[d].currentOrder == Some(o)) <==>
              (o in s.orders && s.orders[o].status in {Reserved, PickedUp} && s.orders[o].assignedDrone == Some(d))
    {
      assert Pointer(s, d) == Some(o) <==> HolderIn(s, o) == Some(d);
    }
    forall d, d', o | Pointer(s, d) == Some(o) && Pointer(s, d') == Some(o) ensures d == d' {
      assert HolderIn(s, o) == Some(d);
    }
    BusyEqualsActive(s);
  }

  // ---------- Broken drones ----------

  /** The commands a drone issues about an order. */
  predicate ActsOnOrder(c: Command, d: DroneId) {
    (c.Reserve? || c.Pickup? || c.Deliver? || c.Fail?) && c.drone == d
  }

  lemma BrokenRefused(s: State, d: DroneId, c: Command, t: Clock)
    requires Inv(s) && d in s.drones && s.drones[d].status == Broken && Legal(s, c)
    ensures ActsOnOrder(c, d) ==> Step(s, c, t).1.Refused?
    ensures c != MarkFixed(d) ==>
              var s' := Step(s, c, t).0;
              d in s'.drones && s'.drones[d].status == Broken && s'.drones[d].currentOrder == None
  {
    var order := OrderRead(s, c);
    if order.Some? {
      assert Pointer(s, d) == Some(order.value.id) <==> HolderIn(s, order.value.id) == Some(d);
    }
    InvStep(s, c, t);
    WritesDroneRead(s, c, t);
  }

  /** A command leaves every drone row alone but the one it read, and only the two status commands set
      the status of an existing row. */
  lemma WritesDroneRead(s: State, c: Command, t: Clock)
    requires Inv(s)
    ensures forall d :: d in s.drones ==>
              var s' := Step(s, c, t).0;
              d in s'.drones &&
              (s'.drones[d].status == s.drones[d].status || c == MarkBroken(d) || c == MarkFixed(d))
  {
  }

  /** From breaking until it is repaired, a drone holds nothing and every order command it issues is
      refused, although pick-up and completion never look at its status. */
  lemma {:induction false} BrokenDroneIsInert(s: State, d: DroneId, acts: seq<Action>, c: Command, t: Clock)
    requires Inv(s) && d in s.drones && s.drones[d].status == Broken && LegalRun(s, acts)
    requires forall k :: 0 <= k < |acts| ==> acts[k].command != MarkFixed(d)
    requires ActsOnOrder(c, d) && Legal(Exec(s, acts), c)
    ensures Step(Exec(s, acts), c, t).1.Refused?
    ensures Pointer(Exec(s, acts), d) == None
    decreases |acts|
  {
    if acts == [] {
      BrokenRefused(s, d, c, t);
    } else {
      BrokenRefused(s, d, acts[0].command, acts[0].clock);
      InvStep(s, acts[0].command, acts[0].clock);
      BrokenDroneIsInert(Step(s, acts[0].command, acts[0].clock).0, d, acts[1..], c, t);
    }
  }

  /** `row` is what drone `d` was in `s`, or a new row, in everything but status, order and update time. */
  predicate SameDrone(s: State, d: DroneId, t: Clock, row: Drone) {
    && row.id == d
    && row.lastLocation == (if d in s.drones then s.drones[d].lastLocation else None)
    && row.lastHeartbeatAt == (if d in s.drones then s.drones[d].lastHeartbeatAt else None)
    && row.createdAt == (if d in s.drones then s.drones[d].createdAt else t.first)
    && row.updatedAt == t.second
  }

  /** A breakdown leaves the drone BROKEN and idle, announces that last, and touches no other drone. */
  lemma BreaksDown(s: State, d: DroneId, t: Clock)
    requires Reachable(s)
    ensures var (s', r) := Step(s, MarkBroken(d), t);
            && d in s'.drones && s'.drones[d].status == Broken && s'.drones[d].currentOrder == None
            && SameDrone(s, d, t, s'.drones[d])
            && s'.drones == s.drones[d := s'.drones[d]]
            && r == DroneReply(s'.drones[d])
            && s'.log != [] && s'.log[|s'.log| - 1] == DroneEvent(DroneBroken, d, Broken, t.second)
  {
    BreakdownAlwaysSucceeds(s, d, t);
    ReachableInv(s);
    Succeeds(s, MarkBroken(d), t);
  }

  /** A repair leaves the drone ACTIVE, with the order it had, and announces that alone. */
  lemma IsRepaired(s: State, d: DroneId, t: Clock)
    requires Reachable(s)
    ensures var (s', r) := Step(s, MarkFixed(d), t);
            && s'.orders == s.orders
            && d in s'.drones && s'.drones[d].status == Active
            && s'.drones[d].currentOrder == (if d in s.drones then s.drones[d].currentOrder else None)
            && SameDrone(s, d, t, s'.drones[d])
            && s'.drones == s.drones[d := s'.drones[d]]
            && r == DroneReply(s'.drones[d])
            && s'.log == s.log + [DroneEvent(DroneFixed, d, Active, t.second)]
  {
    ReachableInv(s);
    Succeeds(s, MarkFixed(d), t);
    var log := Step(s, MarkFixed(d), t).0.log;
    assert log == log[..|s.log|] + [log[|s.log|]];
  }

  /** So, whatever else happens, nothing a drone asks about an order succeeds from its breakdown until its
      repair ... */
  lemma BrokenUntilRepaired(s: State, d: DroneId, t: Clock, acts: seq<Action>, c: Command, u: Clock)
    requires Reachable(s)
    requires var s' := Step(s, MarkBroken(d), t).0;
             LegalRun(s', acts) && ActsOnOrder(c, d) && Legal(Exec(s', acts), c)
    requires forall k :: 0 <= k < |acts| ==> acts[k].command != MarkFixed(d)
    ensures var s' := Step(s, MarkBroken(d), t).0;
            Step(Exec(s', acts), c, u).1.Refused? && Pointer(Exec(s', acts), d) == None
  {
    BreaksDown(s, d, t);
    ReachableInv(s);
    InvStep(s, MarkBroken(d), t);
    BrokenDroneIsInert(Step(s, MarkBroken(d), t).0, d, acts, c, u);
  }

  /** ... and once repaired, an idle drone gets an oldest order if there is any to get. */
  lemma RepairedDroneServes(s: State, d: DroneId, t: Clock, choice: Option<OrderId>, u: Clock)
    requires Reachable(s) && Pointer(s, d) == None
    requires IsOldest(s.orders, choice) && exists o :: o in s.orders && Available(s.orders[o])
    ensures choice.Some? && choice.value in s.orders
    ensures var r := Step(Step(s, MarkFixed(d), t).0, Reserve(d, choice), u).1;
            && r.OrderReply? && r.order.id == choice.value
            && r.order.status == Reserved && r.order.assignedDrone == Some(d)
  {
    IsRepaired(s, d, t);
    ReachableInv(s);
  }

  // ---------- Branches no run takes ----------

  /** The HANDOFF_REQUESTED case of pick-up never fires: such orders have no drone. */
  lemma PickupOnlyFromReserved(s: State, d: DroneId, id: OrderId, t: Clock)
    requires Reachable(s) && Step(s, Pickup(d, id), t).1.OrderReply?
    ensures id in s.orders && s.orders[id].status == Reserved && Pointer(s, d) == Some(id)
  {
    ReachableInv(s);
    assert HolderIn(s, id) == Some(d);
  }

  /** Marking a drone broken always succeeds; its order is found and is RESERVED or PICKED_UP, so the
      default case never fires. */
  lemma BreakdownAlwaysSucceeds(s: State, d: DroneId, t: Clock)
    requires Reachable(s)
    ensures Step(s, MarkBroken(d), t).1.DroneReply?
    ensures Pointer(s, d).Some? ==>
              var o := OrderRead(s, MarkBroken(d));
              o.Some? && (o.value.status == Reserved || o.value.status == PickedUp)
  {
    ReachableInv(s);
    if Pointer(s, d).Some? {
      HeldOrder(s, d, Pointer(s, d).value);
    }
  }

  /** Once the order row is found, the drone row of a withdrawal or completion is found too. */
  lemma SecondRowIsFound(s: State, d: DroneId, id: OrderId, user: UserId, reason: Option<string>, t: Clock)
    requires Reachable(s) && id in s.orders
    ensures Step(s, Withdraw(user, id), t).1 != Refused(NotFound)
    ensures DecideComplete(d, reason, t, Get(s.orders, id), Get(s.drones, d)) != Refuse(NotFound)
  {
    ReachableInv(s);
    if IsActive(s.orders[id].status) {
      var h := s.orders[id].assignedDrone.value;
      assert HolderIn(s, id) == Some(h) && Pointer(s, h) == Some(id);
    }
  }

  // ---------- Reservation ----------

  /** Without concurrent locks, an idle working drone (or a drone never seen before) is told there is no
      job exactly when no order is CREATED or HANDOFF_REQUESTED, and otherwise gets an oldest such order. */
  lemma ReserveIsComplete(s: State, d: DroneId, choice: Option<OrderId>, t: Clock)
    requires Reachable(s) && IsOldest(s.orders, choice)
    requires d in s.drones ==> s.drones[d].status == Active && s.drones[d].currentOrder == None
    ensures var r := Step(s, Reserve(d, choice), t).1;
            && (r == Refused(NoJob) <==>
                forall o :: o in s.orders ==> s.orders[o].status != Created && s.orders[o].status != HandoffRequested)
            && (r != Refused(NoJob) ==>
                && r.OrderReply? && r.order.id in s.orders && r.order.assignedDrone == Some(d)
                && forall o :: o in s.orders && s.orders[o].status in {Created, HandoffRequested} ==>
                     s.orders[r.order.id].createdAt <= s.orders[o].createdAt)
  {
    ReachableInv(s);
    assert forall o :: o in s.orders ==>
      (Available(s.orders[o]) <==> s.orders[o].status == Created || s.orders[o].status == HandoffRequested);
  }

  // ---------- What the documentation says ----------

  /** The API documentation allows withdrawal only before pick-up. The code allows it for an order that
      was picked up, handed off and reserved again: a withdrawal that succeeds is one of a never
      picked-up order exactly when the order's row has no pick-up time, that is, exactly when the log has
      no hand-off of it. */
  lemma WithdrawAfterPickup(s: State, user: UserId, id: OrderId, t: Clock)
    requires Reachable(s) && Step(s, Withdraw(user, id), t).1.OrderReply?
    ensures id in s.orders
    ensures var n := TallyOf(s.log, id);
            && (n.pickedUp == 0 <==> s.orders[id].pickedUpAt == None)
            && (n.pickedUp == 0 <==> n.handoff == 0)
  {
    EventBound(s, id);
  }

  lemma ReachableStep(s: State, c: Command, t: Clock)
    requires Reachable(s) && Legal(s, c)
    ensures Reachable(Step(s, c, t).0)
  {
    var acts :| LegalRun(Empty, acts) && Exec(Empty, acts) == s;
    var next := [Action(c, t)];
    ExecConcat(Empty, acts, next);
    assert next[1..] == [];
    assert LegalRun(Empty, acts + next) && Exec(Empty, acts + next) == Step(s, c, t).0;
  }

  lemma EmptyReachable()
    ensures Reachable(Empty)
  {
    assert LegalRun(Empty, []) && Exec(Empty, []) == Empty;
  }

  /** An order that drone `a` has picked up, having last been heard of at `seen`. */
  lemma PickedUpBy(o: OrderId, a: DroneId, seen: Option<Location>) returns (s: State)
    requires seen.Some? ==> ValidLocation(seen.value)
    ensures Reachable(s) && s.orders.Keys == {o} && s.drones.Keys == {a}
    ensures s.orders[o].status == PickedUp && s.orders[o].assignedDrone == Some(a) && s.orders[o].pickedUpAt.Some?
    ensures s.orders[o].id == o && s.orders[o].userId == "user" && s.orders[o].handoffOrigin == None
    ensures s.orders[o].origin == Location(0.0, 0.0)
    ensures s.drones[a].id == a && s.drones[a].currentOrder == Some(o) && s.drones[a].lastLocation == seen
  {
    var t, at := Clock(0, 0), Location(0.0, 0.0);
    EmptyReachable();
    ReachableStep(Empty, Submit(o, "user", at, at), t);
    s := Step(Empty, Submit(o, "user", at, at), t).0;
    ReachableStep(s, Reserve(a, Some(o)), t);
    s := Step(s, Reserve(a, Some(o)), t).0;
    ReachableStep(s, Pickup(a, o), t);
    s := Step(s, Pickup(a, o), t).0;
    if seen.Some? {
      ReachableStep(s, Heartbeat(a, seen.value), t);
      s := Step(s, Heartbeat(a, seen.value), t).0;
    }
  }

  /** ... then handed off and reserved by `b`. */
  lemma ReservedAgainBy(o: OrderId, a: DroneId, b: DroneId, seen: Option<Location>) returns (s: State)
    requires a != b && (seen.Some? ==> ValidLocation(seen.value))
    ensures Reachable(s) && o in s.orders && s.orders[o].id == o && s.orders[o].userId == "user"
    ensures s.orders[o].status == Reserved && s.orders[o].assignedDrone == Some(b) && s.orders[o].pickedUpAt.Some?
    ensures s.orders[o].handoffOrigin == seen && s.orders[o].origin == Location(0.0, 0.0)
    ensures b in s.drones && s.drones[b].id == b
    ensures s.drones[b].currentOrder == Some(o) && s.drones[b].lastLocation == None
  {
    var t := Clock(0, 0);
    s := PickedUpBy(o, a, seen);
    ReachableStep(s, MarkBroken(a), t);
    s := Step(s, MarkBroken(a), t).0;
    ReachableStep(s, Reserve(b, Some(o)), t);
    s := Step(s, Reserve(b, Some(o)), t).0;
  }

  /** Such an order exists: it is withdrawn although it was picked up. */
  lemma WithdrawAfterPickupHappens() returns (s: State, o: OrderId)
    ensures Reachable(s) && o in s.orders
    ensures s.orders[o].status == Withdrawn && s.orders[o].pickedUpAt.Some?
  {
    o := "order";
    var t := Clock(0, 0);
    s := ReservedAgainBy(o, "a", "b", None);
    ReachableStep(s, Withdraw("user", o), t);
    s := Step(s, Withdraw("user", o), t).0;
  }

  /** The documentation has the hand-off origin set to the drone's last known position. The code does so
      exactly when that position is known, or when there is no older hand-off origin to leave behind. */
  lemma HandoffOriginIsLastLocation(s: State, d: DroneId, t: Clock)
    requires Reachable(s) && d in s.drones && s.drones[d].currentOrder.Some?
    requires var o := s.drones[d].currentOrder.value; o in s.orders && s.orders[o].status == PickedUp
    ensures var o := s.drones[d].currentOrder.value;
            var s' := Step(s, MarkBroken(d), t).0;
            && o in s'.orders && s'.orders[o].status == HandoffRequested
            && (s'.orders[o].handoffOrigin == s.drones[d].lastLocation <==>
                s.drones[d].lastLocation.Some? || s.orders[o].handoffOrigin.None?)
  {
    ReachableInv(s);
  }

  /** It does not always: a drone that has never sent its position takes over a handed-off order, picks it up
      and breaks down. The order then still shows the place where the first drone broke down. */
  lemma StaleHandoffOriginHappens(seen: Location) returns (s: State, o: OrderId, d: DroneId)
    requires ValidLocation(seen)
    ensures Reachable(s) && d in s.drones && s.drones[d].currentOrder == Some(o) && s.drones[d].lastLocation == None
    ensures o in s.orders && s.orders[o].status == PickedUp
    ensures Eta.CurrentLocation(s.orders[o], Some(s.drones[d])) == None
    ensures forall t :: var s' := Step(s, MarkBroken(d), t).0;
              && o in s'.orders && s'.orders[o].status == HandoffRequested
              && s'.orders[o].handoffOrigin == Some(seen)
              && Eta.CurrentLocation(s'.orders[o], None) == Some(seen)
  {
    o, d := "order", "b";
    s := ReservedAgainBy(o, "a", d, Some(seen));
    ReachableStep(s, Pickup(d, o), Clock(0, 0));
    s := Step(s, Pickup(d, o), Clock(0, 0)).0;
  }

  // ---------- Where an order is shown ----------

  /** Only an order that has been picked up can be handed off. */
  predicate HandoffOk(o: Order) {
    o.handoffOrigin.Some? || o.status == HandoffRequested ==> o.pickedUpAt.Some?
  }

  lemma HandoffOkAfter(s: State, c: Command, t: Clock, orders: map<OrderId, Order>, o: OrderId)
    requires Inv(s) && OrdersAfter(s, c, t, orders) && o in orders
    requires o in s.orders ==>
               HandoffOk(s.orders[o]) && (s.orders[o].status == PickedUp ==> s.orders[o].pickedUpAt.Some?)
    ensures HandoffOk(orders[o])
  {
    if c.MarkBroken? && Pointer(s, c.drone) == Some(o) {
      HeldOrder(s, c.drone, o);
    }
  }

  lemma HandoffOkStep(s: State, c: Command, t: Clock)
    requires Inv(s) && AllBalanced(s) && Legal(s, c)
    requires forall o :: o in s.orders ==> HandoffOk(s.orders[o])
    ensures forall o :: o in Step(s, c, t).0.orders ==> HandoffOk(Step(s, c, t).0.orders[o])
  {
    var s' := Step(s, c, t).0;
    if Step(s, c, t).1.Refused? {
      RefusalKeepsTables(s, c, t);
    } else {
      Succeeds(s, c, t);
      forall o | o in s'.orders ensures HandoffOk(s'.orders[o]) {
        HandoffOkAfter(s, c, t, s'.orders, o);
      }
    }
  }

  lemma {:induction false} HandoffOkRun(s: State, acts: seq<Action>)
    requires Inv(s) && AllBalanced(s) && LegalRun(s, acts)
    requires forall o :: o in s.orders ==> HandoffOk(s.orders[o])
    ensures forall o :: o in Exec(s, acts).orders ==> HandoffOk(Exec(s, acts).orders[o])
    decreases |acts|
  {
    if acts != [] {
      var c, t := acts[0].command, acts[0].clock;
      HandoffOkStep(s, c, t);
      BalancedStep(s, c, t);
      InvStep(s, c, t);
      HandoffOkRun(Step(s, c, t).0, acts[1..]);
    }
  }

  /** Until the log has a pick-up of it, an order that is not withdrawn is shown at its origin. */
  lemma ShownAtOrigin(s: State, o: OrderId, d: Option<Drone>)
    requires Reachable(s) && o in s.orders && s.orders[o].status != Withdrawn && TallyOf(s.log, o).pickedUp == 0
    ensures Eta.CurrentLocation(s.orders[o], d) == Some(s.orders[o].origin)
  {
    var acts :| LegalRun(Empty, acts) && Exec(Empty, acts) == s;
    HandoffOkRun(Empty, acts);
    EventBound(s, o);
  }

  /** A drone with a known position breaks down carrying an order; the order is shown there until another
      drone, having reserved it, picks it up, and then where that one is. */
  lemma PlaceThroughHandoff(s: State, d: DroneId, e: DroneId, o: OrderId, t: Clock, u: Clock, v: Clock)
    requires Reachable(s) && Pointer(s, d) == Some(o) && s.drones[d].lastLocation.Some?
    requires o in s.orders && s.orders[o].status == PickedUp
    requires e != d && (e in s.drones ==> s.drones[e].status == Active && s.drones[e].currentOrder == None)
    ensures var s1 := Step(s, MarkBroken(d), t).0;
            var s2 := Step(s1, Reserve(e, Some(o)), u).0;
            var s3 := Step(s2, Pickup(e, o), v).0;
            && o in s1.orders && Eta.CurrentLocation(s1.orders[o], None) == s.drones[d].lastLocation
            && o in s2.orders && e in s2.drones
            && Eta.CurrentLocation(s2.orders[o], Some(s2.drones[e])) == s.drones[d].lastLocation
            && o in s3.orders && e in s3.drones
            && Eta.CurrentLocation(s3.orders[o], Some(s3.drones[e])) ==
               (if e in s.drones then s.drones[e].lastLocation else None)
  {
    ReachableInv(s);
  }

  /** A breakdown before pick-up requeues the order, as if it were still at its origin. It is shown where it
      was before exactly if it was not handed off, or handed off at its origin. */
  lemma RequeueKeepsPlace(s: State, d: DroneId, o: OrderId, t: Clock)
    requires Reachable(s) && Pointer(s, d) == Some(o) && o in s.orders && s.orders[o].status == Reserved
    ensures var s' := Step(s, MarkBroken(d), t).0;
            && o in s'.orders && s'.orders[o].status == Created
            && (Eta.CurrentLocation(s'.orders[o], None) == Eta.CurrentLocation(s.orders[o], Some(s.drones[d])) <==>
                s.orders[o].handoffOrigin.None? || s.orders[o].handoffOrigin.value == s.orders[o].origin)
  {
    ReachableInv(s);
  }

  /** The other case happens: a package that broke down with its first drone at `seen`, and whose second drone
      breaks down before it gets there, is again waiting at its origin. */
  lemma RequeueAfterPickupHappens(seen: Location) returns (s: State, o: OrderId)
    requires ValidLocation(seen) && seen != Location(0.0, 0.0)
    ensures Reachable(s) && o in s.orders && s.orders[o].status == Created && s.orders[o].pickedUpAt.Some?
    ensures TallyOf(s.log, o).handoff > 0 && Eta.CurrentLocation(s.orders[o], None) != Some(seen)
  {
    o := "order";
    s := ReservedAgainBy(o, "a", "b", Some(seen));
    ReachableStep(s, MarkBroken("b"), Clock(0, 0));
    s := Step(s, MarkBroken("b"), Clock(0, 0)).0;
    EventBound(s, o);
  }
}
