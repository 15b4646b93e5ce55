/** The outbox as a log: what folding its events tells about the tables, over every run. */
module EventLog {
  import opened Domain
  import opened Events
  import opened Dispatch
  import opened Pairing

  // ---------- Folds over the log ----------

  /** What a reader of the order events knows about an order. */
  datatype Known = Known(user: UserId, status: OrderStatus, assignee: Option<DroneId>)

  predicate About(e: Event, o: OrderId) {
    e.OrderEvent? && e.orderId == o
  }

  function ReplayOrder(log: seq<Event>, o: OrderId): Option<Known> {
    if log == [] then None
    else
      var e := log[|log| - 1];
      if About(e, o) then Some(Known(e.userId, e.status, e.assignee)) else ReplayOrder(log[..|log| - 1], o)
  }

  /** Drones announce only breakdowns and repairs; without either they are active. */
  function ReplayDrone(log: seq<Event>, d: DroneId): DroneStatus {
    if log == [] then Active
    else
      var e := log[|log| - 1];
      if e.DroneEvent? && e.droneId == d then e.state else ReplayDrone(log[..|log| - 1], d)
  }

  /** Number of events of each kind about one order. A requeue is an update that carries a drone status;
      an administrator's update does not. */
  datatype Tally = Tally(created: nat, reserved: nat, pickedUp: nat, handoff: nat, requeued: nat,
                         withdrawn: nat, delivered: nat, failed: nat, adminUpdates: nat)

  const Zero := Tally(0, 0, 0, 0, 0, 0, 0, 0, 0)

  function Bump(n: Tally, e: Event, o: OrderId): Tally {
    if !About(e, o) then n
    else match e.kind
      case OrderCreated => n.(created := n.created + 1)
      case OrderReserved => n.(reserved := n.reserved + 1)
      case OrderPickedUp => n.(pickedUp := n.pickedUp + 1)
      case OrderDelivered => n.(delivered := n.delivered + 1)
      case OrderFailed => n.(failed := n.failed + 1)
      case OrderHandoffRequested => n.(handoff := n.handoff + 1)
      case OrderWithdrawn => n.(withdrawn := n.withdrawn + 1)
      case OrderUpdated =>
        if e.droneStatus.Some? then n.(requeued := n.requeued + 1) else n.(adminUpdates := n.adminUpdates + 1)
  }

  function TallyOf(log: seq<Event>, o: OrderId): Tally {
    if log == [] then Zero else Bump(TallyOf(log[..|log| - 1], o), log[|log| - 1], o)
  }

  lemma FoldOne(log: seq<Event>, e: Event, o: OrderId, d: DroneId)
    ensures ReplayOrder(log + [e], o) ==
            if About(e, o) then Some(Known(e.userId, e.status, e.assignee)) else ReplayOrder(log, o)
    ensures ReplayDrone(log + [e], d) == if e.DroneEvent? && e.droneId == d then e.state else ReplayDrone(log, d)
    ensures TallyOf(log + [e], o) == Bump(TallyOf(log, o), e, o)
  {
    assert (log + [e])[..|log|] == log;
  }

  /** The folds over what one transaction appends: at most two events. */
  lemma FoldAppend(log: seq<Event>, events: seq<Event>, o: OrderId, d: DroneId)
    requires |events| <= 2
    ensures events == [] ==> log + events == log
    ensures |events| == 1 ==>
              && ReplayOrder(log + events, o) == ReplayOrder(log + [events[0]], o)
              && ReplayDrone(log + events, d) == ReplayDrone(log + [events[0]], d)
              && TallyOf(log + events, o) == Bump(TallyOf(log, o), events[0], o)
    ensures |events| == 2 && !About(events[1], o) ==>
              && ReplayOrder(log + events, o) == ReplayOrder(log + [events[0]], o)
              && TallyOf(log + events, o) == Bump(TallyOf(log, o), events[0], o)
    ensures |events| == 2 && events[0].OrderEvent? ==>
              ReplayDrone(log + events, d) == ReplayDrone(log + [events[1]], d)
  {
    if |events| == 1 {
      assert events == [events[0]];
      FoldOne(log, events[0], o, d);
    } else if |events| == 2 {
      assert log + events == (log + [events[0]]) + [events[1]];
      FoldOne(log, events[0], o, d);
      FoldOne(log, events[1], o, d);
      FoldOne(log + [events[0]], events[1], o, d);
    }
  }

  // ---------- What a transaction announces ----------

  function KnownOf(o: Order): Known {
    Known(o.userId, o.status, o.assignedDrone)
  }

  /** The events of a write: the order row first if there is one, then the drone if its status was set. */
  predicate Announces(s: State, order: Option<Order>, drone: Option<Drone>, events: seq<Event>) {
    && |events| <= 2
    && (order.Some? ==> |events| > 0 && events[0].OrderEvent? && events[0].orderId == order.value.id &&
                        Known(events[0].userId, events[0].status, events[0].assignee) == KnownOf(order.value))
    && (order.None? ==> |events| <= 1 && (events != [] ==> events[0].DroneEvent?))
    && (|events| == 2 ==> events[1].DroneEvent?)
    && (drone.None? ==> forall e :: e in events ==> e.OrderEvent?)
    && (drone.Some? ==>
          if events != [] && events[|events| - 1].DroneEvent?
          then events[|events| - 1].droneId == drone.value.id && events[|events| - 1].state == drone.value.status
          else drone.value.status == StatusIn(s, drone.value.id))
  }

  function StatusIn(s: State, d: DroneId): DroneStatus {
    if d in s.drones then s.drones[d].status else Active
  }

  lemma DecisionsAnnounce(s: State, c: Command, t: Clock)
    requires Inv(s) && Legal(s, c)
    ensures var w := Decide(c, t, OrderRead(s, c), DroneRead(s, c));
            w.Write? ==> Announces(s, w.order, w.drone, w.events)
  {
  }

  // ---------- The log is complete ----------

  function KnownIn(s: State, o: OrderId): Option<Known> {
    if o in s.orders then Some(KnownOf(s.orders[o])) else None
  }

  ghost predicate LogComplete(s: State) {
    && (forall o :: ReplayOrder(s.log, o) == KnownIn(s, o))
    && (forall d :: ReplayDrone(s.log, d) == StatusIn(s, d))
  }

  lemma AnnouncedWriteKeepsLog(s: State, order: Option<Order>, drone: Option<Drone>, events: seq<Event>)
    requires LogComplete(s) && Announces(s, order, drone, events)
    ensures LogComplete(Apply(s, order, drone, events))
  {
    var s' := Apply(s, order, drone, events);
    forall o ensures ReplayOrder(s'.log, o) == KnownIn(s', o) {
      FoldAppend(s.log, events, o, "");
      if events != [] {
        FoldOne(s.log, events[0], o, "");
      }
      assert ReplayOrder(s.log, o) == KnownIn(s, o);
    }
    forall d ensures ReplayDrone(s'.log, d) == StatusIn(s', d) {
      FoldAppend(s.log, events, "", d);
      if events != [] {
        FoldOne(s.log, events[|events| - 1], "", d);
      }
      assert ReplayDrone(s.log, d) == StatusIn(s, d);
    }
  }

  lemma {:induction false} LogCompleteRun(s: State, acts: seq<Action>)
    requires Inv(s) && LogComplete(s) && LegalRun(s, acts)
    ensures LogComplete(Exec(s, acts))
    decreases |acts|
  {
    if acts != [] {
      var c, t := acts[0].command, acts[0].clock;
      var w := Decide(c, t, OrderRead(s, c), DroneRead(s, c));
      DecisionsAnnounce(s, c, t);
      if w.Write? {
        AnnouncedWriteKeepsLog(s, w.order, w.drone, w.events);
      }
      InvStep(s, c, t);
      LogCompleteRun(Step(s, c, t).0, acts[1..]);
    }
  }

  /** In every reachable state, folding the order events gives the owner, status and drone of exactly the
      stored orders, and folding the drone events the status of every drone. */
  lemma LogIsComplete(s: State)
    requires Reachable(s)
    ensures forall o :: ReplayOrder(s.log, o) == KnownIn(s, o)
    ensures forall d :: ReplayDrone(s.log, d) == StatusIn(s, d)
  {
    var acts :| LegalRun(Empty, acts) && Exec(Empty, acts) == s;
    LogCompleteRun(Empty, acts);
  }
}
