/** The rows as a function of what was asked: after every run, what is stored about an order or a drone is
    what the last command that succeeded in setting it said. And the outbox in order of time. */
module History {
  import opened Domain
  import opened Events
  import opened Dispatch
  import opened Pairing
  import opened Effects
  import opened Lifecycle

  /** The actions of a run that were not refused. */
  function Done(s: State, acts: seq<Action>): seq<Action>
    decreases |acts|
  {
    if acts == [] then []
    else
      var (s', r) := Step(s, acts[0].command, acts[0].clock);
      (if r.Refused? then [] else [acts[0]]) + Done(s', acts[1..])
  }

  // ---------- Orders ----------

  datatype OrderFacts = OrderFacts(
    owner: UserId,
    createdAt: Time,
    origin: Location,
    destination: Location,
    pickedUpAt: Option<Time>,
    deliveredAt: Option<Time>,
    failure: Option<(Time, string)>)

  function OrElse<T>(given: Option<T>, otherwise: T): T {
    if given.Some? then given.value else otherwise
  }

  /** What an action says about order `o`. Only its submission names the owner, only an administrator moves
      its places, and only its drone reports pick-up, delivery and failure. */
  function TellOrder(known: Option<OrderFacts>, a: Action, o: OrderId): Option<OrderFacts> {
    match a.command
    case Submit(id, user, origin, dest) =>
      if id == o then Some(OrderFacts(user, a.clock.first, origin, dest, None, None, None)) else known
    case AdminUpdate(id, origin, dest) =>
      if id == o && known.Some?
      then Some(known.value.(origin := OrElse(origin, known.value.origin),
                             destination := OrElse(dest, known.value.destination)))
      else known
    case Pickup(_, id) =>
      if id == o && known.Some? then Some(known.value.(pickedUpAt := Some(a.clock.first))) else known
    case Deliver(_, id) =>
      if id == o && known.Some? then Some(known.value.(deliveredAt := Some(a.clock.first))) else known
    case Fail(_, id, reason) =>
      if id == o && known.Some? then Some(known.value.(failure := Some((a.clock.first, reason)))) else known
    case _ => known
  }

  function OrderStory(known: Option<OrderFacts>, done: seq<Action>, o: OrderId): Option<OrderFacts>
    decreases |done|
  {
    if done == [] then known else OrderStory(TellOrder(known, done[0], o), done[1..], o)
  }

  /** What the tables have about order `o`. */
  function OrderStored(s: State, o: OrderId): Option<OrderFacts> {
    if o !in s.orders then None
    else
      var row := s.orders[o];
      Some(OrderFacts(row.userId, row.createdAt, row.origin, row.destination, row.pickedUpAt, row.deliveredAt,
                      if row.failedAt.Some? && row.failureReason.Some?
                      then Some((row.failedAt.value, row.failureReason.value))
                      else None))
  }

  lemma OrderStoryOf(s: State, a: Action, orders: map<OrderId, Order>, o: OrderId)
    requires OrdersAfter(s, a.command, a.clock, orders)
    ensures OrderStored(s.(orders := orders), o) == TellOrder(OrderStored(s, o), a, o)
  {
  }

  lemma OrderStoryStep(s: State, a: Action, o: OrderId)
    requires Inv(s) && Legal(s, a.command)
    ensures var (s', r) := Step(s, a.command, a.clock);
            OrderStored(s', o) == if r.Refused? then OrderStored(s, o) else TellOrder(OrderStored(s, o), a, o)
  {
    var (s', r) := Step(s, a.command, a.clock);
    if r.Refused? {
      RefusalKeepsTables(s, a.command, a.clock);
    } else {
      Succeeds(s, a.command, a.clock);
      OrderStoryOf(s, a, s'.orders, o);
      assert OrderStored(s.(orders := s'.orders), o) == OrderStored(s', o);
    }
  }

  // ---------- Drones ----------

  /** A drone that is not stored is an active one without a position or an order. */
  datatype DroneFacts = DroneFacts(
    status: DroneStatus,
    position: Option<Location>,
    heardAt: Option<Time>,
    holding: Option<OrderId>)

  const Unseen := DroneFacts(Active, None, None, None)

  /** What an action says about drone `d`. */
  function TellDrone(known: DroneFacts, a: Action, d: DroneId): DroneFacts {
    match a.command
    case MarkBroken(x) => if x == d then known.(status := Broken, holding := None) else known
    case MarkFixed(x) => if x == d then known.(status := Active) else known
    case Heartbeat(x, loc) => if x == d then known.(position := Some(loc), heardAt := Some(a.clock.second)) else known
    case Reserve(x, choice) => if x == d then known.(holding := choice) else known
    case Deliver(x, _) => if x == d then known.(holding := None) else known
    case Fail(x, _, _) => if x == d then known.(holding := None) else known
    case Withdraw(_, id) => if known.holding == Some(id) then known.(holding := None) else known
    case _ => known
  }

  function DroneStory(known: DroneFacts, done: seq<Action>, d: DroneId): DroneFacts
    decreases |done|
  {
    if done == [] then known else DroneStory(TellDrone(known, done[0], d), done[1..], d)
  }

  function DroneStored(s: State, d: DroneId): DroneFacts {
    if d !in s.drones then Unseen
    else DroneFacts(s.drones[d].status, s.drones[d].lastLocation, s.drones[d].lastHeartbeatAt, s.drones[d].currentOrder)
  }

  lemma DroneStoryOf(s: State, a: Action, drones: map<DroneId, Drone>, d: DroneId)
    requires Inv(s) && DronesAfter(s, a.command, a.clock, drones)
    requires a.command.Withdraw? ==> a.command.id in s.orders && s.orders[a.command.id].status in {Created, Reserved}
    ensures DroneStored(s.(drones := drones), d) == TellDrone(DroneStored(s, d), a, d)
  {
    if a.command.Withdraw? {
      assert Pointer(s, d) == Some(a.command.id) <==> HolderIn(s, a.command.id) == Some(d);
    }
  }

  lemma DroneStoryStep(s: State, a: Action, d: DroneId)
    requires Inv(s) && Legal(s, a.command)
    ensures var (s', r) := Step(s, a.command, a.clock);
            DroneStored(s', d) == if r.Refused? then DroneStored(s, d) else TellDrone(DroneStored(s, d), a, d)
  {
    var (s', r) := Step(s, a.command, a.clock);
    if r.Refused? {
      RefusalKeepsTables(s, a.command, a.clock);
    } else {
      Succeeds(s, a.command, a.clock);
      if a.command.Withdraw? {
        Answers(s, a.command, a.clock, NotFound);
        Answers(s, a.command, a.clock, Forbidden);
        Answers(s, a.command, a.clock, Precondition);
      }
      DroneStoryOf(s, a, s'.drones, d);
      assert DroneStored(s.(drones := s'.drones), d) == DroneStored(s', d);
    }
  }

  // ---------- Every run ----------

  /** The stored rows are the story of the commands that succeeded, and of nothing else. */
  lemma {:induction false} StoryRun(s: State, acts: seq<Action>, o: OrderId, d: DroneId)
    requires Inv(s) && LegalRun(s, acts)
    ensures OrderStored(Exec(s, acts), o) == OrderStory(OrderStored(s, o), Done(s, acts), o)
    ensures DroneStored(Exec(s, acts), d) == DroneStory(DroneStored(s, d), Done(s, acts), d)
    decreases |acts|
  {
    if acts != [] {
      var a := acts[0];
      var (s', r) := Step(s, a.command, a.clock);
      OrderStoryStep(s, a, o);
      DroneStoryStep(s, a, d);
      InvStep(s, a.command, a.clock);
      StoryRun(s', acts[1..], o, d);
      var rest := Done(s', acts[1..]);
      assert [] + rest == rest && ([a] + rest)[1..] == rest;
    }
  }

  /** From empty tables: an order is stored exactly if its submission succeeded, and every fact about it and
      about every drone is the last one told. */
  lemma HistoryHolds(acts: seq<Action>, o: OrderId, d: DroneId)
    requires LegalRun(Empty, acts)
    ensures OrderStored(Exec(Empty, acts), o) == OrderStory(None, Done(Empty, acts), o)
    ensures DroneStored(Exec(Empty, acts), d) == DroneStory(Unseen, Done(Empty, acts), d)
  {
    StoryRun(Empty, acts, o, d);
  }

  /** The fields of an order that its users rely on. */
  ghost predicate Kept(s: State, s': State, o: OrderId, places: bool) {
    && o in s.orders && o in s'.orders
    && s'.orders[o].userId == s.orders[o].userId && s'.orders[o].createdAt == s.orders[o].createdAt
    && (places ==> s'.orders[o].origin == s.orders[o].origin && s'.orders[o].destination == s.orders[o].destination)
  }

  predicate Updates(c: Command, o: OrderId) {
    c.AdminUpdate? && c.id == o
  }

  lemma KeptBy(s: State, c: Command, t: Clock, s': State, o: OrderId)
    requires OrdersAfter(s, c, t, s'.orders) && o in s.orders && (c.Submit? ==> c.id !in s.orders)
    ensures Kept(s, s', o, !Updates(c, o))
  {
  }

  lemma KeptStep(s: State, c: Command, t: Clock, o: OrderId)
    requires Inv(s) && Legal(s, c) && o in s.orders
    ensures Kept(s, Step(s, c, t).0, o, !Updates(c, o))
  {
    if Step(s, c, t).1.Refused? {
      RefusalKeepsTables(s, c, t);
    } else {
      Succeeds(s, c, t);
      if c.Submit? {
        Answers(s, c, t, Database);
        Answers(s, c, t, Invalid);
      }
      KeptBy(s, c, t, Step(s, c, t).0, o);
    }
  }

  /** Owner and creation time never change; the places only by an administrator's update of the order. */
  lemma {:induction false} FixedFields(s: State, acts: seq<Action>, o: OrderId)
    requires Inv(s) && LegalRun(s, acts) && o in s.orders
    ensures Kept(s, Exec(s, acts), o, forall k :: 0 <= k < |acts| ==> !Updates(acts[k].command, o))
    decreases |acts|
  {
    if acts != [] {
      var c, t := acts[0].command, acts[0].clock;
      KeptStep(s, c, t, o);
      InvStep(s, c, t);
      FixedFields(Step(s, c, t).0, acts[1..], o);
      assert forall k :: 0 <= k < |acts| - 1 ==> acts[1..][k] == acts[k + 1];
    }
  }

  // ---------- Time ----------

  ghost predicate Sorted(log: seq<Event>, now: Time) {
    && (forall k :: 0 <= k < |log| ==> log[k].occurredAt <= now)
    && (forall k, l :: 0 <= k < l < |log| ==> log[k].occurredAt <= log[l].occurredAt)
  }

  /** Every event carries a time its operation has read. */
  lemma EventsInTime(s: State, c: Command, t: Clock, s': State, k: nat)
    requires EventsAfter(s, c, t, s') && t.first <= t.second && |s.log| <= k < |s'.log|
    ensures t.first <= s'.log[k].occurredAt <= t.second
  {
  }

  lemma SortedAfter(s: State, c: Command, t: Clock, s': State, now: Time)
    requires EventsAfter(s, c, t, s') && now <= t.first <= t.second && Sorted(s.log, now)
    ensures Sorted(s'.log, t.second)
  {
    assert forall k :: 0 <= k < |s.log| ==> s'.log[k] == s'.log[..|s.log|][k];
    forall k: nat | |s.log| <= k < |s'.log| ensures t.first <= s'.log[k].occurredAt <= t.second {
      EventsInTime(s, c, t, s', k);
    }
    if |s'.log| == |s.log| + 2 {
      assert c.MarkBroken? && s'.log[|s.log|].occurredAt == t.second;
    }
  }

  lemma SortedStep(s: State, c: Command, t: Clock, now: Time)
    requires Inv(s) && Legal(s, c) && now <= t.first <= t.second && Sorted(s.log, now)
    ensures Sorted(Step(s, c, t).0.log, t.second)
  {
    if Step(s, c, t).1.Refused? {
      RefusalKeepsTables(s, c, t);
    } else {
      Succeeds(s, c, t);
      SortedAfter(s, c, t, Step(s, c, t).0, now);
    }
  }

  /** With a clock that never runs backwards, the outbox is in order of occurrence after every run. */
  lemma {:induction false} SortedRun(s: State, acts: seq<Action>, now: Time)
    requires Inv(s) && LegalRun(s, acts) && ClockRun(now, acts) && Sorted(s.log, now)
    ensures Sorted(Exec(s, acts).log, ClockAfter(now, acts))
    decreases |acts|
  {
    if acts != [] {
      var c, t := acts[0].command, acts[0].clock;
      SortedStep(s, c, t, now);
      InvStep(s, c, t);
      SortedRun(Step(s, c, t).0, acts[1..], t.second);
    }
  }
}
