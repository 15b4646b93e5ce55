/** Event counts per order, and the finality of terminal orders, over every run. */
module Conservation {
  import opened Domain
  import opened Events
  import opened Dispatch
  import opened Pairing
  import opened EventLog

  function One(b: bool): nat {
    if b then 1 else 0
  }

  /** The package has left its pick-up point with the order's present drone. */
  predicate Carried(status: OrderStatus) {
    status == PickedUp || status == Delivered || status == Failed
  }

  /** The conservation laws of one order's events. */
  predicate Balanced(o: Order, n: Tally) {
    && n.created == 1
    && n.withdrawn == One(o.status == Withdrawn)
    && n.delivered == One(o.status == Delivered)
    && n.failed == One(o.status == Failed)
    && n.pickedUp == n.handoff + One(Carried(o.status))
    && (var open := n.reserved - n.handoff - n.requeued;
        if o.status == Withdrawn then 0 <= open <= 1 else open == One(o.status == Reserved || Carried(o.status)))
    && (o.pickedUpAt.Some? <==> n.pickedUp > 0)
  }

  ghost predicate AllBalanced(s: State) {
    forall o :: if o in s.orders then Balanced(s.orders[o], TallyOf(s.log, o)) else TallyOf(s.log, o) == Zero
  }

  ghost predicate KeepsBalance(order: Option<Order>, n: Tally, w: Decision) {
    && (if order.Some? then AssignedByStatus(order.value) && Balanced(order.value, n) else n == Zero)
    && w.Write? && w.order.Some? ==>
      |w.events| > 0 && Balanced(w.order.value, Bump(n, w.events[0], w.order.value.id))
  }

  lemma UserBalance(c: Command, t: Clock, order: Option<Order>, drone: Option<Drone>, n: Tally)
    requires c.Submit? || c.Withdraw? || c.AdminUpdate?
    ensures KeepsBalance(order, n, Decide(c, t, order, drone))
  {
  }

  lemma CourierBalance(c: Command, t: Clock, order: Option<Order>, drone: Option<Drone>, n: Tally)
    requires c.Reserve? || c.Pickup? || c.Deliver? || c.Fail?
    requires c.Reserve? && order.Some? ==> Available(order.value)
    ensures KeepsBalance(order, n, Decide(c, t, order, drone))
  {
  }

  /** The order row a command writes stays balanced with the event written beside it. */
  lemma RowBalance(c: Command, t: Clock, order: Option<Order>, drone: Option<Drone>, n: Tally)
    requires c.Reserve? && order.Some? ==> Available(order.value)
    ensures KeepsBalance(order, n, Decide(c, t, order, drone))
  {
    if c.Submit? || c.Withdraw? || c.AdminUpdate? {
      UserBalance(c, t, order, drone, n);
    } else if c.Reserve? || c.Pickup? || c.Deliver? || c.Fail? {
      CourierBalance(c, t, order, drone, n);
    }
  }

  lemma BalancedStep(s: State, c: Command, t: Clock)
    requires Inv(s) && AllBalanced(s) && Legal(s, c)
    ensures AllBalanced(Step(s, c, t).0)
  {
    var w := Decide(c, t, OrderRead(s, c), DroneRead(s, c));
    if w.Write? {
      DecisionsAnnounce(s, c, t);
      var s' := Step(s, c, t).0;
      forall o
        ensures if o in s'.orders then Balanced(s'.orders[o], TallyOf(s'.log, o)) else TallyOf(s'.log, o) == Zero
      {
        FoldAppend(s.log, w.events, o, "");
        if w.order.Some? && w.order.value.id == o {
          WritesRowRead(s, c, t);
          RowBalance(c, t, OrderRead(s, c), DroneRead(s, c), TallyOf(s.log, o));
        }
      }
    }
  }

  lemma {:induction false} BalancedRun(s: State, acts: seq<Action>)
    requires Inv(s) && AllBalanced(s) && LegalRun(s, acts)
    ensures AllBalanced(Exec(s, acts))
    decreases |acts|
  {
    if acts != [] {
      var c, t := acts[0].command, acts[0].clock;
      BalancedStep(s, c, t);
      InvStep(s, c, t);
      BalancedRun(Step(s, c, t).0, acts[1..]);
    }
  }

  /** With `r` releases (hand-offs and requeues) an order has at most `3r + 4` events besides updates by
      an administrator, and exactly one terminal event once it is terminal. */
  lemma EventBound(s: State, o: OrderId)
    requires Reachable(s) && o in s.orders
    ensures var n := TallyOf(s.log, o);
            && Balanced(s.orders[o], n)
            && n.created + n.reserved + n.pickedUp + n.handoff + n.requeued + n.withdrawn + n.delivered + n.failed
               <= 3 * (n.handoff + n.requeued) + 4
            && n.withdrawn + n.delivered + n.failed == One(IsTerminal(s.orders[o].status))
  {
    var acts :| LegalRun(Empty, acts) && Exec(Empty, acts) == s;
    BalancedRun(Empty, acts);
  }

  // ---------- Terminal orders are frozen ----------

  lemma TerminalUntouched(s: State, c: Command, t: Clock, o: OrderId)
    requires Inv(s) && Legal(s, c) && o in s.orders && IsTerminal(s.orders[o].status)
    ensures var w := Decide(c, t, OrderRead(s, c), DroneRead(s, c));
            w.Write? && w.order.Some? ==> w.order.value.id != o
  {
    var d := DroneRead(s, c);
    if c.MarkBroken? && d.Some? && d.value.currentOrder.Some? {
      HeldOrder(s, c.drone, d.value.currentOrder.value);
    }
  }

  /** State `s'` has order `o` as `s` has it, and a log that says nothing more about it. */
  ghost predicate Same(s: State, s': State, o: OrderId) {
    && o in s.orders && o in s'.orders && s'.orders[o] == s.orders[o]
    && s.log <= s'.log
    && forall k :: |s.log| <= k < |s'.log| ==> !About(s'.log[k], o)
  }

  lemma WriteElsewhere(s: State, order: Option<Order>, drone: Option<Drone>, events: seq<Event>, o: OrderId)
    requires o in s.orders && Announces(s, order, drone, events) && (order.Some? ==> order.value.id != o)
    ensures Same(s, Apply(s, order, drone, events), o)
  {
  }

  lemma TerminalStep(s: State, c: Command, t: Clock, o: OrderId)
    requires Inv(s) && Legal(s, c) && o in s.orders && IsTerminal(s.orders[o].status)
    ensures Same(s, Step(s, c, t).0, o)
  {
    var w := Decide(c, t, OrderRead(s, c), DroneRead(s, c));
    TerminalUntouched(s, c, t, o);
    DecisionsAnnounce(s, c, t);
    if w.Write? {
      WriteElsewhere(s, w.order, w.drone, w.events, o);
    }
  }

  /** No step of any run changes a field of a terminal order or appends an event about it. */
  lemma {:induction false} TerminalFrozen(s: State, acts: seq<Action>, o: OrderId)
    requires Inv(s) && LegalRun(s, acts) && o in s.orders && IsTerminal(s.orders[o].status)
    ensures Same(s, Exec(s, acts), o)
    decreases |acts|
  {
    if acts != [] {
      var s' := Step(s, acts[0].command, acts[0].clock).0;
      TerminalStep(s, acts[0].command, acts[0].clock, o);
      InvStep(s, acts[0].command, acts[0].clock);
      TerminalFrozen(s', acts[1..], o);
      SameTransitive(s, s', Exec(s', acts[1..]), o);
    }
  }

  lemma SameTransitive(s: State, s': State, s'': State, o: OrderId)
    requires Same(s, s', o) && Same(s', s'', o)
    ensures Same(s, s'', o)
  {
  }
}
