/** First come, first served, and no order left behind. */
module Fairness {
  import opened Domain
  import opened Dispatch
  import opened Pairing
  import opened Conservation
  import opened Lifecycle

  predicate Waiting(s: State, o: OrderId) {
    o in s.orders && Available(s.orders[o])
  }

  /** The other waiting orders that may be served before `o`: those not created after it. */
  function Ahead(s: State, o: OrderId): set<OrderId>
    requires o in s.orders
  {
    set x | x in s.orders && x != o && Available(s.orders[x]) && s.orders[x].createdAt <= s.orders[o].createdAt
  }

  // ---------- One step ----------

  predicate Succeeds(s: State, c: Command, t: Clock) {
    !Step(s, c, t).1.Refused?
  }

  /** A reservation was made. */
  predicate Serves(s: State, c: Command, t: Clock) {
    c.Reserve? && Succeeds(s, c, t)
  }

  /** A breakdown put an order back that may be served before `o`. */
  predicate PutsAhead(s: State, c: Command, o: OrderId)
    requires o in s.orders
  {
    c.MarkBroken? && OrderRead(s, c).Some? && OrderRead(s, c).value.createdAt <= s.orders[o].createdAt
  }

  /** An order was submitted with a time stamp not later than that of `o`. */
  predicate SubmitsAhead(s: State, c: Command, t: Clock, o: OrderId)
    requires o in s.orders
  {
    c.Submit? && Succeeds(s, c, t) && t.first <= s.orders[o].createdAt
  }

  /** Creation times never change, and only a submission or a breakdown makes an order available. */
  lemma WrittenAvailability(c: Command, t: Clock, order: Option<Order>, drone: Option<Drone>)
    ensures var w := Decide(c, t, order, drone);
            w.Write? && w.order.Some? ==>
              && (order.Some? ==> w.order.value.createdAt == order.value.createdAt)
              && (order.None? ==> c.Submit? && w.order.value.createdAt == t.first)
              && (Available(w.order.value) ==> c.Submit? || c.MarkBroken? || (order.Some? && Available(order.value)))
              && (c.Reserve? ==> !Available(w.order.value))
  {
  }

  lemma AheadAfterWrite(s: State, w: Order, o: OrderId)
    requires o in s.orders && (w.id in s.orders ==> w.createdAt == s.orders[w.id].createdAt)
    ensures var s' := s.(orders := s.orders[w.id := w]);
            && Ahead(s', o) <= Ahead(s, o) + {w.id}
            && (!Available(w) && w.id != o ==> Ahead(s', o) == Ahead(s, o) - {w.id})
            && (w.createdAt > s.orders[o].createdAt ==> Ahead(s', o) <= Ahead(s, o))
            && (w.id in s.orders && (Available(w) ==> Available(s.orders[w.id])) ==> Ahead(s', o) <= Ahead(s, o))
  {
  }

  lemma AheadStep(s: State, c: Command, t: Clock, o: OrderId)
    requires Inv(s) && LegalFifo(s, c) && Waiting(s, o) && Waiting(Step(s, c, t).0, o)
    ensures |Ahead(Step(s, c, t).0, o)| + One(Serves(s, c, t))
            <= |Ahead(s, o)| + One(PutsAhead(s, c, o)) + One(SubmitsAhead(s, c, t, o))
  {
    var w := Decide(c, t, OrderRead(s, c), DroneRead(s, c));
    var before, after := Ahead(s, o), Ahead(Step(s, c, t).0, o);
    WrittenAvailability(c, t, OrderRead(s, c), DroneRead(s, c));
    WritesRowRead(s, c, t);
    if w.Write? && w.order.Some? {
      var x := w.order.value.id;
      AheadAfterWrite(s, w.order.value, o);
      assert after == Ahead(s.(orders := s.orders[x := w.order.value]), o);
      if c.Reserve? {
        assert |before| == |before - {x}| + 1;
      } else if PutsAhead(s, c, o) || SubmitsAhead(s, c, t, o) {
        Smaller(after, before + {x});
      } else {
        Smaller(after, before);
      }
    }
  }

  lemma Smaller(a: set<OrderId>, b: set<OrderId>)
    requires a <= b
    ensures |a| <= |b|
  {
    assert b == a + (b - a);
  }

  // ---------- Every run ----------

  ghost predicate StaysWaiting(s: State, acts: seq<Action>, o: OrderId)
    decreases |acts|
  {
    Waiting(s, o) && (acts == [] || StaysWaiting(Step(s, acts[0].command, acts[0].clock).0, acts[1..], o))
  }

  /** Reservations made in a run; releases and late submissions that went ahead of `o`. */
  datatype Traffic = Traffic(served: nat, released: nat, submitted: nat)

  ghost function TrafficOf(s: State, acts: seq<Action>, o: OrderId): Traffic
    requires StaysWaiting(s, acts, o)
    decreases |acts|
  {
    if acts == [] then Traffic(0, 0, 0)
    else
      var c, t := acts[0].command, acts[0].clock;
      var rest := TrafficOf(Step(s, c, t).0, acts[1..], o);
      Traffic(rest.served + One(Serves(s, c, t)),
              rest.released + One(PutsAhead(s, c, o)),
              rest.submitted + One(SubmitsAhead(s, c, t, o)))
  }

  /** Bounded bypass: while an order waits, no more reservations are made than there were orders ahead of
      it, plus releases of orders not created after it, plus submissions stamped not after it. */
  lemma {:induction false} BoundedBypass(s: State, acts: seq<Action>, o: OrderId)
    requires Inv(s) && FifoRun(s, acts) && StaysWaiting(s, acts, o)
    ensures o in Exec(s, acts).orders
    ensures var n := TrafficOf(s, acts, o);
            n.served + |Ahead(Exec(s, acts), o)| <= |Ahead(s, o)| + n.released + n.submitted
    decreases |acts|
  {
    if acts != [] {
      var c, t := acts[0].command, acts[0].clock;
      InvStep(s, c, t);
      AheadStep(s, c, t, o);
      BoundedBypass(Step(s, c, t).0, acts[1..], o);
    }
  }

  /** With a clock that has passed the order's creation, nothing is submitted ahead of it. */
  lemma {:induction false} NothingSubmittedAhead(s: State, acts: seq<Action>, o: OrderId, now: Time)
    requires Inv(s) && LegalRun(s, acts) && StaysWaiting(s, acts, o)
    requires ClockRun(now, acts) && s.orders[o].createdAt < now
    ensures TrafficOf(s, acts, o).submitted == 0
    decreases |acts|
  {
    if acts != [] {
      var c, t := acts[0].command, acts[0].clock;
      WrittenAvailability(c, t, OrderRead(s, c), DroneRead(s, c));
      WritesRowRead(s, c, t);
      InvStep(s, c, t);
      NothingSubmittedAhead(Step(s, c, t).0, acts[1..], o, t.second);
    }
  }

  lemma {:induction false} FifoIsLegal(s: State, acts: seq<Action>)
    requires FifoRun(s, acts)
    ensures LegalRun(s, acts)
    decreases |acts|
  {
    if acts != [] {
      FifoIsLegal(Step(s, acts[0].command, acts[0].clock).0, acts[1..]);
    }
  }

  /** First come, first served: once the clock has passed its creation, a waiting order is bypassed at most
      by the orders ahead of it and by releases of orders not created after it. */
  lemma BypassUnderClock(s: State, acts: seq<Action>, o: OrderId, now: Time)
    requires Inv(s) && FifoRun(s, acts) && StaysWaiting(s, acts, o)
    requires ClockRun(now, acts) && s.orders[o].createdAt < now
    ensures TrafficOf(s, acts, o).served <= |Ahead(s, o)| + TrafficOf(s, acts, o).released
  {
    FifoIsLegal(s, acts);
    BoundedBypass(s, acts, o);
    NothingSubmittedAhead(s, acts, o, now);
  }

  // ---------- No order is ever stuck ----------

  lemma {:induction false} LengthBound(ids: set<string>) returns (n: nat)
    ensures forall id :: id in ids ==> |id| < n
    decreases ids
  {
    n := 0;
    if id :| id in ids {
      var m := LengthBound(ids - {id});
      n := if m <= |id| then |id| + 1 else m;
    }
  }

  /** There is always a drone that has not been seen before. */
  lemma FreshDrone(ids: set<string>) returns (id: string)
    ensures id !in ids
  {
    var n := LengthBound(ids);
    id := seq(n, _ => 'd');
  }

  lemma {:induction false} OldestOf(s: State, ids: set<OrderId>) returns (best: OrderId)
    requires ids != {} && forall x :: x in ids ==> x in s.orders
    ensures best in ids && forall x :: x in ids ==> s.orders[best].createdAt <= s.orders[x].createdAt
    decreases ids
  {
    var id :| id in ids;
    best := id;
    if ids != {id} {
      var rest := OldestOf(s, ids - {id});
      best := if s.orders[rest].createdAt < s.orders[id].createdAt then rest else id;
    }
  }

  lemma OldestExists(s: State, o: OrderId) returns (best: OrderId)
    requires Waiting(s, o)
    ensures IsOldest(s.orders, Some(best))
  {
    var ids := set x | x in s.orders && Available(s.orders[x]);
    assert o in ids;
    best := OldestOf(s, ids);
  }

  /** The drone holding an order can finish it. */
  lemma Finish(s: State, o: OrderId, t: Clock) returns (acts: seq<Action>)
    requires Inv(s) && o in s.orders && IsActive(s.orders[o].status)
    ensures FifoRun(s, acts) && LegalRun(s, acts) && |acts| <= 2
    ensures forall k :: 0 <= k < |acts| ==> acts[k].clock == t
    ensures o in Exec(s, acts).orders && Exec(s, acts).orders[o].status == Delivered
  {
    var d := s.orders[o].assignedDrone.value;
    assert HolderIn(s, o) == Some(d) && Pointer(s, d) == Some(o);
    var pickup, deliver := Action(Pickup(d, o), t), Action(Deliver(d, o), t);
    if s.orders[o].status == PickedUp {
      acts := [deliver];
      assert Exec(s, acts) == Step(s, deliver.command, t).0;
    } else {
      acts := [pickup, deliver];
      assert acts[1..] == [deliver];
      var s' := Step(s, pickup.command, t).0;
      assert Exec(s', [deliver]) == Step(s', deliver.command, t).0;
    }
  }

  /** From every state that satisfies the invariant, every order that is not terminal can be brought to
      DELIVERED by commands alone, with first-come-first-served reservations by drones never seen before. */
  lemma {:induction false} NeverStuck(s: State, o: OrderId, t: Clock) returns (acts: seq<Action>)
    requires Inv(s) && o in s.orders && !IsTerminal(s.orders[o].status)
    ensures FifoRun(s, acts) && LegalRun(s, acts)
    ensures forall k :: 0 <= k < |acts| ==> acts[k].clock == t
    ensures o in Exec(s, acts).orders && Exec(s, acts).orders[o].status == Delivered
    decreases if Available(s.orders[o]) then 1 + |Ahead(s, o)| else 0
  {
    if IsActive(s.orders[o].status) {
      acts := Finish(s, o, t);
    } else {
      var d := FreshDrone(s.drones.Keys);
      var best := OldestExists(s, o);
      var reserve := Action(Reserve(d, Some(best)), t);
      var s' := Step(s, reserve.command, t).0;
      InvStep(s, reserve.command, t);
      if best != o {
        AheadStep(s, reserve.command, t, o);
      }
      var rest := NeverStuck(s', o, t);
      acts := [reserve] + rest;
      assert acts[1..] == rest;
    }
  }
}
