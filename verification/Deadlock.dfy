/** Who can wait for whom at the row-lock level. */
module Deadlock {
  import opened Domain
  import opened Dispatch
  import opened Pairing
  import opened RowLocks
  import Fairness

  /** The row a transaction must get before its next statement returns, if another transaction could be in
      the way. A row that is not committed is read as absent, a committed key fails an insert, and
      selecting a job skips locked rows, all without waiting. */
  function WaitRow(s: State, tx: Tx): Option<Row> {
    match Needs(tx)
    case LockOrder(o) => if o in s.orders then Some(OrderRow(o)) else None
    case AddOrder(o) => if o in s.orders then None else Some(OrderRow(o))
    case LockDrone(d) => if d in s.drones then Some(DroneRow(d)) else None
    case AddDrone(d) => if d in s.drones then None else Some(DroneRow(d))
    case _ => None
  }

  ghost predicate WaitsFor(db: Db, i: TxId, j: TxId) {
    && i in db.txs && j in db.txs && i != j
    && var row := WaitRow(db.committed, db.txs[i]);
       row.Some? && Holds(db.txs[j], row.value)
  }

  ghost predicate Blocked(db: Db, i: TxId) {
    exists j :: WaitsFor(db, i, j)
  }

  /** `i` needs a row and holds a row. */
  ghost predicate Stuck(db: Db, i: TxId) {
    i in db.txs && WaitRow(db.committed, db.txs[i]).Some? && exists row :: Holds(db.txs[i], row)
  }

  /** A drone being marked broken holds its row and wants its order, while a withdrawal or completion
      holds that order and wants the drone. */
  predicate Embrace(db: Db, broken: TxId, user: TxId) {
    && broken in db.txs && user in db.txs
    && var b, u := db.txs[broken], db.txs[user];
       && b.command.MarkBroken? && b.drone.Locked? && u.order.Locked?
       && (u.command.Withdraw? || u.command.Deliver? || u.command.Fail?)
       && Needs(b) == LockOrder(u.order.row.id) && Needs(u) == LockDrone(b.drone.row.id)
  }

  /** Only three programs can wait while holding a row: a withdrawal or completion holding its order, and
      a breakdown holding its drone. */
  lemma StuckPrograms(db: Db, i: TxId)
    requires LockInv(db) && Stuck(db, i)
    ensures var tx := db.txs[i];
            || ((tx.command.Withdraw? || tx.command.Deliver? || tx.command.Fail?)
                && tx.order.Locked? && tx.order.row.assignedDrone.Some? && IsActive(tx.order.row.status)
                && Needs(tx) == LockDrone(tx.order.row.assignedDrone.value) && tx.drone.Unread?)
            || (tx.command.MarkBroken? && tx.drone.Locked? && tx.drone.row.currentOrder.Some?
                && Needs(tx) == LockOrder(tx.drone.row.currentOrder.value) && tx.order.Unread?)
  {
    var row :| Holds(db.txs[i], row);
  }

  /** If a stuck transaction waits for another stuck one, the two embrace: the row locks and the pairing of
      the committed rows leave no other possibility. */
  lemma StuckEmbrace(db: Db, i: TxId, j: TxId)
    requires LockInv(db) && Stuck(db, i) && Stuck(db, j) && WaitsFor(db, i, j)
    ensures Embrace(db, i, j) || Embrace(db, j, i)
    ensures WaitsFor(db, j, i)
  {
    StuckPrograms(db, i);
    StuckPrograms(db, j);
    var a, b := db.txs[i], db.txs[j];
    if a.order.Locked? && b.drone.Locked? {
      assert Pointer(db.committed, b.drone.row.id) == Some(a.order.row.id) <==>
             HolderIn(db.committed, a.order.row.id) == Some(b.drone.row.id);
    } else if a.drone.Locked? && b.order.Locked? {
      assert Pointer(db.committed, a.drone.row.id) == Some(b.order.row.id) <==>
             HolderIn(db.committed, b.order.row.id) == Some(a.drone.row.id);
    }
  }

  // ---------- Cycles ----------

  function Successor(c: seq<TxId>, k: nat): TxId
    requires k < |c|
  {
    if k + 1 == |c| then c[0] else c[k + 1]
  }

  ghost predicate Link(db: Db, c: seq<TxId>, k: nat) {
    k < |c| && WaitsFor(db, c[k], Successor(c, k))
  }

  /** Each transaction waits for the next and the last for the first. */
  ghost predicate Ring(db: Db, c: seq<TxId>) {
    |c| > 0 && forall k :: 0 <= k < |c| ==> Link(db, c, k)
  }

  /** A ring of distinct transactions. */
  ghost predicate Cycle(db: Db, c: seq<TxId>) {
    Ring(db, c) && forall k, l :: 0 <= k < l < |c| ==> c[k] != c[l]
  }

  lemma BetweenIsStuck(db: Db, i: TxId, j: TxId, k: TxId)
    requires WaitsFor(db, i, j) && WaitsFor(db, j, k)
    ensures Stuck(db, j)
  {
  }

  lemma OnCycleIsStuck(db: Db, c: seq<TxId>, k: nat)
    requires Ring(db, c) && k < |c|
    ensures Stuck(db, c[k])
  {
    var p := if k == 0 then |c| - 1 else k - 1;
    assert Link(db, c, p) && Link(db, c, k);
    assert Successor(c, p) == c[k];
    BetweenIsStuck(db, c[p], c[k], Successor(c, k));
  }

  /** Locks are exclusive, so a transaction waits for at most one other. */
  lemma OneHolder(db: Db, i: TxId, j: TxId, k: TxId)
    requires LockInv(db) && WaitsFor(db, i, j) && WaitsFor(db, i, k)
    ensures j == k
  {
  }

  /** Every wait-for cycle has length two and is an embrace. */
  lemma CyclesAreEmbraces(db: Db, c: seq<TxId>)
    requires LockInv(db) && Cycle(db, c)
    ensures |c| == 2 && (Embrace(db, c[0], c[1]) || Embrace(db, c[1], c[0]))
  {
    assert Link(db, c, 0) && Link(db, c, |c| - 1);
    assert Successor(c, 0) == c[1];
    OnCycleIsStuck(db, c, 0);
    OnCycleIsStuck(db, c, 1);
    StuckEmbrace(db, c[0], c[1]);
    assert Link(db, c, 1);
    OneHolder(db, c[1], c[0], Successor(c, 1));
  }

  /** ... and every embrace is a cycle. */
  lemma EmbracesAreCycles(db: Db, broken: TxId, user: TxId)
    requires LockInv(db) && Embrace(db, broken, user)
    ensures Cycle(db, [broken, user])
  {
    var c := [broken, user];
    assert Successor(c, 0) == user && Successor(c, 1) == broken;
    assert WaitsFor(db, broken, user) && WaitsFor(db, user, broken);
    assert Link(db, c, 0) && Link(db, c, 1);
  }

  /** Runs without breakdowns never deadlock, and a reservation is never part of a deadlock. */
  lemma NoCycleWithoutBreakdown(db: Db, c: seq<TxId>)
    requires LockInv(db) && Cycle(db, c)
    ensures exists k :: 0 <= k < |c| && c[k] in db.txs && db.txs[c[k]].command.MarkBroken?
    ensures forall k :: 0 <= k < |c| ==> c[k] in db.txs && !db.txs[c[k]].command.Reserve?
  {
    CyclesAreEmbraces(db, c);
    assert c[0] in db.txs && c[1] in db.txs;
    assert db.txs[c[0]].command.MarkBroken? || db.txs[c[1]].command.MarkBroken?;
  }

  /** No running transaction marks a drone broken if none was begun that does. */
  lemma {:induction false} NoBreakdownRunning(db: Db, moves: seq<Move>)
    requires LockRun(db, moves)
    requires forall i :: i in db.txs ==> !db.txs[i].command.MarkBroken?
    requires forall k :: 0 <= k < |moves| && moves[k].Begin? ==> !moves[k].command.MarkBroken?
    ensures forall i :: i in DoAll(db, moves).txs ==> !DoAll(db, moves).txs[i].command.MarkBroken?
    decreases |moves|
  {
    if moves != [] {
      var m := moves[0];
      assert m.Begin? ==> !m.command.MarkBroken?;
      NoBreakdownRunning(Do(db, m), moves[1..]);
    }
  }

  /** A run from the empty database in which no drone is marked broken is never deadlocked. */
  lemma NoDeadlockWithoutBreakdowns(moves: seq<Move>, c: seq<TxId>)
    requires LockRun(Start, moves)
    requires forall k :: 0 <= k < |moves| && moves[k].Begin? ==> !moves[k].command.MarkBroken?
    ensures !Cycle(DoAll(Start, moves), c)
  {
    CommittedIsReachable(moves);
    NoBreakdownRunning(Start, moves);
    if Cycle(DoAll(Start, moves), c) {
      NoCycleWithoutBreakdown(DoAll(Start, moves), c);
    }
  }

  // ---------- Progress ----------

  /** What the job query returns when it looks at all rows at one instant: an oldest available row that no
      other transaction holds, and none only if others hold every available row. */
  ghost predicate Scan(db: Db, i: TxId, choice: Option<OrderId>) {
    IsOldest(map o | o in db.committed.orders && Free(db, i, OrderRow(o)) :: db.committed.orders[o], choice)
  }

  /** Told that there is no job, a drone knows that running transactions hold every available order. */
  lemma NoJobMeansHeld(db: Db, i: TxId, o: OrderId)
    requires Scan(db, i, None) && o in db.committed.orders && Available(db.committed.orders[o])
    ensures exists j :: j in db.txs && j != i && HoldsOrder(db.txs[j], o)
  {
    var free := map x | x in db.committed.orders && Free(db, i, OrderRow(x)) :: db.committed.orders[x];
    assert o !in free;
    assert !Free(db, i, OrderRow(o));
  }

  /** A move of `i` other than giving up, with a job query that looks at one instant. */
  ghost predicate CanMove(db: Db, i: TxId) {
    exists m: Move :: m.tx == i && !m.Begin? && !m.Abort? && Enabled(db, m) && (m.Select? ==> Scan(db, i, m.choice))
  }

  lemma ScanExists(db: Db, i: TxId) returns (choice: Option<OrderId>)
    requires i in db.txs && Needs(db.txs[i]) == SelectJob
    ensures Scan(db, i, choice) && Enabled(db, Select(i, choice))
  {
    var free := map o | o in db.committed.orders && Free(db, i, OrderRow(o)) :: db.committed.orders[o];
    var ids := set o | o in free && Available(free[o]);
    choice := None;
    if ids != {} {
      var best := Fairness.OldestOf(State(free, map[], []), ids);
      choice := Some(best);
      assert best in free && Available(free[best]);
    } else {
      forall o | o in free ensures !Available(free[o]) {
        assert o !in ids;
      }
    }
  }

  lemma UnblockedMoves(db: Db, i: TxId)
    requires i in db.txs && !Blocked(db, i)
    ensures CanMove(db, i)
  {
    var tx := db.txs[i];
    var row := WaitRow(db.committed, tx);
    if row.Some? {
      forall j | j in db.txs && j != i ensures !Holds(db.txs[j], row.value) {
        assert !WaitsFor(db, i, j);
      }
    }
    var m;
    match Needs(tx) {
      case LockOrder(_) => m := Lock(i);
      case LockDrone(_) => m := Lock(i);
      case AddOrder(_) => m := Add(i);
      case AddDrone(_) => m := Add(i);
      case SelectJob =>
        var choice := ScanExists(db, i);
        m := Select(i, choice);
      case Nothing => m := if tx.writes.None? then Prepare(i) else Finish(i);
    }
    assert m.tx == i && Enabled(db, m);
  }

  /** Unless a breakdown embraces a withdrawal or completion, some running transaction can move on. */
  lemma SomeoneMoves(db: Db, i: TxId) returns (j: TxId)
    requires LockInv(db) && i in db.txs
    requires forall b, u :: !Embrace(db, b, u)
    ensures j in db.txs && CanMove(db, j)
  {
    j := i;
    if Blocked(db, j) {
      var k :| WaitsFor(db, j, k);
      j := k;
      if Blocked(db, j) {
        var l :| WaitsFor(db, j, l);
        assert Stuck(db, j);
        if Blocked(db, l) {
          assert Stuck(db, l);
          StuckEmbrace(db, j, l);
        }
        j := l;
      }
    }
    UnblockedMoves(db, j);
  }

  // ---------- Which commands can deadlock ----------

  /** A breakdown of a drone that holds an order, and a command that would lock that order and then the
      drone: withdrawal by its owner while it is reserved, completion by its drone once it is picked up. */
  predicate Clash(s: State, breakdown: Command, other: Command) {
    && breakdown.MarkBroken?
    && breakdown.drone in s.drones && s.drones[breakdown.drone].currentOrder.Some?
    && var d, o := breakdown.drone, s.drones[breakdown.drone].currentOrder.value;
       && o in s.orders
       && (|| (s.orders[o].status == Reserved && other == Withdraw(s.orders[o].userId, o))
           || (s.orders[o].status == PickedUp && other == Deliver(d, o))
           || (s.orders[o].status == PickedUp && other.Fail? && other.drone == d && other.id == o
               && other.reason != ""))
  }

  function Begun(c: Command, t: Clock): Tx {
    Tx(c, t, Unread, Unread, None)
  }

  /** The two commands, started with nothing else running, can be scheduled into a wait-for cycle. */
  ghost predicate CanDeadlock(s: State, c1: Command, c2: Command) {
    exists t1: Clock, t2: Clock, moves: seq<Move>, c: seq<TxId> ::
      Deadlocks(s, Begun(c1, t1), Begun(c2, t2), moves, c)
  }

  ghost predicate Deadlocks(s: State, tx1: Tx, tx2: Tx, moves: seq<Move>, c: seq<TxId>) {
    var db := Db(s, map[0 := tx1, 1 := tx2]);
    && LockRun(db, moves)
    && (forall k :: 0 <= k < |moves| ==> !moves[k].Begin?)
    && Cycle(DoAll(db, moves), c)
  }

  /** Before anything new begins, running transactions are old ones with their old commands (up to the job a
      reservation has selected), and while all of them run nothing is committed. */
  ghost predicate Continues(db: Db, db': Db) {
    && db'.txs.Keys <= db.txs.Keys
    && (forall i :: i in db'.txs ==>
          db'.txs[i].command == db.txs[i].command || (db'.txs[i].command.Reserve? && db.txs[i].command.Reserve?))
    && (db'.txs.Keys == db.txs.Keys ==> db'.committed == db.committed)
  }

  lemma MoveContinues(db: Db, m: Move)
    requires Enabled(db, m) && !m.Begin?
    ensures Continues(db, Do(db, m))
  {
    if !OutcomeOf(db, m).Goes? {
      assert m.tx in db.txs && m.tx !in Do(db, m).txs;
    }
  }

  lemma {:induction false} RunContinues(db: Db, moves: seq<Move>)
    requires LockRun(db, moves) && forall k :: 0 <= k < |moves| ==> !moves[k].Begin?
    ensures Continues(db, DoAll(db, moves))
    decreases |moves|
  {
    if moves != [] {
      MoveContinues(db, moves[0]);
      RunContinues(Do(db, moves[0]), moves[1..]);
      var mid, last := Do(db, moves[0]), DoAll(db, moves);
      if last.txs.Keys == db.txs.Keys {
        assert mid.txs.Keys == db.txs.Keys;
      }
    }
  }

  /** The commands of an embrace clash in the committed tables. */
  lemma EmbraceClashes(db: Db, broken: TxId, user: TxId)
    requires LockInv(db) && Embrace(db, broken, user)
    ensures Clash(db.committed, db.txs[broken].command, db.txs[user].command)
  {
    assert TxOk(db.committed, db.txs[broken]) && TxOk(db.committed, db.txs[user]);
  }

  /** So, however many transactions run, every wait-for cycle is two whose commands clash. */
  lemma CyclesClash(db: Db, c: seq<TxId>)
    requires LockInv(db) && Cycle(db, c)
    ensures |c| == 2 && c[0] in db.txs && c[1] in db.txs && c[0] != c[1]
    ensures Clash(db.committed, db.txs[c[0]].command, db.txs[c[1]].command) ||
            Clash(db.committed, db.txs[c[1]].command, db.txs[c[0]].command)
  {
    CyclesAreEmbraces(db, c);
    if Embrace(db, c[0], c[1]) {
      EmbraceClashes(db, c[0], c[1]);
    } else {
      EmbraceClashes(db, c[1], c[0]);
    }
  }

  /** Nobody holds a row yet. */
  lemma BegunInv(s: State, c1: Command, c2: Command, t1: Clock, t2: Clock)
    requires Inv(s) && (c1.Reserve? ==> c1.choice == None) && (c2.Reserve? ==> c2.choice == None)
    ensures LockInv(Db(s, map[0 := Begun(c1, t1), 1 := Begun(c2, t2)]))
  {
  }

  lemma TwoMoves(db: Db, m1: Move, m2: Move)
    requires Enabled(db, m1) && Enabled(Do(db, m1), m2)
    ensures LockRun(db, [m1, m2]) && DoAll(db, [m1, m2]) == Do(Do(db, m1), m2)
  {
    var db1 := Do(db, m1);
    assert [m1, m2][1..] == [m2] && [m2][1..] == [];
    assert LockRun(Do(db1, m2), []) && DoAll(Do(db1, m2), []) == Do(db1, m2);
    assert LockRun(db1, [m2]) && DoAll(db1, [m2]) == Do(db1, m2);
  }

  /** The breakdown locks its drone ... */
  lemma BreakdownLocks(db: Db, broken: TxId, user: TxId)
    requires LockInv(db) && broken != user && db.txs.Keys == {broken, user}
    requires forall i :: i in db.txs ==> db.txs[i] == Begun(db.txs[i].command, db.txs[i].clock)
    requires Clash(db.committed, db.txs[broken].command, db.txs[user].command)
    ensures var b := db.txs[broken];
            && Enabled(db, Lock(broken))
            && Do(db, Lock(broken)) ==
               db.(txs := db.txs[broken := b.(drone := Locked(db.committed.drones[b.command.drone]))])
  {
    assert Free(db, broken, DroneRow(db.txs[broken].command.drone));
  }

  /** ... and the other its order ... */
  lemma UserLocks(db: Db, user: TxId, o: OrderId)
    requires user in db.txs && db.txs[user] == Begun(db.txs[user].command, db.txs[user].clock)
    requires Needs(db.txs[user]) == LockOrder(o) && o in db.committed.orders
    requires forall i :: i in db.txs ==> db.txs[i].order.Unread?
    ensures Enabled(db, Lock(user))
    ensures Do(db, Lock(user)) ==
            db.(txs := db.txs[user := db.txs[user].(order := Locked(db.committed.orders[o]))])
  {
    assert Free(db, user, OrderRow(o));
  }

  lemma BothLocked(db: Db, broken: TxId, user: TxId, d: Drone, o: Order)
    requires broken in db.txs && user in db.txs
    requires d.currentOrder == Some(o.id) && o.assignedDrone == Some(d.id)
    requires IsActive(o.status) && Clash(db.committed, db.txs[broken].command, db.txs[user].command)
    requires Get(db.committed.drones, d.id) == Some(d) && Get(db.committed.orders, o.id) == Some(o)
    requires db.txs[broken] == Begun(MarkBroken(d.id), db.txs[broken].clock).(drone := Locked(d))
    requires db.txs[user] == Begun(db.txs[user].command, db.txs[user].clock).(order := Locked(o))
    ensures Embrace(db, broken, user)
  {
  }

  /** ... so clashing commands embrace after two statements. */
  lemma ClashEmbraces(db: Db, broken: TxId, user: TxId)
    requires LockInv(db) && broken != user && db.txs.Keys == {broken, user}
    requires forall i :: i in db.txs ==> db.txs[i] == Begun(db.txs[i].command, db.txs[i].clock)
    requires Clash(db.committed, db.txs[broken].command, db.txs[user].command)
    ensures LockRun(db, [Lock(broken), Lock(user)])
    ensures Embrace(DoAll(db, [Lock(broken), Lock(user)]), broken, user)
  {
    var s := db.committed;
    var d := db.txs[broken].command.drone;
    var o := s.drones[d].currentOrder.value;
    HeldOrder(s, d, o);
    assert s.drones[d].id == d && s.orders[o].id == o;
    BreakdownLocks(db, broken, user);
    UserLocks(Do(db, Lock(broken)), user, o);
    TwoMoves(db, Lock(broken), Lock(user));
    BothLocked(Do(Do(db, Lock(broken)), Lock(user)), broken, user, s.drones[d], s.orders[o]);
  }

  lemma ClashDeadlocks(s: State, c1: Command, c2: Command)
    requires Inv(s) && (c1.Reserve? ==> c1.choice == None) && (c2.Reserve? ==> c2.choice == None)
    requires Clash(s, c1, c2) || Clash(s, c2, c1)
    ensures CanDeadlock(s, c1, c2)
  {
    var t := Clock(0, 0);
    var db := Db(s, map[0 := Begun(c1, t), 1 := Begun(c2, t)]);
    var b: TxId := if Clash(s, c1, c2) then 0 else 1;
    BegunInv(s, c1, c2, t, t);
    ClashEmbraces(db, b, 1 - b);
    var moves := [Lock(b), Lock(1 - b)];
    Serialisable(db, moves);
    EmbracesAreCycles(DoAll(db, moves), b, 1 - b);
    assert Deadlocks(s, Begun(c1, t), Begun(c2, t), moves, [b, 1 - b]);
  }

  lemma CycleOfTwo(db: Db, last: Db, c: seq<TxId>)
    requires db.txs.Keys == {0, 1} && Continues(db, last) && LockInv(last) && Cycle(last, c)
    ensures Clash(db.committed, db.txs[0].command, db.txs[1].command) ||
            Clash(db.committed, db.txs[1].command, db.txs[0].command)
  {
    CyclesClash(last, c);
    assert last.txs.Keys == db.txs.Keys;
  }

  lemma DeadlockClashes(s: State, c1: Command, c2: Command)
    requires Inv(s) && (c1.Reserve? ==> c1.choice == None) && (c2.Reserve? ==> c2.choice == None)
    requires CanDeadlock(s, c1, c2)
    ensures Clash(s, c1, c2) || Clash(s, c2, c1)
  {
    var t1: Clock, t2: Clock, moves: seq<Move>, c: seq<TxId> :|
      Deadlocks(s, Begun(c1, t1), Begun(c2, t2), moves, c);
    var db := Db(s, map[0 := Begun(c1, t1), 1 := Begun(c2, t2)]);
    BegunInv(s, c1, c2, t1, t2);
    Serialisable(db, moves);
    RunContinues(db, moves);
    CycleOfTwo(db, DoAll(db, moves), c);
  }

  /** Two commands can deadlock exactly when one is the breakdown of a drone holding an order and the other
      withdraws that order, reserved, for its owner, or completes it, picked up, for that drone. */
  lemma DeadlockIffClash(s: State, c1: Command, c2: Command)
    requires Inv(s) && (c1.Reserve? ==> c1.choice == None) && (c2.Reserve? ==> c2.choice == None)
    ensures CanDeadlock(s, c1, c2) <==> Clash(s, c1, c2) || Clash(s, c2, c1)
  {
    if CanDeadlock(s, c1, c2) {
      DeadlockClashes(s, c1, c2);
    } else if Clash(s, c1, c2) || Clash(s, c2, c1) {
      ClashDeadlocks(s, c1, c2);
    }
  }

  /** Both kinds happen: any reserved order can be driven into deadlock by its owner's withdrawal, and any
      picked-up order by its drone's delivery, with a breakdown of the drone. */
  lemma DeadlockHappens(s: State, o: OrderId)
    requires Inv(s) && o in s.orders && IsActive(s.orders[o].status)
    ensures s.orders[o].assignedDrone.Some?
    ensures var d := s.orders[o].assignedDrone.value;
            CanDeadlock(s, MarkBroken(d),
                        if s.orders[o].status == Reserved then Withdraw(s.orders[o].userId, o) else Deliver(d, o))
  {
    var d := s.orders[o].assignedDrone.value;
    assert HolderIn(s, o) == Some(d) && Pointer(s, d) == Some(o);
    DeadlockIffClash(s, MarkBroken(d),
                     if s.orders[o].status == Reserved then Withdraw(s.orders[o].userId, o) else Deliver(d, o));
  }
}
