/** Interleaved transactions over shared tables with exclusive row locks.
    Each transaction is a program that locks and reads rows one at a time (`SELECT ... FOR UPDATE`), or
    inserts a key, or picks a job among the rows nobody has locked (`FOR UPDATE SKIP LOCKED`); then makes
    its writes privately from the copies it has read; then commits. Steps of different transactions
    interleave freely, and any transaction may abort at any time. */
module RowLocks {
  import opened Domain
  import opened Dispatch
  import opened Pairing

  type TxId = nat

  datatype Row = OrderRow(order: OrderId) | DroneRow(drone: DroneId)

  /** What a transaction has done about one of its two rows. Reading a row that is not there takes no
      lock (`Absent`); inserting takes the key (`Inserted`); reading a row locks it and copies it. */
  datatype Slot<T> = Unread | Absent | Inserted | Locked(row: T) {
    function Copy(): Option<T> {
      if Locked? then Some(row) else None
    }
  }

  /** `Reserve.choice` stays empty until the job is selected. `writes` is set once the transaction has
      executed its update statements. */
  datatype Tx = Tx(command: Command, clock: Clock, order: Slot<Order>, drone: Slot<Drone>, writes: Option<Decision>)

  datatype Db = Db(committed: State, txs: map<TxId, Tx>)

  // ---------- Programs ----------

  datatype Need = LockOrder(order: OrderId) | LockDrone(drone: DroneId) | AddOrder(order: OrderId)
                | AddDrone(drone: DroneId) | SelectJob | Nothing

  /** The commands that create their drone when it is not there. */
  predicate CreatesDrone(c: Command) {
    c.Reserve? || c.MarkBroken? || c.MarkFixed? || c.Heartbeat?
  }

  function DroneNeed(c: Command, drone: Slot<Drone>): Need
    requires CreatesDrone(c)
  {
    match drone
    case Unread => LockDrone(c.drone)
    case Absent => AddDrone(c.drone)
    case _ => Nothing
  }

  function CompletionNeed(d: DroneId, id: OrderId, order: Slot<Order>, drone: Slot<Drone>): Need {
    if !order.Locked? then LockOrder(id)
    else if order.row.assignedDrone == Some(d) && order.row.status == PickedUp && drone.Unread? then LockDrone(d)
    else Nothing
  }

  /** The next statement of a transaction that depends on other transactions. */
  function Needs(tx: Tx): Need {
    match tx.command
    case Submit(id, _, origin, dest) =>
      if ValidLocation(origin) && ValidLocation(dest) && tx.order.Unread? then AddOrder(id) else Nothing
    case Withdraw(user, id) =>
      if !tx.order.Locked? then LockOrder(id)
      else if tx.order.row.userId == user && tx.order.row.status == Reserved && tx.order.row.assignedDrone.Some?
           && tx.drone.Unread?
      then LockDrone(tx.order.row.assignedDrone.value)
      else Nothing
    case AdminUpdate(id, _, _) => if tx.order.Locked? then Nothing else LockOrder(id)
    case Pickup(_, id) => if tx.order.Locked? then Nothing else LockOrder(id)
    case Deliver(d, id) => CompletionNeed(d, id, tx.order, tx.drone)
    case Fail(d, id, reason) => if reason == "" then Nothing else CompletionNeed(d, id, tx.order, tx.drone)
    case Reserve(_, _) =>
      var first := DroneNeed(tx.command, tx.drone);
      if first != Nothing then first
      else if tx.drone.Locked? && (tx.drone.row.status == Broken || tx.drone.row.currentOrder.Some?) then Nothing
      else if tx.order.Unread? then SelectJob
      else Nothing
    case MarkBroken(_) =>
      var first := DroneNeed(tx.command, tx.drone);
      if first != Nothing then first
      else if tx.drone.Locked? && tx.drone.row.currentOrder.Some? && tx.order.Unread?
      then LockOrder(tx.drone.row.currentOrder.value)
      else Nothing
    case MarkFixed(_) => DroneNeed(tx.command, tx.drone)
    case Heartbeat(_, loc) => if ValidLocation(loc) then DroneNeed(tx.command, tx.drone) else Nothing
  }

  function DecideTx(tx: Tx): Decision {
    Decide(tx.command, tx.clock, tx.order.Copy(), tx.drone.Copy())
  }

  // ---------- Locks ----------

  predicate HoldsOrder(tx: Tx, o: OrderId) {
    (tx.order.Locked? && tx.order.row.id == o) || (tx.order.Inserted? && tx.command.Submit? && tx.command.id == o)
  }

  predicate HoldsDrone(tx: Tx, d: DroneId) {
    (tx.drone.Locked? && tx.drone.row.id == d) ||
    (tx.drone.Inserted? && CreatesDrone(tx.command) && tx.command.drone == d)
  }

  predicate Holds(tx: Tx, row: Row) {
    match row
    case OrderRow(o) => HoldsOrder(tx, o)
    case DroneRow(d) => HoldsDrone(tx, d)
  }

  ghost predicate Free(db: Db, i: TxId, row: Row) {
    forall j :: j in db.txs && j != i ==> !Holds(db.txs[j], row)
  }

  // ---------- Moves ----------

  datatype Move =
    | Begin(tx: TxId, command: Command, clock: Clock)
    | Lock(tx: TxId)
    | Add(tx: TxId)
    | Select(tx: TxId, choice: Option<OrderId>)
    | Prepare(tx: TxId)
    | Finish(tx: TxId)
    | Abort(tx: TxId)

  /** Locking waits only for a committed row that another transaction holds: a row that is not committed is
      not seen, even while its insert is under way. Inserting waits only for another insert of the same
      key: a committed key fails at once. The job query may return any free available row or none, since
      it does not look at all rows at one instant. */
  ghost predicate Enabled(db: Db, m: Move) {
    match m
    case Begin(i, c, _) => i !in db.txs && (c.Reserve? ==> c.choice == None)
    case Lock(i) =>
      i in db.txs &&
      (match Needs(db.txs[i])
       case LockOrder(o) => o !in db.committed.orders || Free(db, i, OrderRow(o))
       case LockDrone(d) => d !in db.committed.drones || Free(db, i, DroneRow(d))
       case _ => false)
    case Add(i) =>
      i in db.txs &&
      (match Needs(db.txs[i])
       case AddOrder(o) => o in db.committed.orders || Free(db, i, OrderRow(o))
       case AddDrone(d) => d in db.committed.drones || Free(db, i, DroneRow(d))
       case _ => false)
    case Select(i, choice) =>
      i in db.txs && Needs(db.txs[i]) == SelectJob &&
      (choice.Some? ==>
         && choice.value in db.committed.orders
         && Available(db.committed.orders[choice.value])
         && Free(db, i, OrderRow(choice.value)))
    case Prepare(i) => i in db.txs && Needs(db.txs[i]) == Nothing && db.txs[i].writes == None
    case Finish(i) => i in db.txs && db.txs[i].writes.Some?
    case Abort(i) => i in db.txs
  }

  /** The transaction goes on in state `tx`, or has ended, with the tables as they were or rewritten. */
  datatype Outcome = Goes(tx: Tx) | Ends(reply: Reply) | Commits(next: State, reply: Reply)

  function LockOutcome(s: State, tx: Tx): Outcome
    requires Needs(tx).LockOrder? || Needs(tx).LockDrone?
  {
    match Needs(tx)
    case LockOrder(o) => if o in s.orders then Goes(tx.(order := Locked(s.orders[o]))) else Ends(Refused(NotFound))
    case LockDrone(d) =>
      if d in s.drones then Goes(tx.(drone := Locked(s.drones[d])))
      else if CreatesDrone(tx.command) then Goes(tx.(drone := Absent))
      else Ends(Refused(NotFound))
  }

  function AddOutcome(s: State, tx: Tx): Outcome
    requires Needs(tx).AddOrder? || Needs(tx).AddDrone?
  {
    match Needs(tx)
    case AddOrder(o) => if o in s.orders then Ends(Refused(Database)) else Goes(tx.(order := Inserted))
    case AddDrone(d) => if d in s.drones then Ends(Refused(Database)) else Goes(tx.(drone := Inserted))
  }

  function SelectOutcome(s: State, tx: Tx, choice: Option<OrderId>): Outcome
    requires tx.command.Reserve? && (choice.Some? ==> choice.value in s.orders)
  {
    if choice.None? then Ends(Refused(NoJob))
    else Goes(tx.(command := Reserve(tx.command.drone, choice), order := Locked(s.orders[choice.value])))
  }

  function FinishOutcome(s: State, tx: Tx): Outcome
    requires tx.writes.Some?
  {
    match tx.writes.value
    case Refuse(e) => Ends(Refused(e))
    case Write(order, drone, events, reply) => Commits(Apply(s, order, drone, events), reply)
  }

  ghost function OutcomeOf(db: Db, m: Move): Outcome
    requires Enabled(db, m)
  {
    match m
    case Begin(_, c, t) => Goes(Tx(c, t, Unread, Unread, None))
    case Lock(i) => LockOutcome(db.committed, db.txs[i])
    case Add(i) => AddOutcome(db.committed, db.txs[i])
    case Select(i, choice) => SelectOutcome(db.committed, db.txs[i], choice)
    case Prepare(i) => Goes(db.txs[i].(writes := Some(DecideTx(db.txs[i]))))
    case Finish(i) => FinishOutcome(db.committed, db.txs[i])
    case Abort(i) => Ends(Refused(Database))
  }

  ghost function Do(db: Db, m: Move): Db
    requires Enabled(db, m)
  {
    match OutcomeOf(db, m)
    case Goes(tx) => db.(txs := db.txs[m.tx := tx])
    case Ends(_) => db.(txs := db.txs - {m.tx})
    case Commits(next, _) => Db(next, db.txs - {m.tx})
  }

  // ---------- The invariant ----------

  /** A locked row is a copy of the committed row; an inserted key is not committed. */
  predicate CopiesCurrent(s: State, tx: Tx) {
    && !tx.order.Absent?
    && (tx.order.Locked? ==> tx.order.row.id in s.orders && s.orders[tx.order.row.id] == tx.order.row)
    && (tx.order.Inserted? ==> tx.command.Submit? && tx.command.id !in s.orders)
    && (tx.drone.Locked? ==> tx.drone.row.id in s.drones && s.drones[tx.drone.row.id] == tx.drone.row)
    && (tx.drone.Absent? ==> CreatesDrone(tx.command))
    && (tx.drone.Inserted? ==> CreatesDrone(tx.command) && tx.command.drone !in s.drones)
  }

  /** The rows a transaction holds are the rows its command is about. */
  predicate RowsMatch(tx: Tx) {
    match tx.command
    case Submit(_, _, _, _) => !tx.order.Locked? && tx.drone.Unread?
    case Withdraw(_, id) =>
      && (tx.order.Locked? ==> tx.order.row.id == id)
      && (tx.drone.Locked? ==> tx.order.Locked? && tx.order.row.status == Reserved
                               && tx.order.row.assignedDrone == Some(tx.drone.row.id))
    case AdminUpdate(id, _, _) => (tx.order.Locked? ==> tx.order.row.id == id) && tx.drone.Unread?
    case Pickup(_, id) => (tx.order.Locked? ==> tx.order.row.id == id) && tx.drone.Unread?
    case Deliver(d, id) => CompletionMatches(d, id, tx)
    case Fail(d, id, _) => CompletionMatches(d, id, tx)
    case Reserve(d, choice) =>
      && (tx.drone.Locked? ==> tx.drone.row.id == d)
      && (if tx.order.Locked?
          then choice == Some(tx.order.row.id) && Available(tx.order.row) && (tx.drone.Locked? || tx.drone.Inserted?)
          else choice == None)
    case MarkBroken(d) =>
      && (tx.drone.Locked? ==> tx.drone.row.id == d)
      && (tx.order.Locked? ==> tx.drone.Locked? && tx.drone.row.currentOrder == Some(tx.order.row.id))
    case MarkFixed(d) => (tx.drone.Locked? ==> tx.drone.row.id == d) && tx.order.Unread?
    case Heartbeat(d, _) => (tx.drone.Locked? ==> tx.drone.row.id == d) && tx.order.Unread?
  }

  predicate CompletionMatches(d: DroneId, id: OrderId, tx: Tx) {
    && (tx.order.Locked? ==> tx.order.row.id == id)
    && (tx.drone.Locked? ==> tx.drone.row.id == d && tx.order.Locked? && tx.order.row.status == PickedUp
                             && tx.order.row.assignedDrone == Some(d))
  }

  predicate TxOk(s: State, tx: Tx) {
    && CopiesCurrent(s, tx)
    && RowsMatch(tx)
    && (tx.writes.Some? ==> Needs(tx) == Nothing && tx.writes.value == DecideTx(tx))
  }

  ghost predicate Exclusive(db: Db) {
    forall i, j, row :: i in db.txs && j in db.txs && i != j && Holds(db.txs[i], row) ==> !Holds(db.txs[j], row)
  }

  ghost predicate LockInv(db: Db) {
    && Inv(db.committed)
    && (forall i :: i in db.txs ==> TxOk(db.committed, db.txs[i]))
    && Exclusive(db)
  }

  // ---------- Linearisation ----------

  /** The atomic action a move takes effect as, if any: the answer of a finished transaction is the answer
      of its command at that instant. Only an abort, and an insert that finds its drone already there,
      answer without being an atomic action. */
  ghost function Linearised(db: Db, m: Move): Option<Action>
    requires Enabled(db, m)
  {
    if m.Begin? || m.Abort? || OutcomeOf(db, m).Goes? || (m.Add? && Needs(db.txs[m.tx]).AddDrone?) then None
    else Some(Action(db.txs[m.tx].command, db.txs[m.tx].clock))
  }

  /** When a transaction has nothing more to wait for, what it decides from its copies is what its command
      decides from the committed tables. */
  lemma CopiesDecide(s: State, tx: Tx)
    requires Inv(s) && TxOk(s, tx) && Needs(tx) == Nothing
    ensures DecideTx(tx) == Decide(tx.command, tx.clock, OrderRead(s, tx.command), DroneRead(s, tx.command))
    ensures Legal(s, tx.command)
  {
  }

  // ---------- Every move keeps the invariant ----------

  lemma GoesKeeps(db: Db, i: TxId, tx: Tx)
    requires LockInv(db) && TxOk(db.committed, tx)
    requires forall row :: Holds(tx, row) ==> (i in db.txs && Holds(db.txs[i], row)) || Free(db, i, row)
    ensures LockInv(db.(txs := db.txs[i := tx]))
  {
  }

  lemma EndsKeeps(db: Db, i: TxId)
    requires LockInv(db)
    ensures LockInv(db.(txs := db.txs - {i}))
  {
  }

  /** A transaction writes only rows it holds. */
  lemma WritesHeldRows(s: State, tx: Tx)
    requires TxOk(s, tx) && tx.writes.Some? && tx.writes.value.Write?
    ensures tx.writes.value.order.Some? ==> HoldsOrder(tx, tx.writes.value.order.value.id)
    ensures tx.writes.value.drone.Some? ==> HoldsDrone(tx, tx.writes.value.drone.value.id)
  {
  }

  /** So the copies of every other transaction stay current when it commits. */
  lemma OthersStayCurrent(s: State, mine: Tx, other: Tx)
    requires TxOk(s, mine) && mine.writes.Some? && mine.writes.value.Write? && TxOk(s, other)
    requires forall row :: Holds(mine, row) ==> !Holds(other, row)
    ensures var w := mine.writes.value;
            TxOk(Apply(s, w.order, w.drone, w.events), other)
  {
    WritesHeldRows(s, mine);
    var w := mine.writes.value;
    if w.order.Some? {
      assert Holds(mine, OrderRow(w.order.value.id));
    }
    if w.drone.Some? {
      assert Holds(mine, DroneRow(w.drone.value.id));
    }
  }

  lemma CommitKeeps(db: Db, i: TxId)
    requires LockInv(db) && Enabled(db, Finish(i)) && db.txs[i].writes.value.Write?
    ensures LockInv(Do(db, Finish(i)))
    ensures Legal(db.committed, db.txs[i].command)
    ensures Do(db, Finish(i)).committed == Step(db.committed, db.txs[i].command, db.txs[i].clock).0
  {
    var tx := db.txs[i];
    CopiesDecide(db.committed, tx);
    InvStep(db.committed, tx.command, tx.clock);
    var db' := Do(db, Finish(i));
    forall j | j in db'.txs ensures TxOk(db'.committed, db'.txs[j]) {
      OthersStayCurrent(db.committed, tx, db.txs[j]);
    }
  }

  /** Locking, inserting and selecting leave the transaction with current copies of the right rows. */
  ghost predicate Acquires(db: Db, i: TxId, tx: Tx) {
    && i in db.txs
    && TxOk(db.committed, tx)
    && forall row :: Holds(tx, row) ==> Holds(db.txs[i], row) || Free(db, i, row)
  }

  lemma LockAcquires(db: Db, i: TxId)
    requires LockInv(db) && Enabled(db, Lock(i)) && LockOutcome(db.committed, db.txs[i]).Goes?
    ensures Acquires(db, i, LockOutcome(db.committed, db.txs[i]).tx)
  {
  }

  lemma AddAcquires(db: Db, i: TxId)
    requires LockInv(db) && Enabled(db, Add(i)) && AddOutcome(db.committed, db.txs[i]).Goes?
    ensures Acquires(db, i, AddOutcome(db.committed, db.txs[i]).tx)
  {
  }

  lemma SelectAcquires(db: Db, i: TxId, choice: Option<OrderId>)
    requires LockInv(db) && Enabled(db, Select(i, choice)) && choice.Some?
    ensures Acquires(db, i, SelectOutcome(db.committed, db.txs[i], choice).tx)
  {
  }

  lemma MoveKeeps(db: Db, m: Move)
    requires LockInv(db) && Enabled(db, m)
    ensures LockInv(Do(db, m))
  {
    match OutcomeOf(db, m)
    case Goes(tx) =>
      match m {
        case Lock(i) => LockAcquires(db, i);
        case Add(i) => AddAcquires(db, i);
        case Select(i, choice) => SelectAcquires(db, i, choice);
        case _ =>
      }
      GoesKeeps(db, m.tx, tx);
    case Ends(_) => EndsKeeps(db, m.tx);
    case Commits(_, _) => CommitKeeps(db, m.tx);
  }

  // ---------- Refinement ----------

  /** A transaction that ends without committing gives the answer its command gives at that instant. */
  ghost predicate RefusesNow(s: State, tx: Tx, reply: Reply) {
    Legal(s, tx.command) && Step(s, tx.command, tx.clock) == (s, reply)
  }

  lemma MissingRowRefuses(s: State, tx: Tx)
    requires TxOk(s, tx) && (Needs(tx).LockOrder? || Needs(tx).LockDrone?) && LockOutcome(s, tx).Ends?
    ensures RefusesNow(s, tx, Refused(NotFound))
  {
  }

  lemma DuplicateRefuses(s: State, tx: Tx)
    requires TxOk(s, tx) && Needs(tx).AddOrder? && AddOutcome(s, tx).Ends?
    ensures RefusesNow(s, tx, Refused(Database))
  {
  }

  lemma NoJobRefuses(s: State, tx: Tx)
    requires Inv(s) && TxOk(s, tx) && Needs(tx) == SelectJob
    ensures RefusesNow(s, tx, Refused(NoJob))
  {
  }

  lemma FinishRefuses(s: State, tx: Tx)
    requires Inv(s) && TxOk(s, tx) && tx.writes.Some? && tx.writes.value.Refuse?
    ensures RefusesNow(s, tx, Refused(tx.writes.value.error))
  {
    CopiesDecide(s, tx);
  }

  lemma EndsRefines(db: Db, m: Move)
    requires LockInv(db) && Enabled(db, m) && OutcomeOf(db, m).Ends? && Linearised(db, m).Some?
    ensures RefusesNow(db.committed, db.txs[m.tx], OutcomeOf(db, m).reply)
  {
    var tx := db.txs[m.tx];
    match m
    case Lock(_) => MissingRowRefuses(db.committed, tx);
    case Add(_) => DuplicateRefuses(db.committed, tx);
    case Select(_, _) => NoJobRefuses(db.committed, tx);
    case Finish(_) => FinishRefuses(db.committed, tx);
  }

  /** Every move is one atomic action with the same answer and the same committed tables, or changes no
      committed table at all. */
  lemma MoveRefines(db: Db, m: Move)
    requires LockInv(db) && Enabled(db, m)
    ensures match Linearised(db, m)
            case None => Do(db, m).committed == db.committed
            case Some(a) =>
              && Legal(db.committed, a.command)
              && !OutcomeOf(db, m).Goes?
              && Step(db.committed, a.command, a.clock) == (Do(db, m).committed, OutcomeOf(db, m).reply)
  {
    if OutcomeOf(db, m).Commits? {
      CommitKeeps(db, m.tx);
      CopiesDecide(db.committed, db.txs[m.tx]);
    } else if OutcomeOf(db, m).Ends? && Linearised(db, m).Some? {
      EndsRefines(db, m);
    }
  }

  ghost predicate LockRun(db: Db, moves: seq<Move>)
    decreases |moves|
  {
    moves == [] || (Enabled(db, moves[0]) && LockRun(Do(db, moves[0]), moves[1..]))
  }

  ghost function DoAll(db: Db, moves: seq<Move>): Db
    requires LockRun(db, moves)
    decreases |moves|
  {
    if moves == [] then db else DoAll(Do(db, moves[0]), moves[1..])
  }

  /** The atomic actions of an interleaved run, in the order in which they take effect, and the answers
      their transactions gave. */
  ghost function Serialised(db: Db, moves: seq<Move>): (r: (seq<Action>, seq<Reply>))
    requires LockRun(db, moves)
    decreases |moves|
  {
    if moves == [] then ([], [])
    else
      var (acts, replies) := Serialised(Do(db, moves[0]), moves[1..]);
      match Linearised(db, moves[0])
      case None => (acts, replies)
      case Some(a) =>
        var out := OutcomeOf(db, moves[0]);
        ([a] + acts, [if out.Goes? then Refused(Database) else out.reply] + replies)
  }

  function Replies(s: State, acts: seq<Action>): seq<Reply>
    decreases |acts|
  {
    if acts == [] then []
    else [Step(s, acts[0].command, acts[0].clock).1] + Replies(Step(s, acts[0].command, acts[0].clock).0, acts[1..])
  }

  /** Serialisability: every interleaved run of any number of transactions has the committed tables, the
      outbox and the answers of the atomic run of its commands in the order in which they took effect. */
  lemma {:induction false} Serialisable(db: Db, moves: seq<Move>)
    requires LockInv(db) && LockRun(db, moves)
    ensures LockInv(DoAll(db, moves))
    ensures LegalRun(db.committed, Serialised(db, moves).0)
    ensures Exec(db.committed, Serialised(db, moves).0) == DoAll(db, moves).committed
    ensures Replies(db.committed, Serialised(db, moves).0) == Serialised(db, moves).1
    decreases |moves|
  {
    if moves != [] {
      var m := moves[0];
      MoveKeeps(db, m);
      MoveRefines(db, m);
      Serialisable(Do(db, m), moves[1..]);
      var acts := Serialised(Do(db, m), moves[1..]).0;
      if Linearised(db, m).Some? {
        assert ([Linearised(db, m).value] + acts)[1..] == acts;
      }
    }
  }

  const Start := Db(Empty, map[])

  /** So every state the interleaved system commits is reachable by atomic commands. */
  lemma CommittedIsReachable(moves: seq<Move>)
    requires LockRun(Start, moves)
    ensures LockInv(DoAll(Start, moves)) && Reachable(DoAll(Start, moves).committed)
  {
    Serialisable(Start, moves);
  }

  /** Concurrent reservations never work on the same order or for the same drone. */
  lemma JobsAreExclusive(moves: seq<Move>, i: TxId, j: TxId)
    requires LockRun(Start, moves)
    requires var txs := DoAll(Start, moves).txs;
             i in txs && j in txs && i != j && txs[i].command.Reserve? && txs[j].command.Reserve?
             && txs[i].order.Locked? && txs[j].order.Locked?
    ensures var txs := DoAll(Start, moves).txs;
            && txs[i].order.row.id != txs[j].order.row.id
            && txs[i].command.drone != txs[j].command.drone
  {
    CommittedIsReachable(moves);
    var db := DoAll(Start, moves);
    var a, b := db.txs[i], db.txs[j];
    assert TxOk(db.committed, a) && TxOk(db.committed, b);
    assert Holds(a, OrderRow(a.order.row.id)) && Holds(a, DroneRow(a.command.drone));
  }
}
