/** Any number of outbox workers, with failing fetches, publishes and marks, over every run; and how fast
    one undisturbed worker drains the table. */
module OutboxRuns {
  import opened Events
  import opened Dispatch
  import opened Outbox
  import opened Domain
  import opened Lifecycle
  import opened History

  type WorkerId = nat

  /** A worker in the middle of a round has published the first `next` rows of its batch; `sent` were
      acknowledged. A worker that is not in the map is idle. */
  datatype Round = Round(batch: seq<nat>, next: nat, sent: seq<nat>)

  /** `accepted` counts how often the broker got each row. */
  datatype Sys = Sys(rows: seq<Row>, rounds: map<WorkerId, Round>, accepted: multiset<nat>)

  datatype Move =
    | Append(events: seq<Event>)
    | Fetch(worker: WorkerId, limit: nat, batch: seq<nat>)
    | Publish(worker: WorkerId, acked: bool, through: bool)
    | MarkSent(worker: WorkerId)
    | GiveUp(worker: WorkerId)

  /** Giving up covers a failed mark and a crash at any point; a failed fetch is no move at all. */
  ghost predicate Enabled(sys: Sys, m: Move) {
    match m
    case Append(_) => true
    case Fetch(w, limit, batch) => w !in sys.rounds && IsBatch(sys.rows, limit, batch)
    case Publish(w, acked, through) =>
      w in sys.rounds && sys.rounds[w].next < |sys.rounds[w].batch| && (acked ==> through)
    case MarkSent(w) => w in sys.rounds && sys.rounds[w].next == |sys.rounds[w].batch|
    case GiveUp(w) => w in sys.rounds
  }

  function NewRows(events: seq<Event>): seq<Row> {
    seq(|events|, i requires 0 <= i < |events| => Row(events[i], false))
  }

  function PublishNext(r: Round, acked: bool): Round
    requires r.next < |r.batch|
  {
    r.(next := r.next + 1, sent := if acked then r.sent + [r.batch[r.next]] else r.sent)
  }

  ghost function Do(sys: Sys, m: Move): Sys
    requires Enabled(sys, m)
  {
    match m
    case Append(events) => sys.(rows := sys.rows + NewRows(events))
    case Fetch(w, _, batch) => sys.(rounds := sys.rounds[w := Round(batch, 0, [])])
    case Publish(w, acked, through) =>
      var r := sys.rounds[w];
      Sys(sys.rows, sys.rounds[w := PublishNext(r, acked)],
          if through then sys.accepted + multiset{r.batch[r.next]} else sys.accepted)
    case MarkSent(w) => sys.(rows := Mark(sys.rows, sys.rounds[w].sent), rounds := sys.rounds - {w})
    case GiveUp(w) => sys.(rounds := sys.rounds - {w})
  }

  ghost predicate Run(sys: Sys, moves: seq<Move>)
    decreases |moves|
  {
    moves == [] || (Enabled(sys, moves[0]) && Run(Do(sys, moves[0]), moves[1..]))
  }

  ghost function After(sys: Sys, moves: seq<Move>): Sys
    requires Run(sys, moves)
    decreases |moves|
  {
    if moves == [] then sys else After(Do(sys, moves[0]), moves[1..])
  }

  // ---------- At least once, and nothing lost ----------

  predicate RoundOk(sys: Sys, r: Round) {
    && (forall id :: id in r.batch ==> id < |sys.rows|)
    && (forall id :: id in r.sent ==> id in sys.accepted)
  }

  /** Whatever is marked published, and whatever a worker is about to mark, the broker has got. */
  ghost predicate Safe(sys: Sys) {
    && (forall i: nat :: i < |sys.rows| && sys.rows[i].published ==> i in sys.accepted)
    && (forall w :: w in sys.rounds ==> RoundOk(sys, sys.rounds[w]))
  }

  /** `later` has every row of `sys` with the same event, published rows stay published, and deliveries
      are not taken back. */
  ghost predicate Grows(sys: Sys, later: Sys) {
    && |sys.rows| <= |later.rows|
    && (forall i: nat :: i < |sys.rows| ==>
          later.rows[i].event == sys.rows[i].event && (sys.rows[i].published ==> later.rows[i].published))
    && sys.accepted <= later.accepted
  }

  lemma MoveSafe(sys: Sys, m: Move)
    requires Safe(sys) && Enabled(sys, m)
    ensures Safe(Do(sys, m)) && Grows(sys, Do(sys, m))
  {
  }

  /** At-least-once delivery: in every run no row or event disappears, and every row marked published has
      reached the broker; so a row that has not is still pending. */
  lemma {:induction false} AtLeastOnce(sys: Sys, moves: seq<Move>)
    requires Safe(sys) && Run(sys, moves)
    ensures Safe(After(sys, moves)) && Grows(sys, After(sys, moves))
    ensures forall i: nat :: i < |After(sys, moves).rows| && i !in After(sys, moves).accepted ==>
              Pending(After(sys, moves).rows, i)
    decreases |moves|
  {
    if moves != [] {
      MoveSafe(sys, moves[0]);
      AtLeastOnce(Do(sys, moves[0]), moves[1..]);
    }
  }

  /** Once only is not promised: with a row pending and two idle workers, both can deliver it. */
  lemma TwiceHappens(sys: Sys, v: WorkerId, w: WorkerId, batch: seq<nat>, limit: nat) returns (moves: seq<Move>)
    requires v != w && v !in sys.rounds && w !in sys.rounds && IsBatch(sys.rows, limit, batch) && batch != []
    ensures Run(sys, moves) && After(sys, moves).accepted[batch[0]] == sys.accepted[batch[0]] + 2
  {
    var a, b := Fetch(v, limit, batch), Fetch(w, limit, batch);
    var c, d := Publish(v, true, true), Publish(w, true, true);
    moves := [a, b, c, d];
    var s1 := Do(sys, a);
    var s2 := Do(s1, b);
    var s3 := Do(s2, c);
    var s4 := Do(s3, d);
    assert moves[1..] == [b, c, d] && moves[1..][1..] == [c, d] && moves[1..][1..][1..] == [d];
    assert Run(s3, [d]) && After(s3, [d]) == s4;
    assert Run(s2, [c, d]) && After(s2, [c, d]) == s4;
    assert Run(s1, [b, c, d]) && After(s1, [b, c, d]) == s4;
  }

  // ---------- A round of the worker is a run ----------

  lemma {:induction false} RunSnoc(sys: Sys, moves: seq<Move>, m: Move)
    requires Run(sys, moves) && Enabled(After(sys, moves), m)
    ensures Run(sys, moves + [m]) && After(sys, moves + [m]) == Do(After(sys, moves), m)
    decreases |moves|
  {
    if moves == [] {
      assert moves + [m] == [m] && [m][1..] == [];
      assert After(Do(sys, m), []) == Do(sys, m);
    } else {
      assert (moves + [m])[1..] == moves[1..] + [m];
      RunSnoc(Do(sys, moves[0]), moves[1..], m);
    }
  }

  /** `sys` with worker `w` in round `r` and `through` delivered on top. */
  function During(sys: Sys, w: WorkerId, r: Round, through: seq<nat>): Sys {
    Sys(sys.rows, sys.rounds[w := r], sys.accepted + multiset(through))
  }

  lemma PublishMove(sys: Sys, w: WorkerId, r: Round, delivered: seq<nat>, acked: bool, through: bool)
    requires r.next < |r.batch| && (acked ==> through)
    ensures var m := Publish(w, acked, through);
            && Enabled(During(sys, w, r, delivered), m)
            && Do(During(sys, w, r, delivered), m) ==
               During(sys, w, PublishNext(r, acked), if through then delivered + [r.batch[r.next]] else delivered)
  {
    assert sys.rounds[w := r][w := PublishNext(r, acked)] == sys.rounds[w := PublishNext(r, acked)];
  }

  /** Any acknowledgements and deliveries among the first `n` rows of a batch come about by moves. */
  lemma {:induction false} PublishRun(sys: Sys, w: WorkerId, batch: seq<nat>, n: nat, sent: seq<nat>, through: seq<nat>)
    returns (moves: seq<Move>)
    requires n <= |batch| && Subsequence(sent, through) && Subsequence(through, batch[..n])
    ensures Run(During(sys, w, Round(batch, 0, []), []), moves)
    ensures After(During(sys, w, Round(batch, 0, []), []), moves) == During(sys, w, Round(batch, n, sent), through)
    decreases n
  {
    moves := [];
    if n > 0 {
      assert batch[..n][..n - 1] == batch[..n - 1];
      var gone := !Subsequence(through, batch[..n - 1]);
      var acked := gone && !Subsequence(sent, through[..|through| - 1]);
      var through' := if gone then through[..|through| - 1] else through;
      var sent' := if acked then sent[..|sent| - 1] else sent;
      assert gone ==> through == through' + [batch[n - 1]];
      assert acked ==> sent == sent' + [batch[n - 1]];
      moves := PublishRun(sys, w, batch, n - 1, sent', through');
      var m := Publish(w, acked, gone);
      PublishMove(sys, w, Round(batch, n - 1, sent'), through', acked, gone);
      RunSnoc(During(sys, w, Round(batch, 0, []), []), moves, m);
      moves := moves + [m];
    }
  }

  /** Whatever one round of the worker does to the table and the broker, an idle worker among any number of
      others does by moves; so what holds of every run holds of the worker. */
  lemma TickIsRun(sys: Sys, w: WorkerId, limit: nat, batch: seq<nat>, sent: seq<nat>, through: seq<nat>, marked: bool)
    returns (moves: seq<Move>)
    requires w !in sys.rounds && IsBatch(sys.rows, limit, batch)
    requires Subsequence(sent, through) && Subsequence(through, batch)
    ensures Run(sys, moves)
    ensures After(sys, moves) ==
            Sys(if marked then Mark(sys.rows, sent) else sys.rows, sys.rounds, sys.accepted + multiset(through))
  {
    var fetch, end := Fetch(w, limit, batch), if marked then MarkSent(w) else GiveUp(w);
    assert batch[..|batch|] == batch;
    moves := PublishRun(sys, w, batch, |batch|, sent, through);
    assert Do(sys, fetch) == During(sys, w, Round(batch, 0, []), []);
    assert ([fetch] + moves)[1..] == moves;
    moves := [fetch] + moves;
    var busy := After(sys, moves);
    assert busy.rounds - {w} == sys.rounds;
    RunSnoc(sys, moves, end);
    moves := moves + [end];
  }

  // ---------- From commit to broker ----------

  /** The table holds the log's events in order. */
  ghost predicate Mirrors(s: State, sys: Sys) {
    |sys.rows| == |s.log| && forall i :: 0 <= i < |s.log| ==> sys.rows[i].event == s.log[i]
  }

  /** The service commits a command, whose events become new rows; or a worker moves. */
  datatype Beat = Commit(action: Action) | Work(move: Move)

  ghost predicate BeatEnabled(s: State, sys: Sys, b: Beat) {
    match b
    case Commit(a) => Legal(s, a.command)
    case Work(m) => !m.Append? && Enabled(sys, m)
  }

  ghost function BeatAfter(s: State, sys: Sys, b: Beat): (State, Sys)
    requires BeatEnabled(s, sys, b)
  {
    match b
    case Commit(a) =>
      var s' := Step(s, a.command, a.clock).0;
      (s', if |s.log| <= |s'.log| then Do(sys, Append(s'.log[|s.log|..])) else sys)
    case Work(m) => (s, Do(sys, m))
  }

  ghost predicate Pipeline(s: State, sys: Sys, beats: seq<Beat>)
    decreases |beats|
  {
    beats == [] ||
    (BeatEnabled(s, sys, beats[0]) &&
     var (s', sys') := BeatAfter(s, sys, beats[0]);
     Pipeline(s', sys', beats[1..]))
  }

  ghost function PipelineEnd(s: State, sys: Sys, beats: seq<Beat>): (State, Sys)
    requires Pipeline(s, sys, beats)
    decreases |beats|
  {
    if beats == [] then (s, sys)
    else
      var (s', sys') := BeatAfter(s, sys, beats[0]);
      PipelineEnd(s', sys', beats[1..])
  }

  lemma BeatKeeps(s: State, sys: Sys, b: Beat)
    requires Mirrors(s, sys) && Safe(sys) && BeatEnabled(s, sys, b)
    ensures var (s', sys') := BeatAfter(s, sys, b);
            Mirrors(s', sys') && Safe(sys') && s.log <= s'.log
  {
    match b
    case Commit(a) =>
      var s' := Step(s, a.command, a.clock).0;
      assert s.log <= s'.log;
      MoveSafe(sys, Append(s'.log[|s.log|..]));
    case Work(m) =>
      MoveSafe(sys, m);
  }

  /** Interleave any commands with any workers, failures and crashes: every committed event is in the
      table, and each has reached the broker or is still pending. */
  lemma {:induction false} NoCommittedEventLost(s: State, sys: Sys, beats: seq<Beat>)
    requires Mirrors(s, sys) && Safe(sys) && Pipeline(s, sys, beats)
    ensures var (s', sys') := PipelineEnd(s, sys, beats);
            && Mirrors(s', sys') && Safe(sys') && s.log <= s'.log
            && forall i: nat :: i < |s'.log| ==> i in sys'.accepted || Pending(sys'.rows, i)
    decreases |beats|
  {
    if beats != [] {
      BeatKeeps(s, sys, beats[0]);
      var (s', sys') := BeatAfter(s, sys, beats[0]);
      NoCommittedEventLost(s', sys', beats[1..]);
    }
  }

  /** With an orderly clock the outbox is sorted, and a worker takes events in the order they were committed,
      up to events of the same instant. */
  lemma BatchFollowsCommits(acts: seq<Action>, now: Time, sys: Sys, limit: nat, batch: seq<nat>, k: nat, l: nat)
    requires LegalRun(Empty, acts) && ClockRun(now, acts) && Mirrors(Exec(Empty, acts), sys)
    requires IsBatch(sys.rows, limit, batch) && k < l < |batch|
    ensures batch[k] < |sys.rows| && batch[l] < |sys.rows|
    ensures batch[k] < batch[l] || sys.rows[batch[k]].event.occurredAt == sys.rows[batch[l]].event.occurredAt
  {
    SortedRun(Empty, acts, now);
    assert Pending(sys.rows, batch[k]) && Pending(sys.rows, batch[l]);
    assert NotLater(sys.rows, batch[k], batch[l]);
  }

  // ---------- Draining ----------

  /** A batch is as long as the limit and the pending rows allow. */
  lemma BatchLength(rows: seq<Row>, limit: nat, batch: seq<nat>)
    requires IsBatch(rows, limit, batch)
    ensures forall id :: id in batch ==> Pending(rows, id)
    ensures |batch| == if |PendingIds(rows)| < limit then |PendingIds(rows)| else limit
  {
    DistinctCount(batch);
    SubsetCount(IdsOf(batch), PendingIds(rows));
    if |batch| < limit {
      forall id | id in PendingIds(rows) ensures id in IdsOf(batch) {
        assert Pending(rows, id);
      }
      assert PendingIds(rows) == IdsOf(batch);
    }
  }

  function Remaining(n: nat, rounds: nat, limit: nat): nat {
    if rounds * limit < n then n - rounds * limit else 0
  }

  lemma RemainingNext(n: nat, rounds: nat, limit: nat)
    ensures Remaining(Remaining(n, rounds, limit), 1, limit) == Remaining(n, rounds + 1, limit)
  {
    assert (rounds + 1) * limit == rounds * limit + limit;
  }

  /** Rows taken out of the pending ones in two goes, each delivered once. */
  lemma DeliveredOnce(first: set<nat>, mid: set<nat>, sent: seq<nat>)
    requires Distinct(sent) && IdsOf(sent) <= mid <= first
    ensures multiset(first - (mid - IdsOf(sent))) == multiset(first - mid) + multiset(sent)
  {
    DistinctCount(sent);
    assert first - (mid - IdsOf(sent)) == (first - mid) + IdsOf(sent);
    assert multiset((first - mid) + IdsOf(sent)) == multiset(first - mid) + multiset(IdsOf(sent));
  }

  /** What a number of rounds has done, from `rows` to `rows'`, when the broker got `delivered`: no row
      becomes pending again, and one that no longer is has been delivered. */
  ghost predicate Progress(rows: seq<Row>, rows': seq<Row>, delivered: seq<nat>) {
    && PendingIds(rows') <= PendingIds(rows)
    && forall id :: id in PendingIds(rows) - PendingIds(rows') ==> id in delivered
  }

  /** ... and nothing went wrong in `rounds` rounds: `max(0, n - rounds * limit)` of `n` pending rows are
      left, and each of the others was delivered exactly once. */
  ghost predicate Drained(rows: seq<Row>, rows': seq<Row>, delivered: seq<nat>, rounds: nat, limit: nat) {
    && |PendingIds(rows')| == Remaining(|PendingIds(rows)|, rounds, limit)
    && multiset(delivered) == multiset(PendingIds(rows) - PendingIds(rows'))
  }

  lemma ProgressNext(first: seq<Row>, rows: seq<Row>, rows': seq<Row>, delivered: seq<nat>, sent: seq<nat>,
                     through: seq<nat>)
    requires Progress(first, rows, delivered) && Subsequence(sent, through)
    requires rows' == rows || PendingIds(rows') == PendingIds(rows) - IdsOf(sent)
    ensures Progress(first, rows', delivered + through)
  {
    SubsequenceFacts(sent, through);
  }

  /** One more undisturbed round. */
  lemma DrainNext(first: seq<Row>, rows: seq<Row>, delivered: seq<nat>, rounds: nat, limit: nat, batch: seq<nat>)
    requires Progress(first, rows, delivered) && Drained(first, rows, delivered, rounds, limit)
    requires IsBatch(rows, limit, batch)
    ensures Drained(first, Mark(rows, batch), delivered + batch, rounds + 1, limit)
  {
    BatchLength(rows, limit, batch);
    MarkDrains(rows, batch);
    DeliveredOnce(PendingIds(first), PendingIds(rows), batch);
    RemainingNext(|PendingIds(first)|, rounds, limit);
  }

  /** The worker's polling loop for `rounds` ticks, while nobody else touches the table. */
  method Poll(worker: Worker, rounds: nat) returns (ghost delivered: seq<nat>)
    modifies worker.repo`rows, worker.publisher`accepted
    ensures worker.publisher.accepted == old(worker.publisher.accepted) + delivered
    ensures Progress(old(worker.repo.rows), worker.repo.rows, delivered)
    ensures worker.repo.reliable && worker.publisher.reliable ==>
              Drained(old(worker.repo.rows), worker.repo.rows, delivered, rounds, Limit(worker.batchSize))
  {
    delivered := [];
    ghost var first := worker.repo.rows;
    assert PendingIds(first) - PendingIds(first) == {};
    for n := 0 to rounds
      invariant worker.publisher.accepted == old(worker.publisher.accepted) + delivered
      invariant Progress(first, worker.repo.rows, delivered)
      invariant worker.repo.reliable && worker.publisher.reliable ==>
                  Drained(first, worker.repo.rows, delivered, n, Limit(worker.batchSize))
    {
      ghost var rows := worker.repo.rows;
      ghost var through;
      var batch, sent, marked;
      batch, sent, marked, through := worker.Tick();
      if worker.repo.reliable && worker.publisher.reliable {
        DrainNext(first, rows, delivered, n, Limit(worker.batchSize), batch);
      }
      ProgressNext(first, rows, worker.repo.rows, delivered, sent, through);
      delivered := delivered + through;
    }
  }
}
