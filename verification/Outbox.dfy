/** The outbox table and one polling round of its worker. A row's position in the table stands for its
    unique id: rows are only ever appended. */
module Outbox {
  import opened Domain
  import opened Events
  import Faults

  datatype Row = Row(event: Event, published: bool)

  predicate Pending(rows: seq<Row>, i: nat) {
    i < |rows| && !rows[i].published
  }

  function PendingIds(rows: seq<Row>): set<nat> {
    set i | 0 <= i < |rows| && !rows[i].published
  }

  function Mark(rows: seq<Row>, ids: seq<nat>): seq<Row> {
    seq(|rows|, i requires 0 <= i < |rows| => if i in ids then rows[i].(published := true) else rows[i])
  }

  predicate Distinct(ids: seq<nat>) {
    forall k, l :: 0 <= k < l < |ids| ==> ids[k] != ids[l]
  }

  /** Row `i` may come before row `j` in a query ordered by occurrence time. */
  predicate NotLater(rows: seq<Row>, i: nat, j: nat) {
    i < |rows| && j < |rows| && rows[i].event.occurredAt <= rows[j].event.occurredAt
  }

  /** `batch` is a result of the pending query: the oldest pending rows in order of occurrence, and all of
      them if there are fewer than the limit. Rows with equal times come in any order. */
  ghost predicate IsBatch(rows: seq<Row>, limit: nat, batch: seq<nat>) {
    && Distinct(batch)
    && |batch| <= limit
    && (forall k :: 0 <= k < |batch| ==> Pending(rows, batch[k]))
    && (|batch| < limit ==> forall i: nat :: Pending(rows, i) ==> i in batch)
    && (forall k, l :: 0 <= k < l < |batch| ==> NotLater(rows, batch[k], batch[l]))
    && (forall i: nat, k :: Pending(rows, i) && i !in batch && 0 <= k < |batch| ==> NotLater(rows, batch[k], i))
  }

  const DefaultBatch: nat := 50

  function Limit(configured: int): nat {
    if configured <= 0 then DefaultBatch else configured
  }

  function IdsOf(ids: seq<nat>): set<nat> {
    set id | id in ids
  }

  lemma {:induction false} DistinctCount(ids: seq<nat>)
    requires Distinct(ids)
    ensures |IdsOf(ids)| == |ids| && multiset(ids) == multiset(IdsOf(ids))
  {
    if ids != [] {
      var n := |ids| - 1;
      var front := ids[..n];
      DistinctCount(front);
      assert ids == front + [ids[n]];
      assert IdsOf(ids) == IdsOf(front) + {ids[n]};
      assert ids[n] !in front;
    }
  }

  lemma SubsetCount(a: set<nat>, b: set<nat>)
    requires a <= b
    ensures |b - a| == |b| - |a|
  {
    assert b == a + (b - a);
  }

  /** A successful mark takes exactly the acknowledged rows out of the pending ones. */
  lemma MarkDrains(rows: seq<Row>, sent: seq<nat>)
    requires Distinct(sent) && forall id :: id in sent ==> Pending(rows, id)
    ensures PendingIds(Mark(rows, sent)) == PendingIds(rows) - IdsOf(sent)
    ensures IdsOf(sent) <= PendingIds(rows)
    ensures |PendingIds(Mark(rows, sent))| == |PendingIds(rows)| - |sent|
  {
    DistinctCount(sent);
    assert PendingIds(Mark(rows, sent)) == PendingIds(rows) - IdsOf(sent);
    SubsetCount(IdsOf(sent), PendingIds(rows));
  }

  // ---------- Subsequences ----------

  /** `part` is what is left of `whole` when some elements are dropped. */
  predicate Subsequence(part: seq<nat>, whole: seq<nat>)
    decreases |whole|
  {
    part == [] ||
    (whole != [] &&
     var front := whole[..|whole| - 1];
     Subsequence(part, front) ||
     (part[|part| - 1] == whole[|whole| - 1] && Subsequence(part[..|part| - 1], front)))
  }

  lemma SubsequenceSnoc(part: seq<nat>, whole: seq<nat>, x: nat)
    requires Subsequence(part, whole)
    ensures Subsequence(part, whole + [x]) && Subsequence(part + [x], whole + [x])
  {
    assert (whole + [x])[..|whole|] == whole && (part + [x])[..|part|] == part;
  }

  /** A subsequence has each element at most as often, so distinct elements stay distinct. */
  lemma {:induction false} SubsequenceFacts(part: seq<nat>, whole: seq<nat>)
    requires Subsequence(part, whole)
    ensures multiset(part) <= multiset(whole)
    ensures forall id :: id in part ==> id in whole
    ensures Distinct(whole) ==> Distinct(part)
    decreases |whole|
  {
    if part != [] {
      var n, m := |part| - 1, |whole| - 1;
      assert part == part[..n] + [part[n]] && whole == whole[..m] + [whole[m]];
      if Subsequence(part, whole[..m]) {
        SubsequenceFacts(part, whole[..m]);
      } else {
        SubsequenceFacts(part[..n], whole[..m]);
        if Distinct(whole) {
          assert Distinct(whole[..m]) && whole[m] !in whole[..m];
          assert Distinct(part[..n]) && part[n] !in part[..n];
        }
      }
    }
  }

  // ---------- The repository, the publisher and the worker ----------

  class Repository {
    var rows: seq<Row>
    /** Whether every statement reaches the database. */
    const reliable: bool

    constructor (rows: seq<Row>, reliable: bool)
      ensures this.rows == rows && this.reliable == reliable
    {
      this.rows := rows;
      this.reliable := reliable;
    }

    /** A pending row outside `taken` that no other such row precedes. */
    method Oldest(taken: seq<nat>) returns (best: Option<nat>)
      ensures best.None? ==> forall i: nat :: Pending(rows, i) ==> i in taken
      ensures best.Some? ==>
                && Pending(rows, best.value) && best.value !in taken
                && forall i: nat :: Pending(rows, i) && i !in taken ==> NotLater(rows, best.value, i)
    {
      best := None;
      for n := 0 to |rows|
        invariant best.None? ==> forall i: nat :: i < n && Pending(rows, i) ==> i in taken
        invariant best.Some? ==>
                    && Pending(rows, best.value) && best.value !in taken
                    && forall i: nat :: i < n && Pending(rows, i) && i !in taken ==> NotLater(rows, best.value, i)
      {
        if !rows[n].published && n !in taken &&
           (best.None? || rows[n].event.occurredAt < rows[best.value].event.occurredAt) {
          best := Some(n);
        }
      }
    }

    method FetchPending(limit: int) returns (ok: bool, batch: seq<nat>)
      ensures reliable ==> ok
      ensures ok ==> IsBatch(rows, if limit <= 0 then 50 else limit, batch)
    {
      var bound := Limit(limit);
      batch := [];
      var broken := Faults.Breaks(reliable);
      if broken { return false, []; }
      ok := true;
      while |batch| < bound
        invariant |batch| <= bound
        invariant Distinct(batch)
        invariant forall k :: 0 <= k < |batch| ==> Pending(rows, batch[k])
        invariant forall k, l :: 0 <= k < l < |batch| ==> NotLater(rows, batch[k], batch[l])
        invariant forall i: nat, k :: Pending(rows, i) && i !in batch && 0 <= k < |batch| ==>
                    NotLater(rows, batch[k], i)
        decreases bound - |batch|
      {
        var next := Oldest(batch);
        if next.None? { break; }
        batch := batch + [next.value];
      }
    }

    method MarkPublished(ids: seq<nat>) returns (ok: bool)
      modifies this`rows
      ensures reliable ==> ok
      ensures rows == if ok then Mark(old(rows), ids) else old(rows)
    {
      if ids == [] {
        assert Mark(rows, ids) == rows;
        return true;
      }
      var broken := Faults.Breaks(reliable);
      if broken { return false; }
      rows := Mark(rows, ids);
      ok := true;
    }
  }

  /** The broker. An acknowledged event has been accepted; a publish that reports an error may have got
      through all the same. */
  class Publisher {
    var accepted: seq<nat>
    const reliable: bool

    constructor (reliable: bool)
      ensures accepted == [] && this.reliable == reliable
    {
      accepted := [];
      this.reliable := reliable;
    }

    method Publish(id: nat) returns (ok: bool)
      modifies this`accepted
      ensures reliable ==> ok
      ensures ok ==> accepted == old(accepted) + [id]
      ensures !ok ==> accepted == old(accepted) || accepted == old(accepted) + [id]
    {
      var broken := Faults.Breaks(reliable);
      ok := !broken;
      var through: bool := *;
      if ok || through {
        accepted := accepted + [id];
      }
    }
  }

  class Worker {
    const repo: Repository
    const publisher: Publisher
    var batchSize: int

    constructor (repo: Repository, publisher: Publisher, batchSize: int)
      ensures this.repo == repo && this.publisher == publisher
      ensures this.batchSize == if batchSize <= 0 then 50 else batchSize
    {
      this.repo := repo;
      this.publisher := publisher;
      this.batchSize := Limit(batchSize);
    }

    /** Publishes each row in turn, whatever becomes of the ones before it. `sent` is what was acknowledged,
        `through` everything the broker got. */
    method PublishAll(batch: seq<nat>) returns (sent: seq<nat>, ghost through: seq<nat>)
      modifies publisher`accepted
      ensures Subsequence(sent, through) && Subsequence(through, batch)
      ensures publisher.accepted == old(publisher.accepted) + through
      ensures publisher.reliable ==> sent == batch && through == batch
    {
      sent, through := [], [];
      for n := 0 to |batch|
        invariant Subsequence(sent, through) && Subsequence(through, batch[..n])
        invariant publisher.accepted == old(publisher.accepted) + through
        invariant publisher.reliable ==> sent == batch[..n] && through == batch[..n]
      {
        var id := batch[n];
        SubsequenceSnoc(sent, through, id);
        SubsequenceSnoc(through, batch[..n], id);
        assert batch[..n + 1] == batch[..n] + [id];
        ghost var before := publisher.accepted;
        var acked := publisher.Publish(id);
        if publisher.accepted != before {
          through := through + [id];
        }
        if acked {
          sent := sent + [id];
        }
      }
      assert batch[..|batch|] == batch;
    }

    /** One polling round: fetch, publish each, mark the successes. */
    method Tick() returns (batch: seq<nat>, sent: seq<nat>, marked: bool, ghost through: seq<nat>)
      modifies repo`rows, publisher`accepted
      ensures batch == [] || IsBatch(old(repo.rows), Limit(batchSize), batch)
      ensures repo.reliable ==> IsBatch(old(repo.rows), Limit(batchSize), batch) && marked
      ensures publisher.reliable ==> sent == batch && through == batch
      ensures Subsequence(sent, through) && Subsequence(through, batch) && Distinct(batch)
      ensures publisher.accepted == old(publisher.accepted) + through
      ensures repo.rows == if marked then Mark(old(repo.rows), sent) else old(repo.rows)
      ensures marked ==>
                && PendingIds(repo.rows) == PendingIds(old(repo.rows)) - IdsOf(sent)
                && |PendingIds(repo.rows)| == |PendingIds(old(repo.rows))| - |sent|
    {
      sent, through := [], [];
      var ok;
      ok, batch := repo.FetchPending(batchSize);
      if !ok || batch == [] {
        assert Mark(repo.rows, []) == repo.rows;
        return [], [], true, [];
      }
      sent, through := PublishAll(batch);
      SubsequenceFacts(through, batch);
      SubsequenceFacts(sent, through);
      MarkDrains(repo.rows, sent);
      marked := repo.MarkPublished(sent);
    }
  }
}
