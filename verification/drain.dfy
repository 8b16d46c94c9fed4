/** Re-sending the queued rows of a peer: what one drain does to every row of the queue. */
module Drain {
  import opened Types
  import opened Ordering
  import opened Storage
  import opened Node

  const DRAIN_LIMIT: nat := 256

  /** How a sequence of drained rows changes the node; `acked` and `clock` answer per row. */
  function Drained(n: Node, rows: seq<DueRow>, peer: PeerId, acked: nat -> bool, clock: nat -> int): Node {
    if rows == [] then n
    else
      var i := |rows| - 1;
      var before := Drained(n, rows[..i], peer, acked, clock);
      if rows[i].target != peer then before
      else if rows[i].id !in before.messages then DrainOrphan(before, rows[i].id, peer)
      else DrainDone(before, rows[i].id, peer, rows[i].attempts, acked(i), clock(i))
  }

  // ---------------------------------------------------------------- row by row

  /** What became of an attempted row: dropped as orphaned, delivered and dequeued, or kept for a later retry. */
  ghost predicate Settled(n: Node, n': Node, row: DueRow, acked: bool, now: int) {
    var key := KeyOf(row);
    if row.id !in n.messages then key !in n'.queue
    else if acked then key !in n'.queue && row.id in n'.messages && n'.messages[row.id].status == Delivered
    else key in n.queue ==>
      key in n'.queue && n'.queue[key] == QueueEntry(row.attempts + 1, now + RetryDelay(row.attempts))
  }

  /** Queue row `k` is exactly as before. */
  ghost predicate SameEntry(n: Node, n': Node, k: QueueKey) {
    (k in n'.queue <==> k in n.queue) && (k in n.queue ==> n'.queue[k] == n.queue[k])
  }

  ghost predicate AckedRow(rows: seq<DueRow>, peer: PeerId, acked: nat -> bool, id: MessageId) {
    exists i :: 0 <= i < |rows| && rows[i].target == peer && rows[i].id == id && acked(i)
  }

  /** Only the queue, the status of acknowledged messages and the events change. */
  ghost predicate OnlyStatuses(n: Node, n': Node, rows: seq<DueRow>, peer: PeerId, acked: nat -> bool) {
    && n' == n.(messages := n'.messages, queue := n'.queue, events := n'.events)
    && n'.messages.Keys == n.messages.Keys
    && forall id :: id in n.messages ==>
         n'.messages[id] ==
           if AckedRow(rows, peer, acked, id) then n.messages[id].(status := Delivered) else n.messages[id]
  }

  lemma AckedRowMore(rows: seq<DueRow>, peer: PeerId, acked: nat -> bool, id: MessageId)
    requires rows != []
    ensures var i := |rows| - 1;
      AckedRow(rows, peer, acked, id) <==>
        AckedRow(rows[..i], peer, acked, id) || (rows[i].target == peer && rows[i].id == id && acked(i))
  {
    var i := |rows| - 1;
    if j :| 0 <= j < |rows| && rows[j].target == peer && rows[j].id == id && acked(j) && j < i {
      assert rows[..i][j] == rows[j];
    }
    if j :| 0 <= j < |rows[..i]| && rows[..i][j].target == peer && rows[..i][j].id == id && acked(j) {
      assert rows[j] == rows[..i][j];
    }
  }

  lemma {:induction false} StatusesChange(n: Node, rows: seq<DueRow>, peer: PeerId, acked: nat -> bool,
        clock: nat -> int)
    ensures OnlyStatuses(n, Drained(n, rows, peer, acked, clock), rows, peer, acked)
    decreases |rows|
  {
    if rows != [] {
      var i := |rows| - 1;
      StatusesChange(n, rows[..i], peer, acked, clock);
      forall id { AckedRowMore(rows, peer, acked, id); }
    }
  }

  lemma {:induction false} OthersUntouched(n: Node, rows: seq<DueRow>, peer: PeerId, acked: nat -> bool,
        clock: nat -> int, k: QueueKey)
    requires k.1 != peer || !Listed(rows, k)
    ensures SameEntry(n, Drained(n, rows, peer, acked, clock), k)
    decreases |rows|
  {
    if rows != [] {
      var i := |rows| - 1;
      assert k.1 != peer || !Listed(rows[..i], k) by {
        if j :| 0 <= j < |rows[..i]| && KeyOf(rows[..i][j]) == k {
          assert KeyOf(rows[j]) == k;
        }
      }
      OthersUntouched(n, rows[..i], peer, acked, clock, k);
      assert KeyOf(rows[i]) == k ==> Listed(rows, k);
    }
  }

  lemma LastUnlisted(rows: seq<DueRow>)
    requires DistinctKeys(rows) && rows != []
    ensures !Listed(rows[..|rows| - 1], KeyOf(rows[|rows| - 1]))
  {
    assert forall j :: 0 <= j < |rows| - 1 ==> rows[..|rows| - 1][j] == rows[j];
  }

  lemma LastSettled(n: Node, before: Node, row: DueRow, peer: PeerId, acked: bool, now: int)
    requires row.target == peer && SameEntry(n, before, KeyOf(row)) && before.messages.Keys == n.messages.Keys
    ensures row.id !in before.messages ==> Settled(n, DrainOrphan(before, row.id, peer), row, acked, now)
    ensures row.id in before.messages ==>
      Settled(n, DrainDone(before, row.id, peer, row.attempts, acked, now), row, acked, now)
  {
  }

  lemma StaysSettled(n: Node, before: Node, row: DueRow, acked: bool, now: int,
        next: DueRow, peer: PeerId, nextAcked: bool, nextNow: int)
    requires Settled(n, before, row, acked, now) && row.target == peer && KeyOf(row) != KeyOf(next)
    ensures next.target == peer ==> Settled(n, DrainOrphan(before, next.id, peer), row, acked, now)
    ensures next.target == peer ==>
      Settled(n, DrainDone(before, next.id, peer, next.attempts, nextAcked, nextNow), row, acked, now)
  {
  }

  lemma {:induction false} RowSettled(n: Node, rows: seq<DueRow>, peer: PeerId, acked: nat -> bool, clock: nat -> int,
        i: nat)
    requires DistinctKeys(rows) && i < |rows| && rows[i].target == peer
    ensures Settled(n, Drained(n, rows, peer, acked, clock), rows[i], acked(i), clock(i))
    decreases |rows|
  {
    var last := |rows| - 1;
    var before := Drained(n, rows[..last], peer, acked, clock);
    StatusesChange(n, rows[..last], peer, acked, clock);
    if i < last {
      assert rows[..last][i] == rows[i];
      assert DistinctKeys(rows[..last]);
      RowSettled(n, rows[..last], peer, acked, clock, i);
      StaysSettled(n, before, rows[i], acked(i), clock(i), rows[last], peer, acked(last), clock(last));
    } else {
      LastUnlisted(rows);
      OthersUntouched(n, rows[..last], peer, acked, clock, KeyOf(rows[i]));
      LastSettled(n, before, rows[i], peer, acked(i), clock(i));
    }
  }

  // ---------------------------------------------------------------- the whole drain

  function Keys(rows: seq<DueRow>): set<QueueKey> {
    set i | 0 <= i < |rows| :: KeyOf(rows[i])
  }

  lemma {:induction false} DistinctCount(rows: seq<DueRow>)
    requires DistinctKeys(rows)
    ensures |Keys(rows)| == |rows| && forall k :: k in Keys(rows) <==> Listed(rows, k)
    decreases |rows|
  {
    if rows != [] {
      var before, last := rows[..|rows| - 1], rows[|rows| - 1];
      DistinctCount(before);
      LastUnlisted(rows);
      assert Keys(rows) == Keys(before) + {KeyOf(last)} by {
        assert forall i :: 0 <= i < |before| ==> before[i] == rows[i];
      }
      forall k | k in Keys(rows) ensures Listed(rows, k) {
        var i :| 0 <= i < |rows| && KeyOf(rows[i]) == k;
      }
    }
  }

  lemma ReadAreEligible(q: Queue, before: Option<int>, rows: seq<DueRow>)
    requires Drawn(q, before, rows)
    ensures |Keys(rows)| == |rows|
    ensures forall k :: k in Keys(rows) <==> Listed(rows, k)
    ensures forall k :: k in Keys(rows) ==> Eligible(q, before, k)
  {
    DistinctCount(rows);
    forall k | k in Keys(rows) ensures Eligible(q, before, k) {
      var i :| 0 <= i < |rows| && KeyOf(rows[i]) == k;
      assert Eligible(q, before, KeyOf(rows[i]));
    }
  }

  /** An unscheduled drain reads the whole queue exactly if no more than 256 rows are queued, over all peers. */
  lemma AllReadIff(q: Queue, rows: seq<DueRow>)
    requires IsDue(q, None, DRAIN_LIMIT, rows)
    ensures (forall k :: k in q ==> Listed(rows, k)) <==> |q| <= 256
  {
    ReadAreEligible(q, None, rows);
    assert Keys(rows) <= q.Keys by {
      assert forall k :: k in Keys(rows) ==> Eligible(q, None, k);
    }
    assert |q| == |q.Keys|;
    SubsetSize(Keys(rows), q.Keys);
    if k :| k in q && !Listed(rows, k) {
      assert Eligible(q, None, k);
      assert |rows| == DRAIN_LIMIT;
    } else {
      assert Keys(rows) == q.Keys;
    }
  }

  // ---------------------------------------------------------------- which rows a drain is sure to read

  /** The other rows that may be read before row `k`, because they are due no later. */
  function Ahead(q: Queue, k: QueueKey): set<QueueKey>
    requires k in q
  {
    set j | j in q && j != k && q[j].nextRetryAt <= q[k].nextRetryAt
  }

  /** The rows that are always read before row `k`, because they are due earlier. */
  function Sooner(q: Queue, k: QueueKey): set<QueueKey>
    requires k in q
  {
    set j | j in q && q[j].nextRetryAt < q[k].nextRetryAt
  }

  function EligibleKeys(q: Queue, before: Option<int>): set<QueueKey> {
    set k | k in q && Eligible(q, before, k)
  }

  lemma {:induction false} SoonestExists(q: Queue, keys: set<QueueKey>)
    requires keys != {} && keys <= q.Keys
    ensures exists k :: k in keys && forall j :: j in keys ==> q[k].nextRetryAt <= q[j].nextRetryAt
    decreases |keys|
  {
    var y :| y in keys;
    if keys == {y} {
      assert forall j :: j in keys ==> q[y].nextRetryAt <= q[j].nextRetryAt;
    } else {
      var rest := keys - {y};
      assert |rest| < |keys|;
      SoonestExists(q, rest);
      var m :| m in rest && forall j :: j in rest ==> q[m].nextRetryAt <= q[j].nextRetryAt;
      var k := if q[y].nextRetryAt < q[m].nextRetryAt then y else m;
      assert forall j :: j in keys ==> j == y || j in rest;
      assert k in keys && forall j :: j in keys ==> q[k].nextRetryAt <= q[j].nextRetryAt;
    }
  }

  /** The rows are drawn from `keys`, and none left in `keys` is due earlier than one of them. */
  ghost predicate PickedFrom(q: Queue, before: Option<int>, keys: set<QueueKey>, rows: seq<DueRow>) {
    && Drawn(q, before, rows)
    && (forall i :: 0 <= i < |rows| ==> KeyOf(rows[i]) in keys)
    && forall k, i :: k in keys && !Listed(rows, k) && 0 <= i < |rows| ==>
       k in q && rows[i].nextRetryAt <= q[k].nextRetryAt
  }

  function RowOf(q: Queue, k: QueueKey): DueRow
    requires k in q
  {
    DueRow(k.0, k.1, q[k].attempts, q[k].nextRetryAt)
  }

  lemma PickOneMore(q: Queue, before: Option<int>, keys: set<QueueKey>, rows: seq<DueRow>, k: QueueKey)
    requires keys <= EligibleKeys(q, before) && PickedFrom(q, before, keys, rows) && k in keys && !Listed(rows, k)
    requires forall j :: j in keys && !Listed(rows, j) ==> q[k].nextRetryAt <= q[j].nextRetryAt
    ensures PickedFrom(q, before, keys, rows + [RowOf(q, k)])
  {
    ListedMore(rows, RowOf(q, k));
    DrawnMore(q, before, rows, RowOf(q, k));
  }

  lemma SomeLeft<T>(a: set<T>, b: set<T>)
    requires a <= b && |a| < |b|
    ensures b - a != {}
  {
    assert b == a + (b - a);
  }

  /** The `count` soonest of some eligible rows. */
  lemma {:induction false} PickSoonest(q: Queue, before: Option<int>, keys: set<QueueKey>, count: nat)
    returns (rows: seq<DueRow>)
    requires keys <= EligibleKeys(q, before) && count <= |keys|
    ensures |rows| == count && PickedFrom(q, before, keys, rows)
    decreases count
  {
    rows := [];
    if count > 0 {
      rows := PickSoonest(q, before, keys, count - 1);
      ReadAreEligible(q, before, rows);
      assert Keys(rows) <= keys;
      var rest := keys - Keys(rows);
      SomeLeft(Keys(rows), keys);
      SoonestExists(q, rest);
      var k :| k in rest && forall j :: j in rest ==> q[k].nextRetryAt <= q[j].nextRetryAt;
      PickOneMore(q, before, keys, rows, k);
      rows := rows + [RowOf(q, k)];
    }
  }

  lemma AheadAreEligible(q: Queue, before: Option<int>, k: QueueKey)
    requires Eligible(q, before, k)
    ensures Ahead(q, k) <= EligibleKeys(q, before) - {k} && Sooner(q, k) <= Ahead(q, k)
  {
  }

  /** With 256 others due no later, a row can be left out: the soonest 256 without it are an answer of the query. */
  lemma LeftOut(q: Queue, before: Option<int>, k: QueueKey) returns (rows: seq<DueRow>)
    requires Eligible(q, before, k) && |Ahead(q, k)| >= DRAIN_LIMIT
    ensures IsDue(q, before, DRAIN_LIMIT, rows) && !Listed(rows, k)
  {
    var others := EligibleKeys(q, before) - {k};
    AheadAreEligible(q, before, k);
    SubsetSize(Ahead(q, k), others);
    rows := PickSoonest(q, before, others, DRAIN_LIMIT);
    ReadAreEligible(q, before, rows);
    assert Keys(rows) <= others;
    forall i | 0 <= i < |rows| ensures rows[i].nextRetryAt <= q[k].nextRetryAt {
      LateRowMeansAllAhead(q, before, k, rows, i);
    }
  }

  lemma LateRowMeansAllAhead(q: Queue, before: Option<int>, k: QueueKey, rows: seq<DueRow>, i: nat)
    requires Eligible(q, before, k) && |Ahead(q, k)| >= DRAIN_LIMIT && |rows| == DRAIN_LIMIT && i < |rows|
    requires PickedFrom(q, before, EligibleKeys(q, before) - {k}, rows)
    ensures rows[i].nextRetryAt <= q[k].nextRetryAt
  {
    if rows[i].nextRetryAt > q[k].nextRetryAt {
      var late := KeyOf(rows[i]);
      AllAheadListed(q, before, k, rows, i);
      ReadAreEligible(q, before, rows);
      assert late in Keys(rows);
      assert |Ahead(q, k) + {late}| == |Ahead(q, k)| + 1;
      SubsetSize(Ahead(q, k) + {late}, Keys(rows));
      assert false;
    }
  }

  lemma AllAheadListed(q: Queue, before: Option<int>, k: QueueKey, rows: seq<DueRow>, i: nat)
    requires Eligible(q, before, k) && i < |rows| && rows[i].nextRetryAt > q[k].nextRetryAt
    requires PickedFrom(q, before, EligibleKeys(q, before) - {k}, rows)
    ensures KeyOf(rows[i]) !in Ahead(q, k) && forall j :: j in Ahead(q, k) ==> Listed(rows, j)
  {
    AheadAreEligible(q, before, k);
    assert Eligible(q, before, KeyOf(rows[i]));
  }

  /** Every answer of the query lists an eligible row exactly if fewer than 256 others are due no later. */
  lemma SurelyReadIff(q: Queue, before: Option<int>, k: QueueKey)
    requires Eligible(q, before, k)
    ensures (forall rows :: IsDue(q, before, DRAIN_LIMIT, rows) ==> Listed(rows, k)) <==> |Ahead(q, k)| < 256
  {
    if |Ahead(q, k)| < DRAIN_LIMIT {
      forall rows | IsDue(q, before, DRAIN_LIMIT, rows) ensures Listed(rows, k) {
        if !Listed(rows, k) {
          ReadAreEligible(q, before, rows);
          forall j | j in Keys(rows) ensures j in Ahead(q, k) {
            var i :| 0 <= i < |rows| && KeyOf(rows[i]) == j;
          }
          SubsetSize(Keys(rows), Ahead(q, k));
          assert false;
        }
      }
    } else {
      var rows := LeftOut(q, before, k);
    }
  }

  /** Every eligible row of the peer has fewer than 256 others due no later, over all peers. */
  ghost predicate Covered(q: Queue, before: Option<int>, peer: PeerId) {
    forall k :: Eligible(q, before, k) && k.1 == peer ==> |Ahead(q, k)| < 256
  }

  ghost predicate ReadsAll(q: Queue, before: Option<int>, peer: PeerId, rows: seq<DueRow>) {
    forall k :: Eligible(q, before, k) && k.1 == peer ==> Listed(rows, k)
  }

  /** Whatever answer the query gives, a drain covers the peer's whole outbox exactly if this holds of its rows. */
  lemma CoveredIff(q: Queue, before: Option<int>, peer: PeerId)
    ensures (forall rows :: IsDue(q, before, DRAIN_LIMIT, rows) ==> ReadsAll(q, before, peer, rows)) <==>
      Covered(q, before, peer)
  {
    if Covered(q, before, peer) {
      forall rows, k | IsDue(q, before, DRAIN_LIMIT, rows) && Eligible(q, before, k) && k.1 == peer
        ensures Listed(rows, k)
      {
        SurelyReadIff(q, before, k);
      }
    } else {
      var k :| Eligible(q, before, k) && k.1 == peer && |Ahead(q, k)| >= DRAIN_LIMIT;
      var rows := LeftOut(q, before, k);
      assert !ReadsAll(q, before, peer, rows);
    }
  }

  /** A queue of at most 256 rows covers every peer. */
  lemma SmallQueueCovers(q: Queue, before: Option<int>, peer: PeerId)
    requires |q| <= DRAIN_LIMIT
    ensures Covered(q, before, peer)
  {
    forall k | Eligible(q, before, k) && k.1 == peer ensures |Ahead(q, k)| < DRAIN_LIMIT {
      assert k in q.Keys && Ahead(q, k) <= q.Keys - {k};
      SubsetSize(Ahead(q, k), q.Keys - {k});
      assert |q.Keys| == |q|;
    }
  }

  /** Row `k` of the queue is the `i`-th row read, and no other is. */
  ghost predicate ReadOnceAt(q: Queue, rows: seq<DueRow>, k: QueueKey, i: nat)
    requires k in q
  {
    && i < |rows| && rows[i] == DueRow(k.0, k.1, q[k].attempts, q[k].nextRetryAt)
    && forall j :: 0 <= j < |rows| && KeyOf(rows[j]) == k ==> j == i
  }

  /** The row is one of `peer` that a drain may attempt now: any, or only those whose retry time has come. */
  predicate DueNow(q: Queue, before: Option<int>, peer: PeerId, k: QueueKey) {
    k in q && k.1 == peer && (before.Some? ==> q[k].nextRetryAt <= before.value)
  }

  /**
   * Whenever it covers the peer's outbox, so in particular with at most 256 rows queued over all peers, a drain
   * attempts every row of the peer that is due exactly once, the soonest first, and settles it; rows of other peers and
   * rows that are not due stay as they are, and beyond queue rows only the status of acknowledged messages changes.
   */
  lemma DrainContract(n: Node, before: Option<int>, rows: seq<DueRow>, peer: PeerId, acked: nat -> bool,
        clock: nat -> int)
    requires IsDue(n.queue, before, DRAIN_LIMIT, rows) && (Covered(n.queue, before, peer) || |n.queue| <= 256)
    ensures var n' := Drained(n, rows, peer, acked, clock);
      && (forall k :: DueNow(n.queue, before, peer, k) ==>
            exists i: nat :: ReadOnceAt(n.queue, rows, k, i) && Settled(n, n', rows[i], acked(i), clock(i)))
      && (forall k: QueueKey :: !DueNow(n.queue, before, peer, k) ==> SameEntry(n, n', k))
      && (forall i, j :: 0 <= i < |rows| && 0 <= j < |rows| && rows[i].nextRetryAt < rows[j].nextRetryAt ==> i < j)
      && OnlyStatuses(n, n', rows, peer, acked)
  {
    if |n.queue| <= 256 {
      SmallQueueCovers(n.queue, before, peer);
    }
    CoveredIff(n.queue, before, peer);
    assert ReadsAll(n.queue, before, peer, rows);
    var n' := Drained(n, rows, peer, acked, clock);
    StatusesChange(n, rows, peer, acked, clock);
    forall k | DueNow(n.queue, before, peer, k)
      ensures exists i: nat :: ReadOnceAt(n.queue, rows, k, i) && Settled(n, n', rows[i], acked(i), clock(i))
    {
      assert Eligible(n.queue, before, k);
      var i :| 0 <= i < |rows| && KeyOf(rows[i]) == k;
      RowSettled(n, rows, peer, acked, clock, i);
      assert ReadOnceAt(n.queue, rows, k, i);
    }
    forall k: QueueKey | !DueNow(n.queue, before, peer, k) ensures SameEntry(n, n', k) {
      NotDueUntouched(n, before, rows, peer, acked, clock, k);
    }
  }

  /** A kept row is due again 30 seconds to an hour later, and no sooner the more attempts it has had. */
  lemma RetryAhead(n: Node, n': Node, row: DueRow, now: int)
    requires Settled(n, n', row, false, now) && row.id in n.messages && KeyOf(row) in n.queue
    ensures KeyOf(row) in n'.queue && n'.queue[KeyOf(row)].attempts == row.attempts + 1
    ensures now + 30_000 <= n'.queue[KeyOf(row)].nextRetryAt <= now + 3_600_000
    ensures forall fewer: nat :: fewer <= row.attempts ==> now + RetryDelay(fewer) <= n'.queue[KeyOf(row)].nextRetryAt
  {
    RetryTable(row.attempts);
    forall fewer: nat | fewer <= row.attempts ensures RetryDelay(fewer) <= RetryDelay(row.attempts) {
      RetryMonotone(fewer, row.attempts);
    }
  }

  /** A failed first push is due again in 30 seconds; queueing a row again keeps its attempts. */
  lemma FailedPushQueued(n: Node, id: MessageId, to: PeerId, now: int)
    ensures var n' := PushDone(n, id, to, false, now);
      && (id, to) in n'.queue && n'.queue[(id, to)].nextRetryAt == now + 30_000
      && n'.queue[(id, to)].attempts == (if (id, to) in n.queue then n.queue[(id, to)].attempts else 0)
      && n'.messages == n.messages && (forall k :: k != (id, to) ==> SameEntry(n, n', k))
  {
    RetryTable(0);
  }

  /**
   * A failed flush keeps the notice, one attempt older and due 30 seconds to an hour later, and no other is
   * touched.
   */
  lemma FailedFlushKept(n: Node, peer: PeerId, now: int)
    requires peer in n.pendingDeletes
    ensures var d := n.pendingDeletes[peer];
      var n' := FlushDone(n, peer, d.attempts, false, now);
      && peer in n'.pendingDeletes && n'.pendingDeletes[peer].stored == d.stored
         && n'.pendingDeletes[peer].attempts == d.attempts + 1
      && now + 30_000 <= n'.pendingDeletes[peer].nextRetryAt <= now + 3_600_000
      && n'.pendingDeletes - {peer} == n.pendingDeletes - {peer}
  {
    RetryTable(n.pendingDeletes[peer].attempts);
  }

  lemma ListedAreEligible(q: Queue, before: Option<int>, rows: seq<DueRow>, k: QueueKey)
    requires IsDue(q, before, DRAIN_LIMIT, rows)
    ensures Listed(rows, k) ==> Eligible(q, before, k)
  {
  }

  /** Covered or not, a drain touches only rows of the peer that are due. */
  lemma NotDueUntouched(n: Node, before: Option<int>, rows: seq<DueRow>, peer: PeerId, acked: nat -> bool,
        clock: nat -> int, k: QueueKey)
    requires IsDue(n.queue, before, DRAIN_LIMIT, rows) && !DueNow(n.queue, before, peer, k)
    ensures SameEntry(n, Drained(n, rows, peer, acked, clock), k)
  {
    if k.1 == peer {
      ListedAreEligible(n.queue, before, rows, k);
    }
    OthersUntouched(n, rows, peer, acked, clock, k);
  }

  lemma {:induction false} NothingForPeer(n: Node, rows: seq<DueRow>, peer: PeerId, acked: nat -> bool,
        clock: nat -> int)
    requires forall i :: 0 <= i < |rows| ==> rows[i].target != peer
    ensures Drained(n, rows, peer, acked, clock) == n
    decreases |rows|
  {
    if rows != [] {
      assert forall i :: 0 <= i < |rows| - 1 ==> rows[..|rows| - 1][i] == rows[i];
      NothingForPeer(n, rows[..|rows| - 1], peer, acked, clock);
    }
  }

  // ---------------------------------------------------------------- which rows a drain is sure not to read

  /** All the earlier rows, then row `k`, then the soonest of the rest: an answer of the query that lists `k`. */
  lemma Included(q: Queue, before: Option<int>, k: QueueKey) returns (rows: seq<DueRow>)
    requires Eligible(q, before, k) && |Sooner(q, k)| < DRAIN_LIMIT
    ensures IsDue(q, before, DRAIN_LIMIT, rows) && Listed(rows, k)
  {
    AheadAreEligible(q, before, k);
    var rest := EligibleKeys(q, before) - Sooner(q, k) - {k};
    var first := PickSoonest(q, before, Sooner(q, k), |Sooner(q, k)|);
    var room: nat := DRAIN_LIMIT - |Sooner(q, k)| - 1;
    var last := PickSoonest(q, before, rest, if |rest| < room then |rest| else room);
    rows := first + [RowOf(q, k)] + last;
    Joined(q, before, k, first, last);
    forall j | Eligible(q, before, j) && !Listed(rows, j)
      ensures |rows| == DRAIN_LIMIT && NoLater(q, rows, j)
    {
      JoinedRest(q, before, k, first, last, j);
    }
    assert KeyOf(rows[|first|]) == k;
  }

  /** The three parts of such an answer, put together. */
  lemma Joined(q: Queue, before: Option<int>, k: QueueKey, first: seq<DueRow>, last: seq<DueRow>)
    requires Eligible(q, before, k)
    requires PickedFrom(q, before, Sooner(q, k), first)
    requires PickedFrom(q, before, EligibleKeys(q, before) - Sooner(q, k) - {k}, last)
    ensures Drawn(q, before, first + [RowOf(q, k)] + last)
  {
    var rows := first + [RowOf(q, k)] + last;
    forall i | 0 <= i < |rows| ensures Eligible(q, before, KeyOf(rows[i]))
      && q[KeyOf(rows[i])] == QueueEntry(rows[i].attempts, rows[i].nextRetryAt)
      && (i < |first| ==> rows[i] == first[i] && KeyOf(rows[i]) in Sooner(q, k))
      && (i > |first| ==> rows[i] == last[i - |first| - 1] && KeyOf(rows[i]) !in Sooner(q, k) + {k})
    {
      if i < |first| {
        assert rows[i] == first[i];
      } else if i > |first| {
        assert rows[i] == last[i - |first| - 1];
      }
    }
    assert rows[|first|] == RowOf(q, k);
  }

  /** What is due before an eligible row that such an answer leaves out. */
  ghost predicate NoLater(q: Queue, rows: seq<DueRow>, j: QueueKey)
    requires j in q
  {
    forall i :: 0 <= i < |rows| ==> rows[i].nextRetryAt <= q[j].nextRetryAt
  }

  lemma UnlistedParts(first: seq<DueRow>, row: DueRow, last: seq<DueRow>, j: QueueKey)
    requires !Listed(first + [row] + last, j)
    ensures !Listed(first, j) && j != KeyOf(row) && !Listed(last, j)
  {
    var rows := first + [row] + last;
    assert rows[|first|] == row;
    assert forall i :: 0 <= i < |first| ==> rows[i] == first[i];
    assert forall i :: 0 <= i < |last| ==> rows[|first| + 1 + i] == last[i];
  }

  lemma NoLaterParts(q: Queue, first: seq<DueRow>, row: DueRow, last: seq<DueRow>, j: QueueKey)
    requires j in q && NoLater(q, first, j) && row.nextRetryAt <= q[j].nextRetryAt && NoLater(q, last, j)
    ensures NoLater(q, first + [row] + last, j)
  {
  }

  lemma JoinedRest(q: Queue, before: Option<int>, k: QueueKey, first: seq<DueRow>, last: seq<DueRow>, j: QueueKey)
    requires Eligible(q, before, k) && |Sooner(q, k)| < DRAIN_LIMIT
    requires PickedFrom(q, before, Sooner(q, k), first) && |first| == |Sooner(q, k)|
    requires var rest := EligibleKeys(q, before) - Sooner(q, k) - {k};
      var room := DRAIN_LIMIT - |Sooner(q, k)| - 1;
      PickedFrom(q, before, rest, last) && |last| == if |rest| < room then |rest| else room
    requires Eligible(q, before, j) && !Listed(first + [RowOf(q, k)] + last, j)
    ensures |first + [RowOf(q, k)] + last| == DRAIN_LIMIT && NoLater(q, first + [RowOf(q, k)] + last, j)
  {
    var rest := EligibleKeys(q, before) - Sooner(q, k) - {k};
    UnlistedParts(first, RowOf(q, k), last, j);
    AllPicked(q, before, Sooner(q, k), first);
    assert j in rest;
    if |last| == |rest| {
      AllPicked(q, before, rest, last);
    }
    forall i | 0 <= i < |first| ensures first[i].nextRetryAt <= q[j].nextRetryAt {
      assert KeyOf(first[i]) in Sooner(q, k) && Eligible(q, before, KeyOf(first[i]));
    }
    NoLaterParts(q, first, RowOf(q, k), last, j);
  }

  lemma AllPicked(q: Queue, before: Option<int>, keys: set<QueueKey>, rows: seq<DueRow>)
    requires PickedFrom(q, before, keys, rows) && |rows| == |keys|
    ensures forall k :: k in keys ==> Listed(rows, k)
  {
    ReadAreEligible(q, before, rows);
    assert Keys(rows) <= keys;
    SubsetSize(Keys(rows), keys);
  }

  /** No answer of the query lists an eligible row exactly if at least 256 others are due earlier. */
  lemma NeverReadIff(q: Queue, before: Option<int>, k: QueueKey)
    requires Eligible(q, before, k)
    ensures (forall rows :: IsDue(q, before, DRAIN_LIMIT, rows) ==> !Listed(rows, k)) <==> |Sooner(q, k)| >= 256
  {
    if |Sooner(q, k)| >= DRAIN_LIMIT {
      forall rows | IsDue(q, before, DRAIN_LIMIT, rows) ensures !Listed(rows, k) {
        if Listed(rows, k) {
          AllSoonerListed(q, before, k, rows);
          ReadAreEligible(q, before, rows);
          assert |Sooner(q, k) + {k}| == |Sooner(q, k)| + 1;
          SubsetSize(Sooner(q, k) + {k}, Keys(rows));
          assert false;
        }
      }
    } else {
      var rows := Included(q, before, k);
    }
  }

  lemma AllSoonerListed(q: Queue, before: Option<int>, k: QueueKey, rows: seq<DueRow>)
    requires IsDue(q, before, DRAIN_LIMIT, rows) && Listed(rows, k) && k in q && Eligible(q, before, k)
    ensures forall j :: j in Sooner(q, k) ==> Listed(rows, j)
  {
    var i :| 0 <= i < |rows| && KeyOf(rows[i]) == k;
    forall j | j in Sooner(q, k) ensures Listed(rows, j) {
      assert Eligible(q, before, j);
      assert rows[i].nextRetryAt == q[k].nextRetryAt;
    }
  }

  /** Every eligible row of the peer has at least 256 others due earlier. */
  ghost predicate CrowdedOut(q: Queue, before: Option<int>, peer: PeerId) {
    forall k :: Eligible(q, before, k) && k.1 == peer ==> |Sooner(q, k)| >= 256
  }

  ghost predicate ReadsNone(rows: seq<DueRow>, peer: PeerId) {
    forall i :: 0 <= i < |rows| ==> rows[i].target != peer
  }

  /** Whatever answer the query gives, a drain attempts nothing for the peer exactly if all its rows are crowded out. */
  lemma StarvedIff(q: Queue, before: Option<int>, peer: PeerId)
    ensures (forall rows :: IsDue(q, before, DRAIN_LIMIT, rows) ==> ReadsNone(rows, peer)) <==>
      CrowdedOut(q, before, peer)
  {
    if CrowdedOut(q, before, peer) {
      forall rows: seq<DueRow>, i | IsDue(q, before, DRAIN_LIMIT, rows) && 0 <= i < |rows|
        ensures rows[i].target != peer
      {
        var k := KeyOf(rows[i]);
        assert Eligible(q, before, k) && Listed(rows, k);
        NeverReadIff(q, before, k);
      }
    } else {
      var k :| Eligible(q, before, k) && k.1 == peer && |Sooner(q, k)| < DRAIN_LIMIT;
      var rows := Included(q, before, k);
      var i :| 0 <= i < |rows| && KeyOf(rows[i]) == k;
      assert !ReadsNone(rows, peer);
    }
  }

  /** A drain for a peer that is crowded out changes nothing at all. */
  lemma Starved(n: Node, before: Option<int>, rows: seq<DueRow>, peer: PeerId, acked: nat -> bool, clock: nat -> int)
    requires IsDue(n.queue, before, DRAIN_LIMIT, rows) && CrowdedOut(n.queue, before, peer)
    ensures Drained(n, rows, peer, acked, clock) == n
  {
    StarvedIff(n.queue, before, peer);
    assert ReadsNone(rows, peer);
    NothingForPeer(n, rows, peer, acked, clock);
  }
}
