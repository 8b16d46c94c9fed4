/** The tables of one node's database, keyed by their primary keys, and what each query does to them. */
module Storage {
  import opened Types
  import opened Ordering

  datatype ControlPayload = RejectedRequest | AcceptedRequest | ChatDeleted

  /** The plaintext inside an envelope; `Garbage` is whatever fails to verify, decrypt or decode. */
  datatype Payload = Text(text: string) | Control(control: ControlPayload) | Garbage(length: nat)

  datatype Envelope = Envelope(id: MessageId, sender: PeerId, payload: Payload)

  datatype Message = Message(sender: PeerId, recipient: PeerId, payload: Payload, status: MessageStatus)

  type Messages = map<MessageId, Message>

  /** The two-party conversation: the same value whichever side computes it, and different for different pairs. */
  type ConversationId = (PeerId, PeerId)

  function Between(a: PeerId, b: PeerId): ConversationId {
    if a <= b then (a, b) else (b, a)
  }

  function ConversationOf(m: Message): ConversationId {
    Between(m.sender, m.recipient)
  }

  // ---------------------------------------------------------------- messages

  /** `INSERT OR IGNORE`: whether a row was inserted, and the table. */
  function InsertIgnore(t: Messages, id: MessageId, m: Message): (bool, Messages) {
    if id in t then (false, t) else (true, t[id := m])
  }

  function SetStatus(t: Messages, id: MessageId, status: MessageStatus): Messages {
    if id in t then t[id := t[id].(status := status)] else t
  }

  function Outbound(t: Messages, conv: ConversationId, me: PeerId): set<MessageId> {
    set id | id in t && ConversationOf(t[id]) == conv && t[id].sender == me
  }

  function Inbound(t: Messages, conv: ConversationId, me: PeerId): set<MessageId> {
    set id | id in t && ConversationOf(t[id]) == conv && t[id].recipient == me
  }

  function HighestOutbound(t: Messages, conv: ConversationId, me: PeerId): Option<MessageId> {
    Highest(Outbound(t, conv, me))
  }

  function HighestInbound(t: Messages, conv: ConversationId, me: PeerId): Option<MessageId> {
    Highest(Inbound(t, conv, me))
  }

  /** One outbound page: our own rows above the mark, ascending, at most `limit` of them. */
  function PullOutboundAfter(t: Messages, conv: ConversationId, me: PeerId, since: Option<MessageId>,
        limit: nat): seq<MessageId>
  {
    Take(Sorted(Above(Outbound(t, conv, me), since)), limit)
  }

  /** The rows `promote_outbound_synced` changes. */
  function Promotable(t: Messages, conv: ConversationId, me: PeerId, upto: MessageId): set<MessageId> {
    set id | id in Outbound(t, conv, me) && id <= upto && t[id].status.AsInt() < Synced.AsInt()
  }

  function SetSynced(t: Messages, ids: set<MessageId>): Messages {
    map id | id in t :: if id in ids then t[id].(status := Synced) else t[id]
  }

  /**
   * Promotion is final and keeps the high-water marks: a second one up to the same mark finds nothing, and neither the
   * set of own rows nor that of received ones changes.
   */
  lemma PromotionIsFinal(t: Messages, conv: ConversationId, me: PeerId, upto: MessageId, asker: PeerId)
    ensures var t' := SetSynced(t, Promotable(t, conv, me, upto));
      && Promotable(t', conv, me, upto) == {}
      && Outbound(t', conv, asker) == Outbound(t, conv, asker) && Inbound(t', conv, asker) == Inbound(t, conv, asker)
      && forall id :: id in Outbound(t', conv, me) && id <= upto ==> t'[id].status in {Synced, MessageStatus.Failed}
  {
  }

  function WithoutConversation(t: Messages, conv: ConversationId): Messages {
    map id | id in t && ConversationOf(t[id]) != conv :: t[id]
  }

  class MessagesTable {
    var rows: Messages

    constructor ()
      ensures rows == map[]
    {
      rows := map[];
    }

    method Insert(id: MessageId, m: Message) returns (inserted: bool)
      modifies this
      ensures (inserted, rows) == InsertIgnore(old(rows), id, m)
    {
      inserted := id !in rows;
      if inserted {
        rows := rows[id := m];
      }
    }

    method UpdateStatus(id: MessageId, status: MessageStatus)
      modifies this
      ensures rows == SetStatus(old(rows), id, status)
    {
      if id in rows {
        rows := rows[id := rows[id].(status := status)];
      }
    }

    /** Which rows were promoted, row by row; every other row is as it was, and a second call would find none. */
    method PromoteOutboundSynced(conv: ConversationId, me: PeerId, upto: MessageId) returns (changed: set<MessageId>)
      modifies this
      ensures forall id :: id in changed <==>
        && id in old(rows) && ConversationOf(old(rows)[id]) == conv && old(rows)[id].sender == me
        && id <= upto && old(rows)[id].status !in {Synced, MessageStatus.Failed}
      ensures rows.Keys == old(rows).Keys
      ensures forall id :: id in rows ==>
        rows[id] == if id in changed then old(rows)[id].(status := Synced) else old(rows)[id]
      ensures Promotable(rows, conv, me, upto) == {}
    {
      changed := Promotable(rows, conv, me, upto);
      rows := SetSynced(rows, changed);
    }

    method DeleteConversation(conv: ConversationId)
      modifies this
      ensures rows == WithoutConversation(old(rows), conv)
    {
      rows := WithoutConversation(rows, conv);
    }
  }

  // ---------------------------------------------------------------- the retry queue

  type QueueKey = (MessageId, PeerId)
  datatype QueueEntry = QueueEntry(attempts: nat, nextRetryAt: int)
  type Queue = map<QueueKey, QueueEntry>

  /** A new row starts at 0 attempts; queueing an existing row again only moves its retry time. */
  function Enqueued(q: Queue, key: QueueKey, nextRetryAt: int): Queue {
    q[key := QueueEntry(if key in q then q[key].attempts else 0, nextRetryAt)]
  }

  function Bumped(q: Queue, key: QueueKey, attempts: nat, nextRetryAt: int): Queue {
    if key in q then q[key := QueueEntry(attempts, nextRetryAt)] else q
  }

  function WithoutTarget(q: Queue, peer: PeerId): Queue {
    map k | k in q && k.1 != peer :: q[k]
  }

  datatype DueRow = DueRow(id: MessageId, target: PeerId, attempts: nat, nextRetryAt: int)

  function KeyOf(r: DueRow): QueueKey { (r.id, r.target) }

  ghost predicate DistinctKeys(rows: seq<DueRow>) {
    forall i, j :: 0 <= i < j < |rows| ==> KeyOf(rows[i]) != KeyOf(rows[j])
  }

  predicate Eligible(q: Queue, before: Option<int>, k: QueueKey) {
    k in q && (before.Some? ==> q[k].nextRetryAt <= before.value)
  }

  ghost predicate Listed(rows: seq<DueRow>, k: QueueKey) {
    exists i :: 0 <= i < |rows| && KeyOf(rows[i]) == k
  }

  /** The rows are eligible rows of the queue, each once, soonest first. */
  ghost predicate Drawn(q: Queue, before: Option<int>, rows: seq<DueRow>) {
    && DistinctKeys(rows)
    && (forall i :: 0 <= i < |rows| ==>
          Eligible(q, before, KeyOf(rows[i])) && q[KeyOf(rows[i])] == QueueEntry(rows[i].attempts, rows[i].nextRetryAt))
    && (forall i, j :: 0 <= i < j < |rows| ==> rows[i].nextRetryAt <= rows[j].nextRetryAt)
  }

  /**
   * `rows` answers `due(before, limit)`: eligible rows soonest first, at most `limit` of them, and none left out
   * while a later one is taken. Rows with equal times come in any order.
   */
  ghost predicate IsDue(q: Queue, before: Option<int>, limit: nat, rows: seq<DueRow>) {
    && Drawn(q, before, rows)
    && |rows| <= limit
    && forall k :: Eligible(q, before, k) && !Listed(rows, k) ==>
         |rows| == limit && forall i :: 0 <= i < |rows| ==> rows[i].nextRetryAt <= q[k].nextRetryAt
  }

  lemma ListedMore(rows: seq<DueRow>, row: DueRow)
    ensures forall k :: Listed(rows + [row], k) <==> Listed(rows, k) || k == KeyOf(row)
  {
    var longer := rows + [row];
    assert longer[|rows|] == row;
    assert forall i :: 0 <= i < |rows| ==> longer[i] == rows[i];
  }

  lemma DrawnMore(q: Queue, before: Option<int>, rows: seq<DueRow>, row: DueRow)
    requires Drawn(q, before, rows) && Eligible(q, before, KeyOf(row)) && !Listed(rows, KeyOf(row))
    requires q[KeyOf(row)] == QueueEntry(row.attempts, row.nextRetryAt)
    requires forall i :: 0 <= i < |rows| ==> rows[i].nextRetryAt <= row.nextRetryAt
    ensures Drawn(q, before, rows + [row])
  {
    assert forall i :: 0 <= i < |rows| ==> Listed(rows, KeyOf(rows[i]));
  }

  class SyncQueueTable {
    var rows: Queue

    constructor ()
      ensures rows == map[]
    {
      rows := map[];
    }

    method Enqueue(key: QueueKey, nextRetryAt: int)
      modifies this
      ensures rows == Enqueued(old(rows), key, nextRetryAt)
    {
      if key in rows {
        rows := rows[key := QueueEntry(rows[key].attempts, nextRetryAt)];
      } else {
        rows := rows[key := QueueEntry(0, nextRetryAt)];
      }
    }

    method Bump(key: QueueKey, attempts: nat, nextRetryAt: int)
      modifies this
      ensures rows == Bumped(old(rows), key, attempts, nextRetryAt)
    {
      if key in rows {
        rows := rows[key := QueueEntry(attempts, nextRetryAt)];
      }
    }

    method Remove(key: QueueKey)
      modifies this
      ensures rows == old(rows) - {key}
    {
      rows := rows - {key};
    }

    method DeleteTarget(peer: PeerId)
      modifies this
      ensures rows == WithoutTarget(old(rows), peer)
    {
      rows := WithoutTarget(rows, peer);
    }

    /** `SELECT ... WHERE next_retry_at <= before ORDER BY next_retry_at LIMIT limit`; `None` stands for no bound. */
    method Due(before: Option<int>, limit: nat) returns (due: seq<DueRow>)
      ensures IsDue(rows, before, limit, due)
    {
      due := [];
      var rest := set k | k in rows && Eligible(rows, before, k);
      while rest != {} && |due| < limit
        invariant |due| <= limit && Drawn(rows, before, due)
        invariant forall k :: k in rest ==> Eligible(rows, before, k) && !Listed(due, k)
        invariant forall i, k :: 0 <= i < |due| && k in rest ==> due[i].nextRetryAt <= rows[k].nextRetryAt
        invariant forall k :: Eligible(rows, before, k) ==> k in rest || Listed(due, k)
        decreases rest
      {
        var k := Soonest(rows, rest);
        var row := DueRow(k.0, k.1, rows[k].attempts, rows[k].nextRetryAt);
        ListedMore(due, row);
        DrawnMore(rows, before, due, row);
        due := due + [row];
        rest := rest - {k};
      }
    }

    static method Soonest(rows: Queue, keys: set<QueueKey>) returns (k: QueueKey)
      requires keys != {} && keys <= rows.Keys
      ensures k in keys && forall j :: j in keys ==> rows[k].nextRetryAt <= rows[j].nextRetryAt
    {
      k :| k in keys;
      var rest := keys - {k};
      while rest != {}
        invariant k in keys && rest <= keys
        invariant forall j :: j in keys && j !in rest ==> rows[k].nextRetryAt <= rows[j].nextRetryAt
        decreases rest
      {
        var j :| j in rest;
        if rows[j].nextRetryAt < rows[k].nextRetryAt {
          k := j;
        }
        rest := rest - {j};
      }
    }
  }

  // ---------------------------------------------------------------- queued deletions

  /** A stored envelope either decodes or is corrupt; only sealed envelopes are ever written. */
  datatype Stored = Sealed(envelope: Envelope) | Corrupt

  datatype PendingDelete = PendingDelete(stored: Stored, attempts: nat, nextRetryAt: int)
  type PendingDeletes = map<PeerId, PendingDelete>

  function DeleteEnqueued(d: PendingDeletes, peer: PeerId, envelope: Envelope, nextRetryAt: int): PendingDeletes {
    d[peer := PendingDelete(Sealed(envelope), if peer in d then d[peer].attempts else 0, nextRetryAt)]
  }

  function DeleteBumped(d: PendingDeletes, peer: PeerId, attempts: nat, nextRetryAt: int): PendingDeletes {
    if peer in d then d[peer := d[peer].(attempts := attempts, nextRetryAt := nextRetryAt)] else d
  }

  class PendingDeletesTable {
    var rows: PendingDeletes

    constructor ()
      ensures rows == map[]
    {
      rows := map[];
    }

    method Enqueue(peer: PeerId, envelope: Envelope, nextRetryAt: int)
      modifies this
      ensures rows == DeleteEnqueued(old(rows), peer, envelope, nextRetryAt)
    {
      var attempts := if peer in rows then rows[peer].attempts else 0;
      rows := rows[peer := PendingDelete(Sealed(envelope), attempts, nextRetryAt)];
    }

    method Bump(peer: PeerId, attempts: nat, nextRetryAt: int)
      modifies this
      ensures rows == DeleteBumped(old(rows), peer, attempts, nextRetryAt)
    {
      if peer in rows {
        rows := rows[peer := rows[peer].(attempts := attempts, nextRetryAt := nextRetryAt)];
      }
    }

    method Remove(peer: PeerId)
      modifies this
      ensures rows == old(rows) - {peer}
    {
      rows := rows - {peer};
    }
  }

  // ---------------------------------------------------------------- contacts and requests

  type Contacts = map<PeerId, ContactStatus>

  datatype Direction = Incoming | Outgoing
  datatype Resolution = ByAccept | ByReject | ByCancel
  datatype Request = Request(direction: Direction, peer: PeerId, resolution: Option<Resolution>)
  type Requests = map<nat, Request>

  function SetContact(c: Contacts, peer: PeerId, status: ContactStatus): Contacts {
    if peer in c then c[peer := status] else c
  }

  predicate IsPending(r: Requests, id: nat) {
    id in r && r[id].resolution.None?
  }

  predicate HasPending(r: Requests, direction: Direction, peer: PeerId) {
    exists id :: id in r && r[id] == Request(direction, peer, None)
  }

  function Resolve(r: Requests, id: nat, resolution: Resolution): Requests {
    if IsPending(r, id) then r[id := r[id].(resolution := Some(resolution))] else r
  }

  /** Every pending row of `peer` resolved. */
  function ResolveAll(r: Requests, peer: PeerId, resolution: Resolution): Requests {
    map id | id in r ::
      if r[id].peer == peer && r[id].resolution.None? then r[id].(resolution := Some(resolution)) else r[id]
  }

  function WithoutPeer(r: Requests, peer: PeerId): Requests {
    map id | id in r && r[id].peer != peer :: r[id]
  }

  class ContactsTable {
    var rows: Contacts

    constructor ()
      ensures rows == map[]
    {
      rows := map[];
    }

    /** Inserts, or overwrites the status of an existing row. */
    method Insert(peer: PeerId, status: ContactStatus)
      modifies this
      ensures rows == old(rows)[peer := status]
    {
      rows := rows[peer := status];
    }

    /** `false` is the `NotFound` error. */
    method UpdateStatus(peer: PeerId, status: ContactStatus) returns (found: bool)
      modifies this
      ensures found == (peer in old(rows)) && rows == SetContact(old(rows), peer, status)
    {
      found := peer in rows;
      if found {
        rows := rows[peer := status];
      }
    }

    method Delete(peer: PeerId)
      modifies this
      ensures rows == old(rows) - {peer}
    {
      rows := rows - {peer};
    }
  }

  class RequestsTable {
    var rows: Requests
    var nextId: nat

    constructor ()
      ensures rows == map[] && nextId == 0
    {
      rows, nextId := map[], 0;
    }

    method Insert(direction: Direction, peer: PeerId)
      modifies this
      ensures rows == old(rows)[old(nextId) := Request(direction, peer, None)] && nextId == old(nextId) + 1
    {
      rows := rows[nextId := Request(direction, peer, None)];
      nextId := nextId + 1;
    }

    /** `false` is the `NotFound` error. */
    method ResolveOne(id: nat, resolution: Resolution) returns (found: bool)
      modifies this`rows
      ensures found == IsPending(old(rows), id) && rows == Resolve(old(rows), id, resolution)
    {
      found := IsPending(rows, id);
      if found {
        rows := rows[id := rows[id].(resolution := Some(resolution))];
      }
    }

    /** Lists the pending rows and resolves those of `peer` one by one. */
    method ResolvePendingOf(peer: PeerId, resolution: Resolution)
      modifies this`rows
      ensures rows == ResolveAll(old(rows), peer, resolution)
    {
      var todo := set id | id in rows && rows[id].resolution.None? && rows[id].peer == peer;
      while todo != {}
        invariant rows.Keys == old(rows).Keys
        invariant forall id :: id in todo ==>
          id in old(rows) && old(rows)[id].peer == peer && old(rows)[id].resolution.None?
        invariant forall id :: id in rows ==>
          rows[id] == if id in todo then old(rows)[id] else ResolveAll(old(rows), peer, resolution)[id]
        decreases todo
      {
        var id :| id in todo;
        var _ := ResolveOne(id, resolution);
        todo := todo - {id};
      }
    }

    method DeletePeer(peer: PeerId)
      modifies this`rows
      ensures rows == WithoutPeer(old(rows), peer)
    {
      rows := WithoutPeer(rows, peer);
    }
  }
}
