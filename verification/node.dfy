/**
 * One node: its tables, the sends it has in flight and the events it has shown, and what every handler does to
 * them.
 */
module Node {
  import opened Types
  import opened Ordering
  import opened Storage

  const MAX_MESSAGE_BYTES: nat := 65_536
  const SYNC_PULL_LIMIT: nat := 50
  const SYNC_MAX_PULL_PAGES: nat := 64

  datatype AppEvent =
    | MessageReceived(id: MessageId, sender: PeerId)
    | StatusChanged(id: MessageId, status: MessageStatus)
    | RequestReceived(peer: PeerId)
    | RequestResolved(peer: PeerId, resolution: Resolution)
    | ContactAdded(peer: PeerId)
    | ContactRemoved(peer: PeerId)

  datatype Node = Node(
    me: PeerId,
    contacts: Contacts,
    requests: Requests,
    nextRequest: nat,
    messages: Messages,
    sessions: set<PeerId>,
    queue: Queue,
    pendingDeletes: PendingDeletes,
    peerState: set<PeerId>,
    pushes: set<QueueKey>,          // first sends whose background task has not finished
    events: seq<AppEvent>)          // everything shown to the user so far

  function Fresh(me: PeerId): Node {
    Node(me, map[], map[], 0, map[], {}, map[], map[], {}, {}, [])
  }

  function Conv(n: Node, peer: PeerId): ConversationId {
    Between(n.me, peer)
  }

  function Emit(n: Node, e: AppEvent): Node {
    n.(events := n.events + [e])
  }

  function StatusOf(n: Node, peer: PeerId): Option<ContactStatus> {
    if peer in n.contacts then Some(n.contacts[peer]) else None
  }

  // ---------------------------------------------------------------- retry schedule

  function RetryDelay(attempts: nat): nat {
    var secs := Pow2(if attempts <= 7 then attempts else 7) * 30;
    (if secs <= 3600 then secs else 3600) * 1000
  }

  function NextRetryAt(attempts: nat, now: int): int {
    now + RetryDelay(attempts)
  }

  lemma RetryTable(attempts: nat)
    ensures 30_000 <= RetryDelay(attempts) <= 3_600_000
    ensures RetryDelay(attempts) <= RetryDelay(attempts + 1)
    ensures attempts < 7 ==> RetryDelay(attempts) == Pow2(attempts) * 30_000
    ensures attempts >= 7 ==> RetryDelay(attempts) == 3_600_000
  {
    assert Pow2(0) == 1 && Pow2(1) == 2 && Pow2(2) == 4 && Pow2(3) == 8;
    assert Pow2(4) == 16 && Pow2(5) == 32 && Pow2(6) == 64 && Pow2(7) == 128;
  }

  /** The wait before a retry is 30 s to an hour and never shrinks as attempts mount. */
  lemma {:induction false} RetryMonotone(fewer: nat, more: nat)
    requires fewer <= more
    ensures 30_000 <= RetryDelay(fewer) <= RetryDelay(more) <= 3_600_000
    decreases more
  {
    RetryTable(more);
    if fewer < more {
      RetryTable(more - 1);
      RetryMonotone(fewer, more - 1);
    }
  }

  // ---------------------------------------------------------------- envelopes

  /** Tag byte, plaintext and authentication tag. */
  function CiphertextLength(p: Payload): nat {
    match p
    case Text(text) => |text| + 17
    case Control(ChatDeleted) => 40
    case Control(_) => 44
    case Garbage(length) => length
  }

  predicate Oversized(e: Envelope) {
    CiphertextLength(e.payload) > MAX_MESSAGE_BYTES + 256
  }

  function EnvelopeOf(t: Messages, id: MessageId): Envelope
    requires id in t
  {
    Envelope(id, t[id].sender, t[id].payload)
  }

  function EnvelopesOf(t: Messages, ids: seq<MessageId>): (es: seq<Envelope>)
    requires forall id :: id in ids ==> id in t
    ensures |es| == |ids| && forall i :: 0 <= i < |ids| ==> es[i] == EnvelopeOf(t, ids[i])
  {
    seq(|ids|, i requires 0 <= i < |ids| => EnvelopeOf(t, ids[i]))
  }

  // ---------------------------------------------------------------- sending

  /** The row and the background push of a new message, or `None` when the input is refused. */
  function Send(n: Node, to: PeerId, text: string, id: MessageId): Option<Node> {
    if to == n.me || |text| > MAX_MESSAGE_BYTES || to !in n.sessions then None
    else
      var row := Message(n.me, to, Text(text), Sending);
      Some(n.(messages := InsertIgnore(n.messages, id, row).1, pushes := n.pushes + {(id, to)}))
  }

  /** The end of a background push. */
  function PushDone(n: Node, id: MessageId, to: PeerId, acked: bool, now: int): Node {
    var done := n.(pushes := n.pushes - {(id, to)});
    if acked then Emit(done.(messages := SetStatus(n.messages, id, Delivered)), StatusChanged(id, Delivered))
    else done.(queue := Enqueued(n.queue, (id, to), NextRetryAt(0, now)))
  }

  /** One queued row re-sent: delivered and dequeued, or rescheduled. */
  function DrainDone(n: Node, id: MessageId, target: PeerId, attempts: nat, acked: bool, now: int): Node {
    if acked then
      Emit(n.(messages := SetStatus(n.messages, id, Delivered), queue := n.queue - {(id, target)}),
        StatusChanged(id, Delivered))
    else n.(queue := Bumped(n.queue, (id, target), attempts + 1, NextRetryAt(attempts, now)))
  }

  /** A queued row whose message is gone is dropped. */
  function DrainOrphan(n: Node, id: MessageId, target: PeerId): Node {
    if id in n.messages then n else n.(queue := n.queue - {(id, target)})
  }

  // ---------------------------------------------------------------- contact requests

  function AddRequest(n: Node, direction: Direction, peer: PeerId): Node {
    n.(requests := n.requests[n.nextRequest := Request(direction, peer, None)], nextRequest := n.nextRequest + 1)
  }

  /** The part of `send_contact_request` before the handshake. */
  function RequestContact(n: Node, peer: PeerId): Node {
    if peer == n.me then n
    else
      var n1 :=
        if peer in n.sessions || HasPending(n.requests, Outgoing, peer) then n else AddRequest(n, Outgoing, peer);
      if peer in n.contacts then n1 else n1.(contacts := n.contacts[peer := PendingOut])
  }

  /** The handshake it sent came back accepted. */
  function HandshakeDone(n: Node, peer: PeerId): Node {
    n.(sessions := n.sessions + {peer})
  }

  function EnsureIncomingRequest(n: Node, peer: PeerId): Node {
    if StatusOf(n, peer) == Some(Accepted) then n
    else
      var n1 := if peer in n.contacts then n else n.(contacts := n.contacts[peer := PendingIn]);
      var n2 := if HasPending(n.requests, Incoming, peer) then n1 else AddRequest(n1, Incoming, peer);
      Emit(n2, RequestReceived(peer))
  }

  /**
   * An inbound handshake from connection `from` claiming to be `claimed`. `valid` says whether its signature holds,
   * `responds` whether the reply could be handed to the network.
   */
  function HandleHandshake(n: Node, from: PeerId, claimed: PeerId, allowed: bool, valid: bool, responds: bool): Node {
    if !allowed || claimed != from then n
    else if claimed in n.sessions then (if responds then EnsureIncomingRequest(n, claimed) else n)
    else if !valid then n
    else
      var n1 := n.(sessions := n.sessions + {claimed});
      if responds then EnsureIncomingRequest(n1, claimed) else n1
  }

  function Accept(n: Node, id: nat): Node {
    if !IsPending(n.requests, id) then n
    else
      var peer := n.requests[id].peer;
      var n1 := n.(requests := Resolve(n.requests, id, ByAccept), contacts := SetContact(n.contacts, peer, Accepted));
      if peer in n.contacts then Emit(Emit(n1, RequestResolved(peer, ByAccept)), ContactAdded(peer)) else n1
  }

  function Reject(n: Node, id: nat): Node {
    if !IsPending(n.requests, id) then n
    else
      var peer := n.requests[id].peer;
      var n1 := n.(requests := Resolve(n.requests, id, ByReject), contacts := SetContact(n.contacts, peer, Blocked));
      if peer in n.contacts then Emit(n1, RequestResolved(peer, ByReject)) else n1
  }

  function Cancel(n: Node, id: nat): Node {
    if !IsPending(n.requests, id) || n.requests[id].direction != Outgoing then n
    else
      var peer := n.requests[id].peer;
      var n1 := n.(requests := Resolve(n.requests, id, ByCancel), contacts := SetContact(n.contacts, peer, Removed));
      if peer in n.contacts then Emit(n1, RequestResolved(peer, ByCancel)) else n1
  }

  // ---------------------------------------------------------------- deleting

  function WipePeer(n: Node, peer: PeerId): Node {
    n.(messages := WithoutConversation(n.messages, Conv(n, peer)),
       sessions := n.sessions - {peer},
       queue := WithoutTarget(n.queue, peer),
       requests := WithoutPeer(n.requests, peer),
       contacts := n.contacts - {peer},
       peerState := n.peerState - {peer})
  }

  /** Nothing of `peer` is left in the six tables a deletion clears. */
  ghost predicate Erased(n: Node, peer: PeerId) {
    && peer !in n.contacts
    && peer !in n.sessions
    && (forall id :: id in n.messages ==> ConversationOf(n.messages[id]) != Conv(n, peer))
    && (forall id :: id in n.requests ==> n.requests[id].peer != peer)
    && (forall k :: k in n.queue ==> k.1 != peer)
    && peer !in n.peerState
  }

  /** Seals the deletion notice while the session exists, then wipes. */
  function DeleteContact(n: Node, peer: PeerId, noticeId: MessageId, now: int): Node {
    var notice := Envelope(noticeId, n.me, Control(ChatDeleted));
    var n1 :=
      if peer in n.sessions then n.(pendingDeletes := DeleteEnqueued(n.pendingDeletes, peer, notice, now)) else n;
    Emit(WipePeer(n1, peer), ContactRemoved(peer))
  }

  /** A flushed notice came back: dropped on an ack, rescheduled otherwise. */
  function FlushDone(n: Node, peer: PeerId, attempts: nat, acked: bool, now: int): Node {
    if acked then n.(pendingDeletes := n.pendingDeletes - {peer})
    else n.(pendingDeletes := DeleteBumped(n.pendingDeletes, peer, attempts + 1, NextRetryAt(attempts, now)))
  }

  /** A notice that no longer decodes is dropped instead of retried. */
  function FlushCorrupt(n: Node, peer: PeerId): Node {
    if peer in n.pendingDeletes && n.pendingDeletes[peer].stored.Corrupt? then
      n.(pendingDeletes := n.pendingDeletes - {peer})
    else n
  }

  /** A peer was seen at some addresses: its dial cache is kept for contacts only. */
  function Discovered(n: Node, peer: PeerId, hasAddresses: bool): Node {
    if hasAddresses && peer in n.contacts then n.(peerState := n.peerState + {peer}) else n
  }

  // ---------------------------------------------------------------- inbound messages

  function HandleControl(n: Node, sender: PeerId, control: ControlPayload): Node {
    match control
    case RejectedRequest =>
      Emit(n.(requests := ResolveAll(n.requests, sender, ByReject),
        contacts := SetContact(n.contacts, sender, Blocked)),
           RequestResolved(sender, ByReject))
    case AcceptedRequest =>
      Emit(Emit(n.(requests := ResolveAll(n.requests, sender, ByAccept),
        contacts := SetContact(n.contacts, sender, Accepted)),
                RequestResolved(sender, ByAccept)),
           ContactAdded(sender))
    case ChatDeleted => Emit(WipePeer(n, sender), ContactRemoved(sender))
  }

  /** How many pending rows of `peer` there are, one `RequestResolved` each. */
  function PendingIds(r: Requests, peer: PeerId): set<nat> {
    set id | id in r && r[id].resolution.None? && r[id].peer == peer
  }

  function Repeat(e: AppEvent, times: nat): seq<AppEvent> {
    seq(times, _ => e)
  }

  /** A message from someone we asked is the practical sign that they accepted. */
  function AutoPromote(n: Node, sender: PeerId): Node {
    if StatusOf(n, sender) != Some(PendingOut) then n
    else
      var resolved := Repeat(RequestResolved(sender, ByAccept), |PendingIds(n.requests, sender)|);
      n.(contacts := n.contacts[sender := Accepted],
         requests := ResolveAll(n.requests, sender, ByAccept),
         events := n.events + resolved + [ContactAdded(sender)])
  }

  /** Stores a received text; the flag says whether it was new. */
  function StoreReceived(n: Node, e: Envelope): (bool, Node) {
    var (inserted, messages) := InsertIgnore(n.messages, e.id, Message(e.sender, n.me, e.payload, Synced));
    (inserted, n.(messages := messages))
  }

  /**
   * An inbound envelope on connection `from`; the second result is the acknowledgement, absent when the handler
   * failed before sending one. `allowed` is the rate limiter's verdict, `responds` whether the network took the reply.
   */
  function HandleMsg(n: Node, from: PeerId, e: Envelope, allowed: bool, responds: bool): (Node, Option<bool>) {
    if !allowed || Oversized(e) || e.sender != from || from !in n.sessions then (n, Some(false))
    else if StatusOf(n, from) == Some(Blocked) then (n, Some(true))
    else
      match e.payload
      case Garbage(_) => (n, None)
      case Control(control) => (HandleControl(n, from, control), Some(true))
      case Text(_) =>
        var (inserted, stored) := StoreReceived(n, e);
        if !responds then (stored, None)
        else
          var promoted := AutoPromote(stored, from);
          (if inserted then Emit(promoted, MessageReceived(e.id, from)) else promoted, Some(true))
  }

  // ---------------------------------------------------------------- reconcile, answering side

  datatype Digest = Digest(conv: ConversationId, highestOutbound: Option<MessageId>, highestInbound: Option<MessageId>)

  datatype SyncReq =
    | Header(conversations: seq<Digest>)
    | Pull(conv: ConversationId, since: Option<MessageId>, limit: nat)
    | Ack(conv: ConversationId, confirmed: seq<MessageId>)

  datatype SyncResp = HeaderAck(ours: seq<Digest>) | PullPage(envelopes: seq<Envelope>, hasMore: bool) | AckDone

  function EmptyResp(request: SyncReq): SyncResp {
    match request
    case Header(_) => HeaderAck([])
    case Pull(_, _, _) => PullPage([], false)
    case Ack(_, _) => AckDone
  }

  function OwnDigest(n: Node, peer: PeerId): Digest {
    Digest(Conv(n, peer), HighestOutbound(n.messages, Conv(n, peer), n.me),
      HighestInbound(n.messages, Conv(n, peer), n.me))
  }

  /** Our digest once for every listed digest of the shared conversation; anything else is ignored. */
  function AnswerDigests(n: Node, peer: PeerId, asked: seq<Digest>): seq<Digest> {
    if asked == [] then []
    else
      var rest := AnswerDigests(n, peer, asked[..|asked| - 1]);
      if asked[|asked| - 1].conv == Conv(n, peer) then rest + [OwnDigest(n, peer)] else rest
  }

  function PageOf(t: Messages, conv: ConversationId, me: PeerId, since: Option<MessageId>, limit: nat): SyncResp {
    var ids := PullOutboundAfter(t, conv, me, since, limit);
    assert forall id :: id in ids ==> id in Sorted(Above(Outbound(t, conv, me), since));
    PullPage(EnvelopesOf(t, ids), |ids| == limit)
  }

  function SetAllSynced(t: Messages, ids: seq<MessageId>): Messages {
    if ids == [] then t else SetStatus(SetAllSynced(t, ids[..|ids| - 1]), ids[|ids| - 1], Synced)
  }

  /** An acknowledgement changes the status of the listed rows and nothing else. */
  lemma {:induction false} AckedRows(t: Messages, ids: seq<MessageId>)
    ensures SetAllSynced(t, ids).Keys == t.Keys
    ensures forall id :: id in t ==> SetAllSynced(t, ids)[id] == if id in ids then t[id].(status := Synced) else t[id]
    decreases |ids|
  {
    if ids != [] {
      AckedRows(t, ids[..|ids| - 1]);
      assert forall id :: id in ids <==> id in ids[..|ids| - 1] || id == ids[|ids| - 1];
    }
  }

  function HandleSync(n: Node, from: PeerId, request: SyncReq, allowed: bool): (Node, SyncResp) {
    if !allowed || StatusOf(n, from) == Some(Blocked) then (n, EmptyResp(request))
    else
      match request
      case Header(asked) => (n, HeaderAck(AnswerDigests(n, from, asked)))
      case Pull(conv, since, limit) =>
        (n, if conv == Conv(n, from) then PageOf(n.messages, conv, n.me, since, limit) else PullPage([], false))
      case Ack(conv, confirmed) =>
        (if conv == Conv(n, from) then n.(messages := SetAllSynced(n.messages, confirmed)) else n, AckDone)
  }

  // ---------------------------------------------------------------- reconcile, asking side

  function StatusEvents(ids: seq<MessageId>): seq<AppEvent> {
    seq(|ids|, i requires 0 <= i < |ids| => StatusChanged(ids[i], Synced))
  }

  /** Own rows up to the peer's reported mark become `Synced` and leave the queue; `order` is how the rows came back. */
  function Promote(n: Node, peer: PeerId, upto: MessageId, order: seq<MessageId>): Node {
    var ids := Promotable(n.messages, Conv(n, peer), n.me, upto);
    n.(messages := SetSynced(n.messages, ids),
       queue := n.queue - (set id | id in ids :: (id, peer)),
       events := n.events + StatusEvents(order))
  }

  datatype Ingested = Inserted | Ignored | Failed

  function Ingest(n: Node, peer: PeerId, e: Envelope): (Node, Ingested) {
    if Oversized(e) || e.sender != peer then (n, Ignored)
    else if peer !in n.sessions then (n, Ingested.Failed)
    else
      match e.payload
      case Garbage(_) => (n, Ingested.Failed)
      case Control(_) => (n, Ignored)
      case Text(_) =>
        var (inserted, stored) := StoreReceived(n, e);
        if inserted then (Emit(stored, MessageReceived(e.id, peer)), Inserted) else (stored, Ignored)
  }

  function NeedPull(theirOutbound: Option<MessageId>, myInbound: Option<MessageId>): bool {
    theirOutbound.Some? && (myInbound.Some? ==> theirOutbound.value > myInbound.value)
  }
}
