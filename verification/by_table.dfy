/**
 * The node read table by table instead of handler by handler: for every entry of every table, exactly which steps
 * change it and what they leave, with the bounds and waits written out.
 */
module ByTable {
  import opened Types
  import opened Ordering
  import opened Storage
  import opened Node
  import opened NodeRuns

  // ---------------------------------------------------------------- who is heard

  /** The size of what arrives: 17 bytes more than a text, and at most 65792. */
  predicate Fits(e: Envelope) {
    match e.payload
    case Text(text) => |text| <= 65_775
    case Control(_) => true
    case Garbage(length) => length <= 65_792
  }

  /** A message gets past every gate: the limiter, the size, the sender's identity, the session and the block. */
  predicate Heard(n: Node, from: PeerId, e: Envelope, allowed: bool) {
    allowed && Fits(e) && e.sender == from && from in n.sessions && !(from in n.contacts && n.contacts[from].Blocked?)
  }

  /** The step brings `payload` from `peer`, and it is heard. */
  predicate Says(n: Node, step: Step, peer: PeerId, payload: Payload) {
    step.Receive? && step.peer == peer && step.envelope.payload == payload
    && Heard(n, peer, step.envelope, step.allowed)
  }

  /** The step brings a text from `peer` that is heard and answered. */
  predicate Texts(n: Node, step: Step, peer: PeerId) {
    step.Receive? && step.peer == peer && step.envelope.payload.Text? && step.responds
    && Heard(n, peer, step.envelope, step.allowed)
  }

  /** The step erases the conversation with `peer`: we delete it, or the peer says it did. */
  predicate Erases(n: Node, step: Step, peer: PeerId) {
    (step.Delete? && step.peer == peer) || Says(n, step, peer, Control(ChatDeleted))
  }

  /** A handshake of `peer` itself is let in: by the limiter, and by its signature unless there is a session already. */
  predicate Greets(n: Node, step: Step, peer: PeerId) {
    step.Handshake? && step.peer == step.claimed == peer && step.allowed && (step.valid || peer in n.sessions)
  }

  /** It is answered, and by someone who has not accepted the peer. */
  predicate Surfaces(n: Node, step: Step, peer: PeerId) {
    Greets(n, step, peer) && step.responds && !(peer in n.contacts && n.contacts[peer].Accepted?)
  }

  lemma FitsIff(e: Envelope)
    ensures Fits(e) <==> !Oversized(e)
  {
  }

  /** What is not heard changes nothing. */
  lemma HeardOnly(n: Node, from: PeerId, e: Envelope, allowed: bool, responds: bool)
    ensures !Heard(n, from, e, allowed) ==> HandleMsg(n, from, e, allowed, responds).0 == n
    ensures Heard(n, from, e, allowed) ==>
      HandleMsg(n, from, e, allowed, responds).0 ==
        match e.payload
        case Garbage(_) => n
        case Control(control) => HandleControl(n, from, control)
        case Text(_) => Taken(n, e, responds)
  {
    FitsIff(e);
  }

  /** A text that is heard: stored, and if it is answered, the sender promoted and the text shown. */
  function Taken(n: Node, e: Envelope, responds: bool): Node {
    var (inserted, stored) := StoreReceived(n, e);
    if !responds then stored
    else
      var promoted := AutoPromote(stored, e.sender);
      if inserted then Emit(promoted, MessageReceived(e.id, e.sender)) else promoted
  }

  // ---------------------------------------------------------------- contacts

  /** Row `row` of `peer` waits for an answer. */
  predicate OpenRow(n: Node, row: nat, peer: PeerId) {
    row in n.requests && n.requests[row].peer == peer && n.requests[row].resolution.None?
  }

  predicate Accepts(n: Node, step: Step, peer: PeerId) {
    step.AcceptRequest? && OpenRow(n, step.row, peer)
  }

  predicate Rejects(n: Node, step: Step, peer: PeerId) {
    step.RejectRequest? && OpenRow(n, step.row, peer)
  }

  predicate Cancels(n: Node, step: Step, peer: PeerId) {
    step.CancelRequest? && OpenRow(n, step.row, peer) && n.requests[step.row].direction.Outgoing?
  }

  /** A contact is gone by an erasure, new by a request either way, and otherwise set by answers to requests alone. */
  function ContactAfter(n: Node, step: Step, p: PeerId): Option<ContactStatus> {
    if Erases(n, step, p) then None
    else if p !in n.contacts then
      if Surfaces(n, step, p) then Some(PendingIn)
      else if step == AskContact(p) && p != n.me then Some(PendingOut)
      else None
    else if Accepts(n, step, p) || Says(n, step, p, Control(AcceptedRequest)) then Some(Accepted)
    else if Texts(n, step, p) && n.contacts[p].PendingOut? then Some(Accepted)
    else if Rejects(n, step, p) || Says(n, step, p, Control(RejectedRequest)) then Some(Blocked)
    else if Cancels(n, step, p) then Some(Removed)
    else Some(n.contacts[p])
  }

  lemma HandshakeStep(n: Node, step: Step, p: PeerId)
    requires step.Handshake?
    ensures StatusOf(Do(n, step), p) == ContactAfter(n, step, p)
    ensures p in Do(n, step).sessions <==> SessionAfter(n, step, p)
    ensures Do(n, step).events == n.events + if Surfaces(n, step, step.peer) then [RequestReceived(step.peer)] else []
  {
    EnsureSurfaces(n, step.claimed);
    EnsureSurfaces(n.(sessions := n.sessions + {step.claimed}), step.claimed);
    EnsureContacts(n, step.claimed);
    EnsureContacts(n.(sessions := n.sessions + {step.claimed}), step.claimed);
  }

  lemma TakenContacts(n: Node, e: Envelope, responds: bool)
    ensures var n' := Taken(n, e, responds);
      && n'.sessions == n.sessions && n'.queue == n.queue && n'.pushes == n.pushes && n'.peerState == n.peerState
      && n'.pendingDeletes == n.pendingDeletes && n'.nextRequest == n.nextRequest
      && n'.messages == InsertIgnore(n.messages, e.id, Message(e.sender, n.me, e.payload, Synced)).1
      && (responds && StatusOf(n, e.sender) == Some(PendingOut) ==>
            && n'.contacts == n.contacts[e.sender := Accepted]
            && n'.requests == ResolveAll(n.requests, e.sender, ByAccept))
      && (!responds || StatusOf(n, e.sender) != Some(PendingOut) ==>
            n'.contacts == n.contacts && n'.requests == n.requests)
  {
  }

  /** What a step does that brings a control which is heard. */
  lemma ControlledContacts(n: Node, step: Step, p: PeerId)
    requires step.Receive? && step.envelope.payload.Control? && Heard(n, step.peer, step.envelope, step.allowed)
    ensures var n' := HandleControl(n, step.peer, step.envelope.payload.control);
      StatusOf(n', p) == ContactAfter(n, step, p) && (p in n'.sessions <==> SessionAfter(n, step, p))
      && (p in n'.peerState <==> CachedAfter(n, step, p))
  {
  }

  lemma TextedContacts(n: Node, step: Step, p: PeerId)
    requires step.Receive? && step.envelope.payload.Text? && Heard(n, step.peer, step.envelope, step.allowed)
    ensures var n' := Taken(n, step.envelope, step.responds);
      StatusOf(n', p) == ContactAfter(n, step, p) && (p in n'.sessions <==> SessionAfter(n, step, p))
      && (p in n'.peerState <==> CachedAfter(n, step, p))
  {
    TakenContacts(n, step.envelope, step.responds);
  }

  lemma ReceiveContacts(n: Node, step: Step, p: PeerId)
    requires step.Receive?
    ensures StatusOf(Do(n, step), p) == ContactAfter(n, step, p)
    ensures p in Do(n, step).sessions <==> SessionAfter(n, step, p)
    ensures p in Do(n, step).peerState <==> CachedAfter(n, step, p)
  {
    var e := step.envelope;
    HeardOnly(n, step.peer, e, step.allowed, step.responds);
    if Heard(n, step.peer, e, step.allowed) {
      if e.payload.Text? {
        TextedContacts(n, step, p);
      } else if e.payload.Control? {
        ControlledContacts(n, step, p);
      }
    }
  }

  lemma CommandContactsAfter(n: Node, step: Step, p: PeerId)
    requires step.AcceptRequest? || step.RejectRequest? || step.CancelRequest?
    ensures StatusOf(Do(n, step), p) == ContactAfter(n, step, p)
  {
    CommandContacts(n, step.row);
  }

  lemma AskContactsAfter(n: Node, step: Step, p: PeerId)
    requires step.AskContact? || step.Delete?
    ensures StatusOf(Do(n, step), p) == ContactAfter(n, step, p)
  {
  }

  lemma ContactStep(n: Node, step: Step, p: PeerId)
    ensures StatusOf(Do(n, step), p) == ContactAfter(n, step, p)
  {
    if step.Handshake? {
      HandshakeStep(n, step, p);
    } else if step.Receive? {
      ReceiveContacts(n, step, p);
    } else if step.AcceptRequest? || step.RejectRequest? || step.CancelRequest? {
      CommandContactsAfter(n, step, p);
    } else if step.AskContact? || step.Delete? {
      AskContactsAfter(n, step, p);
    } else {
      ContactsUntouched(n, step);
    }
  }

  /** The counterpart of acceptance: who is blocked, cancelled, or new, in both directions. */
  lemma StatusChangesOnly(n: Node, step: Step, p: PeerId)
    ensures var was, now := StatusOf(n, p), StatusOf(Do(n, step), p);
      && (was != Some(Blocked) ==>
            (now == Some(Blocked) <==>
               p in n.contacts && (Rejects(n, step, p) || Says(n, step, p, Control(RejectedRequest)))))
      && (was != Some(Removed) ==> (now == Some(Removed) <==> p in n.contacts && Cancels(n, step, p)))
      && (was != Some(PendingIn) ==> (now == Some(PendingIn) <==> p !in n.contacts && Surfaces(n, step, p)))
      && (was != Some(PendingOut) ==>
            (now == Some(PendingOut) <==> p !in n.contacts && step == AskContact(p) && p != n.me))
      && (was != None ==> (now == None <==> Erases(n, step, p)))
  {
    ContactStep(n, step, p);
  }

  // ---------------------------------------------------------------- sessions

  /** A session is made by a handshake, in or out, and ended by an erasure alone. */
  predicate SessionAfter(n: Node, step: Step, p: PeerId) {
    !Erases(n, step, p) && (p in n.sessions || Greets(n, step, p) || step == HandshakeReturned(p))
  }

  lemma SessionStep(n: Node, step: Step, p: PeerId)
    ensures p in Do(n, step).sessions <==> SessionAfter(n, step, p)
  {
    if step.Handshake? {
      HandshakeStep(n, step, p);
    } else if step.Receive? {
      ReceiveContacts(n, step, p);
    } else if step.AcceptRequest? || step.RejectRequest? || step.CancelRequest? {
      CommandKeepsSessions(n, step.row);
    }
  }

  // ---------------------------------------------------------------- messages

  predicate Blocks(n: Node, peer: PeerId) {
    peer in n.contacts && n.contacts[peer].Blocked?
  }

  /** The conversation between us and `peer`, smaller id first. */
  predicate IsShared(n: Node, peer: PeerId, conv: ConversationId) {
    conv == if n.me <= peer then (n.me, peer) else (peer, n.me)
  }

  /** A text to someone else, of at most 65536 bytes, over a session. */
  predicate Sends(n: Node, step: Step) {
    step.SendMessage? && step.to != n.me && |step.text| <= 65_536 && step.to in n.sessions
  }

  /** A text heard live, or one of a page over a session. */
  predicate Brings(n: Node, step: Step) {
    || (step.Receive? && step.envelope.payload.Text? && Heard(n, step.peer, step.envelope, step.allowed))
    || (step.IngestOne? && step.envelope.payload.Text? && Fits(step.envelope) && step.envelope.sender == step.peer
        && step.peer in n.sessions)
  }

  predicate ErasesRow(n: Node, step: Step, m: Message) {
    (step.Delete? || step.Receive?) && Erases(n, step, step.peer)
    && ((m.sender == n.me && m.recipient == step.peer) || (m.sender == step.peer && m.recipient == n.me))
  }

  /** The peer confirms the row in an Ack about our conversation. */
  predicate Confirms(n: Node, step: Step, id: MessageId) {
    step.AnswerSync? && step.allowed && !Blocks(n, step.peer)
    && step.request.Ack? && IsShared(n, step.peer, step.request.conv) && id in step.request.confirmed
  }

  /** The row is ours to the peer, not above what it reported, and neither Synced nor Failed. */
  predicate Covers(n: Node, step: Step, id: MessageId) {
    step.PromoteUpTo? && id in n.messages && id <= step.upto
    && n.messages[id].sender == n.me && n.messages[id].recipient == step.peer
    && n.messages[id].status in {Sending, Sent, Delivered}
  }

  predicate Delivers(step: Step, id: MessageId) {
    (step.PushEnded? || step.DrainEnded?) && step.id == id && step.acked
  }

  function RowAfter(n: Node, step: Step, id: MessageId): Option<Message> {
    if id in n.messages then
      var m := n.messages[id];
      if ErasesRow(n, step, m) then None
      else if Delivers(step, id) then Some(m.(status := Delivered))
      else if Confirms(n, step, id) || Covers(n, step, id) then Some(m.(status := Synced))
      else Some(m)
    else if Sends(n, step) && step.id == id then Some(Message(n.me, step.to, Text(step.text), Sending))
    else if Brings(n, step) && step.envelope.id == id then Some(Message(step.peer, n.me, step.envelope.payload, Synced))
    else None
  }

  function Row(n: Node, id: MessageId): Option<Message> {
    if id in n.messages then Some(n.messages[id]) else None
  }

  lemma WipedRow(n: Node, peer: PeerId, id: MessageId)
    ensures Row(WipePeer(n, peer), id) ==
      if id in n.messages && ((n.messages[id].sender == n.me && n.messages[id].recipient == peer)
                              || (n.messages[id].sender == peer && n.messages[id].recipient == n.me)) then None
      else Row(n, id)
  {
    WipeClears(n, peer, id);
  }

  lemma ReceivedRow(n: Node, step: Step, id: MessageId)
    requires step.Receive?
    ensures Row(Do(n, step), id) == RowAfter(n, step, id)
  {
    var e := step.envelope;
    HeardOnly(n, step.peer, e, step.allowed, step.responds);
    if Heard(n, step.peer, e, step.allowed) {
      if e.payload.Text? {
        TakenContacts(n, e, step.responds);
      } else if e.payload.Control? {
        ControlledRow(n, step, id);
      }
    }
  }

  lemma ControlledRow(n: Node, step: Step, id: MessageId)
    requires step.Receive? && step.envelope.payload.Control? && Heard(n, step.peer, step.envelope, step.allowed)
    ensures Row(HandleControl(n, step.peer, step.envelope.payload.control), id) == RowAfter(n, step, id)
  {
    WipedRow(n, step.peer, id);
  }

  lemma SyncedRow(n: Node, step: Step, id: MessageId)
    requires step.AnswerSync? || step.PromoteUpTo?
    ensures Row(Do(n, step), id) == RowAfter(n, step, id)
  {
    if step.AnswerSync? && step.request.Ack? {
      AckedRows(n.messages, step.request.confirmed);
    }
  }

  lemma IngestedRow(n: Node, step: Step, id: MessageId)
    requires step.IngestOne?
    ensures Row(Do(n, step), id) == RowAfter(n, step, id)
  {
    FitsIff(step.envelope);
  }

  lemma SentRow(n: Node, step: Step, id: MessageId)
    requires step.SendMessage? || step.PushEnded? || step.DrainEnded? || step.DrainFoundNothing?
    ensures Row(Do(n, step), id) == RowAfter(n, step, id)
  {
    if step.PushEnded? || step.DrainEnded? {
      DeliveredRow(n, step, id);
    }
  }

  lemma DeliveredRow(n: Node, step: Step, id: MessageId)
    requires step.PushEnded? || step.DrainEnded?
    ensures Row(Do(n, step), id) == RowAfter(n, step, id)
  {
  }

  lemma MessageStep(n: Node, step: Step, id: MessageId)
    ensures Row(Do(n, step), id) == RowAfter(n, step, id)
  {
    if TouchesNoMessage(step) {
      MessagesUntouched(n, step);
    } else if step.Receive? {
      ReceivedRow(n, step, id);
    } else if step.Delete? {
      WipedRow(n, step.peer, id);
    } else if step.AnswerSync? || step.PromoteUpTo? {
      SyncedRow(n, step, id);
    } else if step.IngestOne? {
      IngestedRow(n, step, id);
    } else {
      SentRow(n, step, id);
    }
  }

  // ---------------------------------------------------------------- the retry queue and the pushes under way

  /** The wait before the next attempt, in milliseconds: half a minute, doubled with each failure, an hour at most. */
  function Wait(attempts: nat): int {
    match attempts
    case 0 => 30_000
    case 1 => 60_000
    case 2 => 120_000
    case 3 => 240_000
    case 4 => 480_000
    case 5 => 960_000
    case 6 => 1_920_000
    case _ => 3_600_000
  }

  lemma WaitIs(attempts: nat)
    ensures RetryDelay(attempts) == Wait(attempts)
  {
    RetryTable(attempts);
    assert Pow2(0) == 1 && Pow2(1) == 2 && Pow2(2) == 4 && Pow2(3) == 8;
    assert Pow2(4) == 16 && Pow2(5) == 32 && Pow2(6) == 64;
  }

  function Queued(n: Node, key: QueueKey): Option<QueueEntry> {
    if key in n.queue then Some(n.queue[key]) else None
  }

  function QueueAfter(n: Node, step: Step, key: QueueKey): Option<QueueEntry> {
    var was := Queued(n, key);
    if Erases(n, step, key.1) then None
    else if step.PushEnded? && (step.id, step.to) == key && !step.acked then
      Some(QueueEntry(if was.Some? then was.value.attempts else 0, step.now + 30_000))
    else if step.DrainEnded? && (step.id, step.target) == key then
      if step.acked || was.None? then None else Some(QueueEntry(step.attempts + 1, step.now + Wait(step.attempts)))
    else if step == DrainFoundNothing(key.0, key.1) && key.0 !in n.messages then None
    else if Covers(n, step, key.0) && step.peer == key.1 then None
    else was
  }

  predicate PushAfter(n: Node, step: Step, key: QueueKey) {
    || (Sends(n, step) && (step.id, step.to) == key)
    || (key in n.pushes && !(step.PushEnded? && (step.id, step.to) == key))
  }

  lemma SentQueue(n: Node, step: Step, key: QueueKey)
    requires step.SendMessage? || step.PushEnded? || step.DrainEnded? || step.DrainFoundNothing?
    ensures Queued(Do(n, step), key) == QueueAfter(n, step, key)
    ensures key in Do(n, step).pushes <==> PushAfter(n, step, key)
  {
    if step.PushEnded? {
      PushedQueue(n, step, key);
    } else if step.DrainEnded? {
      DrainedQueue(n, step, key);
    }
  }

  lemma PushedQueue(n: Node, step: Step, key: QueueKey)
    requires step.PushEnded?
    ensures Queued(Do(n, step), key) == QueueAfter(n, step, key)
    ensures key in Do(n, step).pushes <==> PushAfter(n, step, key)
  {
    WaitIs(0);
  }

  lemma DrainedQueue(n: Node, step: Step, key: QueueKey)
    requires step.DrainEnded?
    ensures Queued(Do(n, step), key) == QueueAfter(n, step, key)
    ensures key in Do(n, step).pushes <==> PushAfter(n, step, key)
  {
    WaitIs(step.attempts);
  }

  lemma SyncedQueue(n: Node, step: Step, key: QueueKey)
    requires step.AnswerSync? || step.PromoteUpTo? || step.IngestOne?
    ensures Queued(Do(n, step), key) == QueueAfter(n, step, key)
    ensures key in Do(n, step).pushes <==> PushAfter(n, step, key)
  {
    if step.PromoteUpTo? {
      var ids := Promotable(n.messages, Conv(n, step.peer), n.me, step.upto);
      assert Covers(n, step, key.0) <==> key.0 in ids;
      assert key in (set id | id in ids :: (id, step.peer)) <==> key.0 in ids && key.1 == step.peer;
    }
  }

  lemma ReceivedQueue(n: Node, step: Step, key: QueueKey)
    requires step.Receive?
    ensures Queued(Do(n, step), key) == QueueAfter(n, step, key)
    ensures key in Do(n, step).pushes <==> PushAfter(n, step, key)
  {
    var e := step.envelope;
    HeardOnly(n, step.peer, e, step.allowed, step.responds);
    if Heard(n, step.peer, e, step.allowed) {
      if e.payload.Text? {
        TakenContacts(n, e, step.responds);
      } else if e.payload.Control? {
        ControlledQueue(n, step, key);
      }
    }
  }

  lemma ControlledQueue(n: Node, step: Step, key: QueueKey)
    requires step.Receive? && step.envelope.payload.Control? && Heard(n, step.peer, step.envelope, step.allowed)
    ensures var n' := HandleControl(n, step.peer, step.envelope.payload.control);
      Queued(n', key) == QueueAfter(n, step, key) && (key in n'.pushes <==> PushAfter(n, step, key))
  {
  }

  lemma QueueStep(n: Node, step: Step, key: QueueKey)
    ensures Queued(Do(n, step), key) == QueueAfter(n, step, key)
    ensures key in Do(n, step).pushes <==> PushAfter(n, step, key)
  {
    if TouchesNoMessage(step) {
      MessagesUntouched(n, step);
    } else if step.Receive? {
      ReceivedQueue(n, step, key);
    } else if step.AnswerSync? || step.PromoteUpTo? || step.IngestOne? {
      SyncedQueue(n, step, key);
    } else if !step.Delete? {
      SentQueue(n, step, key);
    }
  }

  // ---------------------------------------------------------------- requests

  /** Some request of that direction and peer waits for an answer. */
  predicate Open(n: Node, direction: Direction, peer: PeerId) {
    exists row :: row in n.requests && n.requests[row] == Request(direction, peer, None)
  }

  function RequestAfter(n: Node, step: Step, row: nat): Option<Request> {
    if row in n.requests then
      var r := n.requests[row];
      if Erases(n, step, r.peer) then None
      else if r.resolution.Some? then Some(r)
      else if step == AcceptRequest(row) || Says(n, step, r.peer, Control(AcceptedRequest)) then
        Some(Answered(r, ByAccept))
      else if Texts(n, step, r.peer) && r.peer in n.contacts && n.contacts[r.peer].PendingOut? then
        Some(Answered(r, ByAccept))
      else if step == RejectRequest(row) || Says(n, step, r.peer, Control(RejectedRequest)) then
        Some(Answered(r, ByReject))
      else if step == CancelRequest(row) && r.direction.Outgoing? then Some(Answered(r, ByCancel))
      else Some(r)
    else if row != n.nextRequest then None
    else if step.Handshake? && Surfaces(n, step, step.peer) && !Open(n, Incoming, step.peer) then
      Some(Request(Incoming, step.peer, None))
    else if step.AskContact? && step.peer != n.me && step.peer !in n.sessions && !Open(n, Outgoing, step.peer) then
      Some(Request(Outgoing, step.peer, None))
    else None
  }

  function Answered(r: Request, resolution: Resolution): Request {
    Request(r.direction, r.peer, Some(resolution))
  }

  function RequestRow(n: Node, row: nat): Option<Request> {
    if row in n.requests then Some(n.requests[row]) else None
  }

  lemma ControlledRequest(n: Node, step: Step, row: nat)
    requires step.Receive? && step.envelope.payload.Control? && Heard(n, step.peer, step.envelope, step.allowed)
    ensures var n' := HandleControl(n, step.peer, step.envelope.payload.control);
      RequestRow(n', row) == RequestAfter(n, step, row) && n'.nextRequest == n.nextRequest
  {
  }

  lemma TextedRequest(n: Node, step: Step, row: nat)
    requires step.Receive? && step.envelope.payload.Text? && Heard(n, step.peer, step.envelope, step.allowed)
    ensures var n' := Taken(n, step.envelope, step.responds);
      RequestRow(n', row) == RequestAfter(n, step, row) && n'.nextRequest == n.nextRequest
  {
    TakenContacts(n, step.envelope, step.responds);
  }

  lemma ReceivedRequest(n: Node, step: Step, row: nat)
    requires step.Receive?
    ensures RequestRow(Do(n, step), row) == RequestAfter(n, step, row) && Do(n, step).nextRequest == n.nextRequest
  {
    var e := step.envelope;
    HeardOnly(n, step.peer, e, step.allowed, step.responds);
    if Heard(n, step.peer, e, step.allowed) {
      if e.payload.Text? {
        TextedRequest(n, step, row);
      } else if e.payload.Control? {
        ControlledRequest(n, step, row);
      }
    }
  }

  lemma HandshakeRequest(n: Node, step: Step, row: nat)
    requires step.Handshake? && n.nextRequest !in n.requests
    ensures RequestRow(Do(n, step), row) == RequestAfter(n, step, row)
  {
    var met := n.(sessions := n.sessions + {step.claimed});
    EnsuredRequest(n, step.claimed, row);
    EnsuredRequest(met, step.claimed, row);
  }

  lemma EnsuredRequest(n: Node, peer: PeerId, row: nat)
    requires n.nextRequest !in n.requests
    ensures RequestRow(EnsureIncomingRequest(n, peer), row) ==
      if row == n.nextRequest && !(peer in n.contacts && n.contacts[peer].Accepted?) && !Open(n, Incoming, peer) then
        Some(Request(Incoming, peer, None))
      else RequestRow(n, row)
  {
    EnsureSurfaces(n, peer);
    assert Open(n, Incoming, peer) <==> HasPending(n.requests, Incoming, peer);
  }

  lemma AskedRequest(n: Node, step: Step, row: nat)
    requires step.AskContact? && n.nextRequest !in n.requests
    ensures RequestRow(Do(n, step), row) == RequestAfter(n, step, row)
  {
    assert Open(n, Outgoing, step.peer) <==> HasPending(n.requests, Outgoing, step.peer);
  }

  lemma DeletedRequest(n: Node, step: Step, row: nat)
    requires step.Delete?
    ensures RequestRow(Do(n, step), row) == RequestAfter(n, step, row)
  {
  }

  lemma AcceptedRequestRow(n: Node, step: Step, row: nat)
    requires step.AcceptRequest?
    ensures RequestRow(Do(n, step), row) == RequestAfter(n, step, row)
  {
  }

  lemma RejectedRequestRow(n: Node, step: Step, row: nat)
    requires step.RejectRequest?
    ensures RequestRow(Do(n, step), row) == RequestAfter(n, step, row)
  {
  }

  lemma CancelledRequestRow(n: Node, step: Step, row: nat)
    requires step.CancelRequest?
    ensures RequestRow(Do(n, step), row) == RequestAfter(n, step, row)
  {
  }

  lemma RequestStep(n: Node, step: Step, row: nat)
    requires n.nextRequest !in n.requests
    ensures RequestRow(Do(n, step), row) == RequestAfter(n, step, row)
  {
    if TouchesNoRequest(step) {
      ContactsUntouched(n, step);
    } else if step.Receive? {
      ReceivedRequest(n, step, row);
    } else if step.Handshake? {
      HandshakeRequest(n, step, row);
    } else if step.AskContact? {
      AskedRequest(n, step, row);
    } else if step.Delete? {
      DeletedRequest(n, step, row);
    } else if step.AcceptRequest? {
      AcceptedRequestRow(n, step, row);
    } else if step.RejectRequest? {
      RejectedRequestRow(n, step, row);
    } else {
      CancelledRequestRow(n, step, row);
    }
  }

  // ---------------------------------------------------------------- queued deletion notices and the dial cache

  function Notice(n: Node, p: PeerId): Option<PendingDelete> {
    if p in n.pendingDeletes then Some(n.pendingDeletes[p]) else None
  }

  function NoticeAfter(n: Node, step: Step, p: PeerId): Option<PendingDelete> {
    var was := Notice(n, p);
    if step.Delete? && step.peer == p && p in n.sessions then
      var sealed := Envelope(step.noticeId, n.me, Control(ChatDeleted));
      Some(PendingDelete(Sealed(sealed), if was.Some? then was.value.attempts else 0, step.now))
    else if was.None? then None
    else if step.FlushEnded? && step.peer == p then
      if step.acked then None
      else Some(PendingDelete(was.value.stored, step.attempts + 1, step.now + Wait(step.attempts)))
    else if step == FlushFoundCorrupt(p) && was.value.stored.Corrupt? then None
    else was
  }

  lemma NoticeAfterStep(n: Node, step: Step, p: PeerId)
    ensures Notice(Do(n, step), p) == NoticeAfter(n, step, p)
  {
    if step.FlushEnded? {
      FlushedNotice(n, step, p);
    } else if step.Delete? {
      DeletedNotice(n, step, p);
    } else if !step.FlushFoundCorrupt? {
      NoticesUntouched(n, step);
    }
  }

  lemma FlushedNotice(n: Node, step: Step, p: PeerId)
    requires step.FlushEnded?
    ensures Notice(Do(n, step), p) == NoticeAfter(n, step, p)
  {
    WaitIs(step.attempts);
  }

  lemma DeletedNotice(n: Node, step: Step, p: PeerId)
    requires step.Delete?
    ensures Notice(Do(n, step), p) == NoticeAfter(n, step, p)
  {
  }

  /** Only contacts are cached, and only with an address. */
  predicate CachedAfter(n: Node, step: Step, p: PeerId) {
    !Erases(n, step, p) && (p in n.peerState || (step == Discover(p, true) && p in n.contacts))
  }

  lemma CacheStep(n: Node, step: Step, p: PeerId)
    ensures p in Do(n, step).peerState <==> CachedAfter(n, step, p)
  {
    if step.Receive? {
      ReceiveContacts(n, step, p);
    } else if step.Handshake? {
      EnsureCache(n, step.claimed);
      EnsureCache(n.(sessions := n.sessions + {step.claimed}), step.claimed);
    } else if step.AcceptRequest? || step.RejectRequest? || step.CancelRequest? {
      CommandCache(n, step.row);
    } else {
      OthersCache(n, step, p);
    }
  }

  lemma EnsureCache(n: Node, peer: PeerId)
    ensures EnsureIncomingRequest(n, peer).peerState == n.peerState
  {
  }

  lemma CommandCache(n: Node, row: nat)
    ensures Accept(n, row).peerState == Reject(n, row).peerState == Cancel(n, row).peerState == n.peerState
  {
  }

  lemma OthersCache(n: Node, step: Step, p: PeerId)
    requires !step.Receive? && !step.Handshake? && !step.AcceptRequest? && !step.RejectRequest? && !step.CancelRequest?
    ensures p in Do(n, step).peerState <==> CachedAfter(n, step, p)
  {
    if step.AnswerSync? || step.PromoteUpTo? || step.IngestOne? {
      SyncCache(n, step);
    } else if !step.Delete? && !step.Discover? {
      SendCache(n, step);
    }
  }

  lemma SyncCache(n: Node, step: Step)
    requires step.AnswerSync? || step.PromoteUpTo? || step.IngestOne?
    ensures Do(n, step).peerState == n.peerState
  {
  }

  lemma SendCache(n: Node, step: Step)
    requires step.SendMessage? || step.PushEnded? || step.DrainEnded? || step.DrainFoundNothing? || step.AskContact?
      || step.HandshakeReturned? || step.FlushEnded? || step.FlushFoundCorrupt?
    ensures Do(n, step).peerState == n.peerState
  {
  }

  // ---------------------------------------------------------------- what is shown

  /** The rows of `peer` that wait for an answer, in either direction. */
  function OpenRows(n: Node, peer: PeerId): set<nat> {
    set row | row in n.requests && OpenRow(n, row, peer)
  }

  /** What the step shows, in order. A change of status is shown for the row named, stored or not. */
  function Shows(n: Node, step: Step): seq<AppEvent> {
    match step
    case PushEnded(id, _, acked, _) => if acked then [StatusChanged(id, Delivered)] else []
    case DrainEnded(id, _, _, acked, _) => if acked then [StatusChanged(id, Delivered)] else []
    case PromoteUpTo(_, _, order) => seq(|order|, i requires 0 <= i < |order| => StatusChanged(order[i], Synced))
    case Handshake(p, _, _, _, _) => if Surfaces(n, step, p) then [RequestReceived(p)] else []
    case AcceptRequest(row) => Resolved(n, row, Accepts, ByAccept)
    case RejectRequest(row) => Resolved(n, row, Rejects, ByReject)
    case CancelRequest(row) => Resolved(n, row, Cancels, ByCancel)
    case Delete(p, _, _) => [ContactRemoved(p)]
    case IngestOne(p, e) => if Brings(n, step) && e.id !in n.messages then [MessageReceived(e.id, p)] else []
    case Receive(p, e, _, _) =>
      if Says(n, step, p, Control(ChatDeleted)) then [ContactRemoved(p)]
      else if Says(n, step, p, Control(AcceptedRequest)) then [RequestResolved(p, ByAccept), ContactAdded(p)]
      else if Says(n, step, p, Control(RejectedRequest)) then [RequestResolved(p, ByReject)]
      else if Texts(n, step, p) then Promotion(n, p) + if e.id !in n.messages then [MessageReceived(e.id, p)] else []
      else []
    case _ => []
  }

  /** An answered request of a contact is shown as resolved, and an accepted contact as added. */
  function Resolved(n: Node, row: nat, how: (Node, Step, PeerId) -> bool, resolution: Resolution): seq<AppEvent> {
    var step := match resolution
                case ByAccept => AcceptRequest(row)
                case ByReject => RejectRequest(row)
                case ByCancel => CancelRequest(row);
    if row !in n.requests || n.requests[row].peer !in n.contacts || !how(n, step, n.requests[row].peer) then []
    else
      [RequestResolved(n.requests[row].peer, resolution)]
      + if resolution.ByAccept? then [ContactAdded(n.requests[row].peer)] else []
  }

  /** A text of someone we asked resolves every open row and adds the contact. */
  function Promotion(n: Node, p: PeerId): seq<AppEvent> {
    if p !in n.contacts || !n.contacts[p].PendingOut? then []
    else seq(|OpenRows(n, p)|, _ => RequestResolved(p, ByAccept)) + [ContactAdded(p)]
  }

  lemma TextShows(n: Node, step: Step)
    requires step.Receive? && step.envelope.payload.Text? && Heard(n, step.peer, step.envelope, step.allowed)
    ensures Taken(n, step.envelope, step.responds).events == n.events + Shows(n, step)
  {
    var p := step.peer;
    assert PendingIds(n.requests, p) == OpenRows(n, p);
    if step.responds && p in n.contacts && n.contacts[p].PendingOut? {
      assert Repeat(RequestResolved(p, ByAccept), |OpenRows(n, p)|) + [ContactAdded(p)] == Promotion(n, p);
    }
  }

  lemma ReceiveShows(n: Node, step: Step)
    requires step.Receive?
    ensures Do(n, step).events == n.events + Shows(n, step)
  {
    var e := step.envelope;
    HeardOnly(n, step.peer, e, step.allowed, step.responds);
    if Heard(n, step.peer, e, step.allowed) {
      if e.payload.Text? {
        TextShows(n, step);
      } else if e.payload.Control? {
        ControlShows(n, step);
      }
    }
  }

  lemma ControlShows(n: Node, step: Step)
    requires step.Receive? && step.envelope.payload.Control? && Heard(n, step.peer, step.envelope, step.allowed)
    ensures HandleControl(n, step.peer, step.envelope.payload.control).events == n.events + Shows(n, step)
  {
  }

  lemma CommandShows(n: Node, step: Step)
    requires step.AcceptRequest? || step.RejectRequest? || step.CancelRequest?
    ensures Do(n, step).events == n.events + Shows(n, step)
  {
  }

  lemma IngestShows(n: Node, step: Step)
    requires step.IngestOne?
    ensures Do(n, step).events == n.events + Shows(n, step)
  {
    FitsIff(step.envelope);
  }

  lemma PromotionShows(n: Node, step: Step)
    requires step.PromoteUpTo?
    ensures Do(n, step).events == n.events + Shows(n, step)
  {
    assert StatusEvents(step.order) == Shows(n, step);
  }

  /** Everything a step shows is in the list, in that order, and nothing shown before is taken back. */
  lemma ShowStep(n: Node, step: Step)
    ensures Do(n, step).events == n.events + Shows(n, step)
  {
    if step.Receive? {
      ReceiveShows(n, step);
    } else if step.AcceptRequest? || step.RejectRequest? || step.CancelRequest? {
      CommandShows(n, step);
    } else if step.Handshake? {
      HandshakeStep(n, step, step.peer);
    } else if step.IngestOne? {
      IngestShows(n, step);
    } else if step.PromoteUpTo? {
      PromotionShows(n, step);
    } else {
      OthersShow(n, step);
    }
  }

  lemma OthersShow(n: Node, step: Step)
    requires !step.Receive? && !step.AcceptRequest? && !step.RejectRequest? && !step.CancelRequest? && !step.Handshake?
    requires !step.IngestOne? && !step.PromoteUpTo?
    ensures Do(n, step).events == n.events + Shows(n, step)
  {
    if !step.PushEnded? && !step.DrainEnded? && !step.Delete? {
      NothingShown(n, step);
    }
  }

  lemma NothingShown(n: Node, step: Step)
    requires step.SendMessage? || step.DrainFoundNothing? || step.AnswerSync? || step.AskContact?
      || step.HandshakeReturned? || step.FlushEnded? || step.FlushFoundCorrupt? || step.Discover?
    ensures Do(n, step).events == n.events
  {
  }

  // ---------------------------------------------------------------- what is answered

  /** A message reaches the block test: every gate before it let it through. */
  predicate Reaches(n: Node, from: PeerId, e: Envelope, allowed: bool) {
    allowed && Fits(e) && e.sender == from && from in n.sessions
  }

  /**
   * A message is acknowledged if it was handled, or dropped because of a block, which the answer does not tell apart;
   * it is refused at the gates; and there is no answer to what does not open, or when the network does not take one.
   */
  lemma Acknowledged(n: Node, from: PeerId, e: Envelope, allowed: bool, responds: bool)
    ensures var answer := HandleMsg(n, from, e, allowed, responds).1;
      && (answer == Some(false) <==> !Reaches(n, from, e, allowed))
      && (answer == Some(true) <==>
            Reaches(n, from, e, allowed)
            && (Blocks(n, from) || e.payload.Control? || (e.payload.Text? && responds)))
  {
    FitsIff(e);
  }

  /** A send is taken exactly of a text of at most 65536 bytes, to someone else, with a session. */
  lemma SendSucceedsIff(n: Node, to: PeerId, text: string, id: MessageId)
    ensures Send(n, to, text, id).Some? <==> to != n.me && |text| <= 65_536 && to in n.sessions
  {
  }

  /** An answer without a digest or an envelope, of the kind the request asks for. */
  predicate TellsNothing(request: SyncReq, answer: SyncResp) {
    match request
    case Header(_) => answer == HeaderAck([])
    case Pull(_, _, _) => answer == PullPage([], false)
    case Ack(_, _) => answer == AckDone
  }

  /** A node refuses a sync request over the limit, or of someone it blocks. */
  predicate Refuses(n: Node, from: PeerId, allowed: bool) {
    !allowed || Blocks(n, from)
  }

  /**
   * Whoever is refused learns nothing: whatever two nodes hold, and whether it is the limit or the block, they answer
   * alike, with no digest and no envelope; and the request changes nothing.
   */
  lemma RefusedLearnsNothing(n: Node, m: Node, from: PeerId, request: SyncReq, allowed: bool, allowedThere: bool)
    requires Refuses(n, from, allowed) && Refuses(m, from, allowedThere)
    ensures HandleSync(n, from, request, allowed).1 == HandleSync(m, from, request, allowedThere).1
    ensures TellsNothing(request, HandleSync(n, from, request, allowed).1)
    ensures HandleSync(n, from, request, allowed).0 == n
  {
  }

  /** An own row of the conversation with `peer` above the mark. */
  predicate OwnAbove(n: Node, peer: PeerId, since: Option<MessageId>, id: MessageId) {
    id in n.messages && n.messages[id].sender == n.me && n.messages[id].recipient == peer
    && (since.Some? ==> id > since.value)
  }

  /** The envelopes are own rows above the mark, ascending, at most `limit`, and none left out below the last. */
  ghost predicate IsPage(n: Node, peer: PeerId, since: Option<MessageId>, limit: nat, page: seq<Envelope>) {
    && |page| <= limit
    && (forall i, j :: 0 <= i < j < |page| ==> page[i].id < page[j].id)
    && (forall i :: 0 <= i < |page| ==>
          OwnAbove(n, peer, since, page[i].id)
          && page[i] == Envelope(page[i].id, n.me, n.messages[page[i].id].payload))
    && forall id :: OwnAbove(n, peer, since, id) && (forall i :: 0 <= i < |page| ==> page[i].id != id) ==>
         |page| == limit && forall i :: 0 <= i < |page| ==> page[i].id < id
  }

  /** A Pull that is not refused is answered with a page of our own conversation with the asker, and of no other. */
  lemma PullAnswer(n: Node, from: PeerId, conv: ConversationId, since: Option<MessageId>, limit: nat)
    requires !Refuses(n, from, true)
    ensures var answer := HandleSync(n, from, Pull(conv, since, limit), true).1;
      && answer.PullPage?
      && (!IsShared(n, from, conv) ==> answer == PullPage([], false))
      && (IsShared(n, from, conv) ==>
            IsPage(n, from, since, limit, answer.envelopes) && (answer.hasMore <==> |answer.envelopes| == limit))
  {
    if IsShared(n, from, conv) {
      PageIsPage(n, from, since, limit);
    }
  }

  lemma LeftOutIsAbove(n: Node, from: PeerId, since: Option<MessageId>, id: MessageId, all: seq<MessageId>, k: nat)
    requires all == Sorted(Above(Outbound(n.messages, Conv(n, from), n.me), since)) && k <= |all|
    requires OwnAbove(n, from, since, id) && forall i :: 0 <= i < k ==> all[i] != id
    ensures k < |all| && forall i :: 0 <= i < k ==> all[i] < id
  {
    assert id in all;
    var j :| 0 <= j < |all| && all[j] == id;
    assert j >= k;
  }

  lemma PageIsPage(n: Node, from: PeerId, since: Option<MessageId>, limit: nat)
    ensures var answer := PageOf(n.messages, Conv(n, from), n.me, since, limit);
      IsPage(n, from, since, limit, answer.envelopes) && (answer.hasMore <==> |answer.envelopes| == limit)
  {
    var all := Sorted(Above(Outbound(n.messages, Conv(n, from), n.me), since));
    var page := PageOf(n.messages, Conv(n, from), n.me, since, limit).envelopes;
    assert |page| == |Take(all, limit)| && forall i :: 0 <= i < |page| ==> page[i].id == all[i];
    forall i | 0 <= i < |page| ensures OwnAbove(n, from, since, page[i].id) {
      assert all[i] in all;
    }
    forall id | OwnAbove(n, from, since, id) && (forall i :: 0 <= i < |page| ==> page[i].id != id)
      ensures |page| == limit && forall i :: 0 <= i < |page| ==> page[i].id < id
    {
      LeftOutIsAbove(n, from, since, id, all, |page|);
    }
  }

  predicate Passed(n: Node, sender: PeerId, recipient: PeerId, id: MessageId) {
    id in n.messages && n.messages[id].sender == sender && n.messages[id].recipient == recipient
  }

  /** `top` is the largest id of a row from one side to the other, if there is any. */
  ghost predicate IsMark(n: Node, sender: PeerId, recipient: PeerId, top: Option<MessageId>) {
    match top
    case None => forall id :: !Passed(n, sender, recipient, id)
    case Some(t) =>
      Passed(n, sender, recipient, t) && forall id: MessageId :: Passed(n, sender, recipient, id) ==> id <= t
  }

  /** How many of the digests are about our conversation with the asker. */
  function SharedCount(n: Node, from: PeerId, asked: seq<Digest>): nat {
    if asked == [] then 0
    else SharedCount(n, from, asked[..|asked| - 1]) + if IsShared(n, from, asked[|asked| - 1].conv) then 1 else 0
  }

  /** A Header that is not refused is answered with our marks, once for each digest about the shared conversation. */
  lemma HeaderAnswer(n: Node, from: PeerId, asked: seq<Digest>)
    requires !Refuses(n, from, true) && from != n.me
    ensures var answer := HandleSync(n, from, Header(asked), true).1;
      && answer.HeaderAck? && |answer.ours| == SharedCount(n, from, asked)
      && forall d :: d in answer.ours ==>
           && IsShared(n, from, d.conv)
           && IsMark(n, n.me, from, d.highestOutbound) && IsMark(n, from, n.me, d.highestInbound)
  {
    MarksOf(n, from);
    DigestsOf(n, from, asked);
  }

  lemma MarksOf(n: Node, from: PeerId)
    requires from != n.me
    ensures IsMark(n, n.me, from, OwnDigest(n, from).highestOutbound)
    ensures IsMark(n, from, n.me, OwnDigest(n, from).highestInbound)
  {
    assert forall id :: id in Outbound(n.messages, Conv(n, from), n.me) <==> Passed(n, n.me, from, id);
    assert forall id :: id in Inbound(n.messages, Conv(n, from), n.me) <==> Passed(n, from, n.me, id);
  }

  lemma {:induction false} DigestsOf(n: Node, from: PeerId, asked: seq<Digest>)
    ensures var ours := AnswerDigests(n, from, asked);
      |ours| == SharedCount(n, from, asked) && forall d :: d in ours ==> d == OwnDigest(n, from)
    decreases |asked|
  {
    if asked != [] {
      DigestsOf(n, from, asked[..|asked| - 1]);
    }
  }

  /**
   * A heard acceptance or rejection settles every open request of its sender, in both directions, and no other; sets
   * the sender's contact if there is one, and no other; is shown; and is acknowledged.
   */
  lemma AnswerArrives(n: Node, from: PeerId, e: Envelope, allowed: bool, responds: bool)
    requires Heard(n, from, e, allowed) && e.payload in {Control(AcceptedRequest), Control(RejectedRequest)}
    ensures var (n', answer) := HandleMsg(n, from, e, allowed, responds);
      var accepted := e.payload == Control(AcceptedRequest);
      && answer == Some(true)
      && SettledFor(n, n', from, if accepted then ByAccept else ByReject)
      && (from in n.contacts ==> n'.contacts == n.contacts[from := if accepted then Accepted else Blocked])
      && (from !in n.contacts ==> n'.contacts == n.contacts)
      && n'.events == n.events + if accepted then [RequestResolved(from, ByAccept), ContactAdded(from)]
                                 else [RequestResolved(from, ByReject)]
  {
    var step := Receive(from, e, allowed, responds);
    FitsIff(e);
    ReceiveShows(n, step);
    ControlSettles(n, from, e.payload.control);
  }

  // ---------------------------------------------------------------- in every run

  /** The other party of a stored row has a session. */
  ghost predicate PartyAt(n: Node, id: MessageId) {
    id in n.messages ==>
      var m := n.messages[id];
      (m.sender == n.me && m.recipient in n.sessions) || (m.recipient == n.me && m.sender in n.sessions)
  }

  lemma PartyStep(n: Node, step: Step, id: MessageId)
    requires PartyAt(n, id)
    ensures PartyAt(Do(n, step), id)
  {
    MessageStep(n, step, id);
    RowStep(n, step, id);
    if id in Do(n, step).messages {
      var m := Do(n, step).messages[id];
      SessionStep(n, step, m.recipient);
      SessionStep(n, step, m.sender);
    }
  }

  /** In every run, nothing is stored, written or received, of anyone without a session. */
  lemma {:induction false} RowsHaveSessions(me: PeerId, steps: seq<Step>, id: MessageId)
    ensures PartyAt(After(me, steps).node, id)
    decreases |steps|
  {
    if steps != [] {
      RowsHaveSessions(me, steps[..|steps| - 1], id);
      PartyStep(After(me, steps[..|steps| - 1]).node, steps[|steps| - 1], id);
    }
  }
}
