/** One node against arbitrary peers: what every run of its handlers keeps. */
module NodeRuns {
  import opened Types
  import opened Ordering
  import opened Storage
  import opened Node

  /** One handler or command; every answer and every inbound value is whatever the network likes. */
  datatype Step =
    | SendMessage(to: PeerId, text: string, id: MessageId)
    | PushEnded(id: MessageId, to: PeerId, acked: bool, now: int)
    | DrainEnded(id: MessageId, target: PeerId, attempts: nat, acked: bool, now: int)
    | DrainFoundNothing(id: MessageId, target: PeerId)
    | Receive(peer: PeerId, envelope: Envelope, allowed: bool, responds: bool)
    | AnswerSync(peer: PeerId, request: SyncReq, allowed: bool)
    | PromoteUpTo(peer: PeerId, upto: MessageId, order: seq<MessageId>)
    | IngestOne(peer: PeerId, envelope: Envelope)
    | Handshake(peer: PeerId, claimed: PeerId, allowed: bool, valid: bool, responds: bool)
    | AskContact(peer: PeerId)
    | HandshakeReturned(peer: PeerId)
    | AcceptRequest(row: nat)
    | RejectRequest(row: nat)
    | CancelRequest(row: nat)
    | Delete(peer: PeerId, noticeId: MessageId, now: int)
    | FlushEnded(peer: PeerId, attempts: nat, acked: bool, now: int)
    | FlushFoundCorrupt(peer: PeerId)
    | Discover(peer: PeerId, hasAddresses: bool)

  function Do(n: Node, step: Step): Node {
    match step
    case SendMessage(to, text, id) => (match Send(n, to, text, id) case Some(sent) => sent case None => n)
    case PushEnded(id, to, acked, now) => PushDone(n, id, to, acked, now)
    case DrainEnded(id, target, attempts, acked, now) => DrainDone(n, id, target, attempts, acked, now)
    case DrainFoundNothing(id, target) => DrainOrphan(n, id, target)
    case Receive(peer, envelope, allowed, responds) => HandleMsg(n, peer, envelope, allowed, responds).0
    case AnswerSync(peer, request, allowed) => HandleSync(n, peer, request, allowed).0
    case PromoteUpTo(peer, upto, order) => Promote(n, peer, upto, order)
    case IngestOne(peer, envelope) => Ingest(n, peer, envelope).0
    case Handshake(peer, claimed, allowed, valid, responds) =>
      HandleHandshake(n, peer, claimed, allowed, valid, responds)
    case AskContact(peer) => RequestContact(n, peer)
    case HandshakeReturned(peer) => HandshakeDone(n, peer)
    case AcceptRequest(row) => Accept(n, row)
    case RejectRequest(row) => Reject(n, row)
    case CancelRequest(row) => Cancel(n, row)
    case Delete(peer, noticeId, now) => DeleteContact(n, peer, noticeId, now)
    case FlushEnded(peer, attempts, acked, now) => FlushDone(n, peer, attempts, acked, now)
    case FlushFoundCorrupt(peer) => FlushCorrupt(n, peer)
    case Discover(peer, hasAddresses) => Discovered(n, peer, hasAddresses)
  }

  /** The node, the ids it has ever issued, and the rows it stored without being able to answer. */
  datatype State = State(node: Node, issued: set<MessageId>, silent: set<MessageId>)

  /** Ids are unique when issued, and no node is its own peer. */
  predicate Enabled(s: State, step: Step) {
    match step
    case SendMessage(to, _, id) => id !in s.issued && id !in s.node.messages
    case Receive(peer, _, _, _) => peer != s.node.me
    case IngestOne(peer, _) => peer != s.node.me
    case _ => true
  }

  /** The id a receipt stores without announcing it, because its answer could not be handed to the network. */
  function Silenced(n: Node, step: Step): set<MessageId> {
    match step
    case Receive(peer, e, allowed, responds) =>
      if !responds && e.id !in n.messages && e.id in HandleMsg(n, peer, e, allowed, responds).0.messages then {e.id}
      else {}
    case _ => {}
  }

  function Apply(s: State, step: Step): State {
    var node := Do(s.node, step);
    State(node, if step.SendMessage? then s.issued + {step.id} else s.issued,
      set id | id in s.silent + Silenced(s.node, step) && id in node.messages)
  }

  function After(me: PeerId, steps: seq<Step>): State {
    if steps == [] then State(Fresh(me), {}, {}) else Apply(After(me, steps[..|steps| - 1]), steps[|steps| - 1])
  }

  ghost predicate IsRun(me: PeerId, steps: seq<Step>) {
    forall i :: 0 <= i < |steps| ==> Enabled(After(me, steps[..i]), steps[i])
  }

  lemma RunPrefix(me: PeerId, steps: seq<Step>)
    requires IsRun(me, steps) && steps != []
    ensures IsRun(me, steps[..|steps| - 1]) && Enabled(After(me, steps[..|steps| - 1]), steps[|steps| - 1])
  {
    var before := steps[..|steps| - 1];
    forall i | 0 <= i < |before| ensures Enabled(After(me, before[..i]), before[i]) {
      assert before[..i] == steps[..i];
    }
  }

  // ---------------------------------------------------------------- the outbox loses nothing

  predicate Own(n: Node, id: MessageId) {
    id in n.messages && n.messages[id].sender == n.me
  }

  predicate Waiting(n: Node, id: MessageId) {
    Own(n, id) && n.messages[id].status == Sending
  }

  /** An own row is on its way, delivered or synced; one on its way is queued or being pushed. */
  ghost predicate OutboxAt(n: Node, id: MessageId) {
    Own(n, id) ==>
      && n.messages[id].status in {Sending, Delivered, Synced}
      && (Waiting(n, id) ==> (id, n.messages[id].recipient) in n.queue || (id, n.messages[id].recipient) in n.pushes)
  }

  /** What one step may do to row `id`: the outbox keeps its promise, and only a send starts a wait. */
  ghost predicate OutboxKept(n: Node, n': Node, step: Step, id: MessageId) {
    && n'.me == n.me
    && (OutboxAt(n, id) ==> OutboxAt(n', id))
    && (Waiting(n', id) ==> Waiting(n, id) || (step.SendMessage? && step.id == id))
    && (Own(n', id) ==> Own(n, id) || (step.SendMessage? && step.id == id))
  }

  predicate TouchesNoMessage(step: Step) {
    step.Handshake? || step.AskContact? || step.HandshakeReturned?
    || step.AcceptRequest? || step.RejectRequest? || step.CancelRequest?
    || step.FlushEnded? || step.FlushFoundCorrupt? || step.Discover?
  }

  /** The parts of a node the contact and request handlers leave alone. */
  ghost predicate SameOutbox(n: Node, n': Node) {
    n'.me == n.me && n'.messages == n.messages && n'.queue == n.queue && n'.pushes == n.pushes
  }

  lemma HandshakeKeepsOutbox(n: Node, peer: PeerId, claimed: PeerId, allowed: bool, valid: bool, responds: bool)
    ensures SameOutbox(n, HandleHandshake(n, peer, claimed, allowed, valid, responds))
  {
    assert SameOutbox(n, EnsureIncomingRequest(n, claimed));
    var n1 := n.(sessions := n.sessions + {claimed});
    assert SameOutbox(n1, EnsureIncomingRequest(n1, claimed));
  }

  lemma CommandKeepsOutbox(n: Node, step: Step)
    requires step.AcceptRequest? || step.RejectRequest? || step.CancelRequest?
    ensures SameOutbox(n, Do(n, step))
  {
    match step
    case AcceptRequest(row) => assert SameOutbox(n, Accept(n, row));
    case RejectRequest(row) => assert SameOutbox(n, Reject(n, row));
    case CancelRequest(row) => assert SameOutbox(n, Cancel(n, row));
  }

  lemma AskKeepsOutbox(n: Node, step: Step)
    requires TouchesNoMessage(step)
    requires !step.Handshake? && !step.AcceptRequest? && !step.RejectRequest? && !step.CancelRequest?
    ensures SameOutbox(n, Do(n, step))
  {
  }

  lemma MessagesUntouched(n: Node, step: Step)
    requires TouchesNoMessage(step)
    ensures SameOutbox(n, Do(n, step))
  {
    if step.AcceptRequest? || step.RejectRequest? || step.CancelRequest? {
      CommandKeepsOutbox(n, step);
    } else if step.Handshake? {
      HandshakeKeepsOutbox(n, step.peer, step.claimed, step.allowed, step.valid, step.responds);
    } else {
      AskKeepsOutbox(n, step);
    }
  }

  lemma OutboxOnSend(s: State, step: Step, id: MessageId)
    requires Enabled(s, step)
    requires step.SendMessage? || step.PushEnded? || step.DrainEnded? || step.DrainFoundNothing?
    ensures OutboxKept(s.node, Do(s.node, step), step, id)
  {
  }

  lemma WipeClears(n: Node, peer: PeerId, id: MessageId)
    ensures id in WipePeer(n, peer).messages <==> id in n.messages && ConversationOf(n.messages[id]) != Conv(n, peer)
    ensures id in WipePeer(n, peer).messages ==> WipePeer(n, peer).messages[id] == n.messages[id]
  {
  }

  /** A wipe spares everything about other peers, and the queued notices of all of them. */
  lemma WipeSparesOthers(n: Node, peer: PeerId, other: PeerId)
    requires other != peer
    ensures var n' := WipePeer(n, peer);
      && StatusOf(n', other) == StatusOf(n, other)
      && (other in n'.sessions <==> other in n.sessions) && (other in n'.peerState <==> other in n.peerState)
      && (forall id :: id in n.messages && ConversationOf(n.messages[id]) == Conv(n, other) ==>
          id in n'.messages && n'.messages[id] == n.messages[id])
      && (forall k :: k in n.queue && k.1 == other ==> k in n'.queue && n'.queue[k] == n.queue[k])
      && (forall id :: id in n.requests && n.requests[id].peer == other ==>
          id in n'.requests && n'.requests[id] == n.requests[id])
      && n'.pendingDeletes == n.pendingDeletes && n'.pushes == n.pushes
  {
    assert Conv(n, other) != Conv(n, peer);
  }

  lemma OutboxOnWipe(n: Node, peer: PeerId, id: MessageId)
    requires OutboxAt(n, id)
    ensures OutboxAt(WipePeer(n, peer), id)
  {
    WipeClears(n, peer, id);
  }

  lemma OutboxOnText(n: Node, step: Step, id: MessageId)
    requires step.Receive? && step.peer != n.me && step.envelope.payload.Text?
    ensures OutboxKept(n, Do(n, step), step, id)
  {
    var stored := StoreReceived(n, step.envelope).1;
    assert SameOutbox(stored, AutoPromote(stored, step.peer));
  }

  lemma OutboxOnControl(n: Node, step: Step, id: MessageId)
    requires step.Receive? && !step.envelope.payload.Text?
    ensures OutboxKept(n, Do(n, step), step, id)
  {
    if step.envelope.payload.Control? {
      if step.envelope.payload.control.ChatDeleted? {
        WipeClears(n, step.peer, id);
        if OutboxAt(n, id) {
          OutboxOnWipe(n, step.peer, id);
        }
      } else {
        assert SameOutbox(n, HandleControl(n, step.peer, step.envelope.payload.control));
      }
    }
  }

  lemma OutboxOnSync(s: State, step: Step, id: MessageId)
    requires Enabled(s, step) && (step.AnswerSync? || step.PromoteUpTo? || step.IngestOne?)
    ensures OutboxKept(s.node, Do(s.node, step), step, id)
  {
    if step.AnswerSync? && step.request.Ack? {
      AckedRows(s.node.messages, step.request.confirmed);
    }
  }

  lemma OutboxStep(s: State, step: Step, id: MessageId)
    requires Enabled(s, step)
    ensures OutboxKept(s.node, Do(s.node, step), step, id)
  {
    if TouchesNoMessage(step) {
      MessagesUntouched(s.node, step);
    } else {
      match step
      case SendMessage(_, _, _) => OutboxOnSend(s, step, id);
      case PushEnded(_, _, _, _) => OutboxOnSend(s, step, id);
      case DrainEnded(_, _, _, _, _) => OutboxOnSend(s, step, id);
      case DrainFoundNothing(_, _) => OutboxOnSend(s, step, id);
      case Receive(_, e, _, _) =>
        if e.payload.Text? {
          OutboxOnText(s.node, step, id);
        } else {
          OutboxOnControl(s.node, step, id);
        }
      case Delete(peer, _, _) =>
        WipeClears(s.node, peer, id);
        if OutboxAt(s.node, id) {
          OutboxOnWipe(s.node, peer, id);
        }
      case _ => OutboxOnSync(s, step, id);
    }
  }

  ghost predicate OutboxInvariant(s: State) {
    forall id :: OutboxAt(s.node, id) && (Own(s.node, id) ==> id in s.issued)
  }

  /**
   * In every run, whatever the peers do, an own row that is still waiting has a queue row or a push under way, and own
   * rows are only ever waiting, delivered or synced.
   */
  lemma {:induction false} OutboxLosesNothing(me: PeerId, steps: seq<Step>)
    requires IsRun(me, steps)
    ensures OutboxInvariant(After(me, steps))
    decreases |steps|
  {
    if steps != [] {
      RunPrefix(me, steps);
      var before, step := steps[..|steps| - 1], steps[|steps| - 1];
      OutboxLosesNothing(me, before);
      var s := After(me, before);
      forall id ensures OutboxAt(Do(s.node, step), id) && (Own(Do(s.node, step), id) ==> id in Apply(s, step).issued) {
        OutboxStep(s, step, id);
        assert OutboxAt(s.node, id);
      }
    }
  }

  /** Once an own row stopped waiting, it never waits again, even if it is wiped. */
  lemma {:induction false} NeverWaitsAgain(me: PeerId, steps: seq<Step>, i: nat, id: MessageId)
    requires IsRun(me, steps) && i <= |steps|
    requires id in After(me, steps[..i]).issued && !Waiting(After(me, steps[..i]).node, id)
    ensures id in After(me, steps).issued && !Waiting(After(me, steps).node, id)
    decreases |steps|
  {
    if i < |steps| {
      RunPrefix(me, steps);
      var before, step := steps[..|steps| - 1], steps[|steps| - 1];
      assert before[..i] == steps[..i];
      NeverWaitsAgain(me, before, i, id);
      OutboxStep(After(me, before), step, id);
    } else {
      assert steps[..i] == steps;
    }
  }

  // ---------------------------------------------------------------- a message is shown once

  /** How often message `id` from `peer` was announced since the contact was last removed. */
  function Shown(events: seq<AppEvent>, id: MessageId, peer: PeerId): nat {
    if events == [] then 0
    else
      var before, last := Shown(events[..|events| - 1], id, peer), events[|events| - 1];
      if last == MessageReceived(id, peer) then before + 1 else if last == ContactRemoved(peer) then 0 else before
  }

  predicate Concerns(e: AppEvent, id: MessageId, peer: PeerId) {
    e == MessageReceived(id, peer) || e == ContactRemoved(peer)
  }

  lemma ShownOne(events: seq<AppEvent>, e: AppEvent, id: MessageId, peer: PeerId)
    ensures Shown(events + [e], id, peer) ==
      if e == MessageReceived(id, peer) then Shown(events, id, peer) + 1
      else if e == ContactRemoved(peer) then 0 else Shown(events, id, peer)
  {
    assert (events + [e])[..|events + [e]| - 1] == events;
  }

  lemma {:induction false} ShownOthers(events: seq<AppEvent>, more: seq<AppEvent>, id: MessageId, peer: PeerId)
    requires forall i :: 0 <= i < |more| ==> !Concerns(more[i], id, peer)
    ensures Shown(events + more, id, peer) == Shown(events, id, peer)
    decreases |more|
  {
    if more == [] {
      assert events + more == events;
    } else {
      var shorter, last := more[..|more| - 1], more[|more| - 1];
      ShownOthers(events, shorter, id, peer);
      ShownOne(events + shorter, last, id, peer);
      assert events + more == events + shorter + [last];
    }
  }

  /** A stored row is ours to someone else, or someone else's to us. */
  ghost predicate Addressed(n: Node, id: MessageId) {
    id in n.messages ==> (n.messages[id].sender == n.me) != (n.messages[id].recipient == n.me)
  }

  /** The announcements of `id` from `peer`, as the table tells them. */
  function Expected(s: State, id: MessageId, peer: PeerId): nat {
    if id in s.node.messages && s.node.messages[id].sender == peer && id !in s.silent then 1 else 0
  }

  ghost predicate ReceiptAt(s: State, id: MessageId, peer: PeerId) {
    && Addressed(s.node, id)
    && (id in s.silent ==> id in s.node.messages)
    && (peer != s.node.me ==> Shown(s.node.events, id, peer) == Expected(s, id, peer))
  }

  /** The step said nothing about message `id` of `peer`. */
  ghost predicate Unannounced(n: Node, n': Node, id: MessageId, peer: PeerId) {
    Shown(n'.events, id, peer) == Shown(n.events, id, peer)
  }

  /** Row `id` is the same but for its status. */
  ghost predicate SameRow(n: Node, n': Node, id: MessageId) {
    && (id in n'.messages <==> id in n.messages)
    && (id in n.messages ==> n'.messages[id] == n.messages[id].(status := n'.messages[id].status))
  }

  lemma ReceiptOnWipe(n: Node, other: PeerId, id: MessageId, peer: PeerId)
    requires Addressed(n, id) && peer != n.me
    ensures var n' := Emit(WipePeer(n, other), ContactRemoved(other));
      && Addressed(n', id)
      && (other == peer ==> Shown(n'.events, id, peer) == 0 && (id in n'.messages ==> n'.messages[id].sender != peer))
      && (other != peer ==>
          Unannounced(n, n', id, peer) && (id in n.messages && n.messages[id].sender == peer ==> SameRow(n, n', id)))
      && (id in n'.messages ==> id in n.messages && n'.messages[id] == n.messages[id])
  {
    WipeClears(n, other, id);
    ShownOne(n.events, ContactRemoved(other), id, peer);
  }

  /** Nothing about `id` changed but its status, and nothing was said about it. */
  ghost predicate Unmoved(s: State, step: Step, id: MessageId, peer: PeerId) {
    var n' := Do(s.node, step);
    n'.me == s.node.me && SameRow(s.node, n', id) && Unannounced(s.node, n', id, peer) && id !in Silenced(s.node, step)
  }

  lemma UnmovedKeeps(s: State, step: Step, id: MessageId, peer: PeerId)
    requires ReceiptAt(s, id, peer) && Unmoved(s, step, id, peer)
    ensures ReceiptAt(Apply(s, step), id, peer)
  {
  }

  predicate Harmless(e: AppEvent) {
    !e.MessageReceived? && !e.ContactRemoved?
  }

  /** Only events that neither announce a message nor remove a contact were added. */
  ghost predicate Updates(before: seq<AppEvent>, after: seq<AppEvent>) {
    before <= after && forall i :: |before| <= i < |after| ==> Harmless(after[i])
  }

  lemma UpdatesSilent(before: seq<AppEvent>, after: seq<AppEvent>, id: MessageId, peer: PeerId)
    requires Updates(before, after)
    ensures Shown(after, id, peer) == Shown(before, id, peer)
  {
    var more := after[|before|..];
    assert after == before + more;
    ShownOthers(before, more, id, peer);
  }

  lemma HandshakeUpdates(n: Node, peer: PeerId, claimed: PeerId, allowed: bool, valid: bool, responds: bool)
    ensures Updates(n.events, HandleHandshake(n, peer, claimed, allowed, valid, responds).events)
  {
    EnsureUpdates(n, claimed);
    EnsureUpdates(n.(sessions := n.sessions + {claimed}), claimed);
  }

  lemma EnsureUpdates(n: Node, peer: PeerId)
    ensures Updates(n.events, EnsureIncomingRequest(n, peer).events)
  {
  }

  lemma AskUpdates(n: Node, step: Step)
    requires TouchesNoMessage(step)
    requires !step.Handshake? && !step.AcceptRequest? && !step.RejectRequest? && !step.CancelRequest?
    ensures Do(n, step).events == n.events
  {
  }

  lemma CommandUpdates(n: Node, row: nat)
    ensures Updates(n.events, Accept(n, row).events)
    ensures Updates(n.events, Reject(n, row).events) && Updates(n.events, Cancel(n, row).events)
  {
  }

  /** The handlers that never touch a message row announce none either. */
  lemma ContactStepsUpdate(n: Node, step: Step)
    requires TouchesNoMessage(step)
    ensures Updates(n.events, Do(n, step).events)
  {
    if step.Handshake? {
      HandshakeUpdates(n, step.peer, step.claimed, step.allowed, step.valid, step.responds);
    } else if step.AcceptRequest? || step.RejectRequest? || step.CancelRequest? {
      CommandUpdates(n, step.row);
    } else {
      AskUpdates(n, step);
    }
  }

  lemma ReceiptOnOthers(s: State, step: Step, id: MessageId, peer: PeerId)
    requires TouchesNoMessage(step) && ReceiptAt(s, id, peer)
    ensures ReceiptAt(Apply(s, step), id, peer)
  {
    MessagesUntouched(s.node, step);
    ContactStepsUpdate(s.node, step);
    UpdatesSilent(s.node.events, Do(s.node, step).events, id, peer);
    UnmovedKeeps(s, step, id, peer);
  }

  lemma ReceiptOnSend(s: State, step: Step, id: MessageId, peer: PeerId)
    requires Enabled(s, step) && ReceiptAt(s, id, peer) && step.SendMessage?
    ensures ReceiptAt(Apply(s, step), id, peer)
  {
    if step.id != id {
      UnmovedKeeps(s, step, id, peer);
    }
  }

  ghost predicate OnlyUpdates(n: Node, n': Node, row: MessageId) {
    n'.me == n.me && SameRow(n, n', row) && Updates(n.events, n'.events)
  }

  lemma DeliveryUpdates(n: Node, step: Step, row: MessageId)
    requires step.PushEnded? || step.DrainEnded? || step.DrainFoundNothing?
    ensures OnlyUpdates(n, Do(n, step), row)
  {
    match step
    case PushEnded(id, to, acked, now) => assert OnlyUpdates(n, PushDone(n, id, to, acked, now), row);
    case DrainEnded(id, target, attempts, acked, now) =>
      assert OnlyUpdates(n, DrainDone(n, id, target, attempts, acked, now), row);
    case DrainFoundNothing(id, target) => assert OnlyUpdates(n, DrainOrphan(n, id, target), row);
  }

  lemma ReceiptOnDelivery(s: State, step: Step, id: MessageId, peer: PeerId)
    requires ReceiptAt(s, id, peer) && (step.PushEnded? || step.DrainEnded? || step.DrainFoundNothing?)
    ensures ReceiptAt(Apply(s, step), id, peer)
  {
    DeliveryUpdates(s.node, step, id);
    UpdatesSilent(s.node.events, Do(s.node, step).events, id, peer);
    UnmovedKeeps(s, step, id, peer);
  }

  lemma ReceiptOnSync(s: State, step: Step, id: MessageId, peer: PeerId)
    requires Enabled(s, step) && ReceiptAt(s, id, peer) && (step.AnswerSync? || step.PromoteUpTo?)
    ensures ReceiptAt(Apply(s, step), id, peer)
  {
    if step.AnswerSync? && step.request.Ack? {
      AckedRows(s.node.messages, step.request.confirmed);
    }
    assert Updates(s.node.events, Do(s.node, step).events);
    UpdatesSilent(s.node.events, Do(s.node, step).events, id, peer);
    UnmovedKeeps(s, step, id, peer);
  }

  lemma ReceiptOnInsert(s: State, step: Step, id: MessageId, peer: PeerId)
    requires Enabled(s, step) && ReceiptAt(s, id, peer) && step.IngestOne?
      && Ingest(s.node, step.peer, step.envelope).1.Inserted?
    ensures ReceiptAt(Apply(s, step), id, peer)
  {
    ShownOne(s.node.events, MessageReceived(step.envelope.id, step.peer), id, peer);
  }

  /** A row of a page is stored and announced, or changes nothing. */
  lemma ReceiptOnIngest(s: State, step: Step, id: MessageId, peer: PeerId)
    requires Enabled(s, step) && ReceiptAt(s, id, peer) && step.IngestOne?
    ensures ReceiptAt(Apply(s, step), id, peer)
  {
    if Ingest(s.node, step.peer, step.envelope).1.Inserted? {
      ReceiptOnInsert(s, step, id, peer);
    } else {
      assert Do(s.node, step) == s.node;
      UnmovedKeeps(s, step, id, peer);
    }
  }

  lemma PromotionUpdates(n: Node, peer: PeerId)
    ensures var n' := AutoPromote(n, peer);
      n'.me == n.me && n'.messages == n.messages && Updates(n.events, n'.events)
  {
  }

  lemma ControlKeepsRows(n: Node, peer: PeerId, control: ControlPayload)
    requires !control.ChatDeleted?
    ensures var n' := HandleControl(n, peer, control);
      n'.me == n.me && n'.messages == n.messages && Updates(n.events, n'.events)
  {
  }

  /** A live text: stored and announced, stored in silence, or neither. */
  lemma ReceiptOnText(s: State, step: Step, id: MessageId, peer: PeerId)
    requires Enabled(s, step) && ReceiptAt(s, id, peer) && step.Receive? && step.envelope.payload.Text?
    ensures ReceiptAt(Apply(s, step), id, peer)
  {
    if Do(s.node, step) == s.node {
      UnmovedKeeps(s, step, id, peer);
    } else if !step.responds {
      ReceiptInSilence(s, step, id, peer);
    } else {
      ReceiptOnAnswer(s, step, id, peer);
    }
  }

  lemma ReceiptInSilence(s: State, step: Step, id: MessageId, peer: PeerId)
    requires Enabled(s, step) && ReceiptAt(s, id, peer) && step.Receive? && step.envelope.payload.Text?
    requires Do(s.node, step) != s.node && !step.responds
    ensures ReceiptAt(Apply(s, step), id, peer)
  {
  }

  lemma ReceiptOnAnswer(s: State, step: Step, id: MessageId, peer: PeerId)
    requires Enabled(s, step) && ReceiptAt(s, id, peer) && step.Receive? && step.envelope.payload.Text?
    requires Do(s.node, step) != s.node && step.responds
    ensures ReceiptAt(Apply(s, step), id, peer)
  {
    AnsweredText(s.node, step.peer, step.envelope, step.allowed, id, peer);
    ReceiptOfNew(s, Apply(s, step), step.peer, step.envelope, id, peer);
  }

  lemma ReceiptOfNew(s: State, s': State, from: PeerId, e: Envelope, id: MessageId, peer: PeerId)
    requires ReceiptAt(s, id, peer) && (id in s'.silent <==> id in s.silent)
    requires s'.node.me == s.node.me != from
    requires s'.node.messages == InsertIgnore(s.node.messages, e.id, Message(from, s.node.me, e.payload, Synced)).1
    requires Shown(s'.node.events, id, peer) ==
      Shown(s.node.events, id, peer) + if e.id !in s.node.messages && e.id == id && from == peer then 1 else 0
    ensures ReceiptAt(s', id, peer)
  {
  }

  /** A text that is taken and answered is stored if it is new, and then announced once. */
  lemma AnsweredText(n: Node, from: PeerId, e: Envelope, allowed: bool, id: MessageId, peer: PeerId)
    requires e.payload.Text? && HandleMsg(n, from, e, allowed, true).0 != n
    ensures var n' := HandleMsg(n, from, e, allowed, true).0;
      && e.sender == from && n'.me == n.me
      && n'.messages == InsertIgnore(n.messages, e.id, Message(from, n.me, e.payload, Synced)).1
      && Shown(n'.events, id, peer)
           == Shown(n.events, id, peer) + if e.id !in n.messages && e.id == id && from == peer then 1 else 0
  {
    var stored := StoreReceived(n, e).1;
    PromotionUpdates(stored, from);
    var promoted := AutoPromote(stored, from);
    UpdatesSilent(n.events, promoted.events, id, peer);
    ShownOne(promoted.events, MessageReceived(e.id, from), id, peer);
  }

  lemma ReceiptOnControl(s: State, step: Step, id: MessageId, peer: PeerId)
    requires Enabled(s, step) && ReceiptAt(s, id, peer) && step.Receive? && !step.envelope.payload.Text?
    ensures ReceiptAt(Apply(s, step), id, peer)
  {
    var n, e := s.node, step.envelope;
    if Do(n, step) == n {
      UnmovedKeeps(s, step, id, peer);
    } else if e.payload.control.ChatDeleted? {
      ReceiptOnRemoval(s, step, step.peer, id, peer);
    } else {
      ControlKeepsRows(n, step.peer, e.payload.control);
      UpdatesSilent(n.events, Do(n, step).events, id, peer);
      UnmovedKeeps(s, step, id, peer);
    }
  }

  lemma ReceiptOnRemoval(s: State, step: Step, other: PeerId, id: MessageId, peer: PeerId)
    requires ReceiptAt(s, id, peer) && Silenced(s.node, step) == {}
    requires var n' := Emit(WipePeer(s.node, other), ContactRemoved(other));
      Do(s.node, step).me == n'.me && Do(s.node, step).messages == n'.messages && Do(s.node, step).events == n'.events
    ensures ReceiptAt(Apply(s, step), id, peer)
  {
    ReceiptOfWiped(s, Apply(s, step), other, id, peer);
  }

  lemma ReceiptOfWiped(s: State, s': State, other: PeerId, id: MessageId, peer: PeerId)
    requires ReceiptAt(s, id, peer) && (id in s'.silent <==> id in s.silent && id in s'.node.messages)
    requires var n' := Emit(WipePeer(s.node, other), ContactRemoved(other));
      s'.node.me == n'.me && s'.node.messages == n'.messages && s'.node.events == n'.events
    ensures ReceiptAt(s', id, peer)
  {
    if peer != s.node.me {
      ReceiptOnWipe(s.node, other, id, peer);
    } else {
      WipeClears(s.node, other, id);
    }
  }

  lemma ReceiptStep(s: State, step: Step, id: MessageId, peer: PeerId)
    requires Enabled(s, step) && ReceiptAt(s, id, peer)
    ensures ReceiptAt(Apply(s, step), id, peer)
  {
    if TouchesNoMessage(step) {
      ReceiptOnOthers(s, step, id, peer);
    } else {
      match step
      case SendMessage(_, _, _) => ReceiptOnSend(s, step, id, peer);
      case Receive(_, e, _, _) =>
        if e.payload.Text? {
          ReceiptOnText(s, step, id, peer);
        } else {
          ReceiptOnControl(s, step, id, peer);
        }
      case IngestOne(_, _) => ReceiptOnIngest(s, step, id, peer);
      case Delete(other, _, _) => ReceiptOnRemoval(s, step, other, id, peer);
      case AnswerSync(_, _, _) => ReceiptOnSync(s, step, id, peer);
      case PromoteUpTo(_, _, _) => ReceiptOnSync(s, step, id, peer);
      case _ => ReceiptOnDelivery(s, step, id, peer);
    }
  }

  /**
   * In every run, however live deliveries, re-sends and sync ingests of the same messages interleave, a message of a
   * peer was announced exactly once since the contact was last removed if its row is stored and was not stored in
   * silence, and not at all otherwise.
   */
  lemma {:induction false} ShownExactlyOnce(me: PeerId, steps: seq<Step>, id: MessageId, peer: PeerId)
    requires IsRun(me, steps)
    ensures ReceiptAt(After(me, steps), id, peer)
    decreases |steps|
  {
    if steps != [] {
      RunPrefix(me, steps);
      ShownExactlyOnce(me, steps[..|steps| - 1], id, peer);
      ReceiptStep(After(me, steps[..|steps| - 1]), steps[|steps| - 1], id, peer);
    }
  }

  // ---------------------------------------------------------------- where rows come from

  /** The steps that erase a conversation. */
  predicate Wipes(step: Step) {
    step.Delete? || (step.Receive? && step.envelope.payload == Control(ChatDeleted))
  }

  lemma ControlKeepsSessions(n: Node, sender: PeerId, control: ControlPayload)
    requires !control.ChatDeleted?
    ensures HandleControl(n, sender, control).sessions == n.sessions
  {
  }

  lemma ReceiveKeepsSessions(n: Node, from: PeerId, e: Envelope, allowed: bool, responds: bool)
    requires e.payload != Control(ChatDeleted)
    ensures HandleMsg(n, from, e, allowed, responds).0.sessions == n.sessions
  {
    if e.payload.Control? {
      ControlKeepsSessions(n, from, e.payload.control);
    }
  }

  lemma HandshakeKeepsSessions(n: Node, from: PeerId, claimed: PeerId, allowed: bool, valid: bool, responds: bool)
    ensures n.sessions <= HandleHandshake(n, from, claimed, allowed, valid, responds).sessions
  {
  }

  lemma CommandKeepsSessions(n: Node, row: nat)
    ensures Accept(n, row).sessions == Reject(n, row).sessions == Cancel(n, row).sessions == n.sessions
  {
  }

  /** Only a wipe ends a session. */
  lemma SessionsStay(n: Node, step: Step)
    requires !Wipes(step)
    ensures n.sessions <= Do(n, step).sessions
  {
    if step.Receive? {
      ReceiveKeepsSessions(n, step.peer, step.envelope, step.allowed, step.responds);
    } else if step.Handshake? {
      HandshakeKeepsSessions(n, step.peer, step.claimed, step.allowed, step.valid, step.responds);
    } else if step.AcceptRequest? || step.RejectRequest? || step.CancelRequest? {
      CommandKeepsSessions(n, step.row);
    }
  }

  /**
   * A row appears by a send or by a text from its sender, disappears only in a wipe, and otherwise keeps its
   * contents.
   */
  ghost predicate RowMoves(n: Node, n': Node, step: Step, id: MessageId) {
    && n'.me == n.me
    && (id in n'.messages && id !in n.messages ==>
          || (step.SendMessage? && step.id == id && step.to != n.me && |step.text| <= MAX_MESSAGE_BYTES
                && n'.messages[id] == Message(n.me, step.to, Text(step.text), Sending))
          || ((step.Receive? || step.IngestOne?) && step.envelope.id == id
             && step.envelope.sender == step.peer && step.envelope.payload.Text?
                && n'.messages[id] == Message(step.peer, n.me, step.envelope.payload, Synced)))
    && (id in n'.messages && id in n.messages ==> SameRow(n, n', id))
    && (id in n.messages && id !in n'.messages ==> Wipes(step))
  }

  lemma RowOnText(n: Node, step: Step, id: MessageId)
    requires step.Receive? && step.envelope.payload.Text?
    ensures RowMoves(n, Do(n, step), step, id)
  {
    PromotionUpdates(StoreReceived(n, step.envelope).1, step.peer);
  }

  lemma RowOnControl(n: Node, step: Step, id: MessageId)
    requires step.Receive? && !step.envelope.payload.Text?
    ensures RowMoves(n, Do(n, step), step, id)
  {
    if step.envelope.payload.Control? {
      WipeClears(n, step.peer, id);
      if !step.envelope.payload.control.ChatDeleted? {
        ControlKeepsRows(n, step.peer, step.envelope.payload.control);
      }
    }
  }

  lemma RowOnSync(n: Node, step: Step, id: MessageId)
    requires step.AnswerSync? || step.PromoteUpTo? || step.IngestOne?
    ensures RowMoves(n, Do(n, step), step, id)
  {
    if step.AnswerSync? && step.request.Ack? {
      AckedRows(n.messages, step.request.confirmed);
    }
  }

  lemma RowStep(n: Node, step: Step, id: MessageId)
    ensures RowMoves(n, Do(n, step), step, id)
  {
    if TouchesNoMessage(step) {
      MessagesUntouched(n, step);
    } else if step.AnswerSync? || step.PromoteUpTo? || step.IngestOne? {
      RowOnSync(n, step, id);
    } else if step.PushEnded? || step.DrainEnded? || step.DrainFoundNothing? {
      DeliveryUpdates(n, step, id);
    } else {
      match step
      case SendMessage(_, _, _) =>
      case Receive(_, e, _, _) =>
        if e.payload.Text? {
          RowOnText(n, step, id);
        } else {
          RowOnControl(n, step, id);
        }
      case Delete(peer, _, _) => WipeClears(n, peer, id);
    }
  }

  /** How a row that stays gets a new status. */
  ghost predicate StatusMoves(n: Node, n': Node, step: Step, id: MessageId)
    requires id in n.messages && id in n'.messages
  {
    && (n'.messages[id].status == Delivered ==>
          n.messages[id].status == Delivered || ((step.PushEnded? || step.DrainEnded?) && step.id == id && step.acked))
    && (n'.messages[id].status == Synced ==>
          || n.messages[id].status == Synced
          || (step.AnswerSync? && step.request.Ack? && id in step.request.confirmed)
          || (step.PromoteUpTo? && id in Promotable(n.messages, Conv(n, step.peer), n.me, step.upto)))
  }

  lemma StatusOnSync(n: Node, step: Step, id: MessageId)
    requires step.AnswerSync? || step.PromoteUpTo? || step.IngestOne?
    requires id in n.messages && id in Do(n, step).messages
    ensures StatusMoves(n, Do(n, step), step, id)
  {
    if step.AnswerSync? && step.request.Ack? {
      AckedRows(n.messages, step.request.confirmed);
    }
  }

  lemma TextKeepsRow(n: Node, step: Step, id: MessageId)
    requires step.Receive? && step.envelope.payload.Text? && id in n.messages
    ensures id in Do(n, step).messages && Do(n, step).messages[id] == n.messages[id]
  {
    PromotionUpdates(StoreReceived(n, step.envelope).1, step.peer);
  }

  lemma ControlKeepsRow(n: Node, step: Step, id: MessageId)
    requires step.Receive? && !step.envelope.payload.Text? && id in n.messages && id in Do(n, step).messages
    ensures Do(n, step).messages[id] == n.messages[id]
  {
    if step.envelope.payload.Control? {
      if step.envelope.payload.control.ChatDeleted? {
        WipeClears(n, step.peer, id);
      } else {
        ControlKeepsRows(n, step.peer, step.envelope.payload.control);
      }
    }
  }

  lemma StatusOnSend(n: Node, step: Step, id: MessageId)
    requires step.SendMessage? || step.PushEnded? || step.DrainEnded? || step.DrainFoundNothing?
    requires id in n.messages && id in Do(n, step).messages
    ensures StatusMoves(n, Do(n, step), step, id)
  {
    match step
    case SendMessage(_, _, _) =>
    case PushEnded(other, to, acked, now) => assert StatusMoves(n, PushDone(n, other, to, acked, now), step, id);
    case DrainEnded(other, target, attempts, acked, now) =>
      assert StatusMoves(n, DrainDone(n, other, target, attempts, acked, now), step, id);
    case DrainFoundNothing(other, target) => assert DrainOrphan(n, other, target).messages == n.messages;
  }

  lemma StatusStep(n: Node, step: Step, id: MessageId)
    requires id in n.messages && id in Do(n, step).messages
    ensures StatusMoves(n, Do(n, step), step, id)
  {
    if TouchesNoMessage(step) {
      MessagesUntouched(n, step);
    } else if step.Receive? {
      if step.envelope.payload.Text? {
        TextKeepsRow(n, step, id);
      } else {
        ControlKeepsRow(n, step, id);
      }
    } else if step.Delete? {
      WipeClears(n, step.peer, id);
    } else if step.AnswerSync? || step.PromoteUpTo? || step.IngestOne? {
      StatusOnSync(n, step, id);
    } else {
      StatusOnSend(n, step, id);
    }
  }

  // ---------------------------------------------------------------- contacts and requests

  /** Row ids are fresh, a pending row's peer is a contact, and no two pending rows share direction and peer. */
  ghost predicate RequestsAt(n: Node, a: nat, b: nat) {
    && (a in n.requests ==> a < n.nextRequest)
    && (IsPending(n.requests, a) ==> n.requests[a].peer in n.contacts)
    && (IsPending(n.requests, a) && IsPending(n.requests, b) && n.requests[a] == n.requests[b] ==> a == b)
  }

  ghost predicate PairAt(n: Node, a: nat, b: nat) {
    RequestsAt(n, a, b) && RequestsAt(n, b, a)
  }

  lemma PendingFound(n: Node, a: nat)
    requires IsPending(n.requests, a)
    ensures HasPending(n.requests, n.requests[a].direction, n.requests[a].peer)
  {
    assert n.requests[a] == Request(n.requests[a].direction, n.requests[a].peer, None);
  }

  lemma AddKeepsPairs(n: Node, direction: Direction, peer: PeerId, a: nat, b: nat)
    requires PairAt(n, a, b) && peer in n.contacts && !HasPending(n.requests, direction, peer)
    ensures PairAt(AddRequest(n, direction, peer), a, b)
  {
    if IsPending(n.requests, a) {
      PendingFound(n, a);
    }
    if IsPending(n.requests, b) {
      PendingFound(n, b);
    }
  }

  lemma EnsureKeepsPairs(n: Node, peer: PeerId, a: nat, b: nat)
    requires PairAt(n, a, b)
    ensures PairAt(EnsureIncomingRequest(n, peer), a, b)
  {
    var n1 := if peer in n.contacts then n else n.(contacts := n.contacts[peer := PendingIn]);
    assert PairAt(n1, a, b);
    if !HasPending(n.requests, Incoming, peer) {
      AddKeepsPairs(n1, Incoming, peer, a, b);
    }
  }

  lemma AskKeepsPairs(n: Node, peer: PeerId, a: nat, b: nat)
    requires PairAt(n, a, b)
    ensures PairAt(RequestContact(n, peer), a, b)
  {
    if peer != n.me {
      var asked := if peer in n.contacts then n else n.(contacts := n.contacts[peer := PendingOut]);
      assert PairAt(asked, a, b);
      if peer !in n.sessions && !HasPending(n.requests, Outgoing, peer) {
        AddKeepsPairs(asked, Outgoing, peer, a, b);
        assert RequestContact(n, peer) == AddRequest(asked, Outgoing, peer);
      }
    }
  }

  /** Resolving rows, setting a status, wiping a peer. */
  ghost predicate OnlyResolves(n: Node, n': Node) {
    && n'.nextRequest == n.nextRequest && n'.requests.Keys == n.requests.Keys && n'.contacts.Keys == n.contacts.Keys
    && forall id :: IsPending(n'.requests, id) ==> IsPending(n.requests, id) && n'.requests[id] == n.requests[id]
  }

  lemma ResolvingKeepsPairs(n: Node, n': Node, a: nat, b: nat)
    requires PairAt(n, a, b) && OnlyResolves(n, n')
    ensures PairAt(n', a, b)
  {
  }

  lemma WipeKeepsPairs(n: Node, peer: PeerId, a: nat, b: nat)
    requires PairAt(n, a, b)
    ensures PairAt(WipePeer(n, peer), a, b)
  {
  }

  lemma AcceptResolves(n: Node, row: nat)
    ensures OnlyResolves(n, Accept(n, row))
  {
  }

  lemma RejectResolves(n: Node, row: nat)
    ensures OnlyResolves(n, Reject(n, row))
  {
  }

  lemma CancelResolves(n: Node, row: nat)
    ensures OnlyResolves(n, Cancel(n, row))
  {
  }

  lemma PromotionResolves(n: Node, peer: PeerId)
    ensures OnlyResolves(n, AutoPromote(n, peer))
  {
  }

  lemma PairsOnText(n: Node, step: Step, a: nat, b: nat)
    requires PairAt(n, a, b) && step.Receive? && step.envelope.payload.Text?
    ensures PairAt(Do(n, step), a, b)
  {
    var stored := StoreReceived(n, step.envelope).1;
    PromotionResolves(stored, step.peer);
    ResolvingKeepsPairs(stored, AutoPromote(stored, step.peer), a, b);
  }

  lemma PairsOnControl(n: Node, step: Step, a: nat, b: nat)
    requires PairAt(n, a, b) && step.Receive? && !step.envelope.payload.Text?
    ensures PairAt(Do(n, step), a, b)
  {
    if step.envelope.payload.Control? {
      var n' := HandleControl(n, step.peer, step.envelope.payload.control);
      if step.envelope.payload.control.ChatDeleted? {
        WipeKeepsPairs(n, step.peer, a, b);
      } else {
        assert OnlyResolves(n, n');
        ResolvingKeepsPairs(n, n', a, b);
      }
      assert PairAt(n', a, b);
    }
  }

  predicate TouchesNoRequest(step: Step) {
    step.SendMessage? || step.PushEnded? || step.DrainEnded?
      || step.DrainFoundNothing? || step.AnswerSync? || step.PromoteUpTo?
    || step.IngestOne? || step.HandshakeReturned? || step.FlushEnded? || step.FlushFoundCorrupt? || step.Discover?
  }

  ghost predicate SameContacts(n: Node, n': Node) {
    n'.contacts == n.contacts && n'.requests == n.requests && n'.nextRequest == n.nextRequest
  }

  lemma SyncKeepsContacts(n: Node, step: Step)
    requires step.AnswerSync? || step.PromoteUpTo? || step.IngestOne?
    ensures SameContacts(n, Do(n, step))
  {
  }

  lemma SendKeepsContacts(n: Node, step: Step)
    requires step.SendMessage? || step.PushEnded? || step.DrainEnded? || step.DrainFoundNothing?
    ensures SameContacts(n, Do(n, step))
  {
  }

  lemma ContactsUntouched(n: Node, step: Step)
    requires TouchesNoRequest(step)
    ensures SameContacts(n, Do(n, step))
  {
    if step.AnswerSync? || step.PromoteUpTo? || step.IngestOne? {
      SyncKeepsContacts(n, step);
    } else if step.SendMessage? || step.PushEnded? || step.DrainEnded? || step.DrainFoundNothing? {
      SendKeepsContacts(n, step);
    }
  }

  lemma PairsOnCommand(n: Node, step: Step, a: nat, b: nat)
    requires PairAt(n, a, b) && (step.AcceptRequest? || step.RejectRequest? || step.CancelRequest?)
    ensures PairAt(Do(n, step), a, b)
  {
    match step
    case AcceptRequest(row) =>
      AcceptResolves(n, row);
      ResolvingKeepsPairs(n, Accept(n, row), a, b);
    case RejectRequest(row) =>
      RejectResolves(n, row);
      ResolvingKeepsPairs(n, Reject(n, row), a, b);
    case CancelRequest(row) =>
      CancelResolves(n, row);
      ResolvingKeepsPairs(n, Cancel(n, row), a, b);
  }

  lemma PairsStep(n: Node, step: Step, a: nat, b: nat)
    requires PairAt(n, a, b)
    ensures PairAt(Do(n, step), a, b)
  {
    if TouchesNoRequest(step) {
      ContactsUntouched(n, step);
    } else {
      match step
      case Handshake(_, claimed, _, _, _) =>
        EnsureKeepsPairs(n, claimed, a, b);
        EnsureKeepsPairs(n.(sessions := n.sessions + {claimed}), claimed, a, b);
      case AskContact(peer) => AskKeepsPairs(n, peer, a, b);
      case Receive(_, e, _, _) =>
        if e.payload.Text? {
          PairsOnText(n, step, a, b);
        } else {
          PairsOnControl(n, step, a, b);
        }
      case Delete(peer, _, _) => WipeKeepsPairs(n, peer, a, b);
      case _ => PairsOnCommand(n, step, a, b);
    }
  }

  /**
   * In every run there is at most one pending row per peer and direction, and the peer of every pending row is a
   * contact.
   */
  lemma {:induction false} RequestsStayConsistent(me: PeerId, steps: seq<Step>, a: nat, b: nat)
    ensures PairAt(After(me, steps).node, a, b)
    decreases |steps|
  {
    if steps != [] {
      RequestsStayConsistent(me, steps[..|steps| - 1], a, b);
      PairsStep(After(me, steps[..|steps| - 1]).node, steps[|steps| - 1], a, b);
    }
  }

  /** Answering a request in a consistent table leaves none pending for that peer and direction. */
  lemma AnsweringClears(n: Node, row: nat)
    requires IsPending(n.requests, row) && forall a, b :: PairAt(n, a, b)
    ensures var r := n.requests[row];
      && !HasPending(Accept(n, row).requests, r.direction, r.peer)
      && !HasPending(Reject(n, row).requests, r.direction, r.peer)
      && (r.direction.Outgoing? ==> !HasPending(Cancel(n, row).requests, r.direction, r.peer))
  {
    var r := n.requests[row];
    forall id, how | id in n.requests ensures Resolve(n.requests, row, how)[id] != Request(r.direction, r.peer, None) {
      assert PairAt(n, id, row);
    }
  }

  /** Every pending row of `peer` was resolved, in either direction, and no row of anyone else was touched. */
  ghost predicate SettledFor(n: Node, n': Node, peer: PeerId, resolution: Resolution) {
    && n'.requests.Keys == n.requests.Keys
    && forall id :: id in n.requests ==>
         if IsPending(n.requests, id) && n.requests[id].peer == peer then
           n'.requests[id] == n.requests[id].(resolution := Some(resolution))
         else n'.requests[id] == n.requests[id]
  }

  /** An acceptance or rejection settles the sender's requests and its contact, and nobody else's. */
  lemma ControlSettles(n: Node, sender: PeerId, control: ControlPayload)
    requires !control.ChatDeleted?
    ensures var n' := HandleControl(n, sender, control);
      && SettledFor(n, n', sender, if control.AcceptedRequest? then ByAccept else ByReject)
      && (sender in n.contacts ==> StatusOf(n', sender) == Some(if control.AcceptedRequest? then Accepted else Blocked))
      && (sender !in n.contacts ==> sender !in n'.contacts)
      && forall other :: other != sender ==> StatusOf(n', other) == StatusOf(n, other)
  {
  }

  /** So does the first text of someone we asked; a text of anyone else settles nothing. */
  lemma PromotionSettles(n: Node, sender: PeerId)
    ensures var n' := AutoPromote(n, sender);
      && (StatusOf(n, sender) == Some(PendingOut) ==>
          SettledFor(n, n', sender, ByAccept) && StatusOf(n', sender) == Some(Accepted))
      && (StatusOf(n, sender) != Some(PendingOut) ==> n' == n)
      && forall other :: other != sender ==> StatusOf(n', other) == StatusOf(n, other)
  {
  }

  /**
   * An inbound handshake that is answered surfaces a request from anyone we have not accepted, and from no one
   * else.
   */
  lemma HandshakeSurfaces(n: Node, peer: PeerId, responds: bool)
    ensures var n' := HandleHandshake(n, peer, peer, true, true, responds);
      && peer in n'.sessions
      && (responds && StatusOf(n, peer) != Some(Accepted) ==>
            peer in n'.contacts && HasPending(n'.requests, Incoming, peer)
              && n'.events == n.events + [RequestReceived(peer)])
      && (!responds || StatusOf(n, peer) == Some(Accepted) ==>
            n'.requests == n.requests && n'.contacts == n.contacts && n'.events == n.events)
      && (responds && StatusOf(n, peer) != Some(Accepted) && !HasPending(n.requests, Incoming, peer) ==>
            n'.requests == n.requests[n.nextRequest := Request(Incoming, peer, None)])
      && (responds && HasPending(n.requests, Incoming, peer) ==> n'.requests == n.requests)
  {
    EnsureSurfaces(n, peer);
    EnsureSurfaces(n.(sessions := n.sessions + {peer}), peer);
  }

  lemma EnsureSurfaces(n: Node, peer: PeerId)
    ensures var n' := EnsureIncomingRequest(n, peer);
      && n'.sessions == n.sessions
      && (StatusOf(n, peer) == Some(Accepted) ==> n' == n)
      && (StatusOf(n, peer) != Some(Accepted) ==>
            peer in n'.contacts && HasPending(n'.requests, Incoming, peer)
              && n'.events == n.events + [RequestReceived(peer)])
      && (StatusOf(n, peer) != Some(Accepted) && !HasPending(n.requests, Incoming, peer) ==>
            n'.requests == n.requests[n.nextRequest := Request(Incoming, peer, None)])
      && (HasPending(n.requests, Incoming, peer) ==> n'.requests == n.requests)
  {
    if StatusOf(n, peer) != Some(Accepted) && !HasPending(n.requests, Incoming, peer) {
      assert EnsureIncomingRequest(n, peer).requests[n.nextRequest] == Request(Incoming, peer, None);
    }
  }

  // ---------------------------------------------------------------- what handlers do to a contact's status

  /** The steps by which a contact becomes accepted. */
  predicate AcceptedBy(n: Node, step: Step, peer: PeerId) {
    match step
    case AcceptRequest(row) => IsPending(n.requests, row) && n.requests[row].peer == peer && peer in n.contacts
    case Receive(from, e, allowed, responds) =>
      && from == peer && allowed && e.sender == peer && peer in n.sessions
      && StatusOf(n, peer) != Some(Blocked) && peer in n.contacts
      && (e.payload == Control(AcceptedRequest)
          || (e.payload.Text? && !Oversized(e) && responds && StatusOf(n, peer) == Some(PendingOut)))
    case _ => false
  }

  lemma EnsureContacts(n: Node, peer: PeerId)
    ensures var n' := EnsureIncomingRequest(n, peer);
      n'.me == n.me && n'.pendingDeletes == n.pendingDeletes && n'.messages == n.messages
      && n'.contacts == if peer in n.contacts then n.contacts else n.contacts[peer := PendingIn]
  {
  }

  lemma HandshakeContacts(n: Node, peer: PeerId, claimed: PeerId, allowed: bool, valid: bool, responds: bool)
    ensures var n' := HandleHandshake(n, peer, claimed, allowed, valid, responds);
      && n'.me == n.me && n'.pendingDeletes == n.pendingDeletes && n'.messages == n.messages
      && (n'.contacts == n.contacts
          || (claimed == peer && peer !in n.contacts && n'.contacts == n.contacts[peer := PendingIn]))
  {
    EnsureContacts(n, claimed);
    EnsureContacts(n.(sessions := n.sessions + {claimed}), claimed);
  }

  lemma AskContacts(n: Node, peer: PeerId)
    ensures var n' := RequestContact(n, peer);
      && n'.me == n.me && n'.pendingDeletes == n.pendingDeletes
      && (n'.contacts == n.contacts || (peer !in n.contacts && n'.contacts == n.contacts[peer := PendingOut]))
  {
  }

  lemma ControlContacts(n: Node, step: Step)
    requires step.Receive? && step.envelope.payload.Control?
    ensures var n' := Do(n, step);
      && n'.me == n.me && n'.pendingDeletes == n.pendingDeletes
      && (AcceptedBy(n, step, step.peer) ==> n'.contacts == n.contacts[step.peer := Accepted])
      && (!AcceptedBy(n, step, step.peer) ==>
            || n'.contacts == n.contacts
            || (StatusOf(n, step.peer) != Some(Blocked) && n'.contacts == n.contacts - {step.peer})
            || (step.peer in n.contacts && n'.contacts == n.contacts[step.peer := Blocked]))
  {
  }

  lemma TextContacts(n: Node, step: Step)
    requires step.Receive? && !step.envelope.payload.Control?
    ensures var n' := Do(n, step);
      && n'.me == n.me && n'.pendingDeletes == n.pendingDeletes
      && n'.contacts == if AcceptedBy(n, step, step.peer) then n.contacts[step.peer := Accepted] else n.contacts
  {
    var stored := StoreReceived(n, step.envelope).1;
    var promoted := AutoPromote(stored, step.peer);
    assert promoted.me == n.me && promoted.pendingDeletes == n.pendingDeletes;
    assert promoted.contacts ==
      if StatusOf(n, step.peer) == Some(PendingOut) then n.contacts[step.peer := Accepted] else n.contacts;
  }

  lemma CommandContacts(n: Node, row: nat)
    ensures var peer := if row in n.requests then n.requests[row].peer else 0;
      var open := IsPending(n.requests, row) && peer in n.contacts;
      && Accept(n, row).contacts == (if open then n.contacts[peer := Accepted] else n.contacts)
      && Reject(n, row).contacts == (if open then n.contacts[peer := Blocked] else n.contacts)
      && Cancel(n, row).contacts ==
         (if open && n.requests[row].direction.Outgoing? then n.contacts[peer := Removed] else n.contacts)
      && Accept(n, row).me == n.me && Accept(n, row).pendingDeletes == n.pendingDeletes
      && Reject(n, row).me == n.me && Reject(n, row).pendingDeletes == n.pendingDeletes
      && Cancel(n, row).me == n.me && Cancel(n, row).pendingDeletes == n.pendingDeletes
  {
  }

  // ---------------------------------------------------------------- blocked peers

  /** Nothing a blocked peer sends changes its status or any message row; messages and sync requests change nothing. */
  lemma BlockedIsInert(n: Node, step: Step)
    requires step.Handshake? || step.Receive? || step.AnswerSync?
    requires StatusOf(n, step.peer) == Some(Blocked)
    ensures Do(n, step).contacts == n.contacts && Do(n, step).messages == n.messages
    ensures !step.Handshake? ==> Do(n, step) == n
  {
    if step.Handshake? {
      HandshakeContacts(n, step.peer, step.claimed, step.allowed, step.valid, step.responds);
    }
  }

  /** A local command that ends a block: accepting or cancelling a pending row of the peer, or deleting the contact. */
  predicate Releases(n: Node, step: Step, peer: PeerId) {
    match step
    case AcceptRequest(row) => IsPending(n.requests, row) && n.requests[row].peer == peer
    case CancelRequest(row) => IsPending(n.requests, row) && n.requests[row].peer == peer
    case Delete(other, _, _) => other == peer
    case _ => false
  }

  lemma BlockedStep(n: Node, step: Step, peer: PeerId)
    requires StatusOf(n, peer) == Some(Blocked) && !Releases(n, step, peer)
    ensures StatusOf(Do(n, step), peer) == Some(Blocked)
  {
    if TouchesNoRequest(step) {
      ContactsUntouched(n, step);
    } else {
      match step
      case Handshake(from, claimed, allowed, valid, responds) =>
        HandshakeContacts(n, from, claimed, allowed, valid, responds);
      case AskContact(other) => AskContacts(n, other);
      case Receive(_, e, _, _) =>
        if e.payload.Control? {
          ControlContacts(n, step);
        } else {
          TextContacts(n, step);
        }
      case AcceptRequest(row) => CommandContacts(n, row);
      case RejectRequest(row) => CommandContacts(n, row);
      case CancelRequest(row) => CommandContacts(n, row);
      case Delete(other, noticeId, now) =>
    }
  }

  /** Whatever the blocked peer and everyone else send, only a local command ends the block. */
  lemma {:induction false} BlockedUntilReleased(me: PeerId, steps: seq<Step>, i: nat, peer: PeerId)
    requires i <= |steps| && StatusOf(After(me, steps[..i]).node, peer) == Some(Blocked)
    requires forall j :: i <= j < |steps| ==> !Releases(After(me, steps[..j]).node, steps[j], peer)
    ensures StatusOf(After(me, steps).node, peer) == Some(Blocked)
    decreases |steps|
  {
    if i < |steps| {
      var before, step := steps[..|steps| - 1], steps[|steps| - 1];
      assert before[..i] == steps[..i];
      forall j | i <= j < |before| ensures !Releases(After(me, before[..j]).node, before[j], peer) {
        assert before[..j] == steps[..j];
      }
      BlockedUntilReleased(me, before, i, peer);
      BlockedStep(After(me, before).node, step, peer);
    } else {
      assert steps[..i] == steps;
    }
  }

  /**
   * A contact becomes accepted exactly by a local accept, by the peer's acceptance notice, or by a text from a peer we
   * asked; so no text a peer sends gets it past a request that is waiting for our answer.
   */
  lemma AcceptedOnlyBy(n: Node, step: Step, peer: PeerId)
    requires StatusOf(n, peer) != Some(Accepted)
    ensures StatusOf(Do(n, step), peer) == Some(Accepted) <==> AcceptedBy(n, step, peer)
  {
    if TouchesNoRequest(step) {
      ContactsUntouched(n, step);
    } else {
      match step
      case Handshake(from, claimed, allowed, valid, responds) =>
        HandshakeContacts(n, from, claimed, allowed, valid, responds);
      case AskContact(other) => AskContacts(n, other);
      case Receive(_, e, _, _) =>
        if e.payload.Control? {
          ControlContacts(n, step);
        } else {
          TextContacts(n, step);
        }
      case AcceptRequest(row) => CommandContacts(n, row);
      case RejectRequest(row) => CommandContacts(n, row);
      case CancelRequest(row) => CommandContacts(n, row);
      case Delete(other, noticeId, now) =>
    }
  }

  // ---------------------------------------------------------------- queued deletion notices

  predicate IsNotice(n: Node, d: PendingDelete) {
    d.stored.Sealed? && d.stored.envelope.sender == n.me && d.stored.envelope.payload == Control(ChatDeleted)
  }

  /** A deletion with a session leaves a sealed notice behind and nothing else of the peer. */
  lemma DeletionLeavesNotice(n: Node, peer: PeerId, noticeId: MessageId, now: int)
    ensures var n' := DeleteContact(n, peer, noticeId, now);
      && Erased(n', peer)
      && (peer in n.sessions ==>
          peer in n'.pendingDeletes
            && n'.pendingDeletes[peer].stored == Sealed(Envelope(noticeId, n.me, Control(ChatDeleted))))
      && (peer !in n.sessions ==> n'.pendingDeletes == n.pendingDeletes)
  {
  }

  ghost predicate NoticeKept(n: Node, n': Node, step: Step, peer: PeerId) {
    && n'.me == n.me
    && (peer in n.pendingDeletes && IsNotice(n, n.pendingDeletes[peer]) ==>
          if step.FlushEnded? && step.peer == peer && step.acked then peer !in n'.pendingDeletes
          else
            && peer in n'.pendingDeletes && IsNotice(n', n'.pendingDeletes[peer])
            && (!(step.Delete? && step.peer == peer) ==>
                n'.pendingDeletes[peer].stored == n.pendingDeletes[peer].stored))
    && (peer !in n.pendingDeletes ==>
          peer in n'.pendingDeletes ==>
            step.Delete? && step.peer == peer && peer in n.sessions && IsNotice(n', n'.pendingDeletes[peer]))
  }

  lemma NoticesUntouched(n: Node, step: Step)
    requires !step.Delete? && !step.FlushEnded? && !step.FlushFoundCorrupt?
    ensures Do(n, step).me == n.me && Do(n, step).pendingDeletes == n.pendingDeletes
  {
    if step.Handshake? {
      HandshakeContacts(n, step.peer, step.claimed, step.allowed, step.valid, step.responds);
    } else if step.AskContact? {
      AskContacts(n, step.peer);
    } else if step.Receive? {
      if step.envelope.payload.Control? {
        ControlContacts(n, step);
      } else {
        TextContacts(n, step);
      }
    } else if step.AcceptRequest? || step.RejectRequest? || step.CancelRequest? {
      CommandContacts(n, step.row);
    }
  }

  lemma NoticeStep(n: Node, step: Step, peer: PeerId)
    ensures NoticeKept(n, Do(n, step), step, peer)
  {
    if step.Delete? {
      DeletionLeavesNotice(n, step.peer, step.noticeId, step.now);
    } else if !step.FlushEnded? && !step.FlushFoundCorrupt? {
      NoticesUntouched(n, step);
    }
  }

  lemma {:induction false} NoticesAreSealed(me: PeerId, steps: seq<Step>, peer: PeerId)
    ensures var n := After(me, steps).node;
      n.me == me && (peer in n.pendingDeletes ==> IsNotice(n, n.pendingDeletes[peer]))
    decreases |steps|
  {
    if steps != [] {
      NoticesAreSealed(me, steps[..|steps| - 1], peer);
      NoticeStep(After(me, steps[..|steps| - 1]).node, steps[|steps| - 1], peer);
    }
  }

  /**
   * In every run a queued notice survives the wipe, every failed flush and everything peers send, until a flush of it
   * is acknowledged; and it stays the very same sealed envelope unless the contact is deleted again meanwhile.
   */
  lemma {:induction false} NoticeSurvives(me: PeerId, steps: seq<Step>, i: nat, peer: PeerId)
    requires i <= |steps| && peer in After(me, steps[..i]).node.pendingDeletes
    requires forall j :: i <= j < |steps| ==> !(steps[j].FlushEnded? && steps[j].peer == peer && steps[j].acked)
    ensures peer in After(me, steps).node.pendingDeletes
      && IsNotice(After(me, steps).node, After(me, steps).node.pendingDeletes[peer])
    ensures (forall j :: i <= j < |steps| ==> !(steps[j].Delete? && steps[j].peer == peer)) ==>
      After(me, steps).node.pendingDeletes[peer].stored == After(me, steps[..i]).node.pendingDeletes[peer].stored
    decreases |steps|
  {
    NoticesAreSealed(me, steps, peer);
    if i < |steps| {
      var before, step := steps[..|steps| - 1], steps[|steps| - 1];
      assert before[..i] == steps[..i];
      NoticeSurvives(me, before, i, peer);
      NoticeStep(After(me, before).node, step, peer);
    } else {
      assert steps[..i] == steps;
    }
  }
}
