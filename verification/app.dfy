/** The running application: its tables, its in-memory state, and the handlers that update them step by step. */
module App {
  import opened Types
  import opened Ordering
  import opened Storage
  import opened Node
  import opened Drain
  import ConnectionTable
  import R = Reconcile

  class AppInner {
    const me: PeerId
    const contacts: ContactsTable
    const requests: RequestsTable
    const messages: MessagesTable
    const queue: SyncQueueTable
    const pendingDeletes: PendingDeletesTable
    const table: ConnectionTable.Table
    var sessions: set<PeerId>
    var peerState: set<PeerId>
    var pushes: set<QueueKey>
    var events: seq<AppEvent>

    ghost function Parts(): set<object> {
      {this, contacts, requests, messages, queue, pendingDeletes}
    }

    /** What is kept in memory about live connections, beside the node. */
    ghost function Memory(): set<object> {
      {table, table.upgradeBackoff}
    }

    ghost function Live(): ConnectionTable.Live
      reads Memory()
    {
      table.State()
    }

    /** The state of the node these objects hold. */
    ghost function Now(): Node
      reads Parts()
    {
      Node(me, contacts.rows, requests.rows, requests.nextId, messages.rows,
        sessions, queue.rows, pendingDeletes.rows, peerState, pushes, events)
    }

    constructor (me: PeerId)
      ensures fresh(Parts()) && fresh(Memory()) && Now() == Fresh(me)
    {
      this.me := me;
      contacts := new ContactsTable();
      requests := new RequestsTable();
      messages := new MessagesTable();
      queue := new SyncQueueTable();
      pendingDeletes := new PendingDeletesTable();
      table := new ConnectionTable.Table();
      sessions, peerState, pushes, events := {}, {}, {}, [];
    }

    method Show(e: AppEvent)
      modifies this`events
      ensures events == old(events) + [e]
    {
      events := events + [e];
    }

    // -------------------------------------------------------------- sending

    method SendMessage(to: PeerId, text: string, id: MessageId) returns (ok: bool)
      modifies Parts()
      ensures var sent := Send(old(Now()), to, text, id);
        ok == sent.Some? && Now() == if ok then sent.value else old(Now())
    {
      if to == me || |text| > MAX_MESSAGE_BYTES {
        return false;
      }
      if to !in sessions {
        return false;
      }
      var _ := messages.Insert(id, Message(me, to, Text(text), Sending));
      pushes := pushes + {(id, to)};
      return true;
    }

    method PushOne(id: MessageId, to: PeerId, acked: bool, now: int)
      modifies Parts()
      ensures Now() == PushDone(old(Now()), id, to, acked, now)
    {
      pushes := pushes - {(id, to)};
      if acked {
        messages.UpdateStatus(id, Delivered);
        Show(StatusChanged(id, Delivered));
      } else {
        queue.Enqueue((id, to), NextRetryAt(0, now));
      }
    }

    /** One due row: dropped when its message is gone, otherwise re-sent. */
    method DrainOne(row: DueRow, peer: PeerId, acked: bool, now: int)
      modifies Parts()
      ensures Now() ==
        if row.target != peer then old(Now())
        else if row.id !in old(Now()).messages then DrainOrphan(old(Now()), row.id, peer)
        else DrainDone(old(Now()), row.id, peer, row.attempts, acked, now)
    {
      if row.target != peer {
        return;
      }
      if row.id !in messages.rows {
        queue.Remove((row.id, peer));
      } else if acked {
        messages.UpdateStatus(row.id, Delivered);
        queue.Remove((row.id, peer));
        Show(StatusChanged(row.id, Delivered));
      } else {
        queue.Bump((row.id, peer), row.attempts + 1, NextRetryAt(row.attempts, now));
      }
    }

    /** Re-sends the rows due for `peer`; `before` is the schedule, `acked` and `clock` answer the i-th due row. */
    method DrainQueueForPeer(peer: PeerId, before: Option<int>, acked: nat -> bool, clock: nat -> int)
      returns (due: seq<DueRow>)
      modifies Parts()
      ensures IsDue(old(queue.rows), before, DRAIN_LIMIT, due)
      ensures Now() == Drained(old(Now()), due, peer, acked, clock)
    {
      due := queue.Due(before, DRAIN_LIMIT);
      var i := 0;
      while i < |due|
        invariant 0 <= i <= |due|
        invariant Now() == Drained(old(Now()), due[..i], peer, acked, clock)
      {
        assert due[..i + 1][..i] == due[..i];
        DrainOne(due[i], peer, acked(i), clock(i));
        i := i + 1;
      }
      assert due[..i] == due;
    }

    method FlushPendingDelete(peer: PeerId, acked: bool, now: int)
      modifies Parts()
      ensures Now() ==
        if peer !in old(Now()).pendingDeletes then old(Now())
        else if old(Now()).pendingDeletes[peer].stored.Corrupt? then FlushCorrupt(old(Now()), peer)
        else FlushDone(old(Now()), peer, old(Now()).pendingDeletes[peer].attempts, acked, now)
    {
      if peer !in pendingDeletes.rows {
        return;
      }
      var pending := pendingDeletes.rows[peer];
      if pending.stored.Corrupt? {
        pendingDeletes.Remove(peer);
        return;
      }
      if acked {
        pendingDeletes.Remove(peer);
      } else {
        pendingDeletes.Bump(peer, pending.attempts + 1, NextRetryAt(pending.attempts, now));
      }
    }

    // -------------------------------------------------------------- contacts

    /** `false` is the invalid-input error for adding oneself. */
    method SendContactRequest(peer: PeerId) returns (ok: bool)
      modifies Parts()
      ensures ok == (peer != me)
      ensures Now() == RequestContact(old(Now()), peer)
    {
      if peer == me {
        return false;
      }
      if peer !in sessions && !HasPending(requests.rows, Outgoing, peer) {
        requests.Insert(Outgoing, peer);
      }
      if peer !in contacts.rows {
        contacts.Insert(peer, PendingOut);
      }
      return true;
    }

    method EnsureIncoming(peer: PeerId)
      modifies Parts()
      ensures Now() == EnsureIncomingRequest(old(Now()), peer)
    {
      if peer in contacts.rows && contacts.rows[peer] == Accepted {
        return;
      }
      if peer !in contacts.rows {
        contacts.Insert(peer, PendingIn);
      }
      if !HasPending(requests.rows, Incoming, peer) {
        requests.Insert(Incoming, peer);
      }
      Show(RequestReceived(peer));
    }

    method OnHandshake(from: PeerId, claimed: PeerId, allowed: bool, valid: bool, responds: bool)
      modifies Parts()
      ensures Now() == HandleHandshake(old(Now()), from, claimed, allowed, valid, responds)
    {
      if !allowed || claimed != from {
        return;
      }
      if claimed in sessions {
        if responds {
          EnsureIncoming(claimed);
        }
        return;
      }
      if !valid {
        return;
      }
      sessions := sessions + {claimed};
      if responds {
        EnsureIncoming(claimed);
      }
    }

    /** `false` is the `NotFound` error of a row that is not pending or a contact that is missing. */
    method AcceptRequest(id: nat) returns (ok: bool)
      modifies Parts()
      ensures Now() == Accept(old(Now()), id)
      ensures ok == (IsPending(old(Now()).requests, id) && old(Now()).requests[id].peer in old(Now()).contacts)
    {
      if !IsPending(requests.rows, id) {
        return false;
      }
      var peer := requests.rows[id].peer;
      var _ := requests.ResolveOne(id, ByAccept);
      ok := contacts.UpdateStatus(peer, Accepted);
      if ok {
        Show(RequestResolved(peer, ByAccept));
        Show(ContactAdded(peer));
      }
    }

    method RejectRequest(id: nat) returns (ok: bool)
      modifies Parts()
      ensures Now() == Reject(old(Now()), id)
      ensures ok == (IsPending(old(Now()).requests, id) && old(Now()).requests[id].peer in old(Now()).contacts)
    {
      if !IsPending(requests.rows, id) {
        return false;
      }
      var peer := requests.rows[id].peer;
      var _ := requests.ResolveOne(id, ByReject);
      ok := contacts.UpdateStatus(peer, Blocked);
      if ok {
        Show(RequestResolved(peer, ByReject));
      }
    }

    method CancelRequest(id: nat) returns (ok: bool)
      modifies Parts()
      ensures Now() == Cancel(old(Now()), id)
      ensures ok == (IsPending(old(Now()).requests, id) && old(Now()).requests[id].direction.Outgoing?
        && old(Now()).requests[id].peer in old(Now()).contacts)
    {
      if !IsPending(requests.rows, id) || requests.rows[id].direction != Outgoing {
        return false;
      }
      var peer := requests.rows[id].peer;
      var _ := requests.ResolveOne(id, ByCancel);
      ok := contacts.UpdateStatus(peer, Removed);
      if ok {
        Show(RequestResolved(peer, ByCancel));
      }
    }

    // -------------------------------------------------------------- deleting

    /** The six tables, then everything kept in memory. */
    method WipeConversation(peer: PeerId)
      modifies Parts(), Memory()
      ensures Now() == WipePeer(old(Now()), peer)
      ensures ConnectionTable.Forgotten(old(Live()), peer, Live())
    {
      messages.DeleteConversation(Between(me, peer));
      sessions := sessions - {peer};
      queue.DeleteTarget(peer);
      requests.DeletePeer(peer);
      contacts.Delete(peer);
      peerState := peerState - {peer};
      table.WipePeer(peer);
    }

    method Delete(peer: PeerId, noticeId: MessageId, now: int)
      modifies Parts(), Memory()
      ensures Now() == DeleteContact(old(Now()), peer, noticeId, now)
      ensures ConnectionTable.Forgotten(old(Live()), peer, Live())
    {
      if peer in sessions {
        pendingDeletes.Enqueue(peer, Envelope(noticeId, me, Control(ChatDeleted)), now);
      }
      WipeConversation(peer);
      Show(ContactRemoved(peer));
    }

    /**
     * `PeerDiscovered`: the dial cache of a contact; the drain, flush and reconcile it then starts are methods of
     * their own.
     */
    method OnDiscovered(peer: PeerId, hasAddresses: bool)
      modifies Parts()
      ensures Now() == Discovered(old(Now()), peer, hasAddresses)
    {
      if hasAddresses && peer in contacts.rows {
        peerState := peerState + {peer};
      }
    }

    // -------------------------------------------------------------- inbound messages

    method OnControl(sender: PeerId, control: ControlPayload)
      modifies Parts(), Memory()
      ensures Now() == HandleControl(old(Now()), sender, control)
      ensures
        if control.ChatDeleted? then ConnectionTable.Forgotten(old(Live()), sender, Live()) else Live() == old(Live())
    {
      match control
      case RejectedRequest =>
        requests.ResolvePendingOf(sender, ByReject);
        var _ := contacts.UpdateStatus(sender, Blocked);
        Show(RequestResolved(sender, ByReject));
      case AcceptedRequest =>
        requests.ResolvePendingOf(sender, ByAccept);
        var _ := contacts.UpdateStatus(sender, Accepted);
        Show(RequestResolved(sender, ByAccept));
        Show(ContactAdded(sender));
      case ChatDeleted =>
        WipeConversation(sender);
        Show(ContactRemoved(sender));
    }

    /** Lists the pending rows of `sender`, resolves each, and shows each resolution. */
    method PromotePendingOut(sender: PeerId)
      modifies Parts()
      ensures Now() == AutoPromote(old(Now()), sender)
    {
      if sender !in contacts.rows || contacts.rows[sender] != PendingOut {
        return;
      }
      var _ := contacts.UpdateStatus(sender, Accepted);
      var todo := PendingIds(requests.rows, sender);
      ghost var all := todo;
      ghost var before := requests.rows;
      ghost var done := 0;
      while todo != {}
        modifies this`events, requests`rows
        invariant todo <= all
        invariant requests.rows.Keys == before.Keys
        invariant forall id :: id in before ==>
          requests.rows[id] == if id in todo then before[id] else ResolveAll(before, sender, ByAccept)[id]
        invariant done + |todo| == |all|
        invariant events == old(events) + Repeat(RequestResolved(sender, ByAccept), done)
        decreases todo
      {
        var id :| id in todo;
        var _ := requests.ResolveOne(id, ByAccept);
        Show(RequestResolved(sender, ByAccept));
        todo := todo - {id};
        assert Repeat(RequestResolved(sender, ByAccept), done + 1) ==
          Repeat(RequestResolved(sender, ByAccept), done) + [RequestResolved(sender, ByAccept)];
        done := done + 1;
      }
      Show(ContactAdded(sender));
    }

    method OnMsg(from: PeerId, e: Envelope, allowed: bool, responds: bool) returns (reply: Option<bool>)
      modifies Parts(), Memory()
      ensures (Now(), reply) == HandleMsg(old(Now()), from, e, allowed, responds)
      ensures
        if Now() != old(Now()) && e.payload == Control(ChatDeleted) then
          ConnectionTable.Forgotten(old(Live()), from, Live())
        else Live() == old(Live())
    {
      if !allowed || Oversized(e) || e.sender != from {
        return Some(false);
      }
      if from !in sessions {
        return Some(false);
      }
      if from in contacts.rows && contacts.rows[from] == Blocked {
        return Some(true);
      }
      match e.payload
      case Garbage(_) => return None;
      case Control(control) =>
        OnControl(from, control);
        return Some(true);
      case Text(_) =>
        var inserted := messages.Insert(e.id, Message(e.sender, me, e.payload, Synced));
        if !responds {
          return None;
        }
        PromotePendingOut(from);
        if inserted {
          Show(MessageReceived(e.id, from));
        }
        return Some(true);
    }

    // -------------------------------------------------------------- reconcile

    /** Our digest, once for every digest the peer lists about the shared conversation. */
    method AnswerHeader(from: PeerId, asked: seq<Digest>) returns (ours: seq<Digest>)
      ensures ours == AnswerDigests(Now(), from, asked)
    {
      ours := [];
      var i := 0;
      while i < |asked|
        invariant 0 <= i <= |asked|
        invariant ours == AnswerDigests(Now(), from, asked[..i])
      {
        assert asked[..i + 1][..i] == asked[..i];
        if asked[i].conv == Between(me, from) {
          var outbound := HighestOutbound(messages.rows, asked[i].conv, me);
          var inbound := HighestInbound(messages.rows, asked[i].conv, me);
          ours := ours + [Digest(asked[i].conv, outbound, inbound)];
        }
        i := i + 1;
      }
      assert asked[..i] == asked;
    }

    method MarkSynced(confirmed: seq<MessageId>)
      modifies Parts()
      ensures Now() == old(Now()).(messages := SetAllSynced(old(Now()).messages, confirmed))
    {
      var i := 0;
      while i < |confirmed|
        modifies messages
        invariant 0 <= i <= |confirmed|
        invariant messages.rows == SetAllSynced(old(messages.rows), confirmed[..i])
      {
        assert confirmed[..i + 1][..i] == confirmed[..i];
        messages.UpdateStatus(confirmed[i], Synced);
        i := i + 1;
      }
      assert confirmed[..i] == confirmed;
    }

    method OnSync(from: PeerId, request: SyncReq, allowed: bool) returns (response: SyncResp)
      modifies Parts()
      ensures (Now(), response) == HandleSync(old(Now()), from, request, allowed)
    {
      if !allowed {
        return EmptyResp(request);
      }
      if from in contacts.rows && contacts.rows[from] == Blocked {
        return EmptyResp(request);
      }
      match request
      case Header(asked) =>
        var ours := AnswerHeader(from, asked);
        return HeaderAck(ours);
      case Pull(conv, since, limit) =>
        if conv != Between(me, from) {
          return PullPage([], false);
        }
        return PageOf(messages.rows, conv, me, since, limit);
      case Ack(conv, confirmed) =>
        if conv == Between(me, from) {
          MarkSynced(confirmed);
        }
        return AckDone;
    }

    /** Drops the queue row and shows the new status of each promoted id, in the order they come. */
    method ShowPromoted(peer: PeerId, ids: set<MessageId>) returns (order: seq<MessageId>)
      modifies this`events, queue
      ensures |order| == |ids| && forall id :: id in order <==> id in ids
      ensures queue.rows == old(queue.rows) - (set id | id in ids :: (id, peer))
      ensures events == old(events) + StatusEvents(order)
    {
      order := [];
      var rest := ids;
      while rest != {}
        modifies this`events, queue
        invariant rest <= ids && |order| + |rest| == |ids|
        invariant forall id :: id in order <==> id in ids - rest
        invariant queue.rows == old(queue.rows) - (set id | id in ids - rest :: (id, peer))
        invariant events == old(events) + StatusEvents(order)
        decreases rest
      {
        var id :| id in rest;
        queue.Remove((id, peer));
        Show(StatusChanged(id, Synced));
        assert StatusEvents(order + [id]) == StatusEvents(order) + [StatusChanged(id, Synced)];
        order := order + [id];
        rest := rest - {id};
      }
      assert ids - rest == ids;
    }

    /** Own rows up to the mark become Synced, leave the queue and are shown, each once. */
    method PromoteUpTo(peer: PeerId, upto: MessageId) returns (order: seq<MessageId>)
      modifies Parts()
      ensures Now() == Promote(old(Now()), peer, upto, order)
      ensures var ids := Promotable(old(Now()).messages, Conv(old(Now()), peer), me, upto);
        |order| == |ids| && forall id :: id in order <==> id in ids
    {
      var ids := messages.PromoteOutboundSynced(Between(me, peer), me, upto);
      assert ids == Promotable(old(messages.rows), Between(me, peer), me, upto);
      assert messages.rows == SetSynced(old(messages.rows), ids);
      order := ShowPromoted(peer, ids);
    }

    method IngestSynced(peer: PeerId, e: Envelope) returns (outcome: Ingested)
      modifies Parts()
      ensures (Now(), outcome) == Ingest(old(Now()), peer, e)
    {
      if Oversized(e) || e.sender != peer {
        return Ignored;
      }
      if peer !in sessions {
        return Ingested.Failed;
      }
      match e.payload
      case Garbage(_) => return Ingested.Failed;
      case Control(_) => return Ignored;
      case Text(_) =>
        var inserted := messages.Insert(e.id, Message(e.sender, me, e.payload, Synced));
        if inserted {
          Show(MessageReceived(e.id, peer));
          return Inserted;
        }
        return Ignored;
    }

    method IngestPage(peer: PeerId, page: seq<Envelope>) returns (persisted: seq<MessageId>)
      modifies Parts()
      ensures (Now(), persisted) == R.IngestAll(old(Now()), peer, page)
    {
      persisted := [];
      var i := 0;
      while i < |page|
        invariant 0 <= i <= |page|
        invariant (Now(), persisted) == R.IngestAll(old(Now()), peer, page[..i])
      {
        assert page[..i + 1][..i] == page[..i];
        var outcome := IngestSynced(peer, page[i]);
        if outcome.Inserted? {
          persisted := persisted + [page[i].id];
        }
        i := i + 1;
      }
      assert page[..i] == page;
    }

    /** The Pull loop: at most 64 pages, until one is missing, empty or the last. */
    method PullPages(peer: PeerId, from: Option<MessageId>, answers: R.PullAnswers)
      returns (persisted: seq<MessageId>, pulls: nat)
      modifies Parts()
      ensures R.PullLoop(old(Now()), peer, from, 0, answers, []) == R.Pulled(Now(), persisted, pulls)
    {
      var since := from;
      persisted, pulls := [], 0;
      ghost var goal := R.PullLoop(Now(), peer, from, 0, answers, []);
      while true
        invariant pulls < SYNC_MAX_PULL_PAGES
        invariant goal == R.PullLoop(Now(), peer, since, pulls, answers, persisted)
        decreases SYNC_MAX_PULL_PAGES - pulls
      {
        ghost var before := Now();
        var answer := answers(pulls, since);
        if answer.None? || !answer.value.PullPage? || answer.value.envelopes == [] {
          R.PullEnds(before, peer, since, pulls, answers, persisted);
          pulls := pulls + 1;
          break;
        }
        var page := answer.value.envelopes;
        var ids := IngestPage(peer, page);
        R.PullGoesOn(before, peer, since, pulls, answers, persisted);
        persisted := persisted + ids;
        pulls := pulls + 1;
        if !answer.value.hasMore || pulls == SYNC_MAX_PULL_PAGES {
          break;
        }
        since := Some(page[|page| - 1].id);
      }
    }

    /**
     * One reconcile; `header` answers the Header, `answers` the Pulls. Returns what was acknowledged and how many
     * requests went out.
     */
    method KickSync(peer: PeerId, header: Option<SyncResp>, answers: R.PullAnswers)
      returns (acked: seq<MessageId>, requests: nat, ghost order: seq<MessageId>)
      modifies Parts()
      ensures R.Outcome(Now(), acked, requests) == R.KickSync(old(Now()), peer, header, order, answers)
    {
      order := [];
      if peer !in contacts.rows || contacts.rows[peer] != Accepted {
        return [], 0, [];
      }
      var conv := Between(me, peer);
      var myInbound := HighestInbound(messages.rows, conv, me);
      if header.None? || !header.value.HeaderAck? {
        return [], 1, [];
      }
      var their := R.TheirDigest(header.value.ours, conv);
      if their.None? {
        return [], 1, [];
      }
      if their.value.highestInbound.Some? {
        order := PromoteUpTo(peer, their.value.highestInbound.value);
      }
      if !NeedPull(their.value.highestOutbound, myInbound) {
        return [], 1, order;
      }
      var persisted, pulls := PullPages(peer, myInbound, answers);
      return persisted, 1 + pulls + if persisted != [] then 1 else 0, order;
    }
  }
}
