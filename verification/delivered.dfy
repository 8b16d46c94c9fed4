/** What an acknowledgement proves, in every run of two nodes. */
module Delivered {
  import opened Types
  import opened Ordering
  import opened Storage
  import opened Node
  import opened NodeRuns
  import opened World

  /** The other side holds the message, with this sender and these contents. */
  ghost predicate Got(w: World, from: Side, e: Envelope) {
    var t := w.At(from.Other()).node.messages;
    e.id in t && EnvelopeOf(t, e.id) == e
  }

  ghost predicate Blocks(w: World, from: Side) {
    StatusOf(w.At(from.Other()).node, w.Me(from)) == Some(Blocked)
  }

  /** What an acknowledgement of `e` stands for: the text is held, the peer is erased, or the sender is blocked. */
  ghost predicate Witness(w: World, from: Side, e: Envelope) {
    || Blocks(w, from)
    || (e.payload.Text? && Got(w, from, e))
    || (e.payload == Control(ChatDeleted) && Erased(w.At(from.Other()).node, w.Me(from)))
  }

  lemma TextAckIsEvidence(n: Node, from: PeerId, e: Envelope, allowed: bool, id: MessageId)
    requires e.payload.Text? && HandleMsg(n, from, e, allowed, true).1 == Some(true)
      && StatusOf(n, from) != Some(Blocked)
    ensures e.sender == from && e.id in HandleMsg(n, from, e, allowed, true).0.messages
    ensures e.id !in n.messages ==> EnvelopeOf(HandleMsg(n, from, e, allowed, true).0.messages, e.id) == e
  {
    PromotionUpdates(StoreReceived(n, e).1, from);
  }

  lemma NoticeAckIsEvidence(n: Node, from: PeerId, e: Envelope, allowed: bool)
    requires e.payload == Control(ChatDeleted)
      && HandleMsg(n, from, e, allowed, true).1 == Some(true) && StatusOf(n, from) != Some(Blocked)
    ensures Erased(HandleMsg(n, from, e, allowed, true).0, from)
  {
  }

  /** An acknowledged arrival leaves a witness, before or after it. */
  lemma AckIsEvidence(w: World, e: Event, k: nat)
    requires Known(w) && Possible(w, e) && k in w.flights && AckedNow(w, e, k)
    ensures Witness(w, w.flights[k].from, w.flights[k].envelope)
      || Witness(Next(w, e), w.flights[k].from, w.flights[k].envelope)
  {
    var f := w.flights[k];
    assert FlightKnown(w, k);
    EventContinues(w, e);
    NodeAfter(w, e, f.from.Other());
    var n := w.At(f.from.Other()).node;
    if !Blocks(w, f.from) {
      if f.envelope.payload.Text? {
        TextAckIsEvidence(n, w.Me(f.from), f.envelope, e.allowed, f.envelope.id);
        assert RowKnown(w, f.from.Other(), f.envelope.id);
        RowStep(n, ActOf(w, e).step, f.envelope.id);
      } else {
        NoticeAckIsEvidence(n, w.Me(f.from), f.envelope, e.allowed);
      }
    }
  }

  /**
   * Conversely, a text that arrives within the rate limit at a peer with a session is acknowledged if the answer
   * gets out.
   */
  lemma HonestArrivalAcked(w: World, e: Event, k: nat)
    requires Known(w) && e == Arrive(k, true, true) && k in w.flights && !w.flights[k].task.Flush?
    requires IsCopy(w, w.flights[k].from, w.flights[k].envelope)
    requires w.Me(w.flights[k].from) in w.At(w.flights[k].from.Other()).node.sessions
    ensures Next(w, e).flights[k].acked
    ensures Got(Next(w, e), w.flights[k].from, w.flights[k].envelope) || Blocks(w, w.flights[k].from)
  {
    var f := w.flights[k];
    var n := w.At(f.from.Other()).node;
    NodeAfter(w, e, f.from.Other());
    assert RowKnown(w, f.from.Other(), f.envelope.id);
    if !Blocks(w, f.from) {
      TextAckIsEvidence(n, w.Me(f.from), f.envelope, true, f.envelope.id);
      RowStep(n, ActOf(w, e).step, f.envelope.id);
    }
  }

  /** Flight `k` of the state `ws[i]` was launched at `l`, and if it is acknowledged, a witness stood after that. */
  ghost predicate Tracked(ws: seq<World>, es: seq<Event>, i: nat, k: nat, l: nat)
    requires IsHistory(ws, es) && i < |ws| && k in ws[i].flights
  {
    var f := ws[i].flights[k];
    && l < i
    && HappensAt(ws, es, l)
    && Launches(es[l])
    && ws[l].nextFlight == k && LaunchedBy(ws[l], es[l]) == f.(acked := false, ended := false)
    && (f.acked ==> Seen(ws, l, i, f.from, f.envelope))
  }

  ghost predicate Seen(ws: seq<World>, l: nat, i: nat, from: Side, e: Envelope)
    requires i < |ws|
  {
    exists j :: l <= j <= i && Witness(ws[j], from, e)
  }

  lemma {:induction false} FlightHistory(ws: seq<World>, es: seq<Event>, i: nat, k: nat) returns (l: nat)
    requires IsHistory(ws, es) && i < |ws| && k in ws[i].flights
    ensures Tracked(ws, es, i, k, l)
    decreases i
  {
    assert ws[0].flights == map[];
    var w, e := ws[i - 1], es[i - 1];
    assert HappensAt(ws, es, i - 1);
    RunIsKnown(ws, es, i - 1);
    assert FlightKnown(w, k);
    FlightsAfter(w, e, k);
    if k in w.flights {
      l := FlightHistory(ws, es, i - 1, k);
      if ws[i].flights[k].acked && !w.flights[k].acked {
        AckIsEvidence(w, e, k);
      }
    } else {
      l := i - 1;
    }
  }

  // ---------------------------------------------------------------- Delivered

  ghost predicate IsDelivered(w: World, s: Side, id: MessageId) {
    Own(w.At(s).node, id) && w.At(s).node.messages[id].status == Delivered
  }

  /** On the node itself, only the acknowledged end of a send of row `id` turns it Delivered. */
  lemma DeliveredBy(n: Node, step: Step, id: MessageId)
    requires Own(Do(n, step), id) && Do(n, step).messages[id].status == Delivered
    ensures Own(n, id) && EnvelopeOf(Do(n, step).messages, id) == EnvelopeOf(n.messages, id)
    ensures n.messages[id].status != Delivered ==> (step.PushEnded? || step.DrainEnded?) && step.id == id && step.acked
  {
    RowStep(n, step, id);
    if id in n.messages {
      StatusStep(n, step, id);
    }
  }

  /** An own row turns Delivered only when an acknowledged send of that very message ends. */
  lemma DeliveredStep(w: World, e: Event, s: Side, id: MessageId)
    requires Known(w) && Possible(w, e) && IsDelivered(Next(w, e), s, id)
    ensures Own(w.At(s).node, id)
      && EnvelopeOf(Next(w, e).At(s).node.messages, id) == EnvelopeOf(w.At(s).node.messages, id)
    ensures !IsDelivered(w, s, id) ==>
      && e.Finish? && w.flights[e.flight].from == s && w.flights[e.flight].acked
      && w.flights[e.flight].envelope == EnvelopeOf(w.At(s).node.messages, id)
  {
    NodeAfter(w, e, s);
    if ActOf(w, e).Act? && ActOf(w, e).side == s {
      DeliveredBy(w.At(s).node, ActOf(w, e).step, id);
      if !IsDelivered(w, s, id) {
        DeliveringFlight(w, e, s, id);
      }
    }
  }

  lemma DeliveringFlight(w: World, e: Event, s: Side, id: MessageId)
    requires Known(w) && Possible(w, e) && Own(w.At(s).node, id)
    requires ActOf(w, e).Act? && ActOf(w, e).side == s
    requires var step := ActOf(w, e).step; (step.PushEnded? || step.DrainEnded?) && step.id == id && step.acked
    ensures e.Finish? && w.flights[e.flight].from == s && w.flights[e.flight].acked
    ensures w.flights[e.flight].envelope == EnvelopeOf(w.At(s).node.messages, id)
  {
    assert RowKnown(w, s, id);
    assert FlightKnown(w, e.flight);
  }

  lemma SeenLater(ws: seq<World>, l: nat, i: nat, l': nat, i': nat, from: Side, e: Envelope)
    requires i < |ws| && i' < |ws| && l' <= l && i <= i' && Seen(ws, l, i, from, e)
    ensures Seen(ws, l', i', from, e)
  {
  }

  /** The row turned Delivered in the last event: a flight brought the evidence. */
  lemma DeliveredNow(ws: seq<World>, es: seq<Event>, i: nat, s: Side, id: MessageId)
    requires IsHistory(ws, es) && i < |es| && IsDelivered(ws[i + 1], s, id) && !IsDelivered(ws[i], s, id)
    ensures Seen(ws, 0, i, s, EnvelopeOf(ws[i + 1].At(s).node.messages, id))
  {
    RunIsKnown(ws, es, i);
    assert HappensAt(ws, es, i);
    DeliveredStep(ws[i], es[i], s, id);
    var k := es[i].flight;
    var l := FlightHistory(ws, es, i, k);
    SeenLater(ws, l, i, 0, i, s, ws[i].flights[k].envelope);
  }

  lemma {:induction false} DeliveredSeen(ws: seq<World>, es: seq<Event>, i: nat, s: Side, id: MessageId)
    requires IsHistory(ws, es) && i < |ws| && IsDelivered(ws[i], s, id)
    ensures Seen(ws, 0, i, s, EnvelopeOf(ws[i].At(s).node.messages, id))
    decreases i
  {
    assert ws[0].At(s).node.messages == map[];
    var e := EnvelopeOf(ws[i].At(s).node.messages, id);
    if IsDelivered(ws[i - 1], s, id) {
      DeliveredSeen(ws, es, i - 1, s, id);
      RunIsKnown(ws, es, i - 1);
      assert HappensAt(ws, es, i - 1);
      DeliveredStep(ws[i - 1], es[i - 1], s, id);
    } else {
      DeliveredNow(ws, es, i - 1, s, id);
    }
    SeenLater(ws, 0, i - 1, 0, i, s, e);
  }

  lemma TextWitness(w: World, from: Side, e: Envelope)
    requires e.payload.Text? && Witness(w, from, e)
    ensures Got(w, from, e) || Blocks(w, from)
  {
  }

  /**
   * In every run, whenever an own message is marked Delivered, at some state up to now the peer held that message with
   * these contents, or had the sender blocked.
   */
  lemma DeliveredIsSound(ws: seq<World>, es: seq<Event>, i: nat, s: Side, id: MessageId)
    requires IsHistory(ws, es) && i < |ws| && IsDelivered(ws[i], s, id)
    ensures exists j :: 0 <= j <= i && (Got(ws[j], s, EnvelopeOf(ws[i].At(s).node.messages, id)) || Blocks(ws[j], s))
  {
    DeliveredSeen(ws, es, i, s, id);
    RunIsKnown(ws, es, i);
    assert RowKnown(ws[i], s, id);
    var e := EnvelopeOf(ws[i].At(s).node.messages, id);
    var j :| 0 <= j <= i && Witness(ws[j], s, e);
    TextWitness(ws[j], s, e);
  }

  // ---------------------------------------------------------------- the deletion notice

  ghost predicate HasNotice(w: World, s: Side) {
    w.Peer(s) in w.At(s).node.pendingDeletes
  }

  function NoticeOf(w: World, s: Side): Stored
    requires HasNotice(w, s)
  {
    w.At(s).node.pendingDeletes[w.Peer(s)].stored
  }

  predicate IsDelete(e: Event, s: Side) {
    e.Local? && e.side == s && e.step.Delete?
  }

  /** A deletion with a session, which seals a new notice and puts it in place of any older one. */
  ghost predicate Seals(w: World, e: Event, s: Side) {
    IsDelete(e, s) && w.Peer(s) in w.At(s).node.sessions
  }

  /** The only ways a notice comes, stays and goes. */
  lemma NoticeEvent(w: World, e: Event, s: Side)
    requires Known(w) && Possible(w, e)
    ensures HasNotice(w, s) && !HasNotice(Next(w, e), s) ==>
      e.Finish? && e.acked && w.flights[e.flight].task.Flush? && w.flights[e.flight].from == s
    ensures !Seals(w, e, s) && HasNotice(Next(w, e), s) ==> HasNotice(w, s) && NoticeOf(Next(w, e), s) == NoticeOf(w, s)
    ensures Seals(w, e, s) ==>
      HasNotice(Next(w, e), s)
        && NoticeOf(Next(w, e), s) == Sealed(Envelope(e.step.noticeId, w.Me(s), Control(ChatDeleted)))
  {
    if IsDelete(e, s) {
      DeleteEvent(w, e, s);
    } else {
      OtherEvent(w, e, s);
    }
  }

  /** Without a deletion a notice stays as it is, or an acknowledged flush takes it away. */
  lemma OtherEvent(w: World, e: Event, s: Side)
    requires Known(w) && Possible(w, e) && !IsDelete(e, s)
    ensures HasNotice(w, s) && !HasNotice(Next(w, e), s) ==>
      e.Finish? && e.acked && w.flights[e.flight].task.Flush? && w.flights[e.flight].from == s
    ensures HasNotice(Next(w, e), s) ==> HasNotice(w, s) && NoticeOf(Next(w, e), s) == NoticeOf(w, s)
  {
    EventContinues(w, e);
    NodeAfter(w, e, s);
    assert NoticeKnown(w, s);
    if ActOf(w, e).Act? && ActOf(w, e).side == s {
      NoticeStep(w.At(s).node, ActOf(w, e).step, w.Peer(s));
    }
  }

  lemma DeleteEvent(w: World, e: Event, s: Side)
    requires Possible(w, e) && IsDelete(e, s)
    ensures Seals(w, e, s) ==>
      HasNotice(Next(w, e), s)
        && NoticeOf(Next(w, e), s) == Sealed(Envelope(e.step.noticeId, w.Me(s), Control(ChatDeleted)))
    ensures !Seals(w, e, s) ==>
      (HasNotice(Next(w, e), s) <==> HasNotice(w, s)) && (HasNotice(w, s) ==> NoticeOf(Next(w, e), s) == NoticeOf(w, s))
  {
    EventContinues(w, e);
    NodeAfter(w, e, s);
    DeletionLeavesNotice(w.At(s).node, w.Peer(s), e.step.noticeId, e.step.now);
  }

  ghost predicate SealsAt(ws: seq<World>, es: seq<Event>, m: int, s: Side)
    requires IsHistory(ws, es) && 0 <= m < |es|
  {
    HappensAt(ws, es, m) && Seals(ws[m], es[m], s)
  }

  /** No notice was sealed in the events from `l` up to `i`. */
  ghost predicate NoneSealed(ws: seq<World>, es: seq<Event>, l: int, i: int, s: Side)
    requires IsHistory(ws, es)
  {
    forall m :: l <= m < i && 0 <= m < |es| ==> !SealsAt(ws, es, m, s)
  }

  /** Every sealed notice has an id of its own. */
  ghost predicate FreshNotices(ws: seq<World>, es: seq<Event>, s: Side)
    requires IsHistory(ws, es)
  {
    forall m, n :: 0 <= m < n < |es| && SealsAt(ws, es, m, s) && SealsAt(ws, es, n, s) ==>
      es[m].step.noticeId != es[n].step.noticeId
  }

  lemma NoticeNext(ws: seq<World>, es: seq<Event>, i: nat, s: Side)
    requires IsHistory(ws, es) && i < |es| && HasNotice(ws[i + 1], s)
    ensures SealsAt(ws, es, i, s) ==>
      NoticeOf(ws[i + 1], s) == Sealed(Envelope(es[i].step.noticeId, ws[i].Me(s), Control(ChatDeleted)))
    ensures !SealsAt(ws, es, i, s) ==> HasNotice(ws[i], s) && NoticeOf(ws[i + 1], s) == NoticeOf(ws[i], s)
  {
    RunIsKnown(ws, es, i);
    assert HappensAt(ws, es, i);
    NoticeEvent(ws[i], es[i], s);
  }

  lemma {:induction false} NoticeStays(ws: seq<World>, es: seq<Event>, l: nat, i: nat, s: Side)
    requires IsHistory(ws, es) && l <= i < |ws| && HasNotice(ws[i], s) && NoneSealed(ws, es, l, i, s)
    ensures HasNotice(ws[l], s) && NoticeOf(ws[i], s) == NoticeOf(ws[l], s)
    decreases i
  {
    if l < i {
      NoticeNext(ws, es, i - 1, s);
      NoticeStays(ws, es, l, i - 1, s);
    }
  }

  lemma NothingAtStart(ws: seq<World>, es: seq<Event>, s: Side)
    requires IsHistory(ws, es)
    ensures !HasNotice(ws[0], s)
  {
  }

  /** The notice in place at `i` was sealed in event `m`, and none after it. */
  ghost predicate SealedIn(ws: seq<World>, es: seq<Event>, m: int, i: int, s: Side)
    requires IsHistory(ws, es) && 0 <= i < |ws| && HasNotice(ws[i], s)
  {
    && 0 <= m < i && SealsAt(ws, es, m, s) && NoneSealed(ws, es, m + 1, i, s)
    && NoticeOf(ws[i], s) == Sealed(Envelope(es[m].step.noticeId, ws[m].Me(s), Control(ChatDeleted)))
  }

  lemma SealedStays(ws: seq<World>, es: seq<Event>, m: nat, i: nat, s: Side)
    requires IsHistory(ws, es) && i < |es| && HasNotice(ws[i + 1], s) && !SealsAt(ws, es, i, s)
    requires HasNotice(ws[i], s) && SealedIn(ws, es, m, i, s)
    ensures SealedIn(ws, es, m, i + 1, s)
  {
    NoticeNext(ws, es, i, s);
    forall n | m + 1 <= n < i + 1 && 0 <= n < |es| ensures !SealsAt(ws, es, n, s) {
      assert n < i ==> !SealsAt(ws, es, n, s);
    }
  }

  lemma SealedNow(ws: seq<World>, es: seq<Event>, i: nat, s: Side)
    requires IsHistory(ws, es) && i < |es| && HasNotice(ws[i + 1], s) && SealsAt(ws, es, i, s)
    ensures SealedIn(ws, es, i, i + 1, s)
  {
    NoticeNext(ws, es, i, s);
  }

  /** The notice in place was sealed by the latest deletion with a session. */
  lemma {:induction false} SealedBy(ws: seq<World>, es: seq<Event>, i: nat, s: Side) returns (m: nat)
    requires IsHistory(ws, es) && i < |ws| && HasNotice(ws[i], s)
    ensures SealedIn(ws, es, m, i, s)
    decreases i
  {
    NothingAtStart(ws, es, s);
    if SealsAt(ws, es, i - 1, s) {
      m := i - 1;
      SealedNow(ws, es, i - 1, s);
    } else {
      NoticeNext(ws, es, i - 1, s);
      m := SealedBy(ws, es, i - 1, s);
      SealedStays(ws, es, m, i - 1, s);
    }
  }

  /** The notice a flush carries is the one in place when it started. */
  lemma FlushCarries(ws: seq<World>, es: seq<Event>, i: nat, k: nat, l: nat)
    requires IsHistory(ws, es) && i < |ws| && k in ws[i].flights
      && ws[i].flights[k].task.Flush? && Tracked(ws, es, i, k, l)
    ensures var f := ws[i].flights[k];
      es[l] == StartFlush(f.from) && HasNotice(ws[l], f.from) && NoticeOf(ws[l], f.from) == Sealed(f.envelope)
  {
  }

  /** The notice in place at a later state is the flushed one exactly if none was sealed since the flush started. */
  lemma FlushedNoticeIff(ws: seq<World>, es: seq<Event>, i: nat, k: nat, l: nat, s: Side)
    requires IsHistory(ws, es) && i < |ws| && k in ws[i].flights
      && ws[i].flights[k].task.Flush? && ws[i].flights[k].from == s
    requires Tracked(ws, es, i, k, l) && HasNotice(ws[i], s) && FreshNotices(ws, es, s)
    ensures NoticeOf(ws[i], s) == Sealed(ws[i].flights[k].envelope) <==> NoneSealed(ws, es, l, i, s)
  {
    FlushCarries(ws, es, i, k, l);
    if NoneSealed(ws, es, l, i, s) {
      NoticeStays(ws, es, l, i, s);
    } else {
      var first := SealedBy(ws, es, l, s);
      var last := SealedBy(ws, es, i, s);
      var m :| l <= m < i && 0 <= m < |es| && SealsAt(ws, es, m, s);
      assert m <= last;
      assert es[first].step.noticeId != es[last].step.noticeId;
    }
  }

  /**
   * A queued deletion notice leaves the outbox only when a flush that started at `l` ends acknowledged, and at `j`,
   * after it started, the peer had erased us or had us blocked. What leaves is the notice that was flushed exactly if
   * no deletion with a session sealed another one since the flush started.
   */
  lemma NoticeDropped(ws: seq<World>, es: seq<Event>, i: nat, s: Side) returns (l: nat, j: nat)
    requires IsHistory(ws, es) && i < |es| && HasNotice(ws[i], s) && !HasNotice(ws[i + 1], s)
    ensures es[i].Finish? && es[i].acked && es[i].flight in ws[i].flights
    ensures l <= j <= i && es[l] == StartFlush(s) && HasNotice(ws[l], s)
    ensures NoticeOf(ws[l], s) == Sealed(ws[i].flights[es[i].flight].envelope)
    ensures Erased(ws[j].At(s.Other()).node, ws[j].Me(s)) || Blocks(ws[j], s)
    ensures FreshNotices(ws, es, s) ==>
      (NoticeOf(ws[i], s) == Sealed(ws[i].flights[es[i].flight].envelope) <==> NoneSealed(ws, es, l, i, s))
  {
    RunIsKnown(ws, es, i);
    assert HappensAt(ws, es, i);
    NoticeEvent(ws[i], es[i], s);
    var k := es[i].flight;
    l := FlightHistory(ws, es, i, k);
    FlushCarries(ws, es, i, k, l);
    j := FlushWitness(ws, es, i, k, l);
    if FreshNotices(ws, es, s) {
      FlushedNoticeIff(ws, es, i, k, l, s);
    }
  }

  lemma FlushWitness(ws: seq<World>, es: seq<Event>, i: nat, k: nat, l: nat) returns (j: nat)
    requires IsHistory(ws, es) && i < |ws| && k in ws[i].flights
      && ws[i].flights[k].task.Flush? && ws[i].flights[k].acked
    requires Tracked(ws, es, i, k, l)
    ensures l <= j <= i
    ensures var s := ws[i].flights[k].from; Erased(ws[j].At(s.Other()).node, ws[j].Me(s)) || Blocks(ws[j], s)
  {
    var f := ws[i].flights[k];
    RunIsKnown(ws, es, i);
    assert FlightKnown(ws[i], k);
    j :| l <= j <= i && Witness(ws[j], f.from, f.envelope);
  }

  // ---------------------------------------------------------------- a replaced notice can be lost

  function Notice(id: MessageId): Envelope {
    Envelope(id, 1, Control(ChatDeleted))
  }

  /** A node with empty message, queue, contact and request tables that has used `next` request ids. */
  function Bare(me: PeerId, next: nat, sessions: set<PeerId>, notices: PendingDeletes, events: seq<AppEvent>): Node {
    Node(me, map[], map[], next, map[], sessions, map[], notices, {}, {}, events)
  }

  /** The same node with one contact and one pending request of it. */
  function Met(n: Node, peer: PeerId, status: ContactStatus, direction: Direction): Node {
    n.(contacts := map[peer := status], requests := map[n.nextRequest := Request(direction, peer, None)],
       nextRequest := n.nextRequest + 1)
  }

  function Queued(id: MessageId): PendingDeletes {
    map[2 := PendingDelete(Sealed(Notice(id)), 0, 0)]
  }

  /** Node 1 once it has asked node 2 for the `round`-th time, before and after the handshake comes back. */
  function Asker(round: nat, sessions: set<PeerId>, notices: PendingDeletes, events: seq<AppEvent>): Node {
    Met(Bare(1, round, sessions, notices, events), 2, PendingOut, Outgoing)
  }

  /** Node 2 once it has accepted the handshake. */
  function Asked(round: nat, events: seq<AppEvent>): Node {
    Met(Bare(2, round, {1}, map[], events + [RequestReceived(1)]), 1, PendingIn, Incoming)
  }

  lemma WipeMet(n: Node, peer: PeerId, status: ContactStatus, direction: Direction, notices: PendingDeletes)
    requires n == Bare(n.me, n.nextRequest, {peer}, n.pendingDeletes, n.events)
    ensures WipePeer(Met(n, peer, status, direction).(pendingDeletes := notices), peer)
      == Bare(n.me, n.nextRequest + 1, {}, notices, n.events)
  {
    var wiped := WipePeer(Met(n, peer, status, direction), peer);
    assert wiped.messages == map[] && wiped.requests == map[] && wiped.queue == map[] && wiped.contacts == map[];
    assert wiped.sessions == {} && wiped.peerState == {};
  }

  lemma AskerAsks(round: nat, notices: PendingDeletes, events: seq<AppEvent>)
    ensures RequestContact(Bare(1, round, {}, notices, events), 2) == Asker(round, {}, notices, events)
  {
  }

  lemma AskedWelcomes(round: nat, events: seq<AppEvent>)
    ensures HandleHandshake(Bare(2, round, {}, map[], events), 1, 1, true, true, true) == Asked(round, events)
  {
    assert {} + {1} == {1};
  }

  lemma AskerDeletes(round: nat, notices: PendingDeletes, events: seq<AppEvent>, id: MessageId)
    requires 2 in notices ==> notices[2].attempts == 0
    requires notices.Keys <= {2}
    ensures DeleteContact(Asker(round, {2}, notices, events), 2, id, 0)
      == Bare(1, round + 1, {}, Queued(id), events + [ContactRemoved(2)])
  {
    WipeMet(Bare(1, round, {2}, notices, events), 2, PendingOut, Outgoing, Queued(id));
    assert DeleteEnqueued(notices, 2, Notice(id), 0) == Queued(id);
  }

  lemma AskedErases(round: nat, events: seq<AppEvent>, id: MessageId)
    ensures HandleMsg(Asked(round, events), 1, Notice(id), true, true)
      == (Bare(2, round + 1, {}, map[], events + [RequestReceived(1), ContactRemoved(1)]), Some(true))
  {
    WipeMet(Bare(2, round, {1}, map[], events + [RequestReceived(1)]), 1, PendingIn, Incoming, map[]);
    assert events + [RequestReceived(1)] + [ContactRemoved(1)] == events + [RequestReceived(1), ContactRemoved(1)];
    assert HandleControl(Asked(round, events), 1, ChatDeleted)
      == Bare(2, round + 1, {}, map[], events + [RequestReceived(1), ContactRemoved(1)]);
  }

  datatype Launched = NotYet | UnderWay | Acked | Over

  function Scene(a: Node, b: Node, flight: Launched): World {
    var flights := if flight.NotYet? then map[]
      else map[0 := Flight(A, Flush(0), Notice(10), !flight.UnderWay?, flight.Over?)];
    World(End(a, Idle), End(b, Idle), flights, if flight.NotYet? then 0 else 1, {}, map[])
  }

  const GONE: seq<AppEvent> := [ContactRemoved(2)]
  const TOLD: seq<AppEvent> := [RequestReceived(1), ContactRemoved(1)]

  /** The states of the run, event by event as in the script. */
  function SceneAt(i: nat): World {
    if i == 0 then Scene(Bare(1, 0, {}, map[], []), Bare(2, 0, {}, map[], []), NotYet)
    else if i == 1 then Scene(Asker(0, {}, map[], []), Bare(2, 0, {}, map[], []), NotYet)
    else if i == 2 then Scene(Asker(0, {}, map[], []), Asked(0, []), NotYet)
    else if i == 3 then Scene(Asker(0, {2}, map[], []), Asked(0, []), NotYet)
    else if i == 4 then Scene(Bare(1, 1, {}, Queued(10), GONE), Asked(0, []), NotYet)
    else if i == 5 then Scene(Bare(1, 1, {}, Queued(10), GONE), Asked(0, []), UnderWay)
    else if i == 6 then Scene(Bare(1, 1, {}, Queued(10), GONE), Bare(2, 1, {}, map[], TOLD), Acked)
    else if i == 7 then Scene(Asker(1, {}, Queued(10), GONE), Bare(2, 1, {}, map[], TOLD), Acked)
    else if i == 8 then Scene(Asker(1, {}, Queued(10), GONE), Asked(1, TOLD), Acked)
    else if i == 9 then Scene(Asker(1, {2}, Queued(10), GONE), Asked(1, TOLD), Acked)
    else if i == 10 then Scene(Bare(1, 2, {}, Queued(11), GONE + GONE), Asked(1, TOLD), Acked)
    else Scene(Bare(1, 2, {}, map[], GONE + GONE), Asked(1, TOLD), Over)
  }

  /**
   * Ask, be welcomed, delete, deliver the notice, ask and be welcomed again, delete again, and only now the first
   * ack.
   */
  function EventAt(i: nat): Event {
    if i == 0 || i == 6 then Local(A, AskContact(2))
    else if i == 1 || i == 7 then Local(B, Handshake(1, 1, true, true, true))
    else if i == 2 || i == 8 then Local(A, HandshakeReturned(2))
    else if i == 3 then Local(A, Delete(2, 10, 0))
    else if i == 4 then StartFlush(A)
    else if i == 5 then Arrive(0, true, true)
    else if i == 9 then Local(A, Delete(2, 11, 0))
    else Finish(0, true, 0)
  }

  function Scenes(): seq<World> {
    seq(12, i requires 0 <= i => SceneAt(i))
  }

  function Script(): seq<Event> {
    seq(11, i requires 0 <= i => EventAt(i))
  }

  predicate Leads(i: nat) {
    Possible(SceneAt(i), EventAt(i)) && SceneAt(i + 1) == Next(SceneAt(i), EventAt(i))
  }

  lemma AskScene(i: nat)
    requires i == 0 || i == 6
    ensures Leads(i)
  {
    if i == 0 {
      AskerAsks(0, map[], []);
      LocalEvent(SceneAt(0), A, AskContact(2), Asker(0, {}, map[], []));
    } else {
      AskerAsks(1, Queued(10), GONE);
      LocalEvent(SceneAt(6), A, AskContact(2), Asker(1, {}, Queued(10), GONE));
    }
  }

  lemma WelcomeScene(i: nat)
    requires i == 1 || i == 7
    ensures Leads(i)
  {
    if i == 1 {
      AskedWelcomes(0, []);
      LocalEvent(SceneAt(1), B, Handshake(1, 1, true, true, true), Asked(0, []));
    } else {
      AskedWelcomes(1, TOLD);
      LocalEvent(SceneAt(7), B, Handshake(1, 1, true, true, true), Asked(1, TOLD));
    }
  }

  lemma ReturnScene(i: nat)
    requires i == 2 || i == 8
    ensures Leads(i)
  {
    assert {} + {2} == {2};
    if i == 2 {
      LocalEvent(SceneAt(2), A, HandshakeReturned(2), Asker(0, {2}, map[], []));
    } else {
      LocalEvent(SceneAt(8), A, HandshakeReturned(2), Asker(1, {2}, Queued(10), GONE));
    }
  }

  lemma DeleteScene(i: nat)
    requires i == 3 || i == 9
    ensures Leads(i)
  {
    if i == 3 {
      AskerDeletes(0, map[], [], 10);
      assert [] + [ContactRemoved(2)] == GONE;
      LocalEvent(SceneAt(3), A, Delete(2, 10, 0), Bare(1, 1, {}, Queued(10), GONE));
    } else {
      AskerDeletes(1, Queued(10), GONE, 11);
      LocalEvent(SceneAt(9), A, Delete(2, 11, 0), Bare(1, 2, {}, Queued(11), GONE + GONE));
    }
  }

  lemma FlushScene()
    ensures Leads(4)
  {
  }

  lemma NoticeArrives(w: World, w': World)
    requires w.a.node.me == 1 && w.b.node == Asked(0, [])
      && w.flights == map[0 := Flight(A, Flush(0), Notice(10), false, false)]
    requires w' == w.WithNode(B, Bare(2, 1, {}, map[], TOLD)).(flights := w'.flights)
    requires w'.flights == map[0 := Flight(A, Flush(0), Notice(10), true, false)]
    ensures Possible(w, Arrive(0, true, true)) && w' == Next(w, Arrive(0, true, true))
  {
    AskedErases(0, [], 10);
    assert [] + TOLD == TOLD;
    ArriveEvent(w, 0, Bare(2, 1, {}, map[], TOLD), w');
  }

  lemma ArriveScene()
    ensures Leads(5)
  {
    NoticeArrives(SceneAt(5), SceneAt(6));
  }

  lemma LateAckScene()
    ensures Leads(10)
  {
  }

  lemma SceneStep(i: nat)
    requires i < 11
    ensures Leads(i)
  {
    if i == 0 || i == 6 {
      AskScene(i);
    } else if i == 1 || i == 7 {
      WelcomeScene(i);
    } else if i == 2 || i == 8 {
      ReturnScene(i);
    } else if i == 3 || i == 9 {
      DeleteScene(i);
    } else if i == 4 {
      FlushScene();
    } else if i == 5 {
      ArriveScene();
    } else {
      LateAckScene();
    }
  }

  lemma ScenesAreHistory()
    ensures IsHistory(Scenes(), Script()) && |Script()| == 11
  {
    assert Scenes()[0] == SceneAt(0) == Start(1, 2);
    forall i | 0 <= i < 11 ensures HappensAt(Scenes(), Script(), i) {
      SceneStep(i);
      assert Scenes()[i] == SceneAt(i) && Scenes()[i + 1] == SceneAt(i + 1) && Script()[i] == EventAt(i);
    }
  }

  /** Both rounds of contact are genuine: asked without a session, and welcomed. */
  lemma ScenesAreGenuine()
    ensures Genuine(Scenes(), Script()) && |Script()| == 11
  {
    ScenesAreHistory();
    forall i | 0 <= i < 11 ensures CausedAt(Scenes(), Script(), i) {
      SceneCaused(Scenes(), Script(), i);
    }
  }

  lemma SceneCaused(ws: seq<World>, es: seq<Event>, i: nat)
    requires ws == Scenes() && es == Script() && IsHistory(ws, es) && |es| == 11 && i < 11
    ensures CausedAt(ws, es, i)
  {
    if NeedsCause(es[i]) {
      WhichNeedCause(i);
      RoundCaused(ws, es, if i <= 2 then 0 else 6);
    } else {
      OthersCaused(ws, es, i);
    }
  }

  lemma WhichNeedCause(i: nat)
    requires i < 11 && NeedsCause(Script()[i])
    ensures i in {1, 2, 7, 8}
  {
    assert Script()[i] == EventAt(i);
  }

  /** The ask, the welcome and the return of one round of contact. */
  lemma RoundAsked(j: nat)
    requires (j == 0 || j == 6) && IsHistory(Scenes(), Script()) && |Script()| == 11
    ensures AskedAt(Scenes(), Script(), j, A)
      && WelcomedAt(Scenes(), Script(), j + 1, A) && NoReturn(Script(), j, j + 2, A)
    ensures Script()[j + 1] == Local(B, Handshake(1, 1, true, true, true))
      && Script()[j + 2] == Local(A, HandshakeReturned(2))
  {
    assert Script()[j] == EventAt(j) && Script()[j + 1] == EventAt(j + 1) && Script()[j + 2] == EventAt(j + 2);
    assert Scenes()[j] == SceneAt(j) && Scenes()[j + 1] == SceneAt(j + 1);
  }

  lemma RoundCaused(ws: seq<World>, es: seq<Event>, j: nat)
    requires (j == 0 || j == 6) && ws == Scenes() && es == Script() && IsHistory(ws, es) && |es| == 11
    ensures CausedAt(ws, es, j + 1) && CausedAt(ws, es, j + 2)
  {
    RoundAsked(j);
    HandshakeCaused(ws, es, j + 1, j, A);
    ReturnCaused(ws, es, j + 2, j, j + 1, A);
  }

  lemma LastScenes()
    ensures EventAt(9) == Local(A, Delete(2, 11, 0)) && HasNotice(SceneAt(10), A)
      && NoticeOf(SceneAt(10), A) == Sealed(Notice(11))
    ensures !HasNotice(SceneAt(11), A)
    ensures forall j :: 9 <= j <= 11 ==> SceneAt(j).b.node == Asked(1, TOLD) && SceneAt(j).Me(A) == 1
    ensures Erased(HandleMsg(Asked(1, TOLD), 1, Notice(11), true, true).0, 1)
  {
    AskedErases(1, TOLD, 11);
  }

  /**
   * A genuine run in which the late acknowledgement of a first deletion notice removes a second one: the contact was
   * set up again and deleted again in between. The peer keeps the contact, although it would have erased it had the
   * lost notice been sent.
   */
  lemma ReplacedNoticeLost() returns (ws: seq<World>, es: seq<Event>)
    ensures Genuine(ws, es) && |es| == 11
    ensures IsDelete(es[9], A) && HasNotice(ws[10], A)
      && NoticeOf(ws[10], A) == Sealed(Notice(11)) && !HasNotice(ws[11], A)
    ensures forall j :: 9 <= j <= 11 ==> !Erased(ws[j].At(B).node, ws[j].Me(A)) && !Blocks(ws[j], A)
    ensures Erased(HandleMsg(ws[11].b.node, ws[11].Me(A), Notice(11), true, true).0, ws[11].Me(A))
  {
    ScenesAreGenuine();
    LastScenes();
    ws, es := Scenes(), Script();
    assert es[9] == EventAt(9) && ws[10] == SceneAt(10) && ws[11] == SceneAt(11);
    forall j | 9 <= j <= 11 ensures ws[j].At(B).node == Asked(1, TOLD) && ws[j].Me(A) == 1 {
      assert ws[j] == SceneAt(j);
    }
    assert 1 in Asked(1, TOLD).contacts;
  }
}
