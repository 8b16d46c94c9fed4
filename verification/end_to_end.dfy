/** What the parts add up to between two nodes: nothing is lost, and a reconcile catches up. */
module EndToEnd {
  import opened Types
  import opened Ordering
  import opened Storage
  import opened Node
  import opened NodeRuns
  import opened World
  import opened SyncedRuns
  import ByTable
  import Convergence
  import Delivered
  import Reconcile
  import Refinement

  // ---------------------------------------------------------------- nothing is lost

  lemma OutboxEvent(w: World, e: Event, s: Side, id: MessageId)
    requires Known(w) && Possible(w, e) && OutboxAt(w.At(s).node, id)
    ensures OutboxAt(Next(w, e).At(s).node, id)
  {
    NodeAfter(w, e, s);
    if ActOf(w, e).Act? && ActOf(w, e).side == s {
      var step := ActOf(w, e).step;
      var state := State(w.At(s).node, w.written.Keys, {});
      StepEnabled(w, e, s);
      OutboxStep(state, step, id);
    }
  }

  /** What an event does to a node is a step the one-node runs allow. */
  lemma StepEnabled(w: World, e: Event, s: Side)
    requires Known(w) && Possible(w, e) && ActOf(w, e).Act? && ActOf(w, e).side == s
    ensures NodeRuns.Enabled(State(w.At(s).node, w.written.Keys, {}), ActOf(w, e).step)
  {
    PeersDiffer(w, e, s);
    if e.Compose? {
      assert RowKnown(w, s, e.id);
    }
  }

  lemma OutboxThroughout(ws: seq<World>, es: seq<Event>, i: nat, s: Side, id: MessageId)
    requires IsHistory(ws, es) && i < |ws|
    ensures OutboxAt(ws[i].At(s).node, id)
  {
    var holds := (w: World) => OutboxAt(w.At(s).node, id);
    assert ws[0].At(s).node.messages == map[];
    forall j | 0 <= j < |ws| - 1 && holds(ws[j]) ensures holds(ws[j + 1]) {
      RunIsKnown(ws, es, j);
      assert HappensAt(ws, es, j);
      OutboxEvent(ws[j], es[j], s, id);
    }
    HoldsOn(ws, holds, 0, i);
    assert holds(ws[i]);
  }

  lemma HeldNext(ws: seq<World>, es: seq<Event>, i: nat, s: Side, id: MessageId)
    requires WipeFree(ws, es) && i < |es| && id in HeldFrom(ws[i], s)
    ensures id in HeldFrom(ws[i + 1], s)
  {
    assert HappensAt(ws, es, i);
    HeldStays(ws[i], es[i], s, id);
  }

  lemma HeldForGood(ws: seq<World>, es: seq<Event>, j: nat, i: nat, s: Side, id: MessageId)
    requires WipeFree(ws, es) && j <= i < |ws| && id in HeldFrom(ws[j], s)
    ensures id in HeldFrom(ws[i], s)
  {
    var holds := (w: World) => id in HeldFrom(w, s);
    forall m | j <= m < |ws| - 1 && holds(ws[m]) ensures holds(ws[m + 1]) {
      HeldNext(ws, es, m, s, id);
    }
    HoldsOn(ws, holds, j, i);
    assert holds(ws[i]);
  }

  lemma GotIsHeld(w: World, s: Side, e: Envelope)
    requires Known(w) && Delivered.Got(w, s, e) && e.sender == w.Me(s)
    ensures e.id in HeldFrom(w, s)
  {
    assert RowKnown(w, s.Other(), e.id);
  }

  lemma {:induction false} MeThroughout(ws: seq<World>, es: seq<Event>, i: nat, s: Side)
    requires IsHistory(ws, es) && i < |ws|
    ensures ws[i].Me(s) == ws[0].Me(s)
  {
    if i > 0 {
      MeThroughout(ws, es, i - 1, s);
      assert HappensAt(ws, es, i - 1);
      MeAfter(ws[i - 1], es[i - 1], s);
    }
  }

  /** A waiting message with a queue row or a push under way. */
  predicate OnItsWay(w: World, s: Side, id: MessageId) {
    Waiting(w.At(s).node, id) && ((id, w.Peer(s)) in w.At(s).node.queue || (id, w.Peer(s)) in w.At(s).node.pushes)
  }

  lemma DeliveredIsHeld(ws: seq<World>, es: seq<Event>, i: nat, s: Side, id: MessageId)
    requires WipeFree(ws, es) && i < |ws| && Delivered.IsDelivered(ws[i], s, id)
    ensures id in HeldFrom(ws[i], s) || exists j :: 0 <= j <= i && Delivered.Blocks(ws[j], s)
  {
    Delivered.DeliveredIsSound(ws, es, i, s, id);
    var e := EnvelopeOf(ws[i].At(s).node.messages, id);
    var j :| 0 <= j <= i && (Delivered.Got(ws[j], s, e) || Delivered.Blocks(ws[j], s));
    if Delivered.Got(ws[j], s, e) {
      RunIsKnown(ws, es, j);
      MeThroughout(ws, es, i, s);
      MeThroughout(ws, es, j, s);
      GotIsHeld(ws[j], s, e);
      HeldForGood(ws, es, j, i, s, id);
    }
  }

  lemma KeptNext(ws: seq<World>, es: seq<Event>, i: nat, s: Side)
    requires WipeFree(ws, es) && i < |es| && AllKept(ws[i], s)
    ensures AllKept(ws[i + 1], s)
  {
    RunIsKnown(ws, es, i);
    assert HappensAt(ws, es, i);
    KeptStep(ws[i], es[i], s);
  }

  lemma KeptThroughout(ws: seq<World>, es: seq<Event>, i: nat, s: Side)
    requires WipeFree(ws, es) && i < |ws|
    ensures AllKept(ws[i], s)
  {
    var holds := (w: World) => AllKept(w, s);
    assert holds(ws[0]);
    forall j | 0 <= j < |ws| - 1 && holds(ws[j]) ensures holds(ws[j + 1]) {
      KeptNext(ws, es, j, s);
    }
    HoldsOn(ws, holds, 0, i);
    assert holds(ws[i]);
  }

  lemma WrittenIsOwn(w: World, s: Side, id: MessageId)
    requires Known(w) && AllKept(w, s) && id in IssuedBy(w, s)
    ensures Own(w.At(s).node, id) && w.At(s).node.messages[id].recipient == w.Peer(s)
  {
    assert RowKnown(w, s, id);
  }

  /**
   * In every run without wipes in which promotions find their rows held, whatever the order of arrival, every message
   * ever written is at every moment held by the other side, or on its way, or the other side had the writer blocked at
   * some time.
   */
  lemma NothingIsLost(ws: seq<World>, es: seq<Event>, i: nat, s: Side, id: MessageId)
    requires WipeFree(ws, es) && forall j :: 0 <= j < |es| ==> PromotesHeldAt(ws, es, j)
    requires i < |ws| && id in IssuedBy(ws[i], s)
    ensures id in HeldFrom(ws[i], s) || OnItsWay(ws[i], s, id) || exists j :: 0 <= j <= i && Delivered.Blocks(ws[j], s)
  {
    RunIsKnown(ws, es, i);
    TruthfulThroughout(ws, es, i);
    KeptThroughout(ws, es, i, s);
    OutboxThroughout(ws, es, i, s, id);
    assert SyncedHeld(ws[i], s);
    WrittenIsOwn(ws[i], s, id);
    if Delivered.IsDelivered(ws[i], s, id) {
      DeliveredIsHeld(ws, es, i, s, id);
    }
  }

  /** Every message written so far is held by the other side or on its way. */
  ghost predicate NoneLost(w: World) {
    forall s, id :: id in IssuedBy(w, s) ==> id in HeldFrom(w, s) || OnItsWay(w, s, id)
  }

  lemma NoneLostIsTruthful(w: World)
    requires Known(w) && NoneLost(w)
    ensures Truthful(w)
  {
    forall s, id | Own(w.At(s).node, id) && w.At(s).node.messages[id].status == Synced ensures id in HeldFrom(w, s) {
      assert RowKnown(w, s, id);
      assert id in IssuedBy(w, s);
    }
  }

  /** Where nobody blocks the other, only promotion loses messages: none is lost exactly if none promotes too much. */
  lemma NoneLostIff(ws: seq<World>, es: seq<Event>)
    requires WipeFree(ws, es) && forall i, s :: 0 <= i < |ws| ==> !Delivered.Blocks(ws[i], s)
    ensures (forall i :: 0 <= i < |ws| ==> NoneLost(ws[i])) <==> forall i :: 0 <= i < |es| ==> PromotesHeldAt(ws, es, i)
  {
    TruthfulIff(ws, es);
    if forall i :: 0 <= i < |ws| ==> NoneLost(ws[i]) {
      forall i | 0 <= i < |ws| ensures Truthful(ws[i]) {
        RunIsKnown(ws, es, i);
        NoneLostIsTruthful(ws[i]);
      }
    }
    if forall i :: 0 <= i < |es| ==> PromotesHeldAt(ws, es, i) {
      forall i, s, id | 0 <= i < |ws| && id in IssuedBy(ws[i], s)
        ensures id in HeldFrom(ws[i], s) || OnItsWay(ws[i], s, id)
      {
        NothingIsLost(ws, es, i, s, id);
      }
    }
  }

  // ---------------------------------------------------------------- a reconcile catches up

  /** A sound state with an accepted contact, a session and no block is one from which a reconcile can start. */
  lemma SoundIsReady(w: World, s: Side)
    requires Known(w) && GapFree(w, s.Other())
    requires StatusOf(w.At(s).node, w.Peer(s)) == Some(Accepted) && w.Peer(s) in w.At(s).node.sessions
    requires StatusOf(w.At(s.Other()).node, w.Me(s)) != Some(Blocked)
    ensures Convergence.Ready(w.At(s).node, w.At(s.Other()).node)
    ensures Convergence.Missing(w.At(s).node, w.At(s.Other()).node) ==
      Sorted(IssuedBy(w, s.Other()) - HeldFrom(w, s.Other()))
  {
    var o := s.Other();
    TableSets(w, o);
    forall id | id in IssuedBy(w, o)
      ensures id in w.At(o).node.messages
        && w.At(o).node.messages[id].payload == Text(w.written[id].text) && |w.written[id].text| <= MAX_MESSAGE_BYTES
    {
      assert RowKnown(w, o, id);
    }
  }

  /**
   * At any state of any run at which the asking side misses no earlier message of what it holds, a reconcile that
   * nothing interferes with brings over exactly the next 3200 of the messages that are missing, and another can follow.
   */
  lemma ReconcileCatchesUp(ws: seq<World>, es: seq<Event>, i: nat, s: Side, order: seq<MessageId>)
    requires IsHistory(ws, es) && i < |ws| && GapFree(ws[i], s.Other())
    requires Possible(ws[i], Ask(s)) && ws[i].Peer(s) in ws[i].At(s).node.sessions
    requires StatusOf(ws[i].At(s.Other()).node, ws[i].Me(s)) != Some(Blocked)
    ensures var w, w' := ws[i], Refinement.Exchanged(ws[i], s, order);
      var o := s.Other();
      && Convergence.Ready(w'.At(s).node, w'.At(o).node)
      && Convergence.Missing(w'.At(s).node, w'.At(o).node)
           == Convergence.Drop(Sorted(IssuedBy(w, o) - HeldFrom(w, o)), Reconcile.MAX_PULLED)
  {
    RunIsKnown(ws, es, i);
    SoundIsReady(ws[i], s);
    Refinement.ExchangeIsRound(ws[i], s, order);
    Convergence.RoundShrinks(ws[i].At(s).node, ws[i].At(s.Other()).node, order);
  }

  // ---------------------------------------------------------------- what a blocked side gets

  /** An exchange whose answers the other side refuses comes to nothing: no digest, no further page. */
  lemma RefusedExchange(w: World, e: Event)
    requires Possible(w, e) && (e.HeaderAnswered? || e.PullAnswered?)
    requires Delivered.Blocks(w, e.side) || !e.allowed
    ensures Next(w, e).At(e.side).sync == if e.HeaderAnswered? then Idle else Finishing(w.At(e.side).sync.persisted)
    ensures Next(w, e).a.node == w.a.node && Next(w, e).b.node == w.b.node
  {
    SyncAfterEvent(w, e, e.side);
    NodeAfter(w, e, A);
    NodeAfter(w, e, B);
    var n, o := w.At(e.side).node, w.At(e.side.Other()).node;
    var request := if e.HeaderAnswered? then Header([OwnDigest(n, w.Peer(e.side))])
                   else Pull(Conv(n, w.Peer(e.side)), w.At(e.side).sync.since, SYNC_PULL_LIMIT);
    ByTable.RefusedLearnsNothing(o, o, w.Me(e.side), request, e.allowed, e.allowed);
  }

  /** The exchange of `s` has learnt nothing. */
  predicate Empty(w: World, s: Side) {
    w.At(s).sync.Idle? || w.At(s).sync.Asked?
  }

  lemma BlockedStaysEmpty(w: World, e: Event, s: Side)
    requires Possible(w, e) && Delivered.Blocks(w, s) && Empty(w, s)
    ensures Empty(Next(w, e), s)
    ensures HasSync(e) && e.side == s ==> e.Ask? || e.HeaderAnswered? || e.Interrupt?
  {
    SyncAfterEvent(w, e, s);
    if e.HeaderAnswered? && e.side == s {
      RefusedExchange(w, e);
    }
  }

  /**
   * From the moment a side has no exchange under way and is blocked, and as long as it is, its reconciles bring it
   * nothing: no digest, so nothing is promoted, and no page, so nothing is ingested.
   */
  lemma {:induction false} BlockedGetsNothing(ws: seq<World>, es: seq<Event>, i: nat, k: nat, s: Side)
    requires IsHistory(ws, es) && i <= k < |es| && ws[i].At(s).sync == Idle
    requires forall j :: i <= j <= k ==> Delivered.Blocks(ws[j], s)
    ensures Empty(ws[k], s)
    ensures !((es[k].ActOnDigest? || es[k].PullAnswered? || es[k].IngestNext? || es[k].SendAck?) && es[k].side == s)
    decreases k
  {
    if i < k {
      BlockedGetsNothing(ws, es, i, k - 1, s);
      assert HappensAt(ws, es, k - 1) && Delivered.Blocks(ws[k - 1], s);
      BlockedStaysEmpty(ws[k - 1], es[k - 1], s);
    }
    assert HappensAt(ws, es, k);
    BlockedStaysEmpty(ws[k], es[k], s);
  }
}
