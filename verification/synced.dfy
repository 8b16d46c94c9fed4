/** When Synced means held: which runs without wipes leave no gap in what is held, and which keep Synced truthful. */
module SyncedRuns {
  import opened Types
  import opened Ordering
  import opened Storage
  import opened Node
  import opened NodeRuns
  import opened World
  import opened Convergence
  import Reconcile

  // ---------------------------------------------------------------- pages that come next

  /** `x` is one of the ids up to position `i`. */
  ghost predicate Within(ids: seq<MessageId>, i: int, x: MessageId) {
    exists j :: 0 <= j <= i && j < |ids| && ids[j] == x
  }

  /** Going through `ids` in order never skips an issued id that is not held. */
  ghost predicate NextUp(ids: seq<MessageId>, held: set<MessageId>, issued: set<MessageId>) {
    && (forall i :: 0 <= i < |ids| ==> ids[i] in issued)
    && forall i, x :: 0 <= i < |ids| && x in issued && x <= ids[i] && x !in held ==> Within(ids, i, x)
  }

  lemma PageIsNextUp(held: set<MessageId>, issued: set<MessageId>, since: Option<MessageId>, limit: nat)
    requires Initial(held, issued) && (since.Some? ==> since.value in held)
    ensures NextUp(Take(Sorted(Above(issued, since)), limit), held, issued)
  {
    var all := Sorted(Above(issued, since));
    var ids := Take(all, limit);
    forall i | 0 <= i < |ids| ensures ids[i] in issued {
      assert all[i] in all;
    }
    forall i, x | 0 <= i < |ids| && x in issued && x <= ids[i] && x !in held ensures Within(ids, i, x) {
      assert x in Above(issued, since);
      assert x in all;
      var j :| 0 <= j < |all| && all[j] == x;
      assert j <= i;
      assert ids[j] == x;
    }
  }

  lemma NextUpShifts(ids: seq<MessageId>, held: set<MessageId>, issued: set<MessageId>)
    requires NextUp(ids, held, issued) && ids != []
    ensures NextUp(ids[1..], held + {ids[0]}, issued)
  {
    var rest := ids[1..];
    forall i, x | 0 <= i < |rest| && x in issued && x <= rest[i] && x !in held + {ids[0]} ensures Within(rest, i, x) {
      assert rest[i] == ids[i + 1];
      assert Within(ids, i + 1, x);
      var j :| 0 <= j <= i + 1 && j < |ids| && ids[j] == x;
      assert rest[j - 1] == x;
    }
  }

  lemma NextUpGrows(ids: seq<MessageId>, held: set<MessageId>, issued: set<MessageId>, held': set<MessageId>,
        issued': set<MessageId>)
    requires NextUp(ids, held, issued) && held <= held' && issued <= issued'
    requires forall x, y :: x in issued && y in issued' - issued ==> x < y
    ensures NextUp(ids, held', issued')
  {
    forall i, x | 0 <= i < |ids| && x in issued' && x <= ids[i] && x !in held' ensures Within(ids, i, x) {
      assert x !in issued' - issued;
    }
  }

  /** The first id of a page that comes next can be added without leaving a gap. */
  lemma FirstFillsNoGap(ids: seq<MessageId>, held: set<MessageId>, issued: set<MessageId>)
    requires Initial(held, issued) && NextUp(ids, held, issued) && ids != []
    ensures Initial(held + {ids[0]}, issued)
  {
    forall x, y | x in issued && y in held + {ids[0]} && x <= y ensures x in held + {ids[0]} {
      if x !in held {
        assert y == ids[0];
        assert Within(ids, 0, x);
      }
    }
  }

  lemma NextFillsNoGap(held: set<MessageId>, issued: set<MessageId>, id: MessageId)
    requires Initial(held, issued) && id in issued && forall x :: x in issued && x < id ==> x in held
    ensures Initial(held + {id}, issued)
  {
  }

  // ---------------------------------------------------------------- issued and held in a world

  function IssuedBy(w: World, s: Side): set<MessageId> {
    set id | id in w.written && w.written[id].from == s
  }

  /** The messages of `s` that the other side holds. */
  function HeldFrom(w: World, s: Side): set<MessageId> {
    set id | id in w.written && w.written[id].from == s && id in w.At(s.Other()).node.messages
  }

  ghost predicate AllKept(w: World, s: Side) {
    IssuedBy(w, s) <= w.At(s).node.messages.Keys
  }

  lemma TableSets(w: World, s: Side)
    requires Known(w) && AllKept(w, s)
    ensures Outbound(w.At(s).node.messages, Conv(w.At(s).node, w.Peer(s)), w.Me(s)) == IssuedBy(w, s)
    ensures var o := w.At(s.Other()).node; Inbound(o.messages, Conv(o, w.Me(s)), o.me) == HeldFrom(w, s)
  {
    var n := w.At(s).node;
    forall id ensures id in Outbound(n.messages, Conv(n, w.Peer(s)), w.Me(s)) <==> id in IssuedBy(w, s) {
      assert RowKnown(w, s, id);
    }
    InboundIsHeld(w, s);
  }

  lemma InboundIsHeld(w: World, s: Side)
    requires Known(w)
    ensures var o := w.At(s.Other()).node; Inbound(o.messages, Conv(o, w.Me(s)), o.me) == HeldFrom(w, s)
  {
    var o := w.At(s.Other()).node;
    forall id ensures id in Inbound(o.messages, Conv(o, w.Me(s)), o.me) <==> id in HeldFrom(w, s) {
      assert RowKnown(w, s.Other(), id);
    }
  }

  // ---------------------------------------------------------------- the runs

  /** A live text that is not a duplicate finds every earlier message of its sender in place. */
  ghost predicate InOrder(w: World, e: Event)
    requires Possible(w, e)
  {
    e.Arrive? ==>
      var f := w.flights[e.flight];
      var o := f.from.Other();
      f.envelope.id in Next(w, e).At(o).node.messages && f.envelope.id !in w.At(o).node.messages ==>
        forall x :: x in IssuedBy(w, f.from) && x < f.envelope.id ==> x in HeldFrom(w, f.from)
  }

  ghost predicate WipesNothing(w: World, e: Event)
    requires Possible(w, e)
  {
    match ActOf(w, e)
    case Nothing => true
    case Act(_, step) => !Wipes(step)
  }

  /** The next row of the page is ingested with a session in place, or is there already. */
  ghost predicate IngestSucceeds(w: World, e: Event)
    requires Possible(w, e) && e.IngestNext?
  {
    w.Peer(e.side) in w.At(e.side).node.sessions || w.At(e.side).sync.page[0].id in w.At(e.side).node.messages
  }

  /** Nothing is wiped, live texts arrive in order, and no row of a page fails for want of a session. */
  ghost predicate Orderly(w: World, e: Event)
    requires Possible(w, e)
  {
    && WipesNothing(w, e)
    && InOrder(w, e)
    && (e.IngestNext? ==> IngestSucceeds(w, e))
  }

  // ---------------------------------------------------------------- the invariant

  ghost predicate MarkHeld(w: World, s: Side, mark: Option<MessageId>) {
    mark.Some? ==> mark.value in HeldFrom(w, s)
  }

  ghost predicate AllHeld(w: World, s: Side, ids: seq<MessageId>) {
    forall id :: id in ids ==> id in HeldFrom(w, s)
  }

  /** What the exchange of `s` remembers is still true, however long ago it was learnt. */
  ghost predicate ExchangeSound(w: World, s: Side) {
    var o := s.Other();
    match w.At(s).sync
    case Idle => true
    case Asked(since) => MarkHeld(w, o, since)
    case Answered(since, theirs) => MarkHeld(w, o, since) && MarkHeld(w, s, theirs.highestInbound)
    case Pulling(since, _, _) => MarkHeld(w, o, since)
    case Ingesting(page, last, _, _, _) =>
      page != [] && last == page[|page| - 1].id && NextUp(IdsOf(page), HeldFrom(w, o), IssuedBy(w, o))
    case Finishing(_) => true
  }

  /** The ids an exchange will acknowledge, if it gets that far. */
  function Persisted(x: Exchange): seq<MessageId> {
    if x.Pulling? || x.Ingesting? || x.Finishing? then x.persisted else []
  }

  /** Everything acknowledged, or about to be, is held by the side that says so. */
  ghost predicate AcksTrue(w: World) {
    && (forall s: Side :: AllHeld(w, s, Persisted(w.At(s.Other()).sync)))
    && forall ack :: ack in w.acks ==> AllHeld(w, ack.0.Other(), ack.1)
  }

  /** Every message written is still in its writer's table, and what the other side holds of them has no gap. */
  ghost predicate GapFree(w: World, s: Side) {
    AllKept(w, s) && Initial(HeldFrom(w, s), IssuedBy(w, s))
  }

  ghost predicate SyncedHeld(w: World, s: Side) {
    forall id :: Own(w.At(s).node, id) && w.At(s).node.messages[id].status == Synced ==> id in HeldFrom(w, s)
  }

  ghost predicate Sound(w: World) {
    && (forall s :: GapFree(w, s) && SyncedHeld(w, s) && ExchangeSound(w, s))
    && AcksTrue(w)
  }

  // ---------------------------------------------------------------- what an event adds

  /** The message of `s` the event stores at the other side, if any. */
  ghost predicate Gains(w: World, e: Event, s: Side, id: MessageId)
    requires Possible(w, e)
  {
    id in Next(w, e).At(s.Other()).node.messages && id !in w.At(s.Other()).node.messages && id in IssuedBy(w, s)
    && ((e.Arrive? && w.flights[e.flight].from == s && w.flights[e.flight].envelope.id == id)
        || (e.IngestNext? && e.side == s.Other() && w.At(e.side).sync.page[0].id == id))
  }

  lemma IssuedAfter(w: World, e: Event, s: Side)
    requires Possible(w, e)
    ensures IssuedBy(Next(w, e), s) == IssuedBy(w, s) + if e.Compose? && e.side == s then {e.id} else {}
    ensures forall x, y :: x in IssuedBy(w, s) && y in IssuedBy(Next(w, e), s) - IssuedBy(w, s) ==> x < y
  {
    WrittenAfter(w, e);
  }

  lemma HeldStays(w: World, e: Event, s: Side, id: MessageId)
    requires Possible(w, e) && WipesNothing(w, e) && id in HeldFrom(w, s)
    ensures id in HeldFrom(Next(w, e), s)
  {
    NodeAfter(w, e, s.Other());
    WrittenAfter(w, e);
    match ActOf(w, e)
    case Nothing =>
    case Act(t, step) => RowStep(w.At(t).node, step, id);
  }

  lemma HeldIsGained(w: World, e: Event, s: Side, id: MessageId)
    requires Known(w) && Possible(w, e) && id in HeldFrom(Next(w, e), s) && id !in HeldFrom(w, s)
    ensures Gains(w, e, s, id)
  {
    var o := s.Other();
    NodeAfter(w, e, o);
    WrittenAfter(w, e);
    assert RowKnown(w, o, id);
    match ActOf(w, e)
    case Nothing =>
    case Act(t, step) =>
      if t == o {
        RowStep(w.At(o).node, step, id);
        NewRowKnown(w, e, o, step, id);
      }
  }

  lemma HeldAfterEvent(w: World, e: Event, s: Side, id: MessageId)
    requires Known(w) && Possible(w, e) && WipesNothing(w, e)
    ensures id in HeldFrom(w, s) ==> id in HeldFrom(Next(w, e), s)
    ensures id in HeldFrom(Next(w, e), s) && id !in HeldFrom(w, s) ==> Gains(w, e, s, id)
  {
    if id in HeldFrom(w, s) {
      HeldStays(w, e, s, id);
    } else if id in HeldFrom(Next(w, e), s) {
      HeldIsGained(w, e, s, id);
    }
  }

  // ---------------------------------------------------------------- no gap ever

  lemma KeptStep(w: World, e: Event, s: Side)
    requires Known(w) && Possible(w, e) && WipesNothing(w, e) && AllKept(w, s)
    ensures AllKept(Next(w, e), s)
  {
    IssuedAfter(w, e, s);
    NodeAfter(w, e, s);
    match ActOf(w, e)
    case Nothing =>
    case Act(t, step) =>
      if t == s {
        forall id | id in w.At(s).node.messages ensures id in Next(w, e).At(s).node.messages {
          RowStep(w.At(s).node, step, id);
        }
      }
  }

  /** A single message is gained without leaving a gap. */
  lemma GainLeavesNoGap(w: World, e: Event, s: Side, id: MessageId)
    requires Known(w) && Possible(w, e) && Orderly(w, e) && Sound(w) && Gains(w, e, s, id)
    ensures Initial(HeldFrom(w, s) + {id}, IssuedBy(w, s))
  {
    assert GapFree(w, s);
    if e.Arrive? {
      NextFillsNoGap(HeldFrom(w, s), IssuedBy(w, s), id);
    } else {
      var o := s.Other();
      assert ExchangeSound(w, o);
      var page := w.At(o).sync.page;
      assert IdsOf(page)[0] == id;
      FirstFillsNoGap(IdsOf(page), HeldFrom(w, s), IssuedBy(w, s));
    }
  }

  lemma HeldGrowsByOne(w: World, e: Event, s: Side)
    requires Known(w) && Possible(w, e) && WipesNothing(w, e)
    ensures HeldFrom(w, s) <= HeldFrom(Next(w, e), s)
    ensures HeldFrom(Next(w, e), s) == HeldFrom(w, s)
      || exists id :: Gains(w, e, s, id) && HeldFrom(Next(w, e), s) == HeldFrom(w, s) + {id}
  {
    forall id ensures id in HeldFrom(w, s) ==> id in HeldFrom(Next(w, e), s) {
      HeldAfterEvent(w, e, s, id);
    }
    if HeldFrom(Next(w, e), s) != HeldFrom(w, s) {
      var id :| id in HeldFrom(Next(w, e), s) && id !in HeldFrom(w, s);
      HeldAfterEvent(w, e, s, id);
      forall other ensures other in HeldFrom(Next(w, e), s) <==> other in HeldFrom(w, s) + {id} {
        HeldAfterEvent(w, e, s, other);
      }
      assert Gains(w, e, s, id) && HeldFrom(Next(w, e), s) == HeldFrom(w, s) + {id};
    }
  }

  lemma GapFreeStep(w: World, e: Event, s: Side)
    requires Known(w) && Possible(w, e) && Orderly(w, e) && Sound(w)
    ensures GapFree(Next(w, e), s)
  {
    assert GapFree(w, s);
    KeptStep(w, e, s);
    IssuedAfter(w, e, s);
    HeldGrowsByOne(w, e, s);
    var held, issued := HeldFrom(w, s), IssuedBy(w, s);
    var held' := HeldFrom(Next(w, e), s);
    if held' != held {
      var id :| Gains(w, e, s, id) && held' == held + {id};
      GainLeavesNoGap(w, e, s, id);
    }
    GrowIssued(held', issued, IssuedBy(Next(w, e), s));
  }

  lemma GrowIssued(held: set<MessageId>, issued: set<MessageId>, issued': set<MessageId>)
    requires Initial(held, issued) && issued <= issued' && forall x, y :: x in issued && y in issued' - issued ==> x < y
    ensures Initial(held, issued')
  {
    forall x, y | x in issued' && y in held && x <= y ensures x in held {
      assert x !in issued' - issued;
    }
  }

  /** On the node itself, only an acknowledgement or a promotion turns an own row Synced. */
  lemma SyncedBy(n: Node, step: Step, id: MessageId)
    requires Own(Do(n, step), id) && Do(n, step).messages[id].status == Synced && !(step.SendMessage? && step.id == id)
    requires (step.Receive? || step.IngestOne?) ==> step.peer != n.me
    ensures Own(n, id)
    ensures || n.messages[id].status == Synced
            || (step.AnswerSync? && step.request.Ack? && id in step.request.confirmed)
            || (step.PromoteUpTo? && id in Promotable(n.messages, Conv(n, step.peer), n.me, step.upto))
  {
    RowStep(n, step, id);
    if id in n.messages {
      StatusStep(n, step, id);
    }
  }

  lemma SentIsSending(n: Node, step: Step, id: MessageId)
    requires step.SendMessage? && step.id == id && id in Do(n, step).messages
    ensures id in n.messages || Do(n, step).messages[id].status == Sending
  {
    RowStep(n, step, id);
  }

  /** The peer reported message `h`, and row `id` is one that promotion up to `h` would change. */
  ghost predicate Unsynced(w: World, s: Side, h: MessageId, id: MessageId) {
    && id in IssuedBy(w, s) && id <= h
    && id in w.At(s).node.messages && w.At(s).node.messages[id].status.AsInt() < Synced.AsInt()
  }

  /** If the event acts on a digest, the peer holds every row that would be promoted. */
  ghost predicate PromotesHeld(w: World, e: Event)
    requires Possible(w, e)
  {
    e.ActOnDigest? ==>
      var reported := w.At(e.side).sync.theirs.highestInbound;
      reported.Some? ==> forall id :: Unsynced(w, e.side, reported.value, id) ==> id in HeldFrom(w, e.side)
  }

  /**
   * A row that an acknowledgement or a promotion turns Synced is held, if acknowledgements are true and promotions
   * sound.
   */
  lemma SyncedRowHeld(w: World, e: Event, s: Side, id: MessageId)
    requires Known(w) && Possible(w, e) && AcksTrue(w) && PromotesHeld(w, e)
    requires ActOf(w, e).Act? && ActOf(w, e).side == s
      && Own(w.At(s).node, id) && w.At(s).node.messages[id].status != Synced
    requires var n, step := w.At(s).node, ActOf(w, e).step;
      || (step.AnswerSync? && step.request.Ack? && id in step.request.confirmed)
      || (step.PromoteUpTo? && id in Promotable(n.messages, Conv(n, step.peer), n.me, step.upto))
    ensures id in HeldFrom(w, s)
  {
    if e.ActOnDigest? {
      assert RowKnown(w, s, id);
      assert Unsynced(w, s, w.At(s).sync.theirs.highestInbound.value, id);
    } else {
      assert (e.side, e.confirmed) in w.acks;
    }
  }

  /** An own row turns Synced only when the other side holds it. */
  lemma SyncedStep(w: World, e: Event, s: Side, id: MessageId)
    requires Known(w) && Possible(w, e) && WipesNothing(w, e)
    requires AcksTrue(w) && PromotesHeld(w, e) && SyncedHeld(w, s)
    requires Own(Next(w, e).At(s).node, id) && Next(w, e).At(s).node.messages[id].status == Synced
    ensures id in HeldFrom(Next(w, e), s)
  {
    HeldGrowsByOne(w, e, s);
    NodeAfter(w, e, s);
    assert RowKnown(w, s, id);
    if ActOf(w, e).Act? && ActOf(w, e).side == s {
      var n, step := w.At(s).node, ActOf(w, e).step;
      if step.SendMessage? && step.id == id {
        SentIsSending(n, step, id);
        NewRowKnown(w, e, s, step, id);
      } else {
        PeersDiffer(w, e, s);
        SyncedBy(n, step, id);
        if n.messages[id].status != Synced {
          SyncedRowHeld(w, e, s, id);
        }
      }
    }
  }

  lemma PeersDiffer(w: World, e: Event, s: Side)
    requires Known(w) && Possible(w, e) && ActOf(w, e).Act? && ActOf(w, e).side == s
    ensures var step := ActOf(w, e).step; (step.Receive? || step.IngestOne?) ==> step.peer != w.Me(s)
  {
  }

  // ---------------------------------------------------------------- what the exchange remembers

  /** What was true of marks, lists and pages stays true as more is written and held. */
  lemma RememberedStays(w: World, e: Event, s: Side)
    requires Known(w) && Possible(w, e) && Orderly(w, e) && Sound(w)
    requires Next(w, e).At(s).sync == w.At(s).sync
    ensures ExchangeSound(Next(w, e), s)
  {
    var o := s.Other();
    assert ExchangeSound(w, s);
    HeldGrowsByOne(w, e, s);
    HeldGrowsByOne(w, e, o);
    IssuedAfter(w, e, o);
    if w.At(s).sync.Ingesting? {
      NextUpGrows(IdsOf(w.At(s).sync.page), HeldFrom(w, o),
        IssuedBy(w, o), HeldFrom(Next(w, e), o), IssuedBy(Next(w, e), o));
    }
  }

  lemma AskSound(w: World, e: Event)
    requires Known(w) && Possible(w, e) && Sound(w) && (e.Ask? || e.HeaderAnswered?)
    ensures ExchangeSound(Next(w, e), e.side)
  {
    var s := e.side;
    var o := s.Other();
    SyncAfterEvent(w, e, s);
    NodeAfter(w, e, s);
    NodeAfter(w, e, o);
    WrittenAfter(w, e);
    assert GapFree(w, s) && GapFree(w, o) && ExchangeSound(w, s);
    TableSets(w, s);
    TableSets(w, o);
    assert HeldFrom(Next(w, e), s) == HeldFrom(w, s) && HeldFrom(Next(w, e), o) == HeldFrom(w, o);
    if e.HeaderAnswered? {
      HeaderDigest(w, s, e.allowed);
    }
  }

  /** The only digest an answer carries is the other side's own, of that moment. */
  lemma HeaderDigest(w: World, s: Side, allowed: bool)
    ensures var asked := [OwnDigest(w.At(s).node, w.Peer(s))];
      var r := AnswerTo(w, s, Header(asked), allowed);
      r.HeaderAck? && (r.ours == [] || r.ours == [OwnDigest(w.At(s.Other()).node, w.Me(s))])
  {
    var o := w.At(s.Other()).node;
    var asked := [OwnDigest(w.At(s).node, w.Peer(s))];
    assert asked[..0] == [];
    assert AnswerDigests(o, w.Me(s), asked[..0]) == [];
  }

  lemma PullSound(w: World, e: Event)
    requires Known(w) && Possible(w, e) && Sound(w) && e.PullAnswered?
    ensures ExchangeSound(Next(w, e), e.side)
  {
    var s := e.side;
    SyncAfterEvent(w, e, s);
    PullStoresNothing(w, e);
    assert GapFree(w, s.Other()) && ExchangeSound(w, s);
    PulledPage(w, s, w.At(s).sync.since, e.allowed);
  }

  lemma PullStoresNothing(w: World, e: Event)
    requires Known(w) && Possible(w, e) && e.PullAnswered?
    ensures HeldFrom(Next(w, e), e.side.Other()) == HeldFrom(w, e.side.Other())
    ensures IssuedBy(Next(w, e), e.side.Other()) == IssuedBy(w, e.side.Other())
  {
    NodeAfter(w, e, e.side);
    WrittenAfter(w, e);
  }

  /** A pulled page is empty or comes next. */
  lemma PulledPage(w: World, s: Side, since: Option<MessageId>, allowed: bool)
    requires Known(w) && GapFree(w, s.Other()) && MarkHeld(w, s.Other(), since)
    ensures var r := AnswerTo(w, s, Pull(Conv(w.At(s).node, w.Peer(s)), since, SYNC_PULL_LIMIT), allowed);
      r.PullPage? && NextUp(IdsOf(r.envelopes), HeldFrom(w, s.Other()), IssuedBy(w, s.Other()))
  {
    var o := s.Other();
    var r := AnswerTo(w, s, Pull(Conv(w.At(s).node, w.Peer(s)), since, SYNC_PULL_LIMIT), allowed);
    TableSets(w, o);
    PageIsNextUp(HeldFrom(w, o), IssuedBy(w, o), since, SYNC_PULL_LIMIT);
    if r.envelopes != [] {
      assert IdsOf(r.envelopes) == Take(Sorted(Above(IssuedBy(w, o), since)), SYNC_PULL_LIMIT);
    }
  }

  /**
   * The next row of a page is held afterwards exactly if its ingest succeeds: this is what keeps the page next in
   * order.
   */
  lemma IngestHoldsIff(w: World, e: Event)
    requires Known(w) && Possible(w, e) && e.IngestNext?
    ensures w.At(e.side).sync.page[0].id in HeldFrom(Next(w, e), e.side.Other()) <==> IngestSucceeds(w, e)
  {
    var s := e.side;
    NodeAfter(w, e, s);
    WrittenAfter(w, e);
    assert PageKnown(w, s);
    IngestStoresIff(w.At(s).node, w.Peer(s), w.At(s).sync.page[0]);
  }

  lemma IngestSound(w: World, e: Event)
    requires Known(w) && Possible(w, e) && Orderly(w, e) && Sound(w) && e.IngestNext?
    ensures ExchangeSound(Next(w, e), e.side)
  {
    var s := e.side;
    var o := s.Other();
    var r := w.At(s).sync;
    SyncAfterEvent(w, e, s);
    HeldGrowsByOne(w, e, o);
    IssuedAfter(w, e, o);
    IngestHoldsIff(w, e);
    assert ExchangeSound(w, s);
    assert IdsOf(r.page)[1..] == IdsOf(r.page[1..]);
    NextUpShifts(IdsOf(r.page), HeldFrom(w, o), IssuedBy(w, o));
    NextUpGrows(IdsOf(r.page[1..]), HeldFrom(w, o) + {r.page[0].id},
      IssuedBy(w, o), HeldFrom(Next(w, e), o), IssuedBy(Next(w, e), o));
  }

  /** An honest row is stored afterwards exactly if it was there or there is a session. */
  lemma IngestStoresIff(n: Node, peer: PeerId, e: Envelope)
    requires e.sender == peer && e.payload.Text? && |e.payload.text| <= MAX_MESSAGE_BYTES
    ensures e.id in Ingest(n, peer, e).0.messages <==> peer in n.sessions || e.id in n.messages
  {
  }

  lemma EndSound(w: World, e: Event)
    requires Known(w) && Possible(w, e) && Orderly(w, e) && Sound(w) && (e.ActOnDigest? || e.Interrupt? || e.SendAck?)
    ensures ExchangeSound(Next(w, e), e.side)
  {
    var s := e.side;
    SyncAfterEvent(w, e, s);
    HeldGrowsByOne(w, e, s.Other());
    assert ExchangeSound(w, s);
  }

  lemma ExchangeStep(w: World, e: Event, s: Side)
    requires Known(w) && Possible(w, e) && Orderly(w, e) && Sound(w)
    ensures ExchangeSound(Next(w, e), s)
  {
    SyncAfterEvent(w, e, s);
    if HasSync(e) && e.side == s {
      match e
      case Ask(_) => AskSound(w, e);
      case HeaderAnswered(_, _) => AskSound(w, e);
      case PullAnswered(_, _) => PullSound(w, e);
      case IngestNext(_) => IngestSound(w, e);
      case _ => EndSound(w, e);
    } else {
      RememberedStays(w, e, s);
    }
  }

  // ---------------------------------------------------------------- acknowledgements stay true

  lemma IngestedIsHeld(w: World, e: Event)
    requires Known(w) && Possible(w, e) && e.IngestNext?
      && Ingest(w.At(e.side).node, w.Peer(e.side), w.At(e.side).sync.page[0]).1.Inserted?
    ensures w.At(e.side).sync.page[0].id in HeldFrom(Next(w, e), e.side.Other())
  {
    NodeAfter(w, e, e.side);
    WrittenAfter(w, e);
    assert PageKnown(w, e.side);
  }

  lemma PersistedStep(w: World, e: Event, s: Side)
    requires Known(w) && Possible(w, e) && WipesNothing(w, e) && AcksTrue(w)
    ensures AllHeld(Next(w, e), s, Persisted(Next(w, e).At(s.Other()).sync))
  {
    var o := s.Other();
    SyncAfterEvent(w, e, o);
    HeldGrowsByOne(w, e, s);
    assert AllHeld(w, s, Persisted(w.At(o).sync));
    if e.IngestNext? && e.side == o && Ingest(w.At(o).node, w.Peer(o), w.At(o).sync.page[0]).1.Inserted? {
      IngestedIsHeld(w, e);
    }
  }

  lemma AcksStep(w: World, e: Event)
    requires Known(w) && Possible(w, e) && WipesNothing(w, e) && AcksTrue(w)
    ensures AcksTrue(Next(w, e))
  {
    AcksAfterEvent(w, e);
    forall s: Side
      ensures HeldFrom(w, s) <= HeldFrom(Next(w, e), s)
        && AllHeld(Next(w, e), s, Persisted(Next(w, e).At(s.Other()).sync))
    {
      HeldGrowsByOne(w, e, s);
      PersistedStep(w, e, s);
    }
    forall ack | ack in Next(w, e).acks ensures AllHeld(Next(w, e), ack.0.Other(), ack.1) {
      if ack in w.acks {
        assert AllHeld(w, ack.0.Other(), ack.1);
      } else {
        assert AllHeld(w, ack.0.Other(), Persisted(w.At(ack.0).sync));
      }
    }
  }

  lemma TruthStep(w: World, e: Event, s: Side)
    requires Known(w) && Possible(w, e) && WipesNothing(w, e) && AcksTrue(w) && PromotesHeld(w, e) && SyncedHeld(w, s)
    ensures SyncedHeld(Next(w, e), s)
  {
    forall id | Own(Next(w, e).At(s).node, id) && Next(w, e).At(s).node.messages[id].status == Synced
      ensures id in HeldFrom(Next(w, e), s)
    {
      SyncedStep(w, e, s, id);
    }
  }

  /** Without gaps, every row a digest reported is held, and so are all below it. */
  lemma SoundPromotes(w: World, e: Event)
    requires Known(w) && Possible(w, e) && Sound(w)
    ensures PromotesHeld(w, e)
  {
    if e.ActOnDigest? {
      assert GapFree(w, e.side) && ExchangeSound(w, e.side);
    }
  }

  lemma SoundStep(w: World, e: Event)
    requires Known(w) && Possible(w, e) && Orderly(w, e) && Sound(w)
    ensures Sound(Next(w, e))
  {
    SoundPromotes(w, e);
    AcksStep(w, e);
    forall s ensures GapFree(Next(w, e), s) && SyncedHeld(Next(w, e), s) && ExchangeSound(Next(w, e), s) {
      GapFreeStep(w, e, s);
      ExchangeStep(w, e, s);
      TruthStep(w, e, s);
    }
  }

  ghost predicate OrderlyHistory(ws: seq<World>, es: seq<Event>) {
    IsHistory(ws, es) && forall i :: 0 <= i < |es| ==> HappensAt(ws, es, i) && Orderly(ws[i], es[i])
  }

  lemma SoundAfter(ws: seq<World>, es: seq<Event>, i: nat)
    requires OrderlyHistory(ws, es) && i < |es| && Sound(ws[i])
    ensures Sound(ws[i + 1])
  {
    RunIsKnown(ws, es, i);
    assert HappensAt(ws, es, i);
    SoundStep(ws[i], es[i]);
  }

  lemma SoundThroughout(ws: seq<World>, es: seq<Event>, i: nat)
    requires OrderlyHistory(ws, es) && i < |ws|
    ensures Sound(ws[i])
  {
    var holds := (w: World) => Sound(w);
    StartIsSound(ws[0]);
    forall j | 0 <= j < |ws| - 1 && holds(ws[j]) ensures holds(ws[j + 1]) {
      SoundAfter(ws, es, j);
    }
    HoldsOn(ws, holds, 0, i);
    assert holds(ws[i]);
  }

  lemma StartIsSound(w: World)
    requires exists a, b :: a != b && w == Start(a, b)
    ensures Sound(w)
  {
  }

  /** The other side holds message `id` of `s`, with the same contents. */
  ghost predicate HasCopy(w: World, s: Side, id: MessageId)
    requires id in w.At(s).node.messages
  {
    var t := w.At(s.Other()).node.messages;
    id in t && EnvelopeOf(t, id) == EnvelopeOf(w.At(s).node.messages, id)
  }

  lemma HeldIsCopy(w: World, s: Side, id: MessageId)
    requires Known(w) && id in w.At(s).node.messages && id in HeldFrom(w, s)
    ensures HasCopy(w, s, id)
  {
    assert RowKnown(w, s, id) && RowKnown(w, s.Other(), id);
  }

  // ---------------------------------------------------------------- the hypotheses are exact

  /** A live arrival keeps the receiver free of gaps exactly if it was in order. */
  lemma GapFreeIffInOrder(w: World, e: Event)
    requires Known(w) && Possible(w, e) && e.Arrive? && WipesNothing(w, e) && GapFree(w, w.flights[e.flight].from)
    ensures GapFree(Next(w, e), w.flights[e.flight].from) <==> InOrder(w, e)
  {
    var f := w.flights[e.flight];
    var s := f.from;
    KeptStep(w, e, s);
    IssuedAfter(w, e, s);
    HeldGrowsByOne(w, e, s);
    ArrivalGains(w, e);
    if HeldFrom(Next(w, e), s) != HeldFrom(w, s) {
      var id :| Gains(w, e, s, id) && HeldFrom(Next(w, e), s) == HeldFrom(w, s) + {id};
      assert id == f.envelope.id;
    }
  }

  lemma ArrivalGains(w: World, e: Event)
    requires Known(w) && Possible(w, e) && e.Arrive?
    ensures var f := w.flights[e.flight];
      var o := f.from.Other();
      f.envelope.id in Next(w, e).At(o).node.messages && f.envelope.id !in w.At(o).node.messages ==>
        f.envelope.id in HeldFrom(Next(w, e), f.from) && f.envelope.id !in HeldFrom(w, f.from)
  {
    var f := w.flights[e.flight];
    var o := f.from.Other();
    NodeAfter(w, e, o);
    WrittenAfter(w, e);
    RowStep(w.At(o).node, ActOf(w, e).step, f.envelope.id);
    NewRowKnown(w, e, o, ActOf(w, e).step, f.envelope.id);
  }

  /** Acting on a digest marks every own row up to the reported one and drops its queue row, held by the peer or not. */
  lemma PromotionMarks(w: World, e: Event, id: MessageId)
    requires Known(w) && Possible(w, e) && e.ActOnDigest? && w.At(e.side).sync.theirs.highestInbound.Some?
    requires Unsynced(w, e.side, w.At(e.side).sync.theirs.highestInbound.value, id)
    ensures var n' := Next(w, e).At(e.side).node;
      id in n'.messages && Own(n', id) && n'.messages[id].status == Synced && (id, w.Peer(e.side)) !in n'.queue
  {
    var s := e.side;
    var n, h := w.At(s).node, w.At(s).sync.theirs.highestInbound.value;
    NodeAfter(w, e, s);
    assert RowKnown(w, s, id);
    assert id in Promotable(n.messages, Conv(n, w.Peer(s)), n.me, h);
    assert (id, w.Peer(s)) in (set x | x in Promotable(n.messages, Conv(n, w.Peer(s)), n.me, h) :: (x, w.Peer(s)));
  }

  /** Acting on a digest keeps every Synced row held exactly if the peer holds every row it promotes. */
  lemma PromotionSoundIff(w: World, e: Event)
    requires Known(w) && Possible(w, e) && e.ActOnDigest? && SyncedHeld(w, e.side)
    ensures SyncedHeld(Next(w, e), e.side) <==> PromotesHeld(w, e)
  {
    var s := e.side;
    var theirs := w.At(s).sync.theirs.highestInbound;
    NodeAfter(w, e, s);
    NodeAfter(w, e, s.Other());
    WrittenAfter(w, e);
    assert HeldFrom(Next(w, e), s) == HeldFrom(w, s);
    if theirs.Some? {
      forall id | Unsynced(w, s, theirs.value, id)
        ensures Own(Next(w, e).At(s).node, id) && Next(w, e).At(s).node.messages[id].status == Synced
      {
        PromotionMarks(w, e, id);
      }
      if PromotesHeld(w, e) {
        forall id | Own(Next(w, e).At(s).node, id) && Next(w, e).At(s).node.messages[id].status == Synced
          ensures id in HeldFrom(w, s)
        {
          PromotedRow(w, e, id);
        }
      }
    }
  }

  lemma PromotedRow(w: World, e: Event, id: MessageId)
    requires Known(w) && Possible(w, e) && e.ActOnDigest? && w.At(e.side).sync.theirs.highestInbound.Some?
    requires Own(Next(w, e).At(e.side).node, id) && Next(w, e).At(e.side).node.messages[id].status == Synced
    ensures Own(w.At(e.side).node, id)
    ensures w.At(e.side).node.messages[id].status == Synced
      || Unsynced(w, e.side, w.At(e.side).sync.theirs.highestInbound.value, id)
  {
    var s := e.side;
    NodeAfter(w, e, s);
    assert RowKnown(w, s, id);
  }

  // ---------------------------------------------------------------- which runs keep Synced truthful

  ghost predicate WipeFree(ws: seq<World>, es: seq<Event>) {
    IsHistory(ws, es) && forall i :: 0 <= i < |es| ==> HappensAt(ws, es, i) && WipesNothing(ws[i], es[i])
  }

  ghost predicate PromotesHeldAt(ws: seq<World>, es: seq<Event>, i: int)
    requires IsHistory(ws, es) && 0 <= i < |es|
  {
    HappensAt(ws, es, i) && PromotesHeld(ws[i], es[i])
  }

  /** Both sides' Synced rows are held. */
  ghost predicate Truthful(w: World) {
    forall s :: SyncedHeld(w, s)
  }

  lemma AcksNext(ws: seq<World>, es: seq<Event>, i: nat)
    requires WipeFree(ws, es) && i < |es| && AcksTrue(ws[i])
    ensures AcksTrue(ws[i + 1])
  {
    RunIsKnown(ws, es, i);
    assert HappensAt(ws, es, i);
    AcksStep(ws[i], es[i]);
  }

  lemma AcksAlwaysTrue(ws: seq<World>, es: seq<Event>, i: nat)
    requires WipeFree(ws, es) && i < |ws|
    ensures AcksTrue(ws[i])
  {
    var holds := (w: World) => AcksTrue(w);
    StartIsSound(ws[0]);
    forall j | 0 <= j < |ws| - 1 && holds(ws[j]) ensures holds(ws[j + 1]) {
      AcksNext(ws, es, j);
    }
    HoldsOn(ws, holds, 0, i);
    assert holds(ws[i]);
  }

  /** From a truthful state an event of a run without wipes leads to one exactly if it promotes held rows only. */
  lemma TruthfulStepIff(ws: seq<World>, es: seq<Event>, i: nat)
    requires WipeFree(ws, es) && i < |es| && Truthful(ws[i])
    ensures Truthful(ws[i + 1]) <==> PromotesHeldAt(ws, es, i)
  {
    AcksAlwaysTrue(ws, es, i);
    RunIsKnown(ws, es, i);
    assert HappensAt(ws, es, i);
    var w, e := ws[i], es[i];
    if PromotesHeld(w, e) {
      forall s ensures SyncedHeld(Next(w, e), s) {
        TruthStep(w, e, s);
      }
    } else {
      PromotionSoundIff(w, e);
    }
  }

  lemma TruthfulThroughout(ws: seq<World>, es: seq<Event>, i: nat)
    requires WipeFree(ws, es) && i < |ws|
    requires forall j :: 0 <= j < |es| ==> PromotesHeldAt(ws, es, j)
    ensures Truthful(ws[i])
  {
    var holds := (w: World) => Truthful(w);
    assert holds(ws[0]);
    forall j | 0 <= j < |ws| - 1 && holds(ws[j]) ensures holds(ws[j + 1]) {
      TruthfulStepIff(ws, es, j);
      assert PromotesHeldAt(ws, es, j);
    }
    HoldsOn(ws, holds, 0, i);
    assert holds(ws[i]);
  }

  /**
   * A run without wipes keeps Synced truthful at every state exactly if every digest acted on in it finds the peer
   * holding all own rows it promotes. Nothing is asked of the order of arrival, of sessions or of interruptions.
   */
  lemma TruthfulIff(ws: seq<World>, es: seq<Event>)
    requires WipeFree(ws, es)
    ensures (forall i :: 0 <= i < |ws| ==> Truthful(ws[i])) <==> forall i :: 0 <= i < |es| ==> PromotesHeldAt(ws, es, i)
  {
    if forall i :: 0 <= i < |ws| ==> Truthful(ws[i]) {
      forall i | 0 <= i < |es| ensures PromotesHeldAt(ws, es, i) {
        assert Truthful(ws[i]) && Truthful(ws[i + 1]);
        TruthfulStepIff(ws, es, i);
      }
    }
    if forall i :: 0 <= i < |es| ==> PromotesHeldAt(ws, es, i) {
      forall i | 0 <= i < |ws| ensures Truthful(ws[i]) {
        TruthfulThroughout(ws, es, i);
      }
    }
  }

  // ---------------------------------------------------------------- which runs leave no gap

  /** Whatever message of `s` the event stores at the other side, every earlier one of `s` is held there. */
  ghost predicate StoresInOrder(w: World, e: Event, s: Side)
    requires Possible(w, e)
  {
    forall id: MessageId, x :: Gains(w, e, s, id) && x in IssuedBy(w, s) && x < id ==> x in HeldFrom(w, s)
  }

  lemma GainIsHeld(w: World, e: Event, s: Side, id: MessageId)
    requires Possible(w, e) && Gains(w, e, s, id)
    ensures id in HeldFrom(Next(w, e), s) && id !in HeldFrom(w, s)
  {
    WrittenAfter(w, e);
  }

  lemma InOrderIfNoGap(w: World, e: Event, s: Side)
    requires Known(w) && Possible(w, e) && WipesNothing(w, e) && GapFree(Next(w, e), s)
    ensures StoresInOrder(w, e, s)
  {
    HeldGrowsByOne(w, e, s);
    IssuedAfter(w, e, s);
    forall id: MessageId, x | Gains(w, e, s, id) && x in IssuedBy(w, s) && x < id ensures x in HeldFrom(w, s) {
      GainIsHeld(w, e, s, id);
      assert x in HeldFrom(Next(w, e), s);
    }
  }

  lemma NoGapIfInOrder(w: World, e: Event, s: Side)
    requires Known(w) && Possible(w, e) && WipesNothing(w, e) && GapFree(w, s) && StoresInOrder(w, e, s)
    ensures GapFree(Next(w, e), s)
  {
    var held, held' := HeldFrom(w, s), HeldFrom(Next(w, e), s);
    KeptStep(w, e, s);
    IssuedAfter(w, e, s);
    HeldGrowsByOne(w, e, s);
    if held' != held {
      var id :| Gains(w, e, s, id) && held' == held + {id};
      NextFillsNoGap(held, IssuedBy(w, s), id);
    }
    GrowIssued(held', IssuedBy(w, s), IssuedBy(Next(w, e), s));
  }

  /**
   * From a state without a gap an event leads to one exactly if what it stores, live or from a page, is next in
   * order.
   */
  lemma NoGapStepIff(w: World, e: Event, s: Side)
    requires Known(w) && Possible(w, e) && WipesNothing(w, e) && GapFree(w, s)
    ensures GapFree(Next(w, e), s) <==> StoresInOrder(w, e, s)
  {
    if GapFree(Next(w, e), s) {
      InOrderIfNoGap(w, e, s);
    }
    if StoresInOrder(w, e, s) {
      NoGapIfInOrder(w, e, s);
    }
  }

  ghost predicate StoresInOrderAt(ws: seq<World>, es: seq<Event>, i: int)
    requires IsHistory(ws, es) && 0 <= i < |es|
  {
    HappensAt(ws, es, i) && forall s :: StoresInOrder(ws[i], es[i], s)
  }

  /** No side ever misses an earlier message of what it holds. */
  ghost predicate NoGap(w: World) {
    forall s :: GapFree(w, s)
  }

  lemma NoGapEventIff(w: World, e: Event)
    requires Known(w) && Possible(w, e) && WipesNothing(w, e) && NoGap(w)
    ensures NoGap(Next(w, e)) <==> forall s :: StoresInOrder(w, e, s)
  {
    forall s ensures GapFree(Next(w, e), s) <==> StoresInOrder(w, e, s) {
      assert GapFree(w, s);
      NoGapStepIff(w, e, s);
    }
  }

  lemma NoGapNextIff(ws: seq<World>, es: seq<Event>, i: nat)
    requires WipeFree(ws, es) && i < |es| && NoGap(ws[i])
    ensures NoGap(ws[i + 1]) <==> StoresInOrderAt(ws, es, i)
  {
    RunIsKnown(ws, es, i);
    assert HappensAt(ws, es, i);
    NoGapEventIff(ws[i], es[i]);
  }

  lemma StartHasNoGap(w: World)
    requires exists a, b :: a != b && w == Start(a, b)
    ensures NoGap(w)
  {
  }

  lemma NoGapThroughout(ws: seq<World>, es: seq<Event>, i: nat)
    requires WipeFree(ws, es) && i < |ws| && forall j :: 0 <= j < |es| ==> StoresInOrderAt(ws, es, j)
    ensures NoGap(ws[i])
  {
    var holds := (w: World) => NoGap(w);
    StartHasNoGap(ws[0]);
    forall j | 0 <= j < |ws| - 1 && holds(ws[j]) ensures holds(ws[j + 1]) {
      NoGapNextIff(ws, es, j);
      assert StoresInOrderAt(ws, es, j);
    }
    HoldsOn(ws, holds, 0, i);
    assert holds(ws[i]);
  }

  /** A run without wipes is free of gaps at every state exactly if every text it stores is next in order. */
  lemma NoGapIff(ws: seq<World>, es: seq<Event>)
    requires WipeFree(ws, es)
    ensures (forall i :: 0 <= i < |ws| ==> NoGap(ws[i])) <==> forall i :: 0 <= i < |es| ==> StoresInOrderAt(ws, es, i)
  {
    if forall i :: 0 <= i < |ws| ==> NoGap(ws[i]) {
      forall i | 0 <= i < |es| ensures StoresInOrderAt(ws, es, i) {
        assert NoGap(ws[i]) && NoGap(ws[i + 1]);
        NoGapNextIff(ws, es, i);
      }
    }
    if forall i :: 0 <= i < |es| ==> StoresInOrderAt(ws, es, i) {
      forall i | 0 <= i < |ws| ensures NoGap(ws[i]) {
        NoGapThroughout(ws, es, i);
      }
    }
  }

  // ---------------------------------------------------------------- no gap is enough for Synced

  /** A digest that waits to be acted on reports a message its sender holds. */
  ghost predicate ReportHeld(w: World, s: Side) {
    w.At(s).sync.Answered? ==> MarkHeld(w, s, w.At(s).sync.theirs.highestInbound)
  }

  lemma ReportStep(w: World, e: Event, s: Side)
    requires Known(w) && Possible(w, e) && WipesNothing(w, e) && ReportHeld(w, s)
    ensures ReportHeld(Next(w, e), s)
  {
    SyncAfterEvent(w, e, s);
    HeldGrowsByOne(w, e, s);
    if e.HeaderAnswered? && e.side == s {
      HeaderDigest(w, s, e.allowed);
      InboundIsHeld(w, s);
    }
  }

  lemma ReportNext(ws: seq<World>, es: seq<Event>, i: nat, s: Side)
    requires WipeFree(ws, es) && i < |es| && ReportHeld(ws[i], s)
    ensures ReportHeld(ws[i + 1], s)
  {
    RunIsKnown(ws, es, i);
    assert HappensAt(ws, es, i);
    ReportStep(ws[i], es[i], s);
  }

  lemma ReportAlwaysHeld(ws: seq<World>, es: seq<Event>, i: nat, s: Side)
    requires WipeFree(ws, es) && i < |ws|
    ensures ReportHeld(ws[i], s)
  {
    var holds := (w: World) => ReportHeld(w, s);
    assert holds(ws[0]);
    forall j | 0 <= j < |ws| - 1 && holds(ws[j]) ensures holds(ws[j + 1]) {
      ReportNext(ws, es, j, s);
    }
    HoldsOn(ws, holds, 0, i);
    assert holds(ws[i]);
  }

  /** Without a gap up to the reported message, every row a digest promotes is held. */
  lemma NoGapPromotes(ws: seq<World>, es: seq<Event>, i: nat)
    requires WipeFree(ws, es) && i < |es| && NoGap(ws[i])
    ensures PromotesHeldAt(ws, es, i)
  {
    assert HappensAt(ws, es, i);
    if es[i].ActOnDigest? {
      ReportAlwaysHeld(ws, es, i, es[i].side);
      assert GapFree(ws[i], es[i].side);
    }
  }

  lemma OrderedIsTruthful(ws: seq<World>, es: seq<Event>, i: nat)
    requires WipeFree(ws, es) && i < |ws| && forall j :: 0 <= j < |es| ==> StoresInOrderAt(ws, es, j)
    ensures Truthful(ws[i])
  {
    forall j | 0 <= j < |es| ensures PromotesHeldAt(ws, es, j) {
      NoGapThroughout(ws, es, j);
      NoGapPromotes(ws, es, j);
    }
    TruthfulThroughout(ws, es, i);
  }

  /**
   * In every run without wipes that stores texts in order, at every moment, however reconciles are interleaved or cut
   * off: what a side holds of the other's messages is an initial segment of what was written, and every own message
   * marked Synced is held by the other side with the same contents.
   */
  lemma SyncedIsSound(ws: seq<World>, es: seq<Event>, i: nat, s: Side)
    requires WipeFree(ws, es) && i < |ws| && forall j :: 0 <= j < |es| ==> StoresInOrderAt(ws, es, j)
    ensures Initial(HeldFrom(ws[i], s), IssuedBy(ws[i], s))
    ensures forall id :: Own(ws[i].At(s).node, id) && ws[i].At(s).node.messages[id].status == Synced ==>
      HasCopy(ws[i], s, id)
  {
    NoGapThroughout(ws, es, i);
    OrderedIsTruthful(ws, es, i);
    RunIsKnown(ws, es, i);
    assert GapFree(ws[i], s) && SyncedHeld(ws[i], s);
    forall id | Own(ws[i].At(s).node, id) && ws[i].At(s).node.messages[id].status == Synced
      ensures HasCopy(ws[i], s, id)
    {
      HeldIsCopy(ws[i], s, id);
    }
  }

  // ---------------------------------------------------------------- pages are in order if live texts are

  ghost predicate OrderedAt(ws: seq<World>, es: seq<Event>, i: int)
    requires IsHistory(ws, es) && 0 <= i < |es|
  {
    HappensAt(ws, es, i) && InOrder(ws[i], es[i])
  }

  /** Every reconcile starts with a session in place. */
  ghost predicate AsksWithSession(ws: seq<World>, es: seq<Event>)
    requires IsHistory(ws, es)
  {
    forall i :: 0 <= i < |es| && es[i].Ask? ==> ws[i].Peer(es[i].side) in ws[i].At(es[i].side).node.sessions
  }

  ghost predicate ExchangeHasSession(w: World, s: Side) {
    w.At(s).sync.Idle? || w.Peer(s) in w.At(s).node.sessions
  }

  lemma ExchangeKeepsSession(ws: seq<World>, es: seq<Event>, i: nat, s: Side)
    requires WipeFree(ws, es) && AsksWithSession(ws, es) && i < |es| && ExchangeHasSession(ws[i], s)
    ensures ExchangeHasSession(ws[i + 1], s)
  {
    var w, e := ws[i], es[i];
    assert HappensAt(ws, es, i);
    SyncAfterEvent(w, e, s);
    NodeAfter(w, e, s);
    MeAfter(w, e, s.Other());
    if w.Peer(s) in w.At(s).node.sessions && ActOf(w, e).Act? {
      SessionsStay(w.At(s).node, ActOf(w, e).step);
    }
  }

  lemma ExchangeAlwaysHasSession(ws: seq<World>, es: seq<Event>, i: nat, s: Side)
    requires WipeFree(ws, es) && AsksWithSession(ws, es) && i < |ws|
    ensures ExchangeHasSession(ws[i], s)
  {
    var holds := (w: World) => ExchangeHasSession(w, s);
    assert holds(ws[0]);
    forall j | 0 <= j < |ws| - 1 && holds(ws[j]) ensures holds(ws[j + 1]) {
      ExchangeKeepsSession(ws, es, j, s);
    }
    HoldsOn(ws, holds, 0, i);
    assert holds(ws[i]);
  }

  /** A session in place when a reconcile starts is enough for every text of its pages to be stored. */
  lemma SessionsSuffice(ws: seq<World>, es: seq<Event>)
    requires WipeFree(ws, es) && AsksWithSession(ws, es)
    requires forall i :: 0 <= i < |es| ==> OrderedAt(ws, es, i)
    ensures OrderlyHistory(ws, es)
  {
    forall i | 0 <= i < |es| ensures HappensAt(ws, es, i) && Orderly(ws[i], es[i]) {
      assert HappensAt(ws, es, i) && OrderedAt(ws, es, i);
      if es[i].IngestNext? {
        ExchangeAlwaysHasSession(ws, es, i, es[i].side);
      }
    }
  }

  lemma OrderlyStoresInOrder(ws: seq<World>, es: seq<Event>, i: nat)
    requires OrderlyHistory(ws, es) && i < |es|
    ensures StoresInOrderAt(ws, es, i)
  {
    SoundThroughout(ws, es, i);
    SoundThroughout(ws, es, i + 1);
    RunIsKnown(ws, es, i);
    assert HappensAt(ws, es, i) && Orderly(ws[i], es[i]);
    forall s ensures StoresInOrder(ws[i], es[i], s) {
      assert GapFree(ws[i], s) && GapFree(ws[i + 1], s);
      NoGapStepIff(ws[i], es[i], s);
    }
  }

  lemma ArrivedIsGained(w: World, e: Event)
    requires Known(w) && Possible(w, e) && e.Arrive?
    requires var f := w.flights[e.flight];
      var o := f.from.Other();
      f.envelope.id in Next(w, e).At(o).node.messages && f.envelope.id !in w.At(o).node.messages
    ensures var f := w.flights[e.flight]; Gains(w, e, f.from, f.envelope.id)
  {
    var f := w.flights[e.flight];
    ArrivalGains(w, e);
    HeldIsGained(w, e, f.from, f.envelope.id);
  }

  lemma StoringInOrderIsOrdered(w: World, e: Event)
    requires Known(w) && Possible(w, e) && forall s :: StoresInOrder(w, e, s)
    ensures InOrder(w, e)
  {
    if e.Arrive? {
      var f := w.flights[e.flight];
      var o := f.from.Other();
      if f.envelope.id in Next(w, e).At(o).node.messages && f.envelope.id !in w.At(o).node.messages {
        ArrivedIsGained(w, e);
        assert StoresInOrder(w, e, f.from);
      }
    }
  }

  /**
   * When no reconcile starts without a session, pages take care of themselves: everything is stored in order exactly
   * if the texts that arrive live are.
   */
  lemma LiveOrderIff(ws: seq<World>, es: seq<Event>)
    requires WipeFree(ws, es) && AsksWithSession(ws, es)
    ensures (forall i :: 0 <= i < |es| ==> StoresInOrderAt(ws, es, i)) <==>
      forall i :: 0 <= i < |es| ==> OrderedAt(ws, es, i)
  {
    if forall i :: 0 <= i < |es| ==> StoresInOrderAt(ws, es, i) {
      forall i | 0 <= i < |es| ensures OrderedAt(ws, es, i) {
        RunIsKnown(ws, es, i);
        assert StoresInOrderAt(ws, es, i);
        StoringInOrderIsOrdered(ws[i], es[i]);
      }
    }
    if forall i :: 0 <= i < |es| ==> OrderedAt(ws, es, i) {
      SessionsSuffice(ws, es);
      forall i | 0 <= i < |es| ensures StoresInOrderAt(ws, es, i) {
        OrderlyStoresInOrder(ws, es, i);
      }
    }
  }
}
