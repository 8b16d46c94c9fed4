/** The reconcile as the two-node machine takes it, await by await, comes to the reconcile taken as one call. */
module Refinement {
  import opened Types
  import opened Storage
  import opened Node
  import opened NodeRuns
  import opened World
  import R = Reconcile
  import Convergence

  // ---------------------------------------------------------------- one side by itself

  /** The next row of the page, ingested. */
  function OneIngested(x: End, peer: PeerId): End
    requires x.sync.Ingesting? && x.sync.page != []
  {
    var (n, outcome) := Ingest(x.node, peer, x.sync.page[0]);
    End(n, Onward(x.sync.page[1..], x.sync.last, x.sync.more, x.sync.left,
      if outcome.Inserted? then x.sync.persisted + [x.sync.page[0].id] else x.sync.persisted))
  }

  function Waits(x: End): nat {
    if x.sync.Ingesting? then |x.sync.page| else 0
  }

  function PageIngested(x: End, peer: PeerId): End
    decreases Waits(x)
  {
    if Waits(x) == 0 then x else PageIngested(OneIngested(x, peer), peer)
  }

  /** What `other` answers to a Pull of `me`. */
  function PullFrom(other: Node, me: PeerId, since: Option<MessageId>): SyncResp {
    HandleSync(other, me, Pull(Between(me, other.me), since, SYNC_PULL_LIMIT), true).1
  }

  /** The page that came, taken up. */
  function OnePulled(x: End, other: Node): End
    requires x.sync.Pulling? && x.sync.left > 0
  {
    match PullFrom(other, x.node.me, x.sync.since)
    case PullPage(page, more) => End(x.node, Paged(page, more, x.sync.left - 1, x.sync.persisted))
    case _ => End(x.node, Finishing(x.sync.persisted))
  }

  lemma {:induction false} IngestAllHead(n: Node, peer: PeerId, page: seq<Envelope>)
    requires page != []
    ensures var (n1, outcome) := Ingest(n, peer, page[0]);
      var (n2, ids) := R.IngestAll(n1, peer, page[1..]);
      R.IngestAll(n, peer, page) == (n2, (if outcome.Inserted? then [page[0].id] else []) + ids)
  {
    var first := [page[0]];
    assert first[..0] == [];
    assert R.IngestAll(n, peer, first[..0]) == (n, []);
    assert [] + [page[0].id] == [page[0].id];
    var (n1, outcome) := Ingest(n, peer, page[0]);
    assert R.IngestAll(n, peer, first) == (n1, if outcome.Inserted? then [page[0].id] else []);
    R.IngestAllConcat(n, peer, first, page[1..]);
    assert first + page[1..] == page;
  }

  lemma {:induction false} PageIsIngestAll(x: End, peer: PeerId)
    requires x.sync.Ingesting? && x.sync.page != []
    ensures var (n, ids) := R.IngestAll(x.node, peer, x.sync.page);
      PageIngested(x, peer) == End(n, Onward([], x.sync.last, x.sync.more, x.sync.left, x.sync.persisted + ids))
    decreases |x.sync.page|
  {
    var page, had := x.sync.page, x.sync.persisted;
    IngestAllHead(x.node, peer, page);
    var (n1, outcome) := Ingest(x.node, peer, page[0]);
    var head := if outcome.Inserted? then [page[0].id] else [];
    var (n2, ids) := R.IngestAll(n1, peer, page[1..]);
    var x1 := OneIngested(x, peer);
    assert x1 == End(n1, Onward(page[1..], x.sync.last, x.sync.more, x.sync.left, had + head)) by {
      assert had + [] == had;
    }
    assert (had + head) + ids == had + (head + ids);
    if page[1..] == [] {
      assert (had + head) + [] == had + head;
    } else {
      PageIsIngestAll(x1, peer);
    }
  }

  lemma IngestAllKeepsMe(n: Node, peer: PeerId, page: seq<Envelope>)
    ensures R.IngestAll(n, peer, page).0.me == n.me
  {
    if page != [] {
      IngestAllKeepsMe(n, peer, page[..|page| - 1]);
    }
  }

  /** One pull and the ingests of its page. */
  function PageTaken(x: End, other: Node): End
    requires x.sync.Pulling? && x.sync.left > 0
  {
    PageIngested(OnePulled(x, other), other.me)
  }

  /** Every pull of `me` is answered from `other`'s table as it is. */
  ghost predicate AnswersAs(answers: R.PullAnswers, other: Node, me: PeerId) {
    forall j: nat, since :: answers(j, since) == Some(PullFrom(other, me, since))
  }

  lemma PageTakenIs(x: End, other: Node, answers: R.PullAnswers, k: nat)
    requires x.sync.Pulling? && x.sync.left > 0 && AnswersAs(answers, other, x.node.me)
    ensures var (page, more) := R.PageAt(answers, k, x.sync.since);
      var (n, ids) := R.IngestAll(x.node, other.me, page);
      && n.me == x.node.me
      && PageTaken(x, other) == End(n,
        if page != [] && more && x.sync.left > 1 then
          Pulling(Some(page[|page| - 1].id), x.sync.left - 1, x.sync.persisted + ids)
        else Finishing(x.sync.persisted + ids))
  {
    assert answers(k, x.sync.since) == Some(PullFrom(other, x.node.me, x.sync.since));
    var (page, more) := R.PageAt(answers, k, x.sync.since);
    assert x.sync.persisted + [] == x.sync.persisted;
    IngestAllKeepsMe(x.node, other.me, page);
    if page != [] {
      PageIsIngestAll(OnePulled(x, other), other.me);
    }
  }

  /** The answers `other` gives, whichever pull it is. */
  function Steady(other: Node, me: PeerId): R.PullAnswers {
    (k: nat, since: Option<MessageId>) => Some(PullFrom(other, me, since))
  }

  function Turns(x: End): nat {
    if x.sync.Pulling? then x.sync.left else 0
  }

  function AllPulled(x: End, other: Node): End
    decreases Turns(x)
  {
    if Turns(x) == 0 then x
    else
      PageTakenIs(x, other, Steady(other, x.node.me), 0);
      AllPulled(PageTaken(x, other), other)
  }

  lemma AllPulledUnrolls(x: End, other: Node, answers: R.PullAnswers, k: nat)
    requires x.sync.Pulling? && 0 < x.sync.left && AnswersAs(answers, other, x.node.me)
    ensures var (page, more) := R.PageAt(answers, k, x.sync.since);
      var (n, ids) := R.IngestAll(x.node, other.me, page);
      && n.me == x.node.me
      && AllPulled(x, other) ==
        if page != [] && more && x.sync.left > 1
        then AllPulled(End(n, Pulling(Some(page[|page| - 1].id), x.sync.left - 1, x.sync.persisted + ids)), other)
        else End(n, Finishing(x.sync.persisted + ids))
  {
    PageTakenIs(x, other, answers, k);
  }

  /** `pulled` takes one page and goes on exactly when the Pull loop does. */
  ghost predicate Unrolls(pulled: End -> End, peer: PeerId, answers: R.PullAnswers, k: nat, n: Node,
        since: Option<MessageId>, left: nat, had: seq<MessageId>)
  {
    var (page, more) := R.PageAt(answers, k, since);
    var (n', ids) := R.IngestAll(n, peer, page);
    && n'.me == n.me
    && pulled(End(n, Pulling(since, left, had))) ==
      if page != [] && more && left > 1 then pulled(End(n', Pulling(Some(page[|page| - 1].id), left - 1, had + ids)))
      else End(n', Finishing(had + ids))
  }

  lemma {:induction false} UnrollingIsLoop(pulled: End -> End, peer: PeerId, answers: R.PullAnswers, k: nat, n: Node,
        since: Option<MessageId>, left: nat, had: seq<MessageId>)
    requires 0 < left && k + left == SYNC_MAX_PULL_PAGES
    requires forall k2: nat, n2: Node, since2, left2: nat, had2 :: left2 > 0 && n2.me == n.me ==>
      Unrolls(pulled, peer, answers, k2, n2, since2, left2, had2)
    ensures var loop := R.PullLoop(n, peer, since, k, answers, had);
      pulled(End(n, Pulling(since, left, had))) == End(loop.node, Finishing(loop.persisted))
    decreases left
  {
    var (page, more) := R.PageAt(answers, k, since);
    var (n1, ids) := R.IngestAll(n, peer, page);
    assert Unrolls(pulled, peer, answers, k, n, since, left, had);
    if page == [] {
      R.PullEnds(n, peer, since, k, answers, had);
      assert had + [] == had;
    } else {
      R.PullGoesOn(n, peer, since, k, answers, had);
      if more && left > 1 {
        UnrollingIsLoop(pulled, peer, answers, k + 1, n1, Some(page[|page| - 1].id), left - 1, had + ids);
      }
    }
  }

  lemma AllPulledIsLoop(n: Node, since: Option<MessageId>, other: Node, answers: R.PullAnswers)
    requires AnswersAs(answers, other, n.me)
    ensures var loop := R.PullLoop(n, other.me, since, 0, answers, []);
      AllPulled(End(n, Pulling(since, SYNC_MAX_PULL_PAGES, [])), other) == End(loop.node, Finishing(loop.persisted))
  {
    var pulled := (x: End) => AllPulled(x, other);
    forall k: nat, n2: Node, since2, left: nat, had | left > 0 && n2.me == n.me
      ensures Unrolls(pulled, other.me, answers, k, n2, since2, left, had)
    {
      AllPulledUnrolls(End(n2, Pulling(since2, left, had)), other, answers, k);
    }
    UnrollingIsLoop(pulled, other.me, answers, 0, n, since, SYNC_MAX_PULL_PAGES, []);
    assert pulled(End(n, Pulling(since, SYNC_MAX_PULL_PAGES, []))) ==
      AllPulled(End(n, Pulling(since, SYNC_MAX_PULL_PAGES, [])), other);
  }

  // ---------------------------------------------------------------- that side in the world

  function WithEnd(w: World, s: Side, x: End): World {
    if s.A? then w.(a := x) else w.(b := x)
  }

  lemma WithEndTwice(w: World, s: Side, x: End, y: End)
    ensures WithEnd(w, s, x).At(s) == x && WithEnd(w, s, x).At(s.Other()) == w.At(s.Other())
    ensures WithEnd(WithEnd(w, s, x), s, y) == WithEnd(w, s, y)
  {
  }

  lemma NextIngest(w: World, s: Side)
    requires Possible(w, IngestNext(s))
    ensures Next(w, IngestNext(s)) == WithEnd(w, s, OneIngested(w.At(s), w.Peer(s)))
  {
  }

  lemma NextPull(w: World, s: Side)
    requires Possible(w, PullAnswered(s, true))
    ensures Next(w, PullAnswered(s, true)) == WithEnd(w, s, OnePulled(w.At(s), w.At(s.Other()).node))
  {
    assert Acted(w, PullAnswered(s, true)) == w;
    assert SyncAfter(w, PullAnswered(s, true)) == OnePulled(w.At(s), w.At(s.Other()).node).sync;
  }

  /** `IngestNext` until the page is through. */
  function IngestPage(w: World, s: Side): World
    decreases Waits(w.At(s))
  {
    if Waits(w.At(s)) == 0 then w
    else
      NextIngest(w, s);
      WithEndTwice(w, s, OneIngested(w.At(s), w.Peer(s)), w.At(s));
      IngestPage(Next(w, IngestNext(s)), s)
  }

  lemma {:induction false} IngestPageEnd(w: World, s: Side)
    ensures IngestPage(w, s) == WithEnd(w, s, PageIngested(w.At(s), w.Peer(s)))
    decreases Waits(w.At(s))
  {
    if Waits(w.At(s)) > 0 {
      var x1 := OneIngested(w.At(s), w.Peer(s));
      NextIngest(w, s);
      WithEndTwice(w, s, x1, PageIngested(x1, w.Peer(s)));
      IngestPageEnd(WithEnd(w, s, x1), s);
    }
  }

  /** One pull and the ingests of its page. */
  function OnePage(w: World, s: Side): World
    requires Turns(w.At(s)) > 0
  {
    IngestPage(Next(w, PullAnswered(s, true)), s)
  }

  lemma OnePageEnd(w: World, s: Side)
    requires Turns(w.At(s)) > 0
    ensures OnePage(w, s) == WithEnd(w, s, PageTaken(w.At(s), w.At(s.Other()).node))
  {
    var x1 := OnePulled(w.At(s), w.At(s.Other()).node);
    NextPull(w, s);
    WithEndTwice(w, s, x1, PageIngested(x1, w.Peer(s)));
    IngestPageEnd(WithEnd(w, s, x1), s);
  }

  /** Pulls and ingests until the loop ends. */
  function PullAll(w: World, s: Side): World
    decreases Turns(w.At(s))
  {
    if Turns(w.At(s)) == 0 then w
    else
      OnePageEnd(w, s);
      WithEndTwice(w, s, PageTaken(w.At(s), w.At(s.Other()).node), w.At(s));
      PageTakenIs(w.At(s), w.At(s.Other()).node, Steady(w.At(s.Other()).node, w.Me(s)), 0);
      PullAll(OnePage(w, s), s)
  }

  lemma {:induction false} PullAllEnd(w: World, s: Side)
    ensures PullAll(w, s) == WithEnd(w, s, AllPulled(w.At(s), w.At(s.Other()).node))
    decreases Turns(w.At(s))
  {
    var x, other := w.At(s), w.At(s.Other()).node;
    if Turns(x) > 0 {
      var x1 := PageTaken(x, other);
      PageTakenIs(x, other, Steady(other, x.node.me), 0);
      OnePageEnd(w, s);
      WithEndTwice(w, s, x1, AllPulled(x1, other));
      PullAllEnd(WithEnd(w, s, x1), s);
    }
  }

  // ---------------------------------------------------------------- the whole exchange

  /** The Ack, when there is something to acknowledge. */
  function Ended(w: World, s: Side): World {
    if w.At(s).sync.Finishing? && w.At(s).sync.persisted != [] then
      AcksAfterEvent(w, SendAck(s));
      Next(Next(w, SendAck(s)), AckArrives(s, w.At(s).sync.persisted, true))
    else Next(w, Interrupt(s))
  }

  function Digested(w: World, s: Side): World
    requires Possible(w, Ask(s))
  {
    SyncAfterEvent(w, Ask(s), s);
    Next(Next(w, Ask(s)), HeaderAnswered(s, true))
  }

  /** A reconcile of `s` that nothing interferes with, from the Header to the Ack. */
  function Exchanged(w: World, s: Side, order: seq<MessageId>): World
    requires Possible(w, Ask(s))
  {
    var w2 := Digested(w, s);
    var w3 := if w2.At(s).sync.Answered? then Next(w2, ActOnDigest(s, order)) else w2;
    Ended(PullAll(w3, s), s)
  }

  lemma EndedIs(w: World, s: Side, n: Node, persisted: seq<MessageId>)
    requires w.At(s) == End(n, Finishing(persisted))
    ensures var o := w.At(s.Other()).node;
      var w' := Ended(w, s);
      && w'.At(s) == End(n, Idle)
      && w'.At(s.Other()).node ==
         (if persisted == [] then o else HandleSync(o, n.me, Ack(Conv(n, o.me), persisted), true).0)
  {
    if persisted != [] {
      var w1 := Next(w, SendAck(s));
      AcksAfterEvent(w, SendAck(s));
      assert w1 == w.WithSync(s, Idle).(acks := w.acks + {(s, persisted)});
      AckEvent(w1, s, persisted);
    }
  }

  lemma AckEvent(w: World, s: Side, confirmed: seq<MessageId>)
    requires (s, confirmed) in w.acks
    ensures var w' := Next(w, AckArrives(s, confirmed, true));
      && w'.At(s) == w.At(s)
      && w'.At(s.Other()).node ==
         HandleSync(w.At(s.Other()).node, w.Me(s), Ack(Conv(w.At(s).node, w.Peer(s)), confirmed), true).0
  {
  }

  lemma EndedIdle(w: World, s: Side)
    requires w.At(s).sync.Idle?
    ensures Ended(w, s) == w
  {
  }

  /** What the asker knows once the Header was answered. */
  function KnownAfterHeader(n: Node, r: Node): (x: Exchange)
    ensures x.Idle? || x.Answered?
  {
    var since := HighestInbound(n.messages, Conv(n, r.me), n.me);
    match Convergence.HeaderOf(n, r)
    case Some(HeaderAck(ours)) =>
      (match R.TheirDigest(ours, Conv(n, r.me))
       case Some(theirs) => Answered(since, theirs)
       case None => Idle)
    case _ => Idle
  }

  lemma DigestedIs(w: World, s: Side)
    requires Possible(w, Ask(s))
    ensures Digested(w, s) == WithEnd(w, s, End(w.At(s).node, KnownAfterHeader(w.At(s).node, w.At(s.Other()).node)))
  {
    var n := w.At(s).node;
    var w1 := Next(w, Ask(s));
    assert w1 == WithEnd(w, s, End(n, Asked(HighestInbound(n.messages, Conv(n, w.Peer(s)), n.me))));
    WithEndTwice(w, s, w1.At(s), Digested(w, s).At(s));
    assert Digested(w, s) == WithEnd(w1, s, End(n, SyncAfter(w1, HeaderAnswered(s, true))));
  }

  /** The node and the exchange after acting on a digest. */
  function ActedOn(n: Node, r: Node, since: Option<MessageId>, theirs: Digest, order: seq<MessageId>): End {
    End(if theirs.highestInbound.Some? then Promote(n, r.me, theirs.highestInbound.value, order) else n,
      if NeedPull(theirs.highestOutbound, since) then Pulling(since, SYNC_MAX_PULL_PAGES, []) else Idle)
  }

  lemma ActedOnIs(w: World, s: Side, since: Option<MessageId>, theirs: Digest, order: seq<MessageId>)
    requires w.At(s).sync == Answered(since, theirs)
    ensures Next(w, ActOnDigest(s, order)) ==
      WithEnd(w, s, ActedOn(w.At(s).node, w.At(s.Other()).node, since, theirs, order))
  {
  }

  lemma {:induction false} LoopKeepsMe(n: Node, peer: PeerId, since: Option<MessageId>, k: nat, answers: R.PullAnswers,
        had: seq<MessageId>)
    requires k < SYNC_MAX_PULL_PAGES
    ensures R.PullLoop(n, peer, since, k, answers, had).node.me == n.me
    decreases SYNC_MAX_PULL_PAGES - k
  {
    var (page, more) := R.PageAt(answers, k, since);
    if page == [] {
      R.PullEnds(n, peer, since, k, answers, had);
    } else {
      R.PullGoesOn(n, peer, since, k, answers, had);
      IngestAllKeepsMe(n, peer, page);
      var (n1, ids) := R.IngestAll(n, peer, page);
      if more && k + 1 < SYNC_MAX_PULL_PAGES {
        LoopKeepsMe(n1, peer, Some(page[|page| - 1].id), k + 1, answers, had + ids);
      }
    }
  }

  /** Both nodes after a loop and its Ack. */
  ghost predicate LoopEnds(w': World, s: Side, r: Node, me: PeerId, loop: R.Pulled) {
    && w'.At(s) == End(loop.node, Idle)
    && w'.At(s.Other()).node ==
         (if loop.persisted == [] then r else HandleSync(r, me, Ack(Between(me, r.me), loop.persisted), true).0)
  }

  /** From a digest on: the loop and the Ack. */
  lemma RestIs(w: World, s: Side, n: Node, since: Option<MessageId>, answers: R.PullAnswers)
    requires w.At(s) == End(n, Pulling(since, SYNC_MAX_PULL_PAGES, []))
    requires AnswersAs(answers, w.At(s.Other()).node, n.me)
    ensures var r := w.At(s.Other()).node;
      LoopEnds(Ended(PullAll(w, s), s), s, r, n.me, R.PullLoop(n, r.me, since, 0, answers, []))
  {
    var r := w.At(s.Other()).node;
    var loop := R.PullLoop(n, r.me, since, 0, answers, []);
    AllPulledIsLoop(n, since, r, answers);
    LoopKeepsMe(n, r.me, since, 0, answers, []);
    PullAllEnd(w, s);
    var x := End(loop.node, Finishing(loop.persisted));
    WithEndTwice(w, s, x, x);
    EndedIs(WithEnd(w, s, x), s, loop.node, loop.persisted);
  }

  /** What a reconcile comes to, from what the asker learnt. */
  lemma KickFrom(n: Node, r: Node, order: seq<MessageId>)
    requires StatusOf(n, r.me) == Some(Accepted)
    ensures var o := Convergence.Asked(n, r, order);
      match KnownAfterHeader(n, r)
      case Answered(since, theirs) =>
        var x := ActedOn(n, r, since, theirs, order);
        if x.sync.Idle? then o.node == x.node && o.acked == []
        else
          var loop := R.PullLoop(x.node, r.me, since, 0, Convergence.AnswersOf(n, r), []);
          o.node == loop.node && o.acked == loop.persisted
      case _ => o.node == n && o.acked == []
  {
  }

  lemma AnswersAreSteady(n: Node, r: Node)
    ensures AnswersAs(Convergence.AnswersOf(n, r), r, n.me)
  {
  }

  lemma PromotedMe(n: Node, r: Node, since: Option<MessageId>, theirs: Digest, order: seq<MessageId>)
    ensures ActedOn(n, r, since, theirs, order).node.me == n.me
  {
  }

  /** The exchange once the digest is in, as one call. */
  lemma AnsweredIsRound(w: World, s: Side, n: Node, since: Option<MessageId>, theirs: Digest, order: seq<MessageId>)
    requires w.At(s) == End(n, Answered(since, theirs)) && StatusOf(n, w.At(s.Other()).node.me) == Some(Accepted)
    requires KnownAfterHeader(n, w.At(s.Other()).node) == Answered(since, theirs)
    ensures var r := w.At(s.Other()).node;
      var w' := Ended(PullAll(Next(w, ActOnDigest(s, order)), s), s);
      && (w'.At(s).node, w'.At(s.Other()).node) == Convergence.Round(n, r, order)
      && w'.At(s).sync == Idle
  {
    var r := w.At(s.Other()).node;
    var x := ActedOn(n, r, since, theirs, order);
    ActedOnIs(w, s, since, theirs, order);
    WithEndTwice(w, s, x, x);
    KickFrom(n, r, order);
    var w3 := Next(w, ActOnDigest(s, order));
    if x.sync.Idle? {
      assert PullAll(w3, s) == w3;
      EndedIdle(w3, s);
    } else {
      AnswersAreSteady(n, r);
      PromotedMe(n, r, since, theirs, order);
      RestIs(w3, s, x.node, since, Convergence.AnswersOf(n, r));
    }
  }

  /** The machine starts an exchange exactly where the reconcile as one call sends its Header, whatever is answered. */
  lemma AskIffHeaderSent(w: World, s: Side, header: Option<SyncResp>, order: seq<MessageId>, answers: R.PullAnswers)
    ensures Possible(w, Ask(s)) <==>
      w.At(s).sync == Idle && R.KickSync(w.At(s).node, w.Peer(s), header, order, answers).requests > 0
  {
    R.AsksIffAccepted(w.At(s).node, w.Peer(s), header, order, answers);
  }

  /**
   * A reconcile taken await by await, when nothing happens in between, leaves both nodes exactly as the reconcile
   * taken as one call leaves them; so what is proved of rounds holds in the two-node machine.
   */
  lemma ExchangeIsRound(w: World, s: Side, order: seq<MessageId>)
    requires Possible(w, Ask(s))
    ensures var w' := Exchanged(w, s, order);
      && (w'.At(s).node, w'.At(s.Other()).node) == Convergence.Round(w.At(s).node, w.At(s.Other()).node, order)
      && w'.At(s).sync == Idle
  {
    var n, r := w.At(s).node, w.At(s.Other()).node;
    DigestedIs(w, s);
    var x := End(n, KnownAfterHeader(n, r));
    WithEndTwice(w, s, x, x);
    var w2 := Digested(w, s);
    if x.sync.Answered? {
      AnsweredIsRound(w2, s, n, x.sync.since, x.sync.theirs, order);
    } else {
      KickFrom(n, r, order);
      assert PullAll(w2, s) == w2;
      EndedIdle(w2, s);
    }
  }
}
