/** Two nodes and the network between them, one event at a time. */
module World {
  import opened Types
  import opened Ordering
  import opened Storage
  import opened Node
  import opened NodeRuns
  import Reconcile

  datatype Side = A | B {
    function Other(): Side {
      if A? then B else A
    }
  }

  /** What a send is for: a first push, a queued re-send, or a queued deletion notice. */
  datatype Task = Push(id: MessageId) | Drain(id: MessageId, attempts: nat) | Flush(attempts: nat)

  /**
   * A send. It may arrive any number of times, even after the sender stopped waiting for it; `acked` says whether some
   * arrival was acknowledged, `ended` whether the sender has acted on the outcome or given up.
   */
  datatype Flight = Flight(from: Side, task: Task, envelope: Envelope, acked: bool, ended: bool)

  /** Where a reconcile stands between its awaits. */
  datatype Exchange =
    | Idle
    | Asked(since: Option<MessageId>)
    | Answered(since: Option<MessageId>, theirs: Digest)
    | Pulling(since: Option<MessageId>, left: nat, persisted: seq<MessageId>)
    | Ingesting(page: seq<Envelope>, last: MessageId, more: bool, left: nat, persisted: seq<MessageId>)
    | Finishing(persisted: seq<MessageId>)

  datatype End = End(node: Node, sync: Exchange)

  /** Who wrote a message, and what it says. */
  datatype Written = Written(from: Side, text: string)

  datatype World = World(
    a: End,
    b: End,
    flights: map<nat, Flight>,
    nextFlight: nat,
    acks: set<(Side, seq<MessageId>)>,      // every Ack ever sent, by the side that sent it
    written: map<MessageId, Written>)
  {
    function At(s: Side): End {
      if s.A? then a else b
    }

    function Me(s: Side): PeerId {
      At(s).node.me
    }

    function Peer(s: Side): PeerId {
      Me(s.Other())
    }

    function WithNode(s: Side, n: Node): World {
      if s.A? then this.(a := a.(node := n)) else this.(b := b.(node := n))
    }

    function WithSync(s: Side, r: Exchange): World {
      if s.A? then this.(a := a.(sync := r)) else this.(b := b.(sync := r))
    }

    function Launch(f: Flight): World {
      this.(flights := flights[nextFlight := f], nextFlight := nextFlight + 1)
    }
  }

  datatype Event =
    | Compose(side: Side, text: string, id: MessageId)
    | StartDrain(side: Side, id: MessageId)
    | StartFlush(side: Side)
    | Arrive(flight: nat, allowed: bool, responds: bool)
    | Finish(flight: nat, acked: bool, now: int)
    | Ask(side: Side)
    | HeaderAnswered(side: Side, allowed: bool)
    | ActOnDigest(side: Side, order: seq<MessageId>)
    | PullAnswered(side: Side, allowed: bool)
    | IngestNext(side: Side)
    | Interrupt(side: Side)
    | SendAck(side: Side)
    | AckArrives(side: Side, confirmed: seq<MessageId>, allowed: bool)
    | ControlArrives(side: Side, control: ControlPayload, allowed: bool, responds: bool)
    | Local(side: Side, step: Step)

  /** Contact commands, handshakes with the other side, and the deletion command. */
  predicate IsLocal(w: World, s: Side, step: Step) {
    match step
    case Handshake(peer, _, _, _, _) => peer == w.Peer(s)
    case AskContact(peer) => peer == w.Peer(s)
    case HandshakeReturned(peer) => peer == w.Peer(s)
    case AcceptRequest(_) => true
    case RejectRequest(_) => true
    case CancelRequest(_) => true
    case DrainFoundNothing(_, _) => true
    case Delete(peer, _, _) => peer == w.Peer(s)
    case Discover(peer, _) => peer == w.Peer(s)
    case _ => false
  }

  predicate Possible(w: World, e: Event) {
    match e
    case Compose(s, text, id) =>
      && Send(w.At(s).node, w.Peer(s), text, id).Some?
      && id !in w.written && forall x :: x in w.written && w.written[x].from == s ==> x < id
    case StartDrain(s, id) => (id, w.Peer(s)) in w.At(s).node.queue && id in w.At(s).node.messages
    case StartFlush(s) =>
      w.Peer(s) in w.At(s).node.pendingDeletes && w.At(s).node.pendingDeletes[w.Peer(s)].stored.Sealed?
    case Arrive(k, _, _) => k in w.flights
    case Finish(k, acked, _) => k in w.flights && !w.flights[k].ended && (acked ==> w.flights[k].acked)
    case Ask(s) => w.At(s).sync.Idle? && StatusOf(w.At(s).node, w.Peer(s)) == Some(Accepted)
    case HeaderAnswered(s, _) => w.At(s).sync.Asked?
    case ActOnDigest(s, _) => w.At(s).sync.Answered?
    case PullAnswered(s, _) => w.At(s).sync.Pulling? && w.At(s).sync.left > 0
    case IngestNext(s) => w.At(s).sync.Ingesting? && w.At(s).sync.page != []
    case Interrupt(s) => true
    case SendAck(s) => w.At(s).sync.Finishing? && w.At(s).sync.persisted != []
    case AckArrives(s, confirmed, _) => (s, confirmed) in w.acks
    case ControlArrives(_, control, _, _) => !control.ChatDeleted?
    case Local(s, step) => IsLocal(w, s, step)
  }

  // ---------------------------------------------------------------- what an event does to the nodes

  datatype Act = Nothing | Act(side: Side, step: Step)

  function ActOf(w: World, e: Event): Act
    requires Possible(w, e)
  {
    match e
    case Compose(s, text, id) => Act(s, SendMessage(w.Peer(s), text, id))
    case Arrive(k, allowed, responds) =>
      var f := w.flights[k];
      Act(f.from.Other(), Receive(w.Me(f.from), f.envelope, allowed, responds))
    case Finish(k, acked, now) =>
      var f := w.flights[k];
      (match f.task
       case Push(id) => Act(f.from, PushEnded(id, w.Peer(f.from), acked, now))
       case Drain(id, attempts) => Act(f.from, DrainEnded(id, w.Peer(f.from), attempts, acked, now))
       case Flush(attempts) => Act(f.from, FlushEnded(w.Peer(f.from), attempts, acked, now)))
    case ActOnDigest(s, order) =>
      var theirs := w.At(s).sync.theirs;
      if theirs.highestInbound.Some? then Act(s, PromoteUpTo(w.Peer(s), theirs.highestInbound.value, order))
      else Nothing
    case IngestNext(s) => Act(s, IngestOne(w.Peer(s), w.At(s).sync.page[0]))
    case AckArrives(s, confirmed, allowed) =>
      Act(s.Other(), AnswerSync(w.Me(s), Ack(Conv(w.At(s).node, w.Peer(s)), confirmed), allowed))
    case ControlArrives(s, control, allowed, responds) =>
      Act(s.Other(), Receive(w.Me(s), Envelope(0, w.Me(s), Control(control)), allowed, responds))
    case Local(s, step) => Act(s, step)
    case _ => Nothing
  }

  function Acted(w: World, e: Event): World
    requires Possible(w, e)
  {
    match ActOf(w, e)
    case Nothing => w
    case Act(s, step) => w.WithNode(s, Do(w.At(s).node, step))
  }

  // ---------------------------------------------------------------- what it does to the rest

  /** A page is taken up, or the loop ends. */
  function Paged(page: seq<Envelope>, more: bool, left: nat, persisted: seq<MessageId>): Exchange {
    if page == [] then Finishing(persisted) else Ingesting(page, page[|page| - 1].id, more, left, persisted)
  }

  /** After an ingest: the rest of the page, the next page, or the end. */
  function Onward(page: seq<Envelope>, last: MessageId, more: bool, left: nat, persisted: seq<MessageId>): Exchange {
    if page != [] then Ingesting(page, last, more, left, persisted)
    else if more && left > 0 then Pulling(Some(last), left, persisted)
    else Finishing(persisted)
  }

  /** What the other side answers to `s`. */
  function AnswerTo(w: World, s: Side, request: SyncReq, allowed: bool): SyncResp {
    HandleSync(w.At(s.Other()).node, w.Me(s), request, allowed).1
  }

  function SyncAfter(w: World, e: Event): Exchange
    requires Possible(w, e) && HasSync(e)
  {
    var s := e.side;
    var n, r := w.At(s).node, w.At(s).sync;
    match e
    case Ask(_) => Asked(HighestInbound(n.messages, Conv(n, w.Peer(s)), n.me))
    case HeaderAnswered(_, allowed) =>
      (match AnswerTo(w, s, Header([OwnDigest(n, w.Peer(s))]), allowed)
       case HeaderAck(ours) =>
         (match Reconcile.TheirDigest(ours, Conv(n, w.Peer(s)))
          case Some(theirs) => Answered(r.since, theirs)
          case None => Idle)
       case _ => Idle)
    case ActOnDigest(_, _) =>
      if NeedPull(r.theirs.highestOutbound, r.since) then Pulling(r.since, SYNC_MAX_PULL_PAGES, []) else Idle
    case PullAnswered(_, allowed) =>
      (match AnswerTo(w, s, Pull(Conv(n, w.Peer(s)), r.since, SYNC_PULL_LIMIT), allowed)
       case PullPage(page, more) => Paged(page, more, r.left - 1, r.persisted)
       case _ => Finishing(r.persisted))
    case IngestNext(_) =>
      var inserted := Ingest(n, w.Peer(s), r.page[0]).1.Inserted?;
      Onward(r.page[1..], r.last, r.more, r.left, if inserted then r.persisted + [r.page[0].id] else r.persisted)
    case Interrupt(_) =>
      if r.Pulling? || r.Ingesting? then Finishing(r.persisted) else Idle
    case SendAck(_) => Idle
  }

  predicate HasSync(e: Event) {
    e.Ask? || e.HeaderAnswered? || e.ActOnDigest? || e.PullAnswered? || e.IngestNext? || e.Interrupt? || e.SendAck?
  }

  function AcksAfter(w: World, e: Event): set<(Side, seq<MessageId>)>
    requires Possible(w, e)
  {
    if e.SendAck? then w.acks + {(e.side, w.At(e.side).sync.persisted)} else w.acks
  }

  predicate Launches(e: Event) {
    e.Compose? || e.StartDrain? || e.StartFlush?
  }

  /** The send a `Start` or `Compose` event puts under way. */
  function LaunchedBy(w: World, e: Event): Flight
    requires Possible(w, e) && Launches(e)
  {
    match e
    case Compose(s, text, id) => Flight(s, Push(id), Envelope(id, w.Me(s), Text(text)), false, false)
    case StartDrain(s, id) =>
      var attempts := w.At(s).node.queue[(id, w.Peer(s))].attempts;
      Flight(s, Drain(id, attempts), EnvelopeOf(w.At(s).node.messages, id), false, false)
    case StartFlush(s) =>
      var d := w.At(s).node.pendingDeletes[w.Peer(s)];
      Flight(s, Flush(d.attempts), d.stored.envelope, false, false)
  }

  function Next(w: World, e: Event): World
    requires Possible(w, e)
  {
    var w' := Acted(w, e);
    if HasSync(e) then w'.WithSync(e.side, SyncAfter(w, e)).(acks := AcksAfter(w, e))
    else
      match e
      case Compose(s, text, id) => w'.(written := w.written[id := Written(s, text)]).Launch(LaunchedBy(w, e))
      case StartDrain(_, _) => w'.Launch(LaunchedBy(w, e))
      case StartFlush(_) => w'.Launch(LaunchedBy(w, e))
      case Arrive(k, allowed, responds) =>
        var f := w.flights[k];
        var reply := HandleMsg(w.At(f.from.Other()).node, w.Me(f.from), f.envelope, allowed, responds).1;
        w'.(flights := w.flights[k := f.(acked := f.acked || (reply == Some(true) && responds))])
      case Finish(k, _, _) => w'.(flights := w.flights[k := w.flights[k].(ended := true)])
      case _ => w'
  }

  // ---------------------------------------------------------------- everything comes from what was written

  /** A stored row is what its writer wrote, to the other side. */
  ghost predicate RowKnown(w: World, s: Side, id: MessageId) {
    id in w.At(s).node.messages ==>
      && id in w.written
      && var m, from := w.At(s).node.messages[id], w.written[id].from;
         m == Message(w.Me(from), w.Peer(from), Text(w.written[id].text), m.status)
  }

  /** An envelope of `from` with the written text. */
  predicate IsCopy(w: World, from: Side, e: Envelope) {
    e.id in w.written && w.written[e.id].from == from && e == Envelope(e.id, w.Me(from), Text(w.written[e.id].text))
  }

  ghost predicate FlightKnown(w: World, k: nat) {
    k in w.flights ==>
      && k < w.nextFlight
      && var f := w.flights[k];
         match f.task
         case Push(id) => f.envelope.id == id && IsCopy(w, f.from, f.envelope)
         case Drain(id, _) =>
           f.envelope.id == id && (IsCopy(w, f.from, f.envelope) || IsCopy(w, f.from.Other(), f.envelope))
         case Flush(_) => f.envelope.sender == w.Me(f.from) && f.envelope.payload == Control(ChatDeleted)
  }

  ghost predicate PageKnown(w: World, s: Side) {
    w.At(s).sync.Ingesting? ==> forall i :: 0 <= i < |w.At(s).sync.page| ==> IsCopy(w, s.Other(), w.At(s).sync.page[i])
  }

  ghost predicate NoticeKnown(w: World, s: Side) {
    w.Peer(s) in w.At(s).node.pendingDeletes ==> IsNotice(w.At(s).node, w.At(s).node.pendingDeletes[w.Peer(s)])
  }

  ghost predicate Known(w: World) {
    && w.Me(A) != w.Me(B)
    && (forall id :: id in w.written ==> |w.written[id].text| <= MAX_MESSAGE_BYTES)
    && (forall s, id :: RowKnown(w, s, id))
    && (forall k :: FlightKnown(w, k))
    && (forall s :: PageKnown(w, s) && NoticeKnown(w, s))
  }

  /** Texts once written stay written. */
  ghost predicate Continues(w: World, w': World) {
    && w'.Me(A) == w.Me(A) && w'.Me(B) == w.Me(B)
    && forall id :: id in w.written ==> id in w'.written && w'.written[id] == w.written[id]
  }

  /** What an event does to the node of side `s`. */
  lemma NodeAfter(w: World, e: Event, s: Side)
    requires Possible(w, e)
    ensures var n' := Next(w, e).At(s).node;
      match ActOf(w, e)
      case Nothing => n' == w.At(s).node
      case Act(t, step) => n' == if s == t then Do(w.At(s).node, step) else w.At(s).node
  {
  }

  lemma MeAfter(w: World, e: Event, s: Side)
    requires Possible(w, e)
    ensures Next(w, e).Me(s) == w.Me(s)
  {
    NodeAfter(w, e, s);
    match ActOf(w, e)
    case Nothing =>
    case Act(t, step) => RowStep(w.At(t).node, step, 0);
  }

  lemma WrittenAfter(w: World, e: Event)
    requires Possible(w, e)
    ensures Next(w, e).written == if e.Compose? then w.written[e.id := Written(e.side, e.text)] else w.written
  {
  }

  lemma EventContinues(w: World, e: Event)
    requires Possible(w, e)
    ensures Continues(w, Next(w, e))
  {
    MeAfter(w, e, A);
    MeAfter(w, e, B);
    WrittenAfter(w, e);
  }

  lemma AcksAfterEvent(w: World, e: Event)
    requires Possible(w, e)
    ensures Next(w, e).acks == AcksAfter(w, e)
  {
  }

  lemma SyncAfterEvent(w: World, e: Event, s: Side)
    requires Possible(w, e)
    ensures Next(w, e).At(s).sync == if HasSync(e) && e.side == s then SyncAfter(w, e) else w.At(s).sync
  {
  }

  lemma LaunchAdds(w: World, e: Event)
    requires Possible(w, e) && Launches(e)
    ensures Next(w, e).flights == w.flights[w.nextFlight := LaunchedBy(w, e)]
    ensures Next(w, e).nextFlight == w.nextFlight + 1
  {
  }

  lemma OthersTouchNoFlight(w: World, e: Event)
    requires Possible(w, e) && !Launches(e) && !e.Arrive? && !e.Finish?
    ensures Next(w, e).flights == w.flights && Next(w, e).nextFlight == w.nextFlight
  {
  }

  lemma FlightTouched(w: World, e: Event)
    requires Possible(w, e) && (e.Arrive? || e.Finish?)
    ensures Next(w, e).nextFlight == w.nextFlight && e.flight in w.flights && e.flight in Next(w, e).flights
    ensures Next(w, e).flights == w.flights[e.flight := Next(w, e).flights[e.flight]]
    ensures var f, f' := w.flights[e.flight], Next(w, e).flights[e.flight];
      && f' == f.(acked := f'.acked, ended := f'.ended)
      && (f.acked ==> f'.acked)
      && (f'.acked && !f.acked ==> AckedNow(w, e, e.flight))
  {
  }

  /** A flight is new, or the same but for an acknowledgement that arrived or its end. */
  lemma FlightsAfter(w: World, e: Event, k: nat)
    requires Possible(w, e) && (k in w.flights ==> k < w.nextFlight)
    ensures var w' := Next(w, e);
      && w.nextFlight <= w'.nextFlight
      && (k in w.flights ==>
            && k in w'.flights
            && w'.flights[k] == w.flights[k].(acked := w'.flights[k].acked, ended := w'.flights[k].ended)
            && (w.flights[k].acked ==> w'.flights[k].acked)
            && (w'.flights[k].acked && !w.flights[k].acked ==> AckedNow(w, e, k)))
      && (k in w'.flights && k !in w.flights ==>
            && k == w.nextFlight < w'.nextFlight
            && Launches(e) && w'.flights[k] == LaunchedBy(w, e))
  {
    if Launches(e) {
      LaunchAdds(w, e);
    } else if e.Arrive? || e.Finish? {
      FlightTouched(w, e);
    } else {
      OthersTouchNoFlight(w, e);
    }
  }

  /** The event brings flight `k` to the other side, which acknowledges it. */
  ghost predicate AckedNow(w: World, e: Event, k: nat)
    requires k in w.flights
  {
    var f := w.flights[k];
    e.Arrive? && e.flight == k && e.responds
    && HandleMsg(w.At(f.from.Other()).node, w.Me(f.from), f.envelope, e.allowed, true).1 == Some(true)
  }

  // ---------------------------------------------------------------- everything stays known

  /** A row with the contents some text was written with, or the same row with another status, is known. */
  lemma RowStaysKnown(w: World, w': World, s: Side, id: MessageId)
    requires RowKnown(w, s, id) && Continues(w, w')
    requires id in w'.At(s).node.messages ==> id in w.At(s).node.messages && SameRow(w.At(s).node, w'.At(s).node, id)
    ensures RowKnown(w', s, id)
  {
  }

  lemma RowKnownStep(w: World, e: Event, s: Side, id: MessageId)
    requires Known(w) && Possible(w, e)
    ensures RowKnown(Next(w, e), s, id)
  {
    EventContinues(w, e);
    NodeAfter(w, e, s);
    assert RowKnown(w, s, id);
    if ActOf(w, e).Act? && ActOf(w, e).side == s {
      var step := ActOf(w, e).step;
      RowStep(w.At(s).node, step, id);
      if id in w.At(s).node.messages || id !in Next(w, e).At(s).node.messages {
        RowStaysKnown(w, Next(w, e), s, id);
      } else {
        WrittenAfter(w, e);
        NewRowKnown(w, e, s, step, id);
      }
    } else {
      RowStaysKnown(w, Next(w, e), s, id);
    }
  }

  /** The text a step stores is one that was written. */
  lemma NewRowKnown(w: World, e: Event, s: Side, step: Step, id: MessageId)
    requires Known(w) && Possible(w, e) && ActOf(w, e) == Act(s, step)
    ensures step.SendMessage? ==>
      e.Compose? && e.side == s && e.id == step.id && e.text == step.text
        && step.to == w.Peer(s) && step.id !in w.written
    ensures (step.Receive? || step.IngestOne?) && step.envelope.payload.Text? && step.envelope.sender == step.peer ==>
      step.peer == w.Peer(s) && IsCopy(w, s.Other(), step.envelope)
  {
    match e
    case Arrive(k, _, _) => assert FlightKnown(w, k);
    case IngestNext(side) => assert PageKnown(w, side);
    case _ =>
  }

  /** A copy of a written text stays one. */
  lemma CopyStays(w: World, w': World, s: Side, e: Envelope)
    requires Continues(w, w') && IsCopy(w, s, e)
    ensures IsCopy(w', s, e)
  {
  }

  /** What is launched is a copy of a written text, or the queued notice. */
  lemma LaunchedKnown(w: World, e: Event)
    requires Known(w) && Possible(w, e) && Launches(e)
    ensures var f := LaunchedBy(w, e);
      match f.task
      case Push(id) => f.envelope.id == id && IsCopy(Next(w, e), f.from, f.envelope)
      case Drain(id, _) =>
        f.envelope.id == id && (IsCopy(w, f.from, f.envelope) || IsCopy(w, f.from.Other(), f.envelope))
      case Flush(_) => f.envelope.sender == w.Me(f.from) && f.envelope.payload == Control(ChatDeleted)
  {
    EventContinues(w, e);
    WrittenAfter(w, e);
    match e
    case StartDrain(s, id) => assert RowKnown(w, s, id);
    case StartFlush(s) => assert NoticeKnown(w, s);
    case _ =>
  }

  lemma FlightStaysKnown(w: World, w': World, k: nat, f: Flight)
    requires Continues(w, w') && FlightKnown(w, k) && k in w.flights && k in w'.flights && k < w'.nextFlight
    requires w'.flights[k] == w.flights[k].(acked := f.acked, ended := f.ended)
    ensures FlightKnown(w', k)
  {
  }

  lemma FlightKnownStep(w: World, e: Event, k: nat)
    requires Known(w) && Possible(w, e)
    ensures FlightKnown(Next(w, e), k)
  {
    var w' := Next(w, e);
    EventContinues(w, e);
    assert FlightKnown(w, k);
    FlightsAfter(w, e, k);
    if k in w.flights {
      FlightStaysKnown(w, w', k, w'.flights[k]);
    } else if k in w'.flights {
      LaunchedKnown(w, e);
      LaunchIsKnown(w, w', k, LaunchedBy(w, e));
    }
  }

  lemma LaunchIsKnown(w: World, w': World, k: nat, f: Flight)
    requires Continues(w, w') && k in w'.flights && w'.flights[k] == f && k < w'.nextFlight
    requires
      match f.task
      case Push(id) => f.envelope.id == id && IsCopy(w', f.from, f.envelope)
      case Drain(id, _) =>
        f.envelope.id == id && (IsCopy(w, f.from, f.envelope) || IsCopy(w, f.from.Other(), f.envelope))
      case Flush(_) => f.envelope.sender == w.Me(f.from) && f.envelope.payload == Control(ChatDeleted)
    ensures FlightKnown(w', k)
  {
  }

  /** A page answered by the other side is made of what it wrote. */
  lemma AnsweredPageKnown(w: World, s: Side, since: Option<MessageId>, allowed: bool)
    requires Known(w)
    ensures var r := AnswerTo(w, s, Pull(Conv(w.At(s).node, w.Peer(s)), since, SYNC_PULL_LIMIT), allowed);
      r.PullPage? && forall i :: 0 <= i < |r.envelopes| ==> IsCopy(w, s.Other(), r.envelopes[i])
  {
    var o := w.At(s.Other()).node;
    var conv := Conv(w.At(s).node, w.Peer(s));
    var ids := PullOutboundAfter(o.messages, conv, o.me, since, SYNC_PULL_LIMIT);
    forall i | 0 <= i < |ids|
      ensures ids[i] in o.messages && o.messages[ids[i]].sender == o.me
        && IsCopy(w, s.Other(), EnvelopeOf(o.messages, ids[i]))
    {
      var all := Sorted(Above(Outbound(o.messages, conv, o.me), since));
      assert ids[i] == all[i] && all[i] in all;
      assert RowKnown(w, s.Other(), ids[i]);
    }
  }

  lemma PageKnownStep(w: World, e: Event, s: Side)
    requires Known(w) && Possible(w, e)
    ensures PageKnown(Next(w, e), s)
  {
    EventContinues(w, e);
    SyncAfterEvent(w, e, s);
    assert PageKnown(w, s);
    if HasSync(e) && e.side == s {
      TakenPageKnown(w, e);
    }
    var x := Next(w, e).At(s).sync;
    if x.Ingesting? {
      forall i | 0 <= i < |x.page| ensures IsCopy(Next(w, e), s.Other(), x.page[i]) {
        CopyStays(w, Next(w, e), s.Other(), x.page[i]);
      }
    }
  }

  /** A page under way is the rest of an earlier one or one just answered. */
  lemma TakenPageKnown(w: World, e: Event)
    requires Known(w) && Possible(w, e) && HasSync(e)
    ensures var x := SyncAfter(w, e);
      x.Ingesting? ==> forall i :: 0 <= i < |x.page| ==> IsCopy(w, e.side.Other(), x.page[i])
  {
    assert PageKnown(w, e.side);
    if e.PullAnswered? {
      AnsweredPageKnown(w, e.side, w.At(e.side).sync.since, e.allowed);
    }
  }

  lemma NoticeKnownStep(w: World, e: Event, s: Side)
    requires Known(w) && Possible(w, e)
    ensures NoticeKnown(Next(w, e), s)
  {
    EventContinues(w, e);
    NodeAfter(w, e, s);
    assert NoticeKnown(w, s);
    if ActOf(w, e).Act? && ActOf(w, e).side == s {
      NoticeStep(w.At(s).node, ActOf(w, e).step, w.Peer(s));
    }
  }

  lemma KnownStep(w: World, e: Event)
    requires Known(w) && Possible(w, e)
    ensures Known(Next(w, e))
  {
    EventContinues(w, e);
    WrittenAfter(w, e);
    forall s, id ensures RowKnown(Next(w, e), s, id) { RowKnownStep(w, e, s, id); }
    forall k ensures FlightKnown(Next(w, e), k) { FlightKnownStep(w, e, k); }
    forall s ensures PageKnown(Next(w, e), s) && NoticeKnown(Next(w, e), s) {
      PageKnownStep(w, e, s);
      NoticeKnownStep(w, e, s);
    }
  }

  // ---------------------------------------------------------------- runs

  function Start(a: PeerId, b: PeerId): World {
    World(End(Fresh(a), Idle), End(Fresh(b), Idle), map[], 0, {}, map[])
  }

  /** `ws` are the states of a run and `es` the events between them. */
  ghost predicate IsHistory(ws: seq<World>, es: seq<Event>) {
    && |ws| == |es| + 1
    && (exists a, b :: a != b && ws[0] == Start(a, b))
    && forall i :: 0 <= i < |es| ==> HappensAt(ws, es, i)
  }

  /** The `i`-th event could happen, and led to the next state. */
  ghost predicate HappensAt(ws: seq<World>, es: seq<Event>, i: int)
    requires |ws| == |es| + 1 && 0 <= i < |es|
  {
    Possible(ws[i], es[i]) && ws[i + 1] == Next(ws[i], es[i])
  }

  /** What holds at one state and after every later event if it held before holds from then on. */
  lemma {:induction false} HoldsOn(ws: seq<World>, holds: World -> bool, j: nat, i: nat)
    requires j <= i < |ws| && holds(ws[j])
    requires forall m :: j <= m < |ws| - 1 && holds(ws[m]) ==> holds(ws[m + 1])
    ensures holds(ws[i])
    decreases i
  {
    if j < i {
      HoldsOn(ws, holds, j, i - 1);
      assert holds(ws[i - 1]);
    }
  }

  lemma {:induction false} RunIsKnown(ws: seq<World>, es: seq<Event>, i: nat)
    requires IsHistory(ws, es) && i < |ws|
    ensures Known(ws[i])
  {
    if i > 0 {
      RunIsKnown(ws, es, i - 1);
      assert HappensAt(ws, es, i - 1);
      KnownStep(ws[i - 1], es[i - 1]);
    }
  }

  /** A local step does to the world what it does to its node. */
  lemma LocalEvent(w: World, s: Side, step: Step, n: Node)
    requires IsLocal(w, s, step) && Do(w.At(s).node, step) == n
    ensures Possible(w, Local(s, step)) && Next(w, Local(s, step)) == w.WithNode(s, n)
  {
  }

  /** An arrival that is acknowledged. */
  lemma ArriveEvent(w: World, k: nat, n: Node, w': World)
    requires k in w.flights
    requires
      var f := w.flights[k];
      HandleMsg(w.At(f.from.Other()).node, w.Me(f.from), f.envelope, true, true) == (n, Some(true))
    requires w' == w.WithNode(w.flights[k].from.Other(), n).(flights := w.flights[k := w.flights[k].(acked := true)])
    ensures Possible(w, Arrive(k, true, true)) && w' == Next(w, Arrive(k, true, true))
  {
  }

  /** A reconcile starts at a side that holds nothing yet. */
  lemma AskEvent(w: World, s: Side, w': World)
    requires Possible(w, Ask(s))
    requires HighestInbound(w.At(s).node.messages, Conv(w.At(s).node, w.Peer(s)), w.Me(s)) == None
    requires w' == w.WithSync(s, Asked(None))
    ensures w' == Next(w, Ask(s))
  {
  }

  /** A first push fails. */
  lemma PushFailedEvent(w: World, k: nat, id: MessageId, now: int, w': World)
    requires k in w.flights && !w.flights[k].ended && w.flights[k].task == Push(id)
    requires var f := w.flights[k];
      w' == w.WithNode(f.from, PushDone(w.At(f.from).node, id, w.Peer(f.from), false, now))
             .(flights := w.flights[k := f.(ended := true)])
    ensures Possible(w, Finish(k, false, now)) && w' == Next(w, Finish(k, false, now))
  {
  }

  // ---------------------------------------------------------------- runs the program can take

  /** `s` asked for contact while it had no session, in event `j`. */
  ghost predicate AskedAt(ws: seq<World>, es: seq<Event>, j: int, s: Side)
    requires IsHistory(ws, es) && 0 <= j < |es|
  {
    es[j] == Local(s, AskContact(ws[j].Peer(s))) && ws[j].Peer(s) !in ws[j].At(s).node.sessions
  }

  /** The other side accepted a handshake of `s`, in event `k`. */
  ghost predicate WelcomedAt(ws: seq<World>, es: seq<Event>, k: int, s: Side)
    requires IsHistory(ws, es) && 0 <= k < |es|
  {
    && es[k] == Local(s.Other(), Handshake(ws[k].Me(s), ws[k].Me(s), true, true, true))
    && ws[k].Me(s) !in ws[k].At(s.Other()).node.sessions
  }

  /** `s` answered a pending request of the other side, in event `j`. */
  ghost predicate AnsweredAt(ws: seq<World>, es: seq<Event>, j: int, s: Side, control: ControlPayload)
    requires IsHistory(ws, es) && 0 <= j < |es|
  {
    && es[j].Local? && es[j].side == s
    && (if control.AcceptedRequest? then es[j].step.AcceptRequest? else es[j].step.RejectRequest?)
    && var n := ws[j].At(s).node;
       IsPending(n.requests, es[j].step.row)
         && n.requests[es[j].step.row].peer == ws[j].Peer(s) && ws[j].Peer(s) in n.contacts
  }

  /**
   * The machine lets sessions, handshakes and answers come from nowhere; here event `i` has its cause in the run: a
   * handshake was sent by a side without a session, a session returned by one that accepted it, and an answer by one
   * that was asked.
   */
  ghost predicate CausedAt(ws: seq<World>, es: seq<Event>, i: int)
    requires IsHistory(ws, es) && 0 <= i < |es|
  {
    match es[i]
    case Local(s, Handshake(_, _, _, _, _)) => exists j :: 0 <= j < i && AskedAt(ws, es, j, s.Other())
    case Local(s, HandshakeReturned(_)) =>
      exists j, k :: 0 <= j < k < i && AskedAt(ws, es, j, s) && WelcomedAt(ws, es, k, s) && NoReturn(es, j, i, s)
    case ControlArrives(s, control, _, _) => exists j :: 0 <= j < i && AnsweredAt(ws, es, j, s, control)
    case _ => true
  }

  /** No handshake of `s` returned strictly between events `j` and `i`. */
  ghost predicate NoReturn(es: seq<Event>, j: int, i: int, s: Side) {
    forall m :: j < m < i && 0 <= m < |es| ==> !(es[m].Local? && es[m].side == s && es[m].step.HandshakeReturned?)
  }

  /** A history in which everything has its cause. */
  ghost predicate Genuine(ws: seq<World>, es: seq<Event>) {
    IsHistory(ws, es) && forall i :: 0 <= i < |es| ==> CausedAt(ws, es, i)
  }

  lemma HandshakeCaused(ws: seq<World>, es: seq<Event>, i: nat, j: nat, s: Side)
    requires IsHistory(ws, es) && j < i < |es| && es[i].Local? && es[i].side == s.Other() && es[i].step.Handshake?
    requires AskedAt(ws, es, j, s)
    ensures CausedAt(ws, es, i)
  {
    assert s.Other().Other() == s;
  }

  lemma ReturnCaused(ws: seq<World>, es: seq<Event>, i: nat, j: nat, k: nat, s: Side)
    requires IsHistory(ws, es) && j < k < i < |es| && es[i].Local? && es[i].side == s && es[i].step.HandshakeReturned?
    requires AskedAt(ws, es, j, s) && WelcomedAt(ws, es, k, s) && NoReturn(es, j, i, s)
    ensures CausedAt(ws, es, i)
  {
  }

  lemma AnswerCaused(ws: seq<World>, es: seq<Event>, i: nat, j: nat)
    requires IsHistory(ws, es) && j < i < |es| && es[i].ControlArrives?
      && AnsweredAt(ws, es, j, es[i].side, es[i].control)
    ensures CausedAt(ws, es, i)
  {
  }

  /** Events that need a cause in the run. */
  predicate NeedsCause(e: Event) {
    e.ControlArrives? || (e.Local? && (e.step.Handshake? || e.step.HandshakeReturned?))
  }

  lemma OthersCaused(ws: seq<World>, es: seq<Event>, i: nat)
    requires IsHistory(ws, es) && i < |es| && !NeedsCause(es[i])
    ensures CausedAt(ws, es, i)
  {
  }
}
