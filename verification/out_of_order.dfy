/**
 * Two messages, delivered in the wrong order: the first is marked Synced and leaves the queue without ever
 * arriving.
 */
module OutOfOrder {
  import opened Types
  import opened Ordering
  import opened Storage
  import opened Node
  import opened NodeRuns
  import opened World
  import SyncedRuns

  const ONE: QueueKey := (1, 2)
  const TWO: QueueKey := (2, 2)

  function Row(status: MessageStatus): Message {
    Message(1, 2, Text(""), status)
  }

  function Rows(first: MessageStatus, second: MessageStatus): Messages {
    map[1 := Row(first), 2 := Row(second)]
  }

  /** A node with one contact and one request of it. */
  function Meeting(me: PeerId, peer: PeerId, status: ContactStatus, request: Request, sessions: set<PeerId>,
        events: seq<AppEvent>): Node
  {
    Fresh(me).(contacts := map[peer := status], requests := map[0 := request], nextRequest := 1,
      sessions := sessions, events := events)
  }

  const ACCEPTED: Option<Resolution> := Some(ByAccept)

  /** The sender, node 1, once node 2 has accepted it. */
  function Sender(messages: Messages, queue: Queue, pushes: set<QueueKey>, more: seq<AppEvent>): Node {
    Meeting(1, 2, Accepted, Request(Outgoing, 2, ACCEPTED), {2}, [RequestResolved(2, ByAccept), ContactAdded(2)] + more)
      .(messages := messages, queue := queue, pushes := pushes)
  }

  /** The receiver, node 2, once it has accepted node 1. */
  function Receiver(messages: Messages, more: seq<AppEvent>): Node {
    Meeting(2, 1, Accepted, Request(Incoming, 1, ACCEPTED), {1},
      [RequestReceived(1), RequestResolved(1, ByAccept), ContactAdded(1)] + more)
      .(messages := messages)
  }

  function Asking(sessions: set<PeerId>): Node {
    Meeting(1, 2, PendingOut, Request(Outgoing, 2, None), sessions, [])
  }

  function Asked(): Node {
    Meeting(2, 1, PendingIn, Request(Incoming, 1, None), {1}, [RequestReceived(1)])
  }

  function Sent(id: MessageId): Flight {
    Flight(A, Push(id), Envelope(id, 1, Text("")), false, false)
  }

  function Got(): Node {
    Receiver(map[2 := Row(Synced)], [MessageReceived(2, 1)])
  }

  function Retry(): Queue {
    map[ONE := QueueEntry(0, 30_000)]
  }

  function TheirMark(): Digest {
    Digest((1, 2), None, Some(2))
  }

  /** The sender after its first push failed. */
  function Waits(): Node {
    Sender(Rows(Sending, Sending), Retry(), {TWO}, [])
  }

  function Promoted(): Node {
    Sender(Rows(Synced, Synced), map[], {TWO}, [StatusChanged(1, Synced), StatusChanged(2, Synced)])
  }

  function WrittenSoFar(n: nat): map<MessageId, Written> {
    if n == 0 then map[]
    else if n == 1 then map[1 := Written(A, "")]
    else map[1 := Written(A, ""), 2 := Written(A, "")]
  }

  function Scene(a: Node, sync: Exchange, b: Node, flights: map<nat, Flight>, n: nat): World {
    World(End(a, sync), End(b, Idle), flights, n, {}, WrittenSoFar(n))
  }

  function Failed(): map<nat, Flight> {
    map[0 := Sent(1).(ended := true), 1 := Sent(2)]
  }

  function Landed(): map<nat, Flight> {
    map[0 := Sent(1).(ended := true), 1 := Sent(2).(acked := true)]
  }

  /** The states of the run, event by event. */
  function SceneAt(i: nat): World {
    var both := Rows(Sending, Sending);
    if i == 0 then Scene(Fresh(1), Idle, Fresh(2), map[], 0)
    else if i == 1 then Scene(Asking({}), Idle, Fresh(2), map[], 0)
    else if i == 2 then Scene(Asking({}), Idle, Asked(), map[], 0)
    else if i == 3 then Scene(Asking({2}), Idle, Asked(), map[], 0)
    else if i == 4 then Scene(Asking({2}), Idle, Receiver(map[], []), map[], 0)
    else if i == 5 then Scene(Sender(map[], map[], {}, []), Idle, Receiver(map[], []), map[], 0)
    else if i == 6 then
      Scene(Sender(map[1 := Row(Sending)], map[], {ONE}, []), Idle, Receiver(map[], []), map[0 := Sent(1)], 1)
    else if i == 7 then
      Scene(Sender(both, map[], {ONE, TWO}, []), Idle, Receiver(map[], []), map[0 := Sent(1), 1 := Sent(2)], 2)
    else if i == 8 then Scene(Waits(), Idle, Receiver(map[], []), Failed(), 2)
    else if i == 9 then Scene(Waits(), Idle, Got(), Landed(), 2)
    else if i == 10 then Scene(Waits(), Exchange.Asked(None), Got(), Landed(), 2)
    else if i == 11 then Scene(Waits(), Answered(None, TheirMark()), Got(), Landed(), 2)
    else Scene(Promoted(), Idle, Got(), Landed(), 2)
  }

  /**
   * Node 1 asks, node 2 welcomes it and accepts, two messages are sent, the first push fails, the second arrives, and
   * node 1 reconciles.
   */
  function EventAt(i: nat): Event {
    if i == 0 then Local(A, AskContact(2))
    else if i == 1 then Local(B, Handshake(1, 1, true, true, true))
    else if i == 2 then Local(A, HandshakeReturned(2))
    else if i == 3 then Local(B, AcceptRequest(0))
    else if i == 4 then ControlArrives(B, AcceptedRequest, true, true)
    else if i == 5 then Compose(A, "", 1)
    else if i == 6 then Compose(A, "", 2)
    else if i == 7 then Finish(0, false, 0)
    else if i == 8 then Arrive(1, true, true)
    else if i == 9 then Ask(A)
    else if i == 10 then HeaderAnswered(A, true)
    else ActOnDigest(A, [1, 2])
  }

  function Scenes(): seq<World> {
    seq(13, i requires 0 <= i => SceneAt(i))
  }

  function Script(): seq<Event> {
    seq(12, i requires 0 <= i => EventAt(i))
  }

  predicate Follows(i: nat) {
    Possible(SceneAt(i), EventAt(i)) && SceneAt(i + 1) == Next(SceneAt(i), EventAt(i))
  }

  // ---------------------------------------------------------------- contact

  lemma AskScene()
    ensures Follows(0)
  {
    assert RequestContact(Fresh(1), 2) == Asking({});
    LocalEvent(SceneAt(0), A, AskContact(2), Asking({}));
  }

  lemma WelcomeScene()
    ensures Follows(1)
  {
    assert {} + {1} == {1};
    assert HandleHandshake(Fresh(2), 1, 1, true, true, true) == Asked();
    LocalEvent(SceneAt(1), B, Handshake(1, 1, true, true, true), Asked());
  }

  lemma ReturnScene()
    ensures Follows(2)
  {
    assert {} + {2} == {2};
    LocalEvent(SceneAt(2), A, HandshakeReturned(2), Asking({2}));
  }

  lemma AcceptScene()
    ensures Follows(3)
  {
    assert Accept(Asked(), 0) == Receiver(map[], []);
    LocalEvent(SceneAt(3), B, AcceptRequest(0), Receiver(map[], []));
  }

  lemma TakesAcceptance()
    ensures HandleMsg(Asking({2}), 2, Envelope(0, 2, Control(AcceptedRequest)), true, true).0 ==
      Sender(map[], map[], {}, [])
  {
    var n := Asking({2});
    assert ResolveAll(n.requests, 2, ByAccept) == map[0 := Request(Outgoing, 2, ACCEPTED)];
    assert HandleControl(n, 2, AcceptedRequest) == Sender(map[], map[], {}, []);
  }

  lemma AcceptedScene()
    ensures Follows(4)
  {
    TakesAcceptance();
  }

  // ---------------------------------------------------------------- two messages

  lemma SendsFirst()
    ensures Send(Sender(map[], map[], {}, []), 2, "", 1) == Some(Sender(map[1 := Row(Sending)], map[], {ONE}, []))
  {
    assert {} + {ONE} == {ONE};
  }

  lemma SendsSecond()
    ensures Send(Sender(map[1 := Row(Sending)], map[], {ONE}, []), 2, "", 2)
      == Some(Sender(Rows(Sending, Sending), map[], {ONE, TWO}, []))
  {
    assert {ONE} + {TWO} == {ONE, TWO};
  }

  lemma FirstComposed()
    ensures Follows(5)
  {
    SendsFirst();
  }

  lemma SecondComposed()
    ensures Follows(6)
  {
    SendsSecond();
  }

  lemma PushFails()
    ensures PushDone(Sender(Rows(Sending, Sending), map[], {ONE, TWO}, []), 1, 2, false, 0) == Waits()
  {
    assert Pow2(0) == 1;
    assert {ONE, TWO} - {ONE} == {TWO};
  }

  lemma PushScene()
    ensures Follows(7)
  {
    PushFails();
    PushFailedEvent(SceneAt(7), 0, 1, 0, SceneAt(8));
  }

  lemma SecondArrives()
    ensures HandleMsg(Receiver(map[], []), 1, Envelope(2, 1, Text("")), true, true) == (Got(), Some(true))
  {
    var more := [MessageReceived(2, 1)];
    var before := [RequestReceived(1), RequestResolved(1, ByAccept), ContactAdded(1)];
    assert before + [] + more == before + more;
  }

  lemma ArriveScene()
    ensures Follows(8)
  {
    SecondArrives();
    assert Landed() == Failed()[1 := Sent(2).(acked := true)];
    ArriveEvent(SceneAt(8), 1, Got(), SceneAt(9));
  }

  // ---------------------------------------------------------------- the reconcile

  lemma NothingReceived()
    ensures HighestInbound(Waits().messages, (1, 2), 1) == None
  {
    assert Inbound(Rows(Sending, Sending), (1, 2), 1) == {};
  }

  lemma SecondReceived()
    ensures OwnDigest(Got(), 1) == TheirMark()
  {
    assert Outbound(Got().messages, (1, 2), 2) == {};
    assert Inbound(Got().messages, (1, 2), 2) == {2};
  }

  lemma ReconcileScene()
    ensures Follows(9)
  {
    NothingReceived();
    AskEvent(SceneAt(9), A, SceneAt(10));
  }

  lemma ReceiverAnswers(d: Digest)
    requires d.conv == (1, 2)
    ensures HandleSync(Got(), 1, Header([d]), true).1 == HeaderAck([TheirMark()])
  {
    SecondReceived();
    assert [d][..0] == [];
    assert AnswerDigests(Got(), 1, [d][..0]) == [];
    assert AnswerDigests(Got(), 1, [d]) == [] + [OwnDigest(Got(), 1)];
  }

  lemma DigestArrives(w: World, e: Event, w': World)
    requires e == HeaderAnswered(A, true) && w.a.sync == Exchange.Asked(None) && w.a.node.me == 1 && w.b.node == Got()
    requires w' == w.WithSync(A, Answered(None, TheirMark()))
    ensures Possible(w, e) && w' == Next(w, e)
  {
    ReceiverAnswers(OwnDigest(w.a.node, 2));
    assert SyncAfter(w, e) == Answered(None, TheirMark());
  }

  lemma AnswerScene()
    ensures Follows(10)
  {
    DigestArrives(SceneAt(10), EventAt(10), SceneAt(11));
  }

  lemma BothPromoted()
    ensures Promote(Waits(), 2, 2, [1, 2]) == Promoted()
  {
    var t := Rows(Sending, Sending);
    var ids := Promotable(t, (1, 2), 1, 2);
    assert Outbound(t, (1, 2), 1) == {1, 2};
    assert ids == {1, 2};
    assert SetSynced(t, ids) == Rows(Synced, Synced);
    assert ONE in (set id | id in ids :: (id, 2));
    assert Retry() - (set id | id in ids :: (id, 2)) == map[];
    assert StatusEvents([1, 2]) == [StatusChanged(1, Synced), StatusChanged(2, Synced)];
  }

  lemma DigestActedOn(w: World, e: Event, w': World)
    requires e == ActOnDigest(A, [1, 2]) && w.a == End(Waits(), Answered(None, TheirMark())) && w.b.node.me == 2
    requires w' == w.WithNode(A, Promoted()).WithSync(A, Idle)
    ensures Possible(w, e) && w' == Next(w, e)
  {
    BothPromoted();
  }

  lemma PromoteScene()
    ensures Follows(11)
  {
    DigestActedOn(SceneAt(11), EventAt(11), SceneAt(12));
  }

  // ---------------------------------------------------------------- the run

  lemma SceneStep(i: nat)
    requires i < 12
    ensures Follows(i)
  {
    if i == 0 {
      AskScene();
    } else if i == 1 {
      WelcomeScene();
    } else if i == 2 {
      ReturnScene();
    } else if i == 3 {
      AcceptScene();
    } else if i == 4 {
      AcceptedScene();
    } else if i == 5 {
      FirstComposed();
    } else if i == 6 {
      SecondComposed();
    } else if i == 7 {
      PushScene();
    } else if i == 8 {
      ArriveScene();
    } else if i == 9 {
      ReconcileScene();
    } else if i == 10 {
      AnswerScene();
    } else {
      PromoteScene();
    }
  }

  lemma NothingWiped(i: nat)
    requires i < 12 && Possible(SceneAt(i), EventAt(i))
    ensures SyncedRuns.WipesNothing(SceneAt(i), EventAt(i))
  {
  }

  lemma SceneHappens(ws: seq<World>, es: seq<Event>, i: nat)
    requires ws == Scenes() && es == Script() && i < 12 && |ws| == 13 && |es| == 12
    ensures HappensAt(ws, es, i) && SyncedRuns.WipesNothing(ws[i], es[i])
  {
    SceneStep(i);
    NothingWiped(i);
    assert ws[i] == SceneAt(i) && ws[i + 1] == SceneAt(i + 1) && es[i] == EventAt(i);
  }

  lemma ScenesAreHistory()
    ensures SyncedRuns.WipeFree(Scenes(), Script()) && |Script()| == 12
  {
    var ws, es := Scenes(), Script();
    assert ws[0] == SceneAt(0) == Start(1, 2);
    forall i | 0 <= i < 12 ensures HappensAt(ws, es, i) && SyncedRuns.WipesNothing(ws[i], es[i]) {
      SceneHappens(ws, es, i);
    }
    HistoryOf(ws, es);
  }

  /** A wipe-free history, from its start and its steps. */
  lemma HistoryOf(ws: seq<World>, es: seq<Event>)
    requires |ws| == |es| + 1 && ws[0] == Start(1, 2)
    requires forall i :: 0 <= i < |es| ==> HappensAt(ws, es, i) && SyncedRuns.WipesNothing(ws[i], es[i])
    ensures SyncedRuns.WipeFree(ws, es)
  {
  }

  lemma FirstThree()
    requires IsHistory(Scenes(), Script()) && |Script()| == 12
    ensures AskedAt(Scenes(), Script(), 0, A) && WelcomedAt(Scenes(), Script(), 1, A) && NoReturn(Script(), 0, 2, A)
    ensures AnsweredAt(Scenes(), Script(), 3, B, AcceptedRequest)
  {
    assert Script()[0] == EventAt(0) && Script()[1] == EventAt(1) && Script()[3] == EventAt(3);
    assert Scenes()[0] == SceneAt(0) && Scenes()[1] == SceneAt(1) && Scenes()[3] == SceneAt(3);
  }

  lemma SceneCaused(ws: seq<World>, es: seq<Event>, i: nat)
    requires ws == Scenes() && es == Script() && IsHistory(ws, es) && |es| == 12 && i < 12
    ensures CausedAt(ws, es, i)
  {
    assert es[i] == EventAt(i);
    FirstThree();
    if i == 1 {
      HandshakeCaused(ws, es, 1, 0, A);
    } else if i == 2 {
      ReturnCaused(ws, es, 2, 0, 1, A);
    } else if i == 4 {
      AnswerCaused(ws, es, 4, 3);
    } else {
      OthersCaused(ws, es, i);
    }
  }

  lemma ScenesAreGenuine()
    ensures Genuine(Scenes(), Script())
  {
    ScenesAreHistory();
    forall i | 0 <= i < 12 ensures CausedAt(Scenes(), Script(), i) {
      SceneCaused(Scenes(), Script(), i);
    }
  }

  /** Row 1 was queued and undelivered before the last event, and is Synced, dequeued and undelivered after it. */
  ghost predicate Lost(w: World, w': World) {
    && ONE in w.a.node.queue && 1 !in w.b.node.messages
    && 1 in w'.a.node.messages && w'.a.node.messages[1].status == Synced
    && ONE !in w'.a.node.queue && 1 !in w'.b.node.messages
  }

  lemma LastScenes(ws: seq<World>)
    requires ws == Scenes()
    ensures |ws| == 13 && Lost(ws[11], ws[12])
  {
    assert ws[11] == SceneAt(11) && ws[12] == SceneAt(12);
  }

  /**
   * A genuine run without wipes, in which only the order of arrival is wrong: message 1 waits in the retry queue,
   * message 2 arrives, and a reconcile marks message 1 Synced and drops its queue row although the peer never got it.
   */
  lemma UndeliveredMarkedSynced() returns (ws: seq<World>, es: seq<Event>)
    ensures Genuine(ws, es) && SyncedRuns.WipeFree(ws, es) && |es| == 12
    ensures Lost(ws[11], ws[12])
  {
    ScenesAreHistory();
    ScenesAreGenuine();
    ws, es := Scenes(), Script();
    LastScenes(ws);
  }
}
