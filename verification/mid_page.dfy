/**
 * A session made in the middle of a page: its first message fails for want of a session, its second is stored, and the
 * first is later marked Synced without ever arriving, although nothing arrived out of order.
 */
module MidPage {
  import opened Types
  import opened Ordering
  import opened Storage
  import opened Node
  import opened NodeRuns
  import opened World
  import SyncedRuns
  import Reconcile
  import OutOfOrder

  const ONE: QueueKey := (1, 1)
  const TWO: QueueKey := (2, 1)

  /** What node 2 wrote, in either node's table. */
  function Row(status: MessageStatus): Message {
    Message(2, 1, Text(""), status)
  }

  function Rows(status: MessageStatus): Messages {
    map[1 := Row(status), 2 := Row(status)]
  }

  function Copy(id: MessageId): Envelope {
    Envelope(id, 2, Text(""))
  }

  /** The writer, node 2, once it has accepted node 1. */
  function Writer(messages: Messages, queue: Queue, pushes: set<QueueKey>, more: seq<AppEvent>): Node {
    OutOfOrder.Receiver(messages, more).(queue := queue, pushes := pushes)
  }

  /** The reader, node 1, which accepted the request it had sent itself while the handshake was still under way. */
  function Reader(sessions: set<PeerId>, messages: Messages, more: seq<AppEvent>): Node {
    OutOfOrder.Meeting(1, 2, Accepted, Request(Outgoing, 2, OutOfOrder.ACCEPTED), sessions,
      [RequestResolved(2, ByAccept), ContactAdded(2)] + more)
      .(messages := messages)
  }

  function Behind(): Node {
    Reader({2}, map[2 := Row(Synced)], [MessageReceived(2, 2)])
  }

  /** The writer after its first push failed. */
  function Waits(): Node {
    Writer(Rows(Sending), map[ONE := QueueEntry(0, 30_000)], {TWO}, [])
  }

  function Promoted(): Node {
    Writer(Rows(Synced), map[], {TWO}, [StatusChanged(1, Synced), StatusChanged(2, Synced)])
  }

  function Pushed(id: MessageId, ended: bool): Flight {
    Flight(B, Push(id), Copy(id), false, ended)
  }

  function WrittenSoFar(n: nat): map<MessageId, Written> {
    if n == 0 then map[]
    else if n == 1 then map[1 := Written(B, "")]
    else map[1 := Written(B, ""), 2 := Written(B, "")]
  }

  function FlightsSoFar(n: nat, ended: bool): map<nat, Flight> {
    if n == 0 then map[]
    else if n == 1 then map[0 := Pushed(1, ended)]
    else map[0 := Pushed(1, ended), 1 := Pushed(2, false)]
  }

  function Scene(a: Node, sync: Exchange, b: Node, n: nat, ended: bool): World {
    World(End(a, sync), End(b, Idle), FlightsSoFar(n, ended), n, {}, WrittenSoFar(n))
  }

  /** The states in which node 1 reads and node 2 waits. */
  function Reading(a: Node, sync: Exchange): World {
    Scene(a, sync, Waits(), 2, true)
  }

  /** The states in which node 2 reconciles, while node 1 is about to acknowledge what it got. */
  function Reconciling(b: Node, sync: Exchange): World {
    Reading(Behind(), Finishing([2])).WithNode(B, b).WithSync(B, sync)
  }

  function WriterMark(): Digest {
    Digest((1, 2), Some(2), None)
  }

  function ReaderMark(): Digest {
    Digest((1, 2), None, Some(2))
  }

  function Fetching(): Exchange {
    Pulling(None, SYNC_MAX_PULL_PAGES, [])
  }

  function Page(ids: seq<MessageId>): Exchange {
    Ingesting(seq(|ids|, i requires 0 <= i < |ids| => Copy(ids[i])), 2, false, SYNC_MAX_PULL_PAGES - 1, [])
  }

  /** The states of the run, event by event. */
  function SceneAt(i: nat): World {
    if i == 0 then Scene(Fresh(1), Idle, Fresh(2), 0, false)
    else if i == 1 then Scene(OutOfOrder.Asking({}), Idle, Fresh(2), 0, false)
    else if i == 2 then Scene(OutOfOrder.Asking({}), Idle, OutOfOrder.Asked(), 0, false)
    else if i == 3 then Scene(OutOfOrder.Asking({}), Idle, Writer(map[], map[], {}, []), 0, false)
    else if i == 4 then Scene(OutOfOrder.Asking({}), Idle, Writer(map[1 := Row(Sending)], map[], {ONE}, []), 1, false)
    else if i == 5 then Scene(OutOfOrder.Asking({}), Idle, Writer(Rows(Sending), map[], {ONE, TWO}, []), 2, false)
    else if i == 6 then Reading(OutOfOrder.Asking({}), Idle)
    else if i == 7 then Reading(Reader({}, map[], []), Idle)
    else if i == 8 then Reading(Reader({}, map[], []), Asked(None))
    else if i == 9 then Reading(Reader({}, map[], []), Answered(None, WriterMark()))
    else if i == 10 then Reading(Reader({}, map[], []), Fetching())
    else if i == 11 then Reading(Reader({}, map[], []), Page([1, 2]))
    else if i == 12 then Reading(Reader({}, map[], []), Page([2]))
    else if i == 13 then Reading(Reader({2}, map[], []), Page([2]))
    else if i == 14 then Reconciling(Waits(), Idle)
    else if i == 15 then Reconciling(Waits(), Asked(None))
    else if i == 16 then Reconciling(Waits(), Answered(None, ReaderMark()))
    else Reconciling(Promoted(), Idle)
  }

  /**
   * Node 1 asks, node 2 welcomes it, accepts and writes two messages, and the first push fails. Node 1 accepts its own
   * request and starts a reconcile; the handshake returns between the two messages of the page. Then node 2 reconciles.
   */
  function EventAt(i: nat): Event {
    if i == 0 then Local(A, AskContact(2))
    else if i == 1 then Local(B, Handshake(1, 1, true, true, true))
    else if i == 2 then Local(B, AcceptRequest(0))
    else if i == 3 then Compose(B, "", 1)
    else if i == 4 then Compose(B, "", 2)
    else if i == 5 then Finish(0, false, 0)
    else if i == 6 then Local(A, AcceptRequest(0))
    else if i == 7 then Ask(A)
    else if i == 8 then HeaderAnswered(A, true)
    else if i == 9 then ActOnDigest(A, [])
    else if i == 10 then PullAnswered(A, true)
    else if i == 11 then IngestNext(A)
    else if i == 12 then Local(A, HandshakeReturned(2))
    else if i == 13 then IngestNext(A)
    else if i == 14 then Ask(B)
    else if i == 15 then HeaderAnswered(B, true)
    else ActOnDigest(B, [1, 2])
  }

  predicate Leads(w: World, e: Event, w': World) {
    Possible(w, e) && w' == Next(w, e)
  }

  predicate Follows(i: nat) {
    Leads(SceneAt(i), EventAt(i), SceneAt(i + 1))
  }

  // ---------------------------------------------------------------- contact

  lemma AskScene()
    ensures Follows(0)
  {
    assert RequestContact(Fresh(1), 2) == OutOfOrder.Asking({});
    LocalEvent(SceneAt(0), A, AskContact(2), OutOfOrder.Asking({}));
  }

  lemma WelcomeScene()
    ensures Follows(1)
  {
    assert {} + {1} == {1};
    assert HandleHandshake(Fresh(2), 1, 1, true, true, true) == OutOfOrder.Asked();
    LocalEvent(SceneAt(1), B, Handshake(1, 1, true, true, true), OutOfOrder.Asked());
  }

  lemma AcceptScene()
    ensures Follows(2)
  {
    assert Accept(OutOfOrder.Asked(), 0) == Writer(map[], map[], {}, []);
    LocalEvent(SceneAt(2), B, AcceptRequest(0), Writer(map[], map[], {}, []));
  }

  lemma AcceptsOwn()
    ensures Accept(OutOfOrder.Asking({}), 0) == Reader({}, map[], [])
  {
  }

  lemma OwnRequestAccepted()
    ensures Follows(6)
  {
    AcceptsOwn();
    LocalEvent(SceneAt(6), A, AcceptRequest(0), Reader({}, map[], []));
  }

  lemma ReturnScene()
    ensures Follows(12)
  {
    assert {} + {2} == {2};
    LocalEvent(SceneAt(12), A, HandshakeReturned(2), Reader({2}, map[], []));
  }

  // ---------------------------------------------------------------- two messages

  lemma SendsFirst()
    ensures Send(Writer(map[], map[], {}, []), 1, "", 1) == Some(Writer(map[1 := Row(Sending)], map[], {ONE}, []))
  {
    assert {} + {ONE} == {ONE};
  }

  lemma SendsSecond()
    ensures Send(Writer(map[1 := Row(Sending)], map[], {ONE}, []), 1, "", 2)
      == Some(Writer(Rows(Sending), map[], {ONE, TWO}, []))
  {
    assert {ONE} + {TWO} == {ONE, TWO};
  }

  lemma FirstComposed()
    ensures Follows(3)
  {
    SendsFirst();
  }

  lemma SecondComposed()
    ensures Follows(4)
  {
    SendsSecond();
  }

  lemma PushFails()
    ensures PushDone(Writer(Rows(Sending), map[], {ONE, TWO}, []), 1, 1, false, 0) == Waits()
  {
    assert Pow2(0) == 1;
    assert {ONE, TWO} - {ONE} == {TWO};
  }

  lemma PushScene()
    ensures Follows(5)
  {
    PushFails();
    assert FlightsSoFar(2, true) == FlightsSoFar(2, false)[0 := Pushed(1, true)];
    PushFailedEvent(SceneAt(5), 0, 1, 0, SceneAt(6));
  }

  // ---------------------------------------------------------------- the page

  lemma WriterTables()
    ensures Outbound(Rows(Sending), (1, 2), 2) == {1, 2} && Inbound(Rows(Sending), (1, 2), 2) == {}
    ensures OwnDigest(Waits(), 1) == WriterMark()
  {
    assert Outbound(Rows(Sending), (1, 2), 2) == {1, 2};
    assert Inbound(Rows(Sending), (1, 2), 2) == {};
  }

  lemma NothingRead()
    ensures HighestInbound(Reader({}, map[], []).messages, (1, 2), 1) == None
  {
    assert Inbound(map[], (1, 2), 1) == {};
  }

  lemma ReaderAsks()
    ensures Follows(7)
  {
    NothingRead();
    AskEvent(SceneAt(7), A, SceneAt(8));
  }

  lemma AnswersOwn(n: Node, peer: PeerId, d: Digest)
    requires d.conv == Conv(n, peer) && StatusOf(n, peer) != Some(Blocked)
    ensures HandleSync(n, peer, Header([d]), true).1 == HeaderAck([OwnDigest(n, peer)])
  {
    assert [d][..0] == [];
    assert AnswerDigests(n, peer, [d][..0]) == [];
    assert AnswerDigests(n, peer, [d]) == [] + [OwnDigest(n, peer)];
  }

  /** The other side's digest comes back. */
  lemma DigestArrives(w: World, s: Side, theirs: Digest, w': World)
    requires w.At(s).sync == Asked(None) && OwnDigest(w.At(s.Other()).node, w.Me(s)) == theirs
    requires Conv(w.At(s).node, w.Peer(s)) == Conv(w.At(s.Other()).node, w.Me(s))
    requires StatusOf(w.At(s.Other()).node, w.Me(s)) != Some(Blocked)
    requires w' == w.WithSync(s, Answered(None, theirs))
    ensures Leads(w, HeaderAnswered(s, true), w')
  {
    var n := w.At(s).node;
    AnswersOwn(w.At(s.Other()).node, w.Me(s), OwnDigest(n, w.Peer(s)));
    assert SyncAfter(w, HeaderAnswered(s, true)) == Answered(None, theirs);
  }

  lemma WriterReported(w: World, w': World)
    requires w.a == End(Reader({}, map[], []), Asked(None)) && w.b.node == Waits()
    requires w' == w.WithSync(A, Answered(None, WriterMark()))
    ensures Leads(w, HeaderAnswered(A, true), w')
  {
    WriterTables();
    DigestArrives(w, A, WriterMark(), w');
  }

  lemma WriterAnswers()
    ensures Follows(8)
  {
    WriterReported(SceneAt(8), SceneAt(9));
  }

  lemma ReaderActs()
    ensures Follows(9)
  {
  }

  lemma BothInOrder()
    ensures PullOutboundAfter(Rows(Sending), (1, 2), 2, None, SYNC_PULL_LIMIT) == [1, 2]
  {
    WriterTables();
    assert Above({1, 2}, None) == {1, 2};
    SortedUnique({1, 2}, [1, 2]);
  }

  lemma PageArrives()
    ensures Follows(10)
  {
    WholePage();
    PageTaken(SceneAt(10), Page([1, 2]).page, SceneAt(11));
  }

  lemma WholePage()
    ensures PageOf(Rows(Sending), (1, 2), 2, None, SYNC_PULL_LIMIT) == PullPage(Page([1, 2]).page, false)
  {
    BothInOrder();
    assert EnvelopesOf(Rows(Sending), [1, 2]) == [Copy(1), Copy(2)] == Page([1, 2]).page;
  }

  lemma PageTaken(w: World, page: seq<Envelope>, w': World)
    requires Possible(w, PullAnswered(A, true)) && page != [] && w.a.sync == Fetching()
    requires AnswerTo(w, A, Pull(Conv(w.a.node, w.Peer(A)), None, SYNC_PULL_LIMIT), true) == PullPage(page, false)
    requires w' == w.WithSync(A, Ingesting(page, page[|page| - 1].id, false, SYNC_MAX_PULL_PAGES - 1, []))
    ensures Leads(w, PullAnswered(A, true), w')
  {
  }

  /** The next message of the page is ingested. */
  lemma Ingests(w: World, n: Node, stored: Ingested, next: Exchange, w': World)
    requires w.a.sync.Ingesting? && w.a.sync.page != [] && Ingest(w.a.node, w.Peer(A), w.a.sync.page[0]) == (n, stored)
    requires var x := w.a.sync;
      next == Onward(x.page[1..], x.last, x.more, x.left,
                     if stored.Inserted? then x.persisted + [x.page[0].id] else x.persisted)
    requires w' == w.WithNode(A, n).WithSync(A, next)
    ensures Leads(w, IngestNext(A), w')
  {
  }

  lemma NoSession()
    ensures Ingest(Reader({}, map[], []), 2, Copy(1)) == (Reader({}, map[], []), Ingested.Failed)
  {
  }

  lemma FirstFails()
    ensures Follows(11)
  {
    NoSession();
    assert Page([1, 2]).page[1..] == Page([2]).page;
    Ingests(SceneAt(11), Reader({}, map[], []), Ingested.Failed, Page([2]), SceneAt(12));
  }

  lemma WithSession()
    ensures Ingest(Reader({2}, map[], []), 2, Copy(2)) == (Behind(), Inserted)
  {
    var more := [MessageReceived(2, 2)];
    var before := [RequestResolved(2, ByAccept), ContactAdded(2)];
    assert before + [] + more == before + more;
  }

  lemma SecondStored()
    ensures Follows(13)
  {
    WithSession();
    assert Page([2]).page[1..] == [] && [] + [Copy(2).id] == [2];
    assert SceneAt(14) == Reading(Behind(), Finishing([2]));
    Ingests(SceneAt(13), Behind(), Inserted, Finishing([2]), SceneAt(14));
  }

  // ---------------------------------------------------------------- the writer reconciles

  lemma WriterAsksAt(w: World, w': World)
    requires w.b == End(Waits(), Idle) && w.a.node.me == 1 && w' == w.WithSync(B, Asked(None))
    ensures Leads(w, Ask(B), w')
  {
    WriterTables();
    AskEvent(w, B, w');
  }

  lemma WriterAsks()
    ensures Follows(14)
  {
    WriterAsksAt(SceneAt(14), SceneAt(15));
  }

  lemma ReaderReports()
    ensures OwnDigest(Behind(), 2) == ReaderMark()
  {
    assert Outbound(Behind().messages, (1, 2), 1) == {};
    assert Inbound(Behind().messages, (1, 2), 1) == {2};
  }

  lemma MarkReported(w: World, w': World)
    requires w.b == End(Waits(), Asked(None)) && w.a.node == Behind()
    requires w' == w.WithSync(B, Answered(None, ReaderMark()))
    ensures Leads(w, HeaderAnswered(B, true), w')
  {
    ReaderReports();
    DigestArrives(w, B, ReaderMark(), w');
  }

  lemma ReaderAnswers()
    ensures Follows(15)
  {
    MarkReported(SceneAt(15), SceneAt(16));
  }

  lemma BothPromoted()
    ensures Promote(Waits(), 1, 2, [1, 2]) == Promoted()
  {
    var t := Rows(Sending);
    var ids := Promotable(t, (1, 2), 2, 2);
    WriterTables();
    assert ids == {1, 2};
    assert SetSynced(t, ids) == Rows(Synced);
    QueueEmptied(ids);
    assert StatusEvents([1, 2]) == [StatusChanged(1, Synced), StatusChanged(2, Synced)];
  }

  lemma QueueEmptied(ids: set<MessageId>)
    requires 1 in ids
    ensures Waits().queue - (set id | id in ids :: (id, 1)) == map[]
  {
    assert ONE in (set id | id in ids :: (id, 1));
  }

  lemma PromoteScene()
    ensures Follows(16)
  {
    BothPromoted();
  }

  // ---------------------------------------------------------------- the run

  lemma SceneStep(i: nat)
    requires i < 17
    ensures Follows(i)
  {
    match i
    case 0 => AskScene();
    case 1 => WelcomeScene();
    case 2 => AcceptScene();
    case 3 => FirstComposed();
    case 4 => SecondComposed();
    case 5 => PushScene();
    case 6 => OwnRequestAccepted();
    case 7 => ReaderAsks();
    case 8 => WriterAnswers();
    case 9 => ReaderActs();
    case 10 => PageArrives();
    case 11 => FirstFails();
    case 12 => ReturnScene();
    case 13 => SecondStored();
    case 14 => WriterAsks();
    case 15 => ReaderAnswers();
    case _ => PromoteScene();
  }

  function Scenes(): seq<World> {
    seq(18, i requires 0 <= i => SceneAt(i))
  }

  function Script(): seq<Event> {
    seq(17, i requires 0 <= i => EventAt(i))
  }

  predicate Harmless(e: Event) {
    !e.Arrive? && !e.ControlArrives? && (e.Local? ==> !e.step.Delete? && !e.step.Receive?)
  }

  lemma HarmlessEvent(w: World, e: Event)
    requires Possible(w, e) && Harmless(e)
    ensures SyncedRuns.WipesNothing(w, e) && SyncedRuns.InOrder(w, e)
  {
  }

  lemma AllHarmless(i: nat)
    ensures Harmless(EventAt(i))
  {
  }

  lemma SceneHappens(ws: seq<World>, es: seq<Event>, i: nat)
    requires ws == Scenes() && es == Script() && i < 17 && |ws| == 18 && |es| == 17
    ensures HappensAt(ws, es, i) && SyncedRuns.WipesNothing(ws[i], es[i]) && SyncedRuns.InOrder(ws[i], es[i])
  {
    SceneStep(i);
    AllHarmless(i);
    HarmlessEvent(SceneAt(i), EventAt(i));
    assert ws[i] == SceneAt(i) && ws[i + 1] == SceneAt(i + 1) && es[i] == EventAt(i);
  }

  lemma ScenesAreHistory()
    ensures SyncedRuns.WipeFree(Scenes(), Script()) && |Script()| == 17
    ensures forall i :: 0 <= i < 17 ==> SyncedRuns.OrderedAt(Scenes(), Script(), i)
  {
    var ws, es := Scenes(), Script();
    assert ws[0] == SceneAt(0) == Start(1, 2);
    forall i | 0 <= i < 17 ensures HappensAt(ws, es, i) && SyncedRuns.WipesNothing(ws[i], es[i]) {
      SceneHappens(ws, es, i);
    }
    OutOfOrder.HistoryOf(ws, es);
    forall i | 0 <= i < 17 ensures SyncedRuns.OrderedAt(ws, es, i) {
      SceneHappens(ws, es, i);
    }
  }

  lemma FirstTwo()
    requires IsHistory(Scenes(), Script()) && |Script()| == 17
    ensures AskedAt(Scenes(), Script(), 0, A) && WelcomedAt(Scenes(), Script(), 1, A)
  {
    assert Script()[0] == EventAt(0) && Script()[1] == EventAt(1);
    assert Scenes()[0] == SceneAt(0) && Scenes()[1] == SceneAt(1);
  }

  lemma ReturnsOnce()
    ensures |Script()| == 17 && NoReturn(Script(), 0, 12, A)
  {
    forall m | 0 < m < 12 ensures Script()[m] == EventAt(m) {
    }
  }

  lemma SceneCaused(ws: seq<World>, es: seq<Event>, i: nat)
    requires ws == Scenes() && es == Script() && IsHistory(ws, es) && |es| == 17 && i < 17
    ensures CausedAt(ws, es, i)
  {
    assert es[i] == EventAt(i);
    FirstTwo();
    ReturnsOnce();
    if i == 1 {
      HandshakeCaused(ws, es, 1, 0, A);
    } else if i == 12 {
      ReturnCaused(ws, es, 12, 0, 1, A);
    } else {
      OthersCaused(ws, es, i);
    }
  }

  lemma ScenesAreGenuine()
    ensures Genuine(Scenes(), Script())
  {
    ScenesAreHistory();
    forall i | 0 <= i < 17 ensures CausedAt(Scenes(), Script(), i) {
      SceneCaused(Scenes(), Script(), i);
    }
  }

  /** Row 1 was queued and undelivered before the last event, and is Synced, dequeued and undelivered after it. */
  ghost predicate Lost(w: World, w': World) {
    && ONE in w.b.node.queue && 1 !in w.a.node.messages
    && 1 in w'.b.node.messages && w'.b.node.messages[1].status == Synced
    && ONE !in w'.b.node.queue && 1 !in w'.a.node.messages
  }

  lemma LastScenes(ws: seq<World>, es: seq<Event>)
    requires ws == Scenes() && es == Script()
    ensures |ws| == 18 && |es| == 17 && Lost(ws[16], ws[17])
  {
    assert ws[16] == SceneAt(16) && ws[17] == SceneAt(17);
  }

  lemma AsksWithoutSession(ws: seq<World>, es: seq<Event>)
    requires ws == Scenes() && es == Script()
    ensures |ws| == 18 && |es| == 17 && es[7] == Ask(A) && ws[7].Peer(A) !in ws[7].At(A).node.sessions
  {
    assert ws[7] == SceneAt(7) && es[7] == EventAt(7);
  }

  /**
   * A genuine run without wipes in which no text arrives live, so none out of order, and yet message 1 is marked Synced
   * and leaves the queue undelivered: the reconcile of event 7 started without a session.
   */
  lemma EarlierLeftBehind() returns (ws: seq<World>, es: seq<Event>)
    ensures Genuine(ws, es) && SyncedRuns.WipeFree(ws, es) && |es| == 17
    ensures forall i :: 0 <= i < |es| ==> SyncedRuns.OrderedAt(ws, es, i)
    ensures es[7] == Ask(A) && ws[7].Peer(A) !in ws[7].At(A).node.sessions
    ensures Lost(ws[16], ws[17])
  {
    ScenesAreHistory();
    ScenesAreGenuine();
    ws, es := Scenes(), Script();
    LastScenes(ws, es);
    AsksWithoutSession(ws, es);
  }
}
