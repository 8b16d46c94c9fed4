/** Repeated reconciles against an answering peer bring everything over, 3200 rows at a time, and then go quiet. */
module Convergence {
  import opened Types
  import opened Ordering
  import opened Storage
  import opened Node
  import opened Reconcile
  import RateLimit

  // ---------------------------------------------------------------- held ids and missing ids

  /** What is held is an initial segment of what was issued. */
  ghost predicate Initial(held: set<MessageId>, issued: set<MessageId>) {
    held <= issued && forall x, y :: x in issued && y in held && x <= y ==> x in held
  }

  /** In an initial segment, what lies above the highest held id is exactly what is missing. */
  lemma AboveIsMissing(held: set<MessageId>, issued: set<MessageId>)
    requires Initial(held, issued)
    ensures Above(issued, Highest(held)) == issued - held
  {
  }

  /** So comparing the two highest ids tells whether anything is missing. */
  lemma PullIffMissing(held: set<MessageId>, issued: set<MessageId>)
    requires Initial(held, issued)
    ensures NeedPull(Highest(issued), Highest(held)) <==> issued - held != {}
  {
    AboveIsMissing(held, issued);
    if issued - held != {} {
      var x :| x in issued - held;
      assert x in Above(issued, Highest(held));
    }
    if NeedPull(Highest(issued), Highest(held)) {
      assert Highest(issued).value in Above(issued, Highest(held));
    }
  }

  function Members(s: seq<MessageId>): set<MessageId> {
    set i | 0 <= i < |s| :: s[i]
  }

  lemma InMembers(s: seq<MessageId>)
    ensures forall x :: x in s <==> x in Members(s)
  {
    forall x | x in s ensures x in Members(s) {
      var i :| 0 <= i < |s| && s[i] == x;
    }
  }

  /** Cutting an ascending sequence splits its elements into the smaller and the larger ones. */
  lemma Cut(s: seq<MessageId>, m: nat)
    requires Ascending(s) && m <= |s|
    ensures Ascending(s[m..])
    ensures forall x :: x in s <==> x in s[..m] || x in s[m..]
    ensures forall x, y :: x in s[..m] && y in s[m..] ==> x < y
  {
    assert s == s[..m] + s[m..];
  }

  /** Receiving the next ids in order extends the initial segment and leaves the rest to come, in order. */
  lemma SegmentGrows(held: set<MessageId>, issued: set<MessageId>, m: nat)
    requires Initial(held, issued) && m <= |issued - held|
    ensures var todo := Sorted(issued - held);
      var held' := held + Members(todo[..m]);
      Initial(held', issued) && Sorted(issued - held') == todo[m..]
  {
    var todo := Sorted(issued - held);
    Cut(todo, m);
    InMembers(todo[..m]);
    SegmentCut(held, issued, todo[..m], todo[m..]);
  }

  lemma SegmentCut(held: set<MessageId>, issued: set<MessageId>, now: seq<MessageId>, later: seq<MessageId>)
    requires Initial(held, issued) && Ascending(later)
    requires forall x :: x in issued - held <==> x in now || x in later
    requires forall x, y :: x in now && y in later ==> x < y
    ensures Initial(held + Members(now), issued) && Sorted(issued - (held + Members(now))) == later
  {
    InMembers(now);
    SortedUnique(issued - (held + Members(now)), later);
  }

  /** What is left after taking `n`. */
  function Drop<T>(s: seq<T>, n: nat): seq<T> {
    if |s| <= n then [] else s[n..]
  }

  // ---------------------------------------------------------------- ingesting a stream of new rows

  /** A text row of `peer` that no row here stands in the way of. */
  ghost predicate IsNew(t: Messages, peer: PeerId, e: Envelope) {
    e.sender == peer && e.payload.Text? && !Oversized(e) && e.id !in t
  }

  /** Rows that are new here, each id once. */
  ghost predicate New(t: Messages, peer: PeerId, stream: seq<Envelope>) {
    && (forall i :: 0 <= i < |stream| ==> IsNew(t, peer, stream[i]))
    && forall i, j :: 0 <= i < j < |stream| ==> stream[i].id != stream[j].id
  }

  function IdsOf(stream: seq<Envelope>): seq<MessageId> {
    seq(|stream|, i requires 0 <= i < |stream| => stream[i].id)
  }

  /** The table with the stream's rows added, as received. */
  function Filled(t: Messages, me: PeerId, stream: seq<Envelope>): Messages {
    if stream == [] then t
    else
      var e := stream[|stream| - 1];
      Filled(t, me, stream[..|stream| - 1])[e.id := Message(e.sender, me, e.payload, Synced)]
  }

  function Received(stream: seq<Envelope>): seq<AppEvent> {
    seq(|stream|, i requires 0 <= i < |stream| => MessageReceived(stream[i].id, stream[i].sender))
  }

  lemma {:induction false} FilledRows(t: Messages, me: PeerId, stream: seq<Envelope>)
    ensures forall id :: id in Filled(t, me, stream) <==> id in t || id in Members(IdsOf(stream))
    ensures forall id :: id in t && id !in Members(IdsOf(stream)) ==> Filled(t, me, stream)[id] == t[id]
    ensures (forall i, j :: 0 <= i < j < |stream| ==> stream[i].id != stream[j].id) ==>
      forall i :: 0 <= i < |stream| ==>
        stream[i].id in Filled(t, me, stream)
          && Filled(t, me, stream)[stream[i].id] == Message(stream[i].sender, me, stream[i].payload, Synced)
    decreases |stream|
  {
    if stream != [] {
      var shorter := stream[..|stream| - 1];
      FilledRows(t, me, shorter);
      assert IdsOf(stream) == IdsOf(shorter) + [stream[|stream| - 1].id];
      MembersAppend(IdsOf(shorter), stream[|stream| - 1].id);
    }
  }

  lemma MembersAppend(s: seq<MessageId>, x: MessageId)
    ensures Members(s + [x]) == Members(s) + {x}
  {
    assert (s + [x])[|s|] == x;
    assert forall i :: 0 <= i < |s| ==> (s + [x])[i] == s[i];
    forall y | y in Members(s) ensures y in Members(s + [x]) {
      var i :| 0 <= i < |s| && s[i] == y;
      assert (s + [x])[i] == y;
    }
  }

  lemma NewPrefix(t: Messages, peer: PeerId, stream: seq<Envelope>)
    requires New(t, peer, stream) && stream != []
    ensures New(t, peer, stream[..|stream| - 1]) && IsNew(t, peer, stream[|stream| - 1])
    ensures stream[|stream| - 1].id !in Members(IdsOf(stream[..|stream| - 1]))
  {
    var shorter := stream[..|stream| - 1];
    assert forall i :: 0 <= i < |shorter| ==> shorter[i] == stream[i];
  }

  lemma IngestNew(n: Node, peer: PeerId, e: Envelope)
    requires peer in n.sessions && IsNew(n.messages, peer, e)
    ensures Ingest(n, peer, e) ==
      (n.(messages := n.messages[e.id := Message(peer, n.me, e.payload, Synced)],
        events := n.events + [MessageReceived(e.id, peer)]), Inserted)
  {
  }

  /** Every new row is stored, shown and acknowledged, in order; nothing else changes. */
  lemma {:induction false} IngestAllNew(n: Node, peer: PeerId, stream: seq<Envelope>)
    requires peer in n.sessions && New(n.messages, peer, stream)
    ensures IngestAll(n, peer, stream) ==
      (n.(messages := Filled(n.messages, n.me, stream), events := n.events + Received(stream)), IdsOf(stream))
    decreases |stream|
  {
    if stream == [] {
      assert n.events + Received(stream) == n.events;
    } else {
      var shorter, e := stream[..|stream| - 1], stream[|stream| - 1];
      NewPrefix(n.messages, peer, stream);
      IngestAllNew(n, peer, shorter);
      FilledRows(n.messages, n.me, shorter);
      var before := IngestAll(n, peer, shorter).0;
      IngestNew(before, peer, e);
      assert IdsOf(stream) == IdsOf(shorter) + [e.id];
      assert Received(stream) == Received(shorter) + [MessageReceived(e.id, e.sender)];
      assert n.events + Received(shorter) + [MessageReceived(e.id, e.sender)] == n.events + Received(stream);
    }
  }

  // ---------------------------------------------------------------- one round between two nodes

  /** `r`'s own rows for `n`, and those of them `n` holds. */
  function Issued(n: Node, r: Node): set<MessageId> {
    Outbound(r.messages, Conv(r, n.me), r.me)
  }

  function Held(n: Node, r: Node): set<MessageId> {
    Inbound(n.messages, Conv(n, r.me), n.me)
  }

  function Missing(n: Node, r: Node): seq<MessageId> {
    Sorted(Issued(n, r) - Held(n, r))
  }

  /** `r` answers `n`'s sync requests from its own tables. */
  function AnswersOf(n: Node, r: Node): PullAnswers {
    (k: nat, since: Option<MessageId>) => Some(HandleSync(r, n.me, Pull(Conv(n, r.me), since, SYNC_PULL_LIMIT), true).1)
  }

  function HeaderOf(n: Node, r: Node): Option<SyncResp> {
    Some(HandleSync(r, n.me, Header([OwnDigest(n, r.me)]), true).1)
  }

  function Asked(n: Node, r: Node, order: seq<MessageId>): Outcome {
    KickSync(n, r.me, HeaderOf(n, r), order, AnswersOf(n, r))
  }

  /** One reconcile of `n` with `r`: both nodes afterwards. */
  function Round(n: Node, r: Node, order: seq<MessageId>): (Node, Node) {
    var o := Asked(n, r, order);
    (o.node, if o.acked == [] then r else HandleSync(r, n.me, Ack(Conv(n, r.me), o.acked), true).0)
  }

  ghost predicate Sendable(t: Messages, ids: set<MessageId>) {
    forall id :: id in ids ==> id in t && t[id].payload.Text? && |t[id].payload.text| <= MAX_MESSAGE_BYTES
  }

  /** The two can reconcile, and `n` has no gap in what it holds of `r`'s rows. */
  ghost predicate Ready(n: Node, r: Node) {
    && n.me != r.me
    && StatusOf(n, r.me) == Some(Accepted) && StatusOf(r, n.me) != Some(Blocked)
    && r.me in n.sessions
    && Sendable(r.messages, Issued(n, r))
    && Initial(Held(n, r), Issued(n, r))
    && forall id :: id in Issued(n, r) - Held(n, r) ==> id !in n.messages
  }

  lemma AnswersAreHonest(n: Node, r: Node)
    requires StatusOf(r, n.me) != Some(Blocked)
    ensures Honest(AnswersOf(n, r), (k: nat) => r.messages, Conv(n, r.me), r.me)
    ensures HeaderOf(n, r) == Some(HeaderAck([OwnDigest(r, n.me)]))
  {
    assert Conv(n, r.me) == Conv(r, n.me);
    var asked := [OwnDigest(n, r.me)];
    assert asked[..0] == [];
    assert AnswerDigests(r, n.me, asked[..0]) == [];
    assert AnswerDigests(r, n.me, asked) == [OwnDigest(r, n.me)];
  }

  /** What the Pull loop of a round receives: the first 3200 missing rows, in order, with their contents. */
  lemma RoundStream(n: Node, r: Node)
    requires Ready(n, r)
    ensures var s := Streamed(HighestInbound(n.messages, Conv(n, r.me), n.me), 0, AnswersOf(n, r));
      && AreRows(s.0, Take(Missing(n, r), MAX_PULLED), RowContents(r.messages))
      && (s.1 + 1 ==
          if |Missing(n, r)| < MAX_PULLED then |Missing(n, r)| / SYNC_PULL_LIMIT + 1 else SYNC_MAX_PULL_PAGES)
  {
    var since := HighestInbound(n.messages, Conv(n, r.me), n.me);
    AnswersAreHonest(n, r);
    PagesAddUp(since, AnswersOf(n, r), (k: nat) => r.messages, Conv(n, r.me), r.me);
    PullsOverTable(since, AnswersOf(n, r), r.messages, Conv(n, r.me), r.me);
    assert Conv(n, r.me) == Conv(r, n.me);
    AboveIsMissing(Held(n, r), Issued(n, r));
    assert Backlog(r.messages, Conv(n, r.me), r.me, since) == Missing(n, r);
  }

  lemma RowsAreNew(t: Messages, peer: PeerId, stream: seq<Envelope>, ids: seq<MessageId>)
    requires |stream| == |ids| && Ascending(ids)
    requires forall i :: 0 <= i < |ids| ==> stream[i].id == ids[i] && IsNew(t, peer, stream[i])
    ensures New(t, peer, stream) && IdsOf(stream) == ids
  {
    assert forall i, j :: 0 <= i < j < |stream| ==> stream[i].id == ids[i] && stream[j].id == ids[j];
  }

  /** The stream is new to `n`, and its ids are the missing ones. */
  lemma StreamIsNew(n: Node, r: Node, t: Messages, stream: seq<Envelope>)
    requires Ready(n, r) && t.Keys == n.messages.Keys
    requires AreRows(stream, Take(Missing(n, r), MAX_PULLED), RowContents(r.messages))
    ensures New(t, r.me, stream) && IdsOf(stream) == Take(Missing(n, r), MAX_PULLED)
    ensures forall i :: 0 <= i < |stream| ==>
      stream[i].id in r.messages && stream[i].payload == r.messages[stream[i].id].payload
  {
    var ids := Take(Missing(n, r), MAX_PULLED);
    forall i | 0 <= i < |ids|
      ensures ids[i] in r.messages && stream[i] == EnvelopeOf(r.messages, ids[i]) && IsNew(t, r.me, stream[i])
    {
      StreamedRow(n, r, t, stream, i);
    }
    RowsAreNew(t, r.me, stream, ids);
  }

  lemma StreamedRow(n: Node, r: Node, t: Messages, stream: seq<Envelope>, i: nat)
    requires Ready(n, r) && t.Keys == n.messages.Keys
    requires AreRows(stream, Take(Missing(n, r), MAX_PULLED), RowContents(r.messages)) && i < |stream|
    ensures var id := Take(Missing(n, r), MAX_PULLED)[i];
      id in r.messages && stream[i] == EnvelopeOf(r.messages, id) && IsNew(t, r.me, stream[i])
  {
    var id := Missing(n, r)[i];
    assert id in Missing(n, r);
    MissingIsNew(n, r, t, id);
    assert stream[i] == RowContents(r.messages)(id);
  }

  lemma MissingIsNew(n: Node, r: Node, t: Messages, id: MessageId)
    requires Ready(n, r) && t.Keys == n.messages.Keys && id in Issued(n, r) - Held(n, r)
    ensures id in r.messages && IsNew(t, r.me, EnvelopeOf(r.messages, id))
  {
  }

  /** The node the Pull loop starts from: own rows the peer already holds have been promoted. */
  function Promoted(n: Node, r: Node, order: seq<MessageId>): Node {
    var theirs := OwnDigest(r, n.me).highestInbound;
    if theirs.Some? then Promote(n, r.me, theirs.value, order) else n
  }

  lemma PromotedKeeps(n: Node, r: Node, order: seq<MessageId>)
    ensures var p := Promoted(n, r, order);
      && p == n.(messages := p.messages, queue := p.queue, events := p.events)
      && p.messages.Keys == n.messages.Keys
      && forall id :: id in n.messages ==> p.messages[id] == n.messages[id].(status := p.messages[id].status)
  {
  }

  /** What a reconcile comes to, given what its Pull loop did. */
  ghost predicate Comes(n: Node, r: Node, p: Node, loop: Pulled, o: Outcome) {
    o == if Missing(n, r) == [] then Outcome(p, [], 1)
      else Outcome(loop.node, loop.persisted, 1 + loop.pulls + if loop.persisted != [] then 1 else 0)
  }

  /** What a reconcile does once the peer's digest is known. */
  lemma KickOnDigest(n: Node, r: Node, order: seq<MessageId>)
    requires Ready(n, r)
    ensures var o := Asked(n, r, order);
      var p := Promoted(n, r, order);
      Comes(n, r, p, PullLoop(p, r.me, Highest(Held(n, r)), 0, AnswersOf(n, r), []), o)
  {
    AnswersAreHonest(n, r);
    var theirs := OwnDigest(r, n.me);
    assert Conv(n, r.me) == Conv(r, n.me);
    assert TheirDigest([theirs], Conv(n, r.me)) == Some(theirs);
    PullIffMissing(Held(n, r), Issued(n, r));
    assert Missing(n, r) == [] <==> Issued(n, r) - Held(n, r) == {} by {
      assert |Missing(n, r)| == |Issued(n, r) - Held(n, r)|;
    }
    assert theirs.highestOutbound == Highest(Issued(n, r));
  }

  lemma LoopOverNew(p: Node, peer: PeerId, since: Option<MessageId>, answers: PullAnswers)
    requires peer in p.sessions && New(p.messages, peer, Streamed(since, 0, answers).0)
    ensures var s := Streamed(since, 0, answers);
      PullLoop(p, peer, since, 0, answers, []) ==
        Pulled(p.(messages := Filled(p.messages, p.me, s.0), events := p.events + Received(s.0)), IdsOf(s.0), s.1 + 1)
  {
    var s := Streamed(since, 0, answers);
    LoopIngestsStream(p, peer, since, 0, answers, []);
    IngestAllNew(p, peer, s.0);
    assert [] + IdsOf(s.0) == IdsOf(s.0);
  }

  /** The Pull loop of a round, in closed form. */
  lemma LoopFills(n: Node, r: Node, p: Node)
    requires Ready(n, r)
    requires p.me == n.me && p.sessions == n.sessions && p.messages.Keys == n.messages.Keys
    ensures var loop := PullLoop(p, r.me, Highest(Held(n, r)), 0, AnswersOf(n, r), []);
      && loop.persisted == Take(Missing(n, r), MAX_PULLED)
      && loop.pulls ==
         (if |Missing(n, r)| < MAX_PULLED then |Missing(n, r)| / SYNC_PULL_LIMIT + 1 else SYNC_MAX_PULL_PAGES)
      && loop.node == p.(messages := loop.node.messages, events := loop.node.events)
      && FilledFrom(p.messages, n.me, r, loop.persisted, loop.node.messages)
  {
    var since := Highest(Held(n, r));
    var answers := AnswersOf(n, r);
    var s := Streamed(since, 0, answers);
    assert AreRows(s.0, Take(Missing(n, r), MAX_PULLED), RowContents(r.messages))
      && (s.1 + 1 ==
          if |Missing(n, r)| < MAX_PULLED then |Missing(n, r)| / SYNC_PULL_LIMIT + 1 else SYNC_MAX_PULL_PAGES) by {
      RoundStream(n, r);
    }
    StreamIsNew(n, r, p.messages, s.0);
    LoopOverNew(p, r.me, since, answers);
    StreamFills(p.messages, n.me, r, s.0);
  }

  /** `t'` is `t` with exactly the rows `ids` of `r` added, as `me` stores them. */
  ghost predicate FilledFrom(t: Messages, me: PeerId, r: Node, ids: seq<MessageId>, t': Messages) {
    && t'.Keys == t.Keys + Members(ids)
    && (forall id :: id in t ==> t'[id] == t[id])
    && (forall id :: id in Members(ids) ==>
        id !in t && id in r.messages && t'[id] == Message(r.me, me, r.messages[id].payload, Synced))
  }

  lemma StreamFills(t: Messages, me: PeerId, r: Node, stream: seq<Envelope>)
    requires New(t, r.me, stream)
    requires forall i :: 0 <= i < |stream| ==>
      stream[i].id in r.messages && stream[i].payload == r.messages[stream[i].id].payload
    ensures FilledFrom(t, me, r, IdsOf(stream), Filled(t, me, stream))
  {
    FilledRows(t, me, stream);
    forall id | id in Members(IdsOf(stream))
      ensures id !in t && id in r.messages
        && Filled(t, me, stream)[id] == Message(r.me, me, r.messages[id].payload, Synced)
    {
      var i :| 0 <= i < |stream| && IdsOf(stream)[i] == id;
      assert stream[i].id == id;
    }
  }

  // ---------------------------------------------------------------- convergence

  /** `n'` is `n` with the rows `now` of `r` stored as received; of its other rows at most the status changed. */
  ghost predicate Caught(n: Node, r: Node, now: seq<MessageId>, n': Node) {
    && n'.me == n.me && n'.contacts == n.contacts && n'.sessions == n.sessions
    && n'.messages.Keys == n.messages.Keys + Members(now)
    && (forall id :: id in n.messages ==> n'.messages[id] == n.messages[id].(status := n'.messages[id].status))
    && (forall id :: id in now ==>
          id !in n.messages && id in r.messages
            && n'.messages[id] == Message(r.me, n.me, r.messages[id].payload, Synced))
  }

  /** `r'` is `r` with exactly the rows `now` marked Synced. */
  ghost predicate Marked(r: Node, now: seq<MessageId>, r': Node) {
    && r' == r.(messages := r'.messages) && r'.messages.Keys == r.messages.Keys
    && forall id :: id in r.messages ==>
       r'.messages[id] == if id in now then r.messages[id].(status := Synced) else r.messages[id]
  }

  lemma FillingCatches(n: Node, r: Node, p: Node, now: seq<MessageId>, n': Node)
    requires p == n.(messages := p.messages, queue := p.queue, events := p.events) && p.messages.Keys == n.messages.Keys
    requires forall id :: id in n.messages ==> p.messages[id] == n.messages[id].(status := p.messages[id].status)
    requires n' == p.(messages := n'.messages, events := n'.events) && FilledFrom(p.messages, n.me, r, now, n'.messages)
    ensures Caught(n, r, now, n')
  {
    InMembers(now);
  }

  /** What a round with `missing` rows to fetch costs in sync requests. */
  function RoundRequests(missing: nat): nat {
    if missing == 0 then 1
    else 2 + if missing < 3200 then missing / 50 + 1 else 64
  }

  lemma OutcomeCatches(n: Node, r: Node, p: Node, loop: Pulled, o: Outcome)
    requires p == n.(messages := p.messages, queue := p.queue, events := p.events) && p.messages.Keys == n.messages.Keys
    requires forall id :: id in n.messages ==> p.messages[id] == n.messages[id].(status := p.messages[id].status)
    requires loop.persisted == Take(Missing(n, r), MAX_PULLED)
    requires loop.pulls ==
      if |Missing(n, r)| < MAX_PULLED then |Missing(n, r)| / SYNC_PULL_LIMIT + 1 else SYNC_MAX_PULL_PAGES
    requires loop.node == p.(messages := loop.node.messages, events := loop.node.events)
    requires FilledFrom(p.messages, n.me, r, loop.persisted, loop.node.messages)
    requires Comes(n, r, p, loop, o)
    ensures o.acked == Take(Missing(n, r), MAX_PULLED)
    ensures Caught(n, r, o.acked, o.node)
    ensures o.requests == RoundRequests(|Missing(n, r)|)
  {
    if Missing(n, r) == [] {
      assert FilledFrom(p.messages, n.me, r, [], p.messages);
      FillingCatches(n, r, p, [], p);
    } else {
      FillingCatches(n, r, p, loop.persisted, loop.node);
    }
  }

  lemma RoundCatches(n: Node, r: Node, order: seq<MessageId>)
    requires Ready(n, r)
    ensures var now := Take(Missing(n, r), MAX_PULLED);
      && Asked(n, r, order).acked == now
      && Caught(n, r, now, Asked(n, r, order).node)
      && Asked(n, r, order).requests == RoundRequests(|Missing(n, r)|)
  {
    var p := Promoted(n, r, order);
    PromotedKeeps(n, r, order);
    KickOnDigest(n, r, order);
    LoopFills(n, r, p);
    OutcomeCatches(n, r, p, PullLoop(p, r.me, Highest(Held(n, r)), 0, AnswersOf(n, r), []), Asked(n, r, order));
  }

  lemma AckMarks(r: Node, from: PeerId, conv: ConversationId, acked: seq<MessageId>)
    requires StatusOf(r, from) != Some(Blocked) && conv == Conv(r, from)
    ensures Marked(r, acked, HandleSync(r, from, Ack(conv, acked), true).0)
  {
    AckedRows(r.messages, acked);
  }

  lemma RoundMarks(n: Node, r: Node, order: seq<MessageId>, acked: seq<MessageId>)
    requires Ready(n, r) && acked == Asked(n, r, order).acked
    ensures Marked(r, acked, Round(n, r, order).1)
  {
    assert Conv(n, r.me) == Conv(r, n.me);
    AckMarks(r, n.me, Conv(n, r.me), acked);
  }

  lemma SetsAfter(n: Node, r: Node, now: seq<MessageId>, n': Node, r': Node)
    requires n.me != r.me && Caught(n, r, now, n') && Marked(r, now, r')
    ensures Held(n', r') == Held(n, r) + Members(now)
    ensures Issued(n', r') == Issued(n, r)
  {
    InMembers(now);
  }

  lemma NextSegment(held: set<MessageId>, issued: set<MessageId>, todo: seq<MessageId>, n: nat)
    requires Initial(held, issued) && todo == Sorted(issued - held)
    ensures var now := Take(todo, n);
      var held' := held + Members(now);
      Initial(held', issued) && Sorted(issued - held') == Drop(todo, n)
  {
    if |todo| <= n {
      assert todo[..|todo|] == todo;
    }
    SegmentGrows(held, issued, |Take(todo, n)|);
  }

  lemma ReadyAfter(n: Node, r: Node, now: seq<MessageId>, n': Node, r': Node)
    requires Ready(n, r) && Caught(n, r, now, n') && Marked(r, now, r')
    requires Initial(Held(n', r'), Issued(n', r'))
    ensures Ready(n', r')
  {
    SetsAfter(n, r, now, n', r');
    forall id | id in Issued(n', r') ensures id in r'.messages && r'.messages[id].payload == r.messages[id].payload {
      assert id in Issued(n, r);
    }
  }

  /**
   * One reconcile brings over exactly the next min(3200, backlog) of the peer's rows, in order and with their
   * contents; the peer marks exactly those Synced; what is held stays free of gaps. With nothing missing it costs a
   * single Header and pulls nothing.
   */
  lemma RoundShrinks(n: Node, r: Node, order: seq<MessageId>)
    requires Ready(n, r)
    ensures var now := Take(Missing(n, r), MAX_PULLED);
      var (n', r') := Round(n, r, order);
      && Ready(n', r')
      && Missing(n', r') == Drop(Missing(n, r), MAX_PULLED)
      && Caught(n, r, now, n')
      && Marked(r, now, r')
      && Asked(n, r, order).requests == RoundRequests(|Missing(n, r)|)
  {
    RoundCatches(n, r, order);
    RoundMarks(n, r, order, Take(Missing(n, r), MAX_PULLED));
    var (n', r') := Round(n, r, order);
    SetsAfter(n, r, Take(Missing(n, r), MAX_PULLED), n', r');
    NextSegment(Held(n, r), Issued(n, r), Missing(n, r), MAX_PULLED);
    ReadyAfter(n, r, Take(Missing(n, r), MAX_PULLED), n', r');
  }

  /** With nothing missing the two agree, and a reconcile is a lone Header that brings nothing over. */
  lemma QuietWhenEqual(n: Node, r: Node, order: seq<MessageId>)
    requires Ready(n, r) && Missing(n, r) == []
    ensures Held(n, r) == Issued(n, r)
    ensures Asked(n, r, order).requests == 1 && Asked(n, r, order).acked == []
  {
    RoundCatches(n, r, order);
    assert |Issued(n, r) - Held(n, r)| == 0;
  }

  function Iterate<T>(step: T -> T, start: T, k: nat): T {
    if k == 0 then start else step(Iterate(step, start, k - 1))
  }

  lemma DropTwice<T>(s: seq<T>, a: nat, b: nat)
    ensures Drop(Drop(s, a), b) == Drop(s, a + b)
  {
  }

  /** A step from an acceptable state leads to one, with the next 3200 elements taken off the backlog. */
  ghost predicate Advances<T>(step: T -> T, ok: T -> bool, backlog: T -> seq<MessageId>, p: T) {
    ok(p) ==> ok(step(p)) && backlog(step(p)) == Drop(backlog(p), 3200)
  }

  /** When every step takes the next 3200 elements off a backlog, `k` steps take off the first 3200 k. */
  lemma {:induction false} BacklogAfter<T(!new)>(step: T -> T, ok: T -> bool, backlog: T -> seq<MessageId>, start: T,
        k: nat)
    requires forall p :: Advances(step, ok, backlog, p)
    requires ok(start)
    ensures ok(Iterate(step, start, k))
    ensures backlog(Iterate(step, start, k)) == Drop(backlog(start), 3200 * k)
  {
    if k > 0 {
      BacklogAfter(step, ok, backlog, start, k - 1);
      assert Advances(step, ok, backlog, Iterate(step, start, k - 1));
      DropTwice(backlog(start), 3200 * (k - 1), 3200);
    }
  }

  /** The next 3200 of the missing rows came over, and another reconcile can follow. */
  ghost predicate Brought(before: (Node, Node), after: (Node, Node)) {
    && Ready(after.0, after.1)
    && Missing(after.0, after.1) == Drop(Missing(before.0, before.1), MAX_PULLED)
    && Issued(after.0, after.1) == Issued(before.0, before.1)
  }

  lemma RoundBrings(pair: (Node, Node))
    requires Ready(pair.0, pair.1)
    ensures Brought(pair, Round(pair.0, pair.1, []))
  {
    RoundShrinks(pair.0, pair.1, []);
    var (n', r') := Round(pair.0, pair.1, []);
    SetsAfter(pair.0, pair.1, Take(Missing(pair.0, pair.1), MAX_PULLED), n', r');
  }

  lemma EqualIffNoneMissing(n: Node, r: Node)
    requires Held(n, r) <= Issued(n, r)
    ensures Missing(n, r) == [] <==> Held(n, r) == Issued(n, r)
  {
    assert |Missing(n, r)| == |Issued(n, r) - Held(n, r)|;
  }

  /** `k` reconciles one after another. */
  function Rounds(n: Node, r: Node, k: nat): (Node, Node) {
    Iterate((p: (Node, Node)) => Round(p.0, p.1, []), (n, r), k)
  }

  lemma BacklogAfterRounds(n: Node, r: Node, k: nat)
    requires Ready(n, r)
    ensures var (n', r') := Rounds(n, r, k);
      && Ready(n', r') && Issued(n', r') == Issued(n, r)
      && Missing(n', r') == Drop(Missing(n, r), 3200 * k)
  {
    var step := (p: (Node, Node)) => Round(p.0, p.1, []);
    var ok := (p: (Node, Node)) => Ready(p.0, p.1) && Issued(p.0, p.1) == Issued(n, r);
    var backlog := (p: (Node, Node)) => Missing(p.0, p.1);
    forall p ensures Advances(step, ok, backlog, p) {
      if ok(p) {
        RoundBrings(p);
      }
    }
    BacklogAfter(step, ok, backlog, (n, r), k);
  }

  /**
   * After k reconciles exactly the first 3200 k of the missing rows have come over: ceil(backlog / 3200) reconciles
   * reach equality, no fewer do, and every later one is a lone Header that brings nothing.
   */
  lemma Converges(n: Node, r: Node, k: nat)
    requires Ready(n, r)
    ensures var (n', r') := Rounds(n, r, k);
      && (Held(n', r') == Issued(n, r) <==> |Missing(n, r)| <= 3200 * k)
      && (|Missing(n, r)| <= 3200 * k ==> Asked(n', r', []).requests == 1 && Asked(n', r', []).acked == [])
  {
    BacklogAfterRounds(n, r, k);
    var (n', r') := Rounds(n, r, k);
    EqualIffNoneMissing(n', r');
    if |Missing(n, r)| <= 3200 * k {
      QuietWhenEqual(n', r', []);
    }
  }

  /** A reconcile that starts with room for it in the peer's sync bucket has none of its requests refused. */
  lemma ReconcileNotRefused(n: Node, peer: PeerId, header: Option<SyncResp>, order: seq<MessageId>,
        answers: PullAnswers, events: seq<RateLimit.Instant>, times: seq<RateLimit.Instant>)
    requires |times| == KickSync(n, peer, header, order, answers).requests
    requires |events| <= 190
    ensures RateLimit.Serve(events, RateLimit.SYNC_LIMIT, times).0
  {
    RequestsBounded(n, peer, header, order, answers);
    RateLimit.BurstAdmitted(events, RateLimit.SYNC_LIMIT, times);
  }
}
