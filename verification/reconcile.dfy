/** The reconcile a reconnect starts: Header, promotion of own rows, a paged Pull loop, Ack. */
module Reconcile {
  import opened Types
  import opened Ordering
  import opened Storage
  import opened Node

  /** What the peer answers to the `k`-th Pull, given the mark it asks from; `None` is a failed send. */
  type PullAnswers = (nat, Option<MessageId>) -> Option<SyncResp>

  const MAX_PULLED: nat := SYNC_MAX_PULL_PAGES * SYNC_PULL_LIMIT

  // ---------------------------------------------------------------- what one reconcile does

  /** A page ingested in order: the node and the ids that were new. */
  function IngestAll(n: Node, peer: PeerId, page: seq<Envelope>): (Node, seq<MessageId>) {
    if page == [] then (n, [])
    else
      var (before, persisted) := IngestAll(n, peer, page[..|page| - 1]);
      var (after, outcome) := Ingest(before, peer, page[|page| - 1]);
      (after, if outcome.Inserted? then persisted + [page[|page| - 1].id] else persisted)
  }

  /** The envelopes of the `k`-th page, and whether the loop asks for another after it. */
  function PageAt(answers: PullAnswers, k: nat, since: Option<MessageId>): (seq<Envelope>, bool) {
    match answers(k, since)
    case Some(PullPage(envelopes, hasMore)) => (envelopes, hasMore && envelopes != [])
    case _ => ([], false)
  }

  datatype Pulled = Pulled(node: Node, persisted: seq<MessageId>, pulls: nat)

  /** The Pull loop from page `k` on, having made `k` pulls so far. */
  function PullLoop(n: Node, peer: PeerId, since: Option<MessageId>, k: nat, answers: PullAnswers,
        persisted: seq<MessageId>): Pulled
    requires k < SYNC_MAX_PULL_PAGES
    decreases SYNC_MAX_PULL_PAGES - k
  {
    var (page, more) := PageAt(answers, k, since);
    var (after, ids) := IngestAll(n, peer, page);
    if more && k + 1 < SYNC_MAX_PULL_PAGES && page != [] then
      PullLoop(after, peer, Some(page[|page| - 1].id), k + 1, answers, persisted + ids)
    else Pulled(after, persisted + ids, k + 1)
  }

  lemma PullEnds(n: Node, peer: PeerId, since: Option<MessageId>, k: nat, answers: PullAnswers,
        persisted: seq<MessageId>)
    requires k < SYNC_MAX_PULL_PAGES && PageAt(answers, k, since).0 == []
    ensures PullLoop(n, peer, since, k, answers, persisted) == Pulled(n, persisted, k + 1)
  {
    assert persisted + [] == persisted;
  }

  lemma PullGoesOn(n: Node, peer: PeerId, since: Option<MessageId>, k: nat, answers: PullAnswers,
        persisted: seq<MessageId>)
    requires k < SYNC_MAX_PULL_PAGES && PageAt(answers, k, since).0 != []
    ensures var (page, more) := PageAt(answers, k, since);
      var (after, ids) := IngestAll(n, peer, page);
      PullLoop(n, peer, since, k, answers, persisted) ==
        if more && k + 1 < SYNC_MAX_PULL_PAGES then
          PullLoop(after, peer, Some(page[|page| - 1].id), k + 1, answers, persisted + ids)
        else Pulled(after, persisted + ids, k + 1)
  {
  }

  /** The first digest about the shared conversation. */
  function TheirDigest(ours: seq<Digest>, conv: ConversationId): Option<Digest> {
    if ours == [] then None
    else if ours[0].conv == conv then Some(ours[0])
    else TheirDigest(ours[1..], conv)
  }

  /** The node afterwards, the ids it acknowledged to the peer, and how many sync requests it sent. */
  datatype Outcome = Outcome(node: Node, acked: seq<MessageId>, requests: nat)

  function KickSync(n: Node, peer: PeerId, header: Option<SyncResp>, order: seq<MessageId>,
        answers: PullAnswers): Outcome
  {
    if StatusOf(n, peer) != Some(Accepted) then Outcome(n, [], 0)
    else
      match header
      case Some(HeaderAck(ours)) =>
        (match TheirDigest(ours, Conv(n, peer))
         case None => Outcome(n, [], 1)
         case Some(their) =>
           var promoted :=
             if their.highestInbound.Some? then Promote(n, peer, their.highestInbound.value, order) else n;
           var myInbound := HighestInbound(n.messages, Conv(n, peer), n.me);
           if !NeedPull(their.highestOutbound, myInbound) then Outcome(promoted, [], 1)
           else
             var r := PullLoop(promoted, peer, myInbound, 0, answers, []);
             Outcome(r.node, r.persisted, 1 + r.pulls + if r.persisted != [] then 1 else 0))
      case _ => Outcome(n, [], 1)
  }

  lemma {:induction false} PullsBounded(n: Node, peer: PeerId, since: Option<MessageId>, k: nat, answers: PullAnswers,
        persisted: seq<MessageId>)
    requires k < SYNC_MAX_PULL_PAGES
    ensures PullLoop(n, peer, since, k, answers, persisted).pulls <= SYNC_MAX_PULL_PAGES
    decreases SYNC_MAX_PULL_PAGES - k
  {
    var (page, more) := PageAt(answers, k, since);
    if more && k + 1 < SYNC_MAX_PULL_PAGES {
      var (after, ids) := IngestAll(n, peer, page);
      PullsBounded(after, peer, Some(page[|page| - 1].id), k + 1, answers, persisted + ids);
    }
  }

  /** A reconcile asks the peer something exactly if it is an accepted contact; otherwise nothing happens at all. */
  lemma AsksIffAccepted(n: Node, peer: PeerId, header: Option<SyncResp>, order: seq<MessageId>, answers: PullAnswers)
    ensures var o := KickSync(n, peer, header, order, answers);
      && (o.requests > 0 <==> peer in n.contacts && n.contacts[peer] == Accepted)
      && (!(peer in n.contacts && n.contacts[peer] == Accepted) ==> o == Outcome(n, [], 0))
  {
  }

  /** Whatever the peer answers, one reconcile sends it at most 66 sync requests. */
  lemma RequestsBounded(n: Node, peer: PeerId, header: Option<SyncResp>, order: seq<MessageId>, answers: PullAnswers)
    ensures KickSync(n, peer, header, order, answers).requests <= 66
  {
    match header
    case Some(HeaderAck(ours)) =>
      var their := TheirDigest(ours, Conv(n, peer));
      if their.Some? {
        var promoted :=
          if their.value.highestInbound.Some? then Promote(n, peer, their.value.highestInbound.value, order) else n;
        PullsBounded(promoted, peer, HighestInbound(n.messages, Conv(n, peer), n.me), 0, answers, []);
      }
    case _ =>
  }

  /** The first digest of the list about the conversation, if there is one. */
  ghost predicate IsFirstAbout(ours: seq<Digest>, conv: ConversationId, i: int) {
    0 <= i < |ours| && ours[i].conv == conv && forall j :: 0 <= j < i ==> ours[j].conv != conv
  }

  lemma {:induction false} TheirDigestIsFirst(ours: seq<Digest>, conv: ConversationId)
    ensures match TheirDigest(ours, conv)
      case None => forall i :: 0 <= i < |ours| ==> ours[i].conv != conv
      case Some(d) => exists i :: IsFirstAbout(ours, conv, i) && ours[i] == d
  {
    if ours != [] && ours[0].conv != conv {
      TheirDigestIsFirst(ours[1..], conv);
      var rest := TheirDigest(ours[1..], conv);
      if rest.Some? {
        var i :| IsFirstAbout(ours[1..], conv, i) && ours[1..][i] == rest.value;
        assert IsFirstAbout(ours, conv, i + 1) by {
          forall j | 0 <= j < i + 1 ensures ours[j].conv != conv {
            assert j > 0 ==> ours[j] == ours[1..][j - 1];
          }
        }
      } else {
        assert forall i :: 1 <= i < |ours| ==> ours[i] == ours[1..][i - 1];
      }
    } else if ours != [] {
      assert IsFirstAbout(ours, conv, 0);
    }
  }

  // ---------------------------------------------------------------- what the pages add up to

  /** Every envelope the Pull loop receives from page `k` on, in order, and the number of the last pull. */
  function Streamed(since: Option<MessageId>, k: nat, answers: PullAnswers): (seq<Envelope>, nat)
    requires k < SYNC_MAX_PULL_PAGES
    decreases SYNC_MAX_PULL_PAGES - k
  {
    var (page, more) := PageAt(answers, k, since);
    if more && k + 1 < SYNC_MAX_PULL_PAGES && page != [] then
      var (rest, last) := Streamed(Some(page[|page| - 1].id), k + 1, answers);
      (page + rest, last)
    else (page, k)
  }

  lemma {:induction false} IngestAllConcat(n: Node, peer: PeerId, first: seq<Envelope>, second: seq<Envelope>)
    ensures var a := IngestAll(n, peer, first);
      var b := IngestAll(a.0, peer, second);
      IngestAll(n, peer, first + second) == (b.0, a.1 + b.1)
    decreases |second|
  {
    var a := IngestAll(n, peer, first);
    if second == [] {
      assert first + second == first;
      assert a.1 + [] == a.1;
    } else {
      var shorter, last := second[..|second| - 1], second[|second| - 1];
      IngestAllConcat(n, peer, first, shorter);
      assert (first + second)[..|first + second| - 1] == first + shorter;
      var c := IngestAll(a.0, peer, shorter);
      assert a.1 + (c.1 + [last.id]) == (a.1 + c.1) + [last.id];
    }
  }

  /** The Pull loop does nothing but ingest, in order, the stream its pages form. */
  lemma {:induction false} LoopIngestsStream(n: Node, peer: PeerId, since: Option<MessageId>, k: nat,
        answers: PullAnswers, persisted: seq<MessageId>)
    requires k < SYNC_MAX_PULL_PAGES
    ensures var s := Streamed(since, k, answers);
      var r := IngestAll(n, peer, s.0);
      PullLoop(n, peer, since, k, answers, persisted) == Pulled(r.0, persisted + r.1, s.1 + 1)
    decreases SYNC_MAX_PULL_PAGES - k
  {
    var (page, more) := PageAt(answers, k, since);
    if more && k + 1 < SYNC_MAX_PULL_PAGES {
      var a := IngestAll(n, peer, page);
      var next := Some(page[|page| - 1].id);
      LoopIngestsStream(a.0, peer, next, k + 1, answers, persisted + a.1);
      var rest := Streamed(next, k + 1, answers).0;
      IngestAllConcat(n, peer, page, rest);
      var b := IngestAll(a.0, peer, rest);
      assert persisted + a.1 + b.1 == persisted + (a.1 + b.1);
    }
  }

  /** No digest about the conversation comes back: the Header was all. */
  lemma NothingLearnt(n: Node, peer: PeerId, header: Option<SyncResp>, order: seq<MessageId>, answers: PullAnswers)
    requires StatusOf(n, peer) == Some(Accepted)
    requires header.Some? && header.value.HeaderAck? ==> forall d :: d in header.value.ours ==> d.conv != Conv(n, peer)
    ensures KickSync(n, peer, header, order, answers) == Outcome(n, [], 1)
  {
    if header.Some? && header.value.HeaderAck? {
      TheirDigestIsFirst(header.value.ours, Conv(n, peer));
    }
  }

  /**
   * Whatever the peer answers: its first digest about the conversation first promotes our rows up to what it has, and
   * then, exactly if it has something above our highest received id, the stream of its pages is ingested and what was
   * new acknowledged, if anything was.
   */
  lemma LearntIsUsed(n: Node, peer: PeerId, ours: seq<Digest>, i: nat, order: seq<MessageId>, answers: PullAnswers)
    requires StatusOf(n, peer) == Some(Accepted) && IsFirstAbout(ours, Conv(n, peer), i)
    ensures var o := KickSync(n, peer, Some(HeaderAck(ours)), order, answers);
      var promoted := if ours[i].highestInbound.Some? then Promote(n, peer, ours[i].highestInbound.value, order) else n;
      var since := HighestInbound(n.messages, Conv(n, peer), n.me);
      if ours[i].highestOutbound.Some? && (since.Some? ==> since.value < ours[i].highestOutbound.value) then
        var s := Streamed(since, 0, answers);
        var (node, novel) := IngestAll(promoted, peer, s.0);
        o == Outcome(node, novel, 1 + (s.1 + 1) + if novel == [] then 0 else 1)
      else o == Outcome(promoted, [], 1)
  {
    TheirDigestIsFirst(ours, Conv(n, peer));
    var their := TheirDigest(ours, Conv(n, peer));
    var j :| IsFirstAbout(ours, Conv(n, peer), j) && ours[j] == their.value;
    assert i == j;
    var promoted := if ours[i].highestInbound.Some? then Promote(n, peer, ours[i].highestInbound.value, order) else n;
    LoopIngestsStream(promoted, peer, HighestInbound(n.messages, Conv(n, peer), n.me), 0, answers, []);
  }

  /** What is acknowledged is what a page made new, each once, and it is stored. */
  lemma {:induction false} NewAreAcked(n: Node, peer: PeerId, page: seq<Envelope>)
    ensures var (after, novel) := IngestAll(n, peer, page);
      && (forall id :: id in n.messages ==> id in after.messages && after.messages[id] == n.messages[id])
      && (forall id :: id in novel <==> id in after.messages && id !in n.messages)
      && forall i, j :: 0 <= i < j < |novel| ==> novel[i] != novel[j]
    decreases |page|
  {
    if page != [] {
      var e := page[|page| - 1];
      NewAreAcked(n, peer, page[..|page| - 1]);
      var before := IngestAll(n, peer, page[..|page| - 1]).0;
      OneIngested(before, peer, e);
    }
  }

  lemma OneIngested(n: Node, peer: PeerId, e: Envelope)
    ensures var (after, outcome) := Ingest(n, peer, e);
      && (outcome.Inserted? ==> e.id !in n.messages && e.id in after.messages)
      && (!outcome.Inserted? ==> after.messages == n.messages)
      && forall id :: id != e.id || id in n.messages ==>
           (id in after.messages <==> id in n.messages)
           && (id in n.messages ==> after.messages[id] == n.messages[id])
  {
  }

  /** The ids read above a mark, and the contents of a row, whatever table they come from. */
  type Reading = (nat, Option<MessageId>) -> seq<MessageId>
  type Contents = MessageId -> Envelope

  ghost predicate AreRows(stream: seq<Envelope>, ids: seq<MessageId>, contents: Contents) {
    |stream| == |ids| && forall i :: 0 <= i < |ids| ==> stream[i] == contents(ids[i])
  }

  /** The `k`-th page is the first 50 ids the `k`-th reading finds above `since`, and is followed up iff it is full. */
  ghost predicate ServesPage(answers: PullAnswers, rows: Reading, contents: Contents, k: nat, since: Option<MessageId>)
  {
    && AreRows(PageAt(answers, k, since).0, Take(rows(k, since), SYNC_PULL_LIMIT), contents)
    && PageAt(answers, k, since).1 == (|rows(k, since)| >= SYNC_PULL_LIMIT)
  }

  /** A later reading finds what an earlier one found first, and resumes right after any of it. */
  ghost predicate Resumes(rows: Reading, j: nat, k: nat, since: Option<MessageId>, m: nat) {
    m < |rows(j, since)| ==>
      rows(j, since) <= rows(k, since) && rows(k, Some(rows(j, since)[m])) == rows(k, since)[m + 1..]
  }

  lemma PageThenRest(here: seq<MessageId>, there: seq<MessageId>, page: seq<Envelope>, rest: seq<Envelope>,
        contents: Contents, m: nat, n: nat)
    requires m <= |here| && here <= there
    requires AreRows(page, here[..m], contents) && AreRows(rest, Take(there[m..], n), contents)
    ensures AreRows(page + rest, Take(there, m + n), contents)
  {
    var wanted := Take(there, m + n);
    forall i | 0 <= i < |wanted| ensures (page + rest)[i] == contents(wanted[i]) {
      if i < m {
        assert wanted[i] == here[..m][i];
      } else {
        assert wanted[i] == Take(there[m..], n)[i - m];
      }
    }
  }

  lemma {:induction false} StreamIsPrefix(since: Option<MessageId>, k: nat, answers: PullAnswers, rows: Reading,
        contents: Contents)
    requires k < SYNC_MAX_PULL_PAGES
    requires forall j: nat, mark :: j < SYNC_MAX_PULL_PAGES ==> ServesPage(answers, rows, contents, j, mark)
    requires forall id :: contents(id).id == id
    requires forall i: nat, j: nat, mark, m: nat :: i <= j < SYNC_MAX_PULL_PAGES ==> Resumes(rows, i, j, mark, m)
    ensures var s := Streamed(since, k, answers);
      && k <= s.1 < SYNC_MAX_PULL_PAGES
      && AreRows(s.0, Take(rows(s.1, since), SYNC_PULL_LIMIT * (SYNC_MAX_PULL_PAGES - k)), contents)
    decreases SYNC_MAX_PULL_PAGES - k
  {
    assert ServesPage(answers, rows, contents, k, since);
    var (page, more) := PageAt(answers, k, since);
    if more && k + 1 < SYNC_MAX_PULL_PAGES {
      var next := Some(page[|page| - 1].id);
      StreamIsPrefix(next, k + 1, answers, rows, contents);
      var rest := Streamed(next, k + 1, answers);
      assert Resumes(rows, k, rest.1, since, SYNC_PULL_LIMIT - 1);
      PageThenRest(rows(k, since), rows(rest.1, since), page, rest.0, contents,
        SYNC_PULL_LIMIT, SYNC_PULL_LIMIT * (SYNC_MAX_PULL_PAGES - (k + 1)));
    }
  }

  /**
   * Over rows that do not change, the loop makes one pull for every full page and one for the rest, even when the rest
   * is empty because the rows fill their last page exactly; 64 pulls at most.
   */
  lemma {:induction false} PullsNeeded(since: Option<MessageId>, k: nat, answers: PullAnswers, rows: Reading,
        contents: Contents)
    requires k < SYNC_MAX_PULL_PAGES
    requires forall j: nat, mark :: j < SYNC_MAX_PULL_PAGES ==> ServesPage(answers, rows, contents, j, mark)
    requires forall id :: contents(id).id == id
    requires forall i: nat, j: nat, mark, m: nat :: i <= j < SYNC_MAX_PULL_PAGES ==> Resumes(rows, i, j, mark, m)
    requires forall i: nat, j: nat, mark :: rows(i, mark) == rows(j, mark)
    ensures var full := k + |rows(k, since)| / SYNC_PULL_LIMIT;
      Streamed(since, k, answers).1 == if full < SYNC_MAX_PULL_PAGES then full else SYNC_MAX_PULL_PAGES - 1
    decreases SYNC_MAX_PULL_PAGES - k
  {
    assert ServesPage(answers, rows, contents, k, since);
    var (page, more) := PageAt(answers, k, since);
    if more && k + 1 < SYNC_MAX_PULL_PAGES {
      var next := Some(page[|page| - 1].id);
      assert Resumes(rows, k, k + 1, since, SYNC_PULL_LIMIT - 1);
      assert |rows(k + 1, next)| == |rows(k, since)| - SYNC_PULL_LIMIT;
      PullsNeeded(next, k + 1, answers, rows, contents);
    }
  }

  // ---------------------------------------------------------------- a responder that serves its own table

  /**
   * `logs(k)` is the responder's table at the `k`-th pull: its own rows only ever grow, by larger ids, and keep
   * their contents.
   */
  ghost predicate Appending(logs: nat -> Messages, conv: ConversationId, responder: PeerId) {
    forall j: nat, k: nat :: j <= k ==> Extends(logs(j), logs(k), conv, responder)
  }

  ghost predicate Extends(t: Messages, t': Messages, conv: ConversationId, responder: PeerId) {
    var older, newer := Outbound(t, conv, responder), Outbound(t', conv, responder);
    && older <= newer
    && (forall x, y :: x in older && y in newer - older ==> x < y)
    && (forall id :: id in older ==> EnvelopeOf(t, id) == EnvelopeOf(t', id))
  }

  /** Every Pull is answered from the responder's table at that moment. */
  ghost predicate Honest(answers: PullAnswers, logs: nat -> Messages, conv: ConversationId, responder: PeerId) {
    forall k: nat, since :: answers(k, since) == Some(PageOf(logs(k), conv, responder, since, SYNC_PULL_LIMIT))
  }

  /** The responder's own rows above a mark, in order. */
  function Backlog(t: Messages, conv: ConversationId, responder: PeerId, since: Option<MessageId>): seq<MessageId> {
    Sorted(Above(Outbound(t, conv, responder), since))
  }

  function RowContents(t: Messages): Contents {
    (id: MessageId) => if id in t then EnvelopeOf(t, id) else Envelope(id, 0, Garbage(0))
  }

  lemma BacklogRows(t: Messages, conv: ConversationId, responder: PeerId, since: Option<MessageId>, i: nat)
    requires i < |Backlog(t, conv, responder, since)|
    ensures Backlog(t, conv, responder, since)[i] in Outbound(t, conv, responder)
  {
    assert Backlog(t, conv, responder, since)[i] in Backlog(t, conv, responder, since);
  }

  lemma GrownResumes(s: set<MessageId>, s': set<MessageId>, since: Option<MessageId>, m: nat)
    requires s <= s' && (forall x, y :: x in s && y in s' - s ==> x < y) && m < |Above(s, since)|
    ensures var here, there := Sorted(Above(s, since)), Sorted(Above(s', since));
      here <= there && Sorted(Above(s', Some(here[m]))) == there[m + 1..]
  {
    GrownOrder(s, s', since);
    AboveLast(s', since, m + 1);
  }

  lemma BacklogResumes(t: Messages, t': Messages, conv: ConversationId, responder: PeerId, since: Option<MessageId>,
        m: nat)
    requires Extends(t, t', conv, responder) && m < |Backlog(t, conv, responder, since)|
    ensures var here, there := Backlog(t, conv, responder, since), Backlog(t', conv, responder, since);
      here <= there && Backlog(t', conv, responder, Some(here[m])) == there[m + 1..]
  {
    GrownResumes(Outbound(t, conv, responder), Outbound(t', conv, responder), since, m);
  }

  lemma HonestPage(answers: PullAnswers, t: Messages, final: Messages, conv: ConversationId, responder: PeerId, k: nat,
        since: Option<MessageId>)
    requires answers(k, since) == Some(PageOf(t, conv, responder, since, SYNC_PULL_LIMIT))
    requires Extends(t, final, conv, responder)
    ensures var here := Backlog(t, conv, responder, since);
      && AreRows(PageAt(answers, k, since).0, Take(here, SYNC_PULL_LIMIT), RowContents(final))
      && PageAt(answers, k, since).1 == (|here| >= SYNC_PULL_LIMIT)
  {
    var here := Backlog(t, conv, responder, since);
    var page := PageAt(answers, k, since).0;
    forall i | 0 <= i < |Take(here, SYNC_PULL_LIMIT)|
      ensures page[i] == RowContents(final)(Take(here, SYNC_PULL_LIMIT)[i])
    {
      BacklogRows(t, conv, responder, since, i);
    }
  }

  /** What each pull finds in the responder's table of that moment. */
  function RowsOf(logs: nat -> Messages, conv: ConversationId, responder: PeerId): Reading {
    (k: nat, mark: Option<MessageId>) => Backlog(logs(k), conv, responder, mark)
  }

  lemma PageServed(answers: PullAnswers, logs: nat -> Messages, conv: ConversationId, responder: PeerId, k: nat,
        mark: Option<MessageId>)
    requires Appending(logs, conv, responder) && Honest(answers, logs, conv, responder) && k < SYNC_MAX_PULL_PAGES
    ensures ServesPage(answers, RowsOf(logs, conv, responder), RowContents(logs(SYNC_MAX_PULL_PAGES)), k, mark)
  {
    assert Extends(logs(k), logs(SYNC_MAX_PULL_PAGES), conv, responder);
    HonestPage(answers, logs(k), logs(SYNC_MAX_PULL_PAGES), conv, responder, k, mark);
  }

  lemma ReadingResumes(logs: nat -> Messages, conv: ConversationId, responder: PeerId, j: nat, k: nat,
        mark: Option<MessageId>, m: nat)
    requires Appending(logs, conv, responder) && j <= k
    ensures Resumes(RowsOf(logs, conv, responder), j, k, mark, m)
  {
    if m < |Backlog(logs(j), conv, responder, mark)| {
      assert Extends(logs(j), logs(k), conv, responder);
      BacklogResumes(logs(j), logs(k), conv, responder, mark, m);
    }
  }

  /**
   * The pages a Pull loop receives from any mark add up to exactly the first 3200 of the responder's own rows above
   * it, as the responder's table stands at the last pull: ascending, each once, with their contents, and no others.
   */
  lemma PagesAddUp(since: Option<MessageId>, answers: PullAnswers, logs: nat -> Messages, conv: ConversationId,
        responder: PeerId)
    requires Appending(logs, conv, responder) && Honest(answers, logs, conv, responder)
    ensures var s := Streamed(since, 0, answers);
      && s.1 < SYNC_MAX_PULL_PAGES
      && AreRows(s.0, Take(Backlog(logs(s.1), conv, responder, since), MAX_PULLED),
         RowContents(logs(SYNC_MAX_PULL_PAGES)))
  {
    var rows, contents := RowsOf(logs, conv, responder), RowContents(logs(SYNC_MAX_PULL_PAGES));
    forall j: nat, mark | j < SYNC_MAX_PULL_PAGES ensures ServesPage(answers, rows, contents, j, mark) {
      PageServed(answers, logs, conv, responder, j, mark);
    }
    forall i: nat, j: nat, mark, m: nat | i <= j < SYNC_MAX_PULL_PAGES ensures Resumes(rows, i, j, mark, m) {
      ReadingResumes(logs, conv, responder, i, j, mark, m);
    }
    StreamIsPrefix(since, 0, answers, rows, contents);
  }

  /** Against an unchanging table of n rows above the mark, the loop makes exactly min(64, n / 50 + 1) pulls. */
  lemma PullsOverTable(since: Option<MessageId>, answers: PullAnswers, t: Messages, conv: ConversationId,
        responder: PeerId)
    requires Honest(answers, (k: nat) => t, conv, responder)
    ensures var full := |Backlog(t, conv, responder, since)| / 50;
      Streamed(since, 0, answers).1 + 1 == if full < 64 then full + 1 else 64
  {
    var logs := (k: nat) => t;
    var rows, contents := RowsOf(logs, conv, responder), RowContents(t);
    forall j: nat, mark | j < SYNC_MAX_PULL_PAGES ensures ServesPage(answers, rows, contents, j, mark) {
      PageServed(answers, logs, conv, responder, j, mark);
    }
    forall i: nat, j: nat, mark, m: nat | i <= j < SYNC_MAX_PULL_PAGES ensures Resumes(rows, i, j, mark, m) {
      ReadingResumes(logs, conv, responder, i, j, mark, m);
    }
    PullsNeeded(since, 0, answers, rows, contents);
  }
}
