/**
 * The swarm, the event queue, the event loop and the presence ticker side by side. Sockets open and close at any
 * time, each announced on a first-in-first-out queue; the ticker snapshots a peer's connections, asks the swarm
 * whether any is live, and removes the snapshot when none is.
 */
module Liveness {
  import opened Types
  import opened Presence

  type Key = (PeerId, ConnId)

  datatype Ticker = Idle | Snapped(peer: PeerId, ids: set<ConnId>) | FoundDead(peer: PeerId, ids: set<ConnId>)

  datatype System = System(
    view: View,
    live: set<Key>,      // sockets the swarm holds
    issued: set<Key>,    // every connection id ever handed out
    queue: seq<Event>,
    ticker: Ticker)

  const START := System(EMPTY, {}, {}, [], Idle)

  datatype Action =
    | Open(peer: PeerId, id: ConnId, kind: EndpointKind, facts: Facts, upgradeFirst: bool)
    | Upgrade(peer: PeerId, id: ConnId)
    | Close(peer: PeerId, id: ConnId)
    | Handle                 // the event loop handles the head of the queue
    | Snapshot(peer: PeerId)
    | CheckLive
    | Remove
    | Resync(peer: PeerId)   // a settings change refreshes a contact

  function KeyOf(e: Event): Key { (e.peer, e.id) }

  function ConnIds(connections: Conns, peer: PeerId): set<ConnId> {
    if peer in connections then connections[peer].Keys else {}
  }

  ghost predicate Act(s: System, a: Action, s': System) {
    match a
    case Open(peer, id, kind, facts, upgradeFirst) =>
      // Connection ids are never reused. A hole-punched connection may announce its upgrade before itself.
      && (peer, id) !in s.issued
      && var announced := (if upgradeFirst then [Upgraded(peer, id)] else []) + [Established(peer, id, kind, facts)];
      s' == s.(live := s.live + {(peer, id)}, issued := s.issued + {(peer, id)}, queue := s.queue + announced)
    case Upgrade(peer, id) =>
      && (peer, id) in s.live
      && s' == s.(queue := s.queue + [Upgraded(peer, id)])
    case Close(peer, id) =>
      && (peer, id) in s.live
      && s' == s.(live := s.live - {(peer, id)}, queue := s.queue + [Closed(peer, id)])
    case Handle =>
      && s.queue != []
      && Next(s.view, Net(s.queue[0]), s'.view)
      && s' == s.(view := s'.view, queue := s.queue[1..])
    case Snapshot(peer) =>
      && s.ticker.Idle?
      && s' == s.(ticker := Snapped(peer, ConnIds(s.view.connections, peer)))
    case CheckLive =>
      && s.ticker.Snapped?
      && s' == s.(ticker :=
           if forall k :: k in s.live ==> k.0 != s.ticker.peer then FoundDead(s.ticker.peer, s.ticker.ids) else Idle)
    case Remove =>
      && s.ticker.FoundDead?
      && Next(s.view, Demote(s.ticker.peer, s.ticker.ids), s'.view)
      && s' == s.(view := s'.view, ticker := Idle)
    case Resync(peer) =>
      && Next(s.view, Refresh(peer), s'.view)
      && s' == s.(view := s'.view)
  }

  ghost predicate IsRun(states: seq<System>, actions: seq<Action>) {
    && |states| == |actions| + 1
    && states[0] == START
    && forall i :: 0 <= i < |actions| ==> Act(states[i], actions[i], states[i + 1])
  }

  // ---------------------------------------------------------------- which connections are mapped

  ghost predicate Mapped(connections: Conns, k: Key) {
    k.0 in connections && k.1 in connections[k.0]
  }

  lemma MappedAfter(connections: Conns, step: Step, k: Key)
    ensures step.Net? && step.event.Closed? ==>
      (Mapped(AfterStep(connections, step), k) <==> Mapped(connections, k) && k != KeyOf(step.event))
    ensures step.Net? && !step.event.Closed? ==>
      (Mapped(AfterStep(connections, step), k) <==> Mapped(connections, k) || k == KeyOf(step.event))
    ensures step.Demote? ==>
      (Mapped(AfterStep(connections, step), k) <==> Mapped(connections, k) && !(k.0 == step.peer && k.1 in step.ids))
    ensures step.Wipe? ==> (Mapped(AfterStep(connections, step), k) <==> Mapped(connections, k) && k.0 != step.peer)
    ensures step.Refresh? ==> AfterStep(connections, step) == connections
  {
    if step.Demote? {
      assert step.peer in connections && connections[step.peer] - step.ids == map[] ==>
        forall id :: id in connections[step.peer] ==> id in step.ids || id in connections[step.peer] - step.ids;
    } else if step.Net? && step.event.Closed? {
      var p, id := step.event.peer, step.event.id;
      assert p in connections && connections[p] - {id} == map[] ==>
        forall j :: j in connections[p] ==> j == id || j in connections[p] - {id};
    }
  }

  /**
   * What each action does to the map and the sockets: an event is handled in the order it was announced, the ticker
   * removes exactly what it saw before it found no socket alive, and nothing else maps or unmaps a connection.
   */
  lemma ActMaps(s: System, a: Action, s': System, k: Key)
    requires Act(s, a, s')
    ensures Mapped(s'.view.connections, k) <==>
      if a.Handle? && KeyOf(s.queue[0]) == k then !s.queue[0].Closed?
      else Mapped(s.view.connections, k) && !(a.Remove? && k.0 == s.ticker.peer && k.1 in s.ticker.ids)
    ensures k in s'.live <==> (a.Open? && (a.peer, a.id) == k) || (k in s.live && a != Close(k.0, k.1))
    ensures s'.ticker.FoundDead? && !s.ticker.FoundDead? ==>
      a.CheckLive? && s.ticker == Snapped(s'.ticker.peer, s'.ticker.ids) && (k.0 == s'.ticker.peer ==> k !in s.live)
  {
    match a
    case Handle => MappedAfter(s.view.connections, Net(s.queue[0]), k);
    case Remove => MappedAfter(s.view.connections, Demote(s.ticker.peer, s.ticker.ids), k);
    case _ =>
  }

  // ---------------------------------------------------------------- the invariant

  ghost predicate Announces(e: Event, k: Key) {
    !e.Closed? && KeyOf(e) == k
  }

  ghost predicate AnnouncedAt(s: System, i: int, k: Key) {
    0 <= i < |s.queue| && Announces(s.queue[i], k)
  }

  ghost predicate ClosedAt(s: System, i: int, k: Key) {
    0 <= i < |s.queue| && s.queue[i] == Closed(k.0, k.1)
  }

  /** What the queue, the sockets and the ticker say about one connection, tracked or not. */
  ghost predicate Booked(s: System, k: Key) {
    && (k in s.live ==> k in s.issued)
    && (Mapped(s.view.connections, k) ==> k in s.issued)
    && (forall i :: AnnouncedAt(s, i, k) || ClosedAt(s, i, k) ==> k in s.issued)
    && (Mapped(s.view.connections, k) && k !in s.live ==> exists i :: ClosedAt(s, i, k))
    && (k !in s.live ==> forall i :: AnnouncedAt(s, i, k) ==> exists j :: i < j && ClosedAt(s, j, k))
    && (forall j :: ClosedAt(s, j, k) ==> k !in s.live && forall i :: AnnouncedAt(s, i, k) ==> i < j)
    && (!s.ticker.Idle? && k.0 == s.ticker.peer && k.1 in s.ticker.ids ==>
        k in s.issued && (s.ticker.FoundDead? ==> k !in s.live))
  }

  ghost predicate Announced(s: System, k: Key) {
    exists i :: AnnouncedAt(s, i, k)
  }

  /** A live connection the map does not have and no queued event will add. */
  ghost predicate Stranded(s: System, k: Key) {
    k in s.live && !Mapped(s.view.connections, k) && !Announced(s, k)
  }

  ghost predicate Accounted(s: System, k: Key) {
    Booked(s, k) && !Stranded(s, k)
  }

  lemma QueueGrows(s: System, s': System, more: seq<Event>, k: Key)
    requires s'.queue == s.queue + more
    ensures forall i :: AnnouncedAt(s, i, k) ==> AnnouncedAt(s', i, k)
    ensures forall i :: ClosedAt(s, i, k) ==> ClosedAt(s', i, k)
    ensures forall i :: AnnouncedAt(s', i, k) <==>
      AnnouncedAt(s, i, k) || (|s.queue| <= i < |s'.queue| && Announces(more[i - |s.queue|], k))
    ensures forall i :: ClosedAt(s', i, k) <==>
      ClosedAt(s, i, k) || (|s.queue| <= i < |s'.queue| && more[i - |s.queue|] == Closed(k.0, k.1))
  {
  }

  lemma QueueShifts(s: System, s': System, k: Key)
    requires s.queue != [] && s'.queue == s.queue[1..]
    ensures forall i :: AnnouncedAt(s', i, k) <==> i >= 0 && AnnouncedAt(s, i + 1, k)
    ensures forall i :: ClosedAt(s', i, k) <==> i >= 0 && ClosedAt(s, i + 1, k)
    ensures forall i :: AnnouncedAt(s, i, k) ==> i == 0 || AnnouncedAt(s', i - 1, k)
    ensures forall i :: ClosedAt(s, i, k) ==> i == 0 || ClosedAt(s', i - 1, k)
  {
  }

  lemma SameQueue(s: System, s': System, k: Key)
    requires s.queue == s'.queue
    ensures forall i :: AnnouncedAt(s, i, k) <==> AnnouncedAt(s', i, k)
    ensures forall i :: ClosedAt(s, i, k) <==> ClosedAt(s', i, k)
  {
  }

  /** An action keeps the books of a connection; it strands none, and finds a stranded one only by upgrade or close. */
  lemma ActKeepsBooks(s: System, a: Action, s': System, k: Key)
    requires Act(s, a, s') && Booked(s, k)
    ensures Booked(s', k)
    ensures Stranded(s', k) <==> Stranded(s, k) && a != Upgrade(k.0, k.1) && a != Close(k.0, k.1)
  {
    match a
    case Open(peer, id, kind, facts, upgradeFirst) => OpenKeepsBooks(s, a, s', k);
    case Upgrade(peer, id) =>
      QueueGrows(s, s', [Upgraded(peer, id)], k);
      if k == (peer, id) {
        assert AnnouncedAt(s', |s.queue|, k);
      }
    case Close(peer, id) =>
      QueueGrows(s, s', [Closed(peer, id)], k);
      if k == (peer, id) {
        assert ClosedAt(s', |s.queue|, k);
      }
    case Handle => HandleKeepsBooks(s, s', k);
    case Snapshot(peer) => SameQueue(s, s', k);
    case CheckLive => SameQueue(s, s', k);
    case Remove =>
      MappedAfter(s.view.connections, Demote(s.ticker.peer, s.ticker.ids), k);
      SameQueue(s, s', k);
    case Resync(peer) =>
      MappedAfter(s.view.connections, Refresh(peer), k);
      SameQueue(s, s', k);
  }

  lemma OpenKeepsBooks(s: System, a: Action, s': System, k: Key)
    requires a.Open? && Act(s, a, s') && Booked(s, k)
    ensures Booked(s', k) && (Stranded(s', k) <==> Stranded(s, k))
  {
    var announced :=
      (if a.upgradeFirst then [Upgraded(a.peer, a.id)] else []) + [Established(a.peer, a.id, a.kind, a.facts)];
    QueueGrows(s, s', announced, k);
    if k == (a.peer, a.id) {
      assert AnnouncedAt(s', |s.queue|, k);
    }
  }

  lemma HandleKeepsBooks(s: System, s': System, k: Key)
    requires Act(s, Handle, s') && Booked(s, k)
    ensures Booked(s', k) && (Stranded(s', k) <==> Stranded(s, k))
  {
    MappedAfter(s.view.connections, Net(s.queue[0]), k);
    QueueShifts(s, s', k);
    if s.queue[0] == Closed(k.0, k.1) {
      assert ClosedAt(s, 0, k);
    } else if KeyOf(s.queue[0]) == k {
      assert AnnouncedAt(s, 0, k);
    }
  }

  lemma {:induction false} AlwaysAccounted(states: seq<System>, actions: seq<Action>, k: Key)
    requires IsRun(states, actions)
    ensures Accounted(states[|actions|], k)
    decreases |actions|
  {
    if actions != [] {
      var n := |actions| - 1;
      assert Act(states[n], actions[n], states[n + 1]);
      AlwaysAccounted(states[..n + 1], actions[..n], k);
      ActKeepsBooks(states[n], actions[n], states[n + 1], k);
    }
  }

  /**
   * In every run a live connection is mapped or about to be, and a mapped one is live or about to be removed;
   * so once the queue has drained, the map holds exactly the live connections, whatever the ticker is doing.
   */
  lemma NoPeerStranded(states: seq<System>, actions: seq<Action>, k: Key)
    requires IsRun(states, actions)
    ensures var s := states[|actions|];
      && (k in s.live ==> Mapped(s.view.connections, k) || exists i :: AnnouncedAt(s, i, k))
      && (Mapped(s.view.connections, k) ==> k in s.live || exists i :: ClosedAt(s, i, k))
      && (s.queue == [] ==> (Mapped(s.view.connections, k) <==> k in s.live))
  {
    AlwaysAccounted(states, actions, k);
  }

  // ---------------------------------------------------------------- runs in which conversations are deleted

  /** What any of them does, or the deletion of the conversation with a peer. */
  datatype Move = Do(action: Action) | Forget(peer: PeerId)

  ghost predicate Moved(s: System, m: Move, s': System) {
    match m
    case Do(a) => Act(s, a, s')
    case Forget(p) => Next(s.view, Wipe(p), s'.view) && s' == s.(view := s'.view)
  }

  ghost predicate MovedAt(states: seq<System>, moves: seq<Move>, i: int)
    requires |states| == |moves| + 1 && 0 <= i < |moves|
  {
    Moved(states[i], moves[i], states[i + 1])
  }

  ghost predicate IsLongRun(states: seq<System>, moves: seq<Move>) {
    && |states| == |moves| + 1
    && states[0] == START
    && forall i :: 0 <= i < |moves| ==> MovedAt(states, moves, i)
  }

  /** A deletion of the peer of a live connection that has no announcement queued. */
  ghost predicate Strands(s: System, m: Move, k: Key) {
    m == Forget(k.0) && k in s.live && !Announced(s, k)
  }

  /** The connection announces itself again, or is gone. */
  predicate Recovers(m: Move, k: Key) {
    m == Do(Upgrade(k.0, k.1)) || m == Do(Close(k.0, k.1))
  }

  /** A connection is stranded by a deletion that finds it live and unannounced, and until it is upgraded or closed. */
  lemma StrandedAfter(s: System, m: Move, s': System, k: Key)
    requires Moved(s, m, s') && Booked(s, k)
    ensures Booked(s', k)
    ensures Stranded(s', k) <==> Strands(s, m, k) || (Stranded(s, k) && !Recovers(m, k))
  {
    match m
    case Do(a) => ActKeepsBooks(s, a, s', k);
    case Forget(p) =>
      MappedAfter(s.view.connections, Wipe(p), k);
      SameQueue(s, s', k);
  }

  lemma {:induction false} AlwaysBooked(states: seq<System>, moves: seq<Move>, i: nat, k: Key)
    requires IsLongRun(states, moves) && i < |states|
    ensures Booked(states[i], k)
  {
    if i > 0 {
      AlwaysBooked(states, moves, i - 1, k);
      assert MovedAt(states, moves, i - 1);
      StrandedAfter(states[i - 1], moves[i - 1], states[i], k);
    }
  }

  /** Move `j` stranded the connection, and none before the `i`-th state recovered it. */
  ghost predicate StrandedSince(states: seq<System>, moves: seq<Move>, j: int, i: int, k: Key)
    requires |states| == |moves| + 1 && 0 <= j < i < |states|
  {
    Strands(states[j], moves[j], k) && forall m :: j < m < i ==> !Recovers(moves[m], k)
  }

  /**
   * In every run with deletions, at every moment, a connection is live without being mapped or announced exactly if
   * some deletion of its peer found it live with no announcement queued, and it was not upgraded or closed since.
   */
  lemma {:induction false} StrandedIff(states: seq<System>, moves: seq<Move>, i: nat, k: Key)
    requires IsLongRun(states, moves) && i < |states|
    ensures Stranded(states[i], k) <==> exists j :: 0 <= j < i && StrandedSince(states, moves, j, i, k)
  {
    if i > 0 {
      var last := i - 1;
      StrandedIff(states, moves, last, k);
      AlwaysBooked(states, moves, last, k);
      assert MovedAt(states, moves, last);
      StrandedAfter(states[last], moves[last], states[i], k);
      assert Strands(states[last], moves[last], k) <==> StrandedSince(states, moves, last, i, k);
      forall j | 0 <= j < last
        ensures StrandedSince(states, moves, j, i, k) <==>
          StrandedSince(states, moves, j, last, k) && !Recovers(moves[last], k)
      {
      }
      if Stranded(states[last], k) && !Recovers(moves[last], k) {
        var j :| 0 <= j < last && StrandedSince(states, moves, j, last, k);
        assert StrandedSince(states, moves, j, i, k);
      }
    }
  }

  /** Every deletion finds each live connection of its peer with an announcement queued. */
  ghost predicate ForgetsOnlyAnnounced(states: seq<System>, moves: seq<Move>)
    requires |states| == |moves| + 1
  {
    forall i, k :: 0 <= i < |moves| ==> !Strands(states[i], moves[i], k)
  }

  /** A run never leaves a live connection untracked exactly if every deletion in it is such. */
  lemma NeverStrandedIff(states: seq<System>, moves: seq<Move>)
    requires IsLongRun(states, moves)
    ensures (forall i, k :: 0 <= i < |states| ==> !Stranded(states[i], k)) <==> ForgetsOnlyAnnounced(states, moves)
  {
    if ForgetsOnlyAnnounced(states, moves) {
      forall i, k | 0 <= i < |states| ensures !Stranded(states[i], k) {
        StrandedIff(states, moves, i, k);
      }
    } else {
      var i, k :| 0 <= i < |moves| && Strands(states[i], moves[i], k);
      assert StrandedSince(states, moves, i, i + 1, k);
      StrandedIff(states, moves, i + 1, k);
    }
  }
}
