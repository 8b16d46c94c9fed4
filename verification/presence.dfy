/** The connection map, the two caches derived from it, and the lineage ring. */
module Presence {
  import opened Types

  datatype ConnectionKind = Offline | Connecting | Lan | Internet | Direct | Relayed

  /** What an endpoint address can be classified as; `Direct` only ever comes from an upgrade. */
  type EndpointKind = k: ConnectionKind | k.Lan? || k.Internet? || k.Relayed? witness Lan

  datatype Transport = Tcp | Quic
  datatype IpVersion = V4 | V6
  datatype Origin = DirectDial | DcutrUpgrade | RelayOnly | PublicIpv6 | PublicIpv4 | Unknown

  /** What the endpoint address says about a connection. */
  datatype Facts = Facts(viaHost: Option<string>, transport: Option<Transport>, ipVersion: Option<IpVersion>)
  datatype ConnectionMeta = ConnectionMeta(facts: Facts, origin: Origin)

  const NO_FACTS := Facts(None, None, None)
  const NO_META := ConnectionMeta(NO_FACTS, Unknown)

  type ConnId = nat
  datatype ConnEntry = ConnEntry(kind: ConnectionKind, meta: ConnectionMeta)
  type Conns = map<PeerId, map<ConnId, ConnEntry>>

  function Precedence(k: ConnectionKind): nat {
    match k
    case Direct => 5
    case Lan => 4
    case Internet => 3
    case Relayed => 2
    case Connecting => 1
    case Offline => 0
  }

  function ClassifyOrigin(kind: ConnectionKind, ip: Option<IpVersion>): Origin {
    match kind
    case Relayed => RelayOnly
    case Internet => (match ip case Some(V6) => PublicIpv6 case Some(V4) => PublicIpv4 case None => DirectDial)
    case Lan => DirectDial
    case Direct => DirectDial
    case Connecting => Unknown
    case Offline => Unknown
  }

  /** One recorded change of a peer's presence. */
  datatype Transition = Transition(peer: PeerId, from: Option<ConnectionKind>, to: ConnectionKind,
        transport: Option<Transport>, ipVersion: Option<IpVersion>, origin: Origin)

  datatype View = View(connections: Conns, presence: map<PeerId, ConnectionKind>, metas: map<PeerId, ConnectionMeta>,
        ring: seq<Transition>)

  const EMPTY := View(map[], map[], map[], [])

  // ---------------------------------------------------------------- best connection and caches

  predicate IsTop(conns: map<ConnId, ConnEntry>, id: ConnId) {
    id in conns && forall j :: j in conns ==> Precedence(conns[j].kind) <= Precedence(conns[id].kind)
  }

  /**
   * `pick` is a best connection of `peer`, or `None` when there is none. Equally ranked connections are told
   * apart by the hash map's iteration order only, so any of them may be picked.
   */
  ghost predicate ValidPick(connections: Conns, peer: PeerId, pick: Option<ConnId>) {
    match pick
    case Some(id) => peer in connections && IsTop(connections[peer], id)
    case None => peer in connections ==> connections[peer] == map[]
  }

  function Picked(connections: Conns, peer: PeerId, pick: Option<ConnId>): ConnEntry
    requires pick.Some? ==> peer in connections && pick.value in connections[peer]
  {
    if pick.Some? then connections[peer][pick.value] else ConnEntry(Offline, NO_META)
  }

  /** The caches recomputed for one peer; offline is absence. */
  function Refreshed(v: View, peer: PeerId, best: ConnEntry): View {
    if best.kind.Offline? then v.(presence := v.presence - {peer}, metas := v.metas - {peer})
    else v.(presence := v.presence[peer := best.kind], metas := v.metas[peer := best.meta])
  }

  // ---------------------------------------------------------------- lineage ring

  const TRANSITION_RING: nat := 48

  ghost predicate IsLastOf(ring: seq<Transition>, peer: PeerId, i: int) {
    0 <= i < |ring| && ring[i].peer == peer && forall k :: i < k < |ring| ==> ring[k].peer != peer
  }

  function LastOf(ring: seq<Transition>, peer: PeerId): (last: Option<Transition>)
    ensures last.None? ==> forall i :: 0 <= i < |ring| ==> ring[i].peer != peer
    ensures last.Some? ==> exists i :: IsLastOf(ring, peer, i) && ring[i] == last.value
  {
    if ring == [] then None
    else if ring[|ring| - 1].peer == peer then
      assert IsLastOf(ring, peer, |ring| - 1);
      Some(ring[|ring| - 1])
    else
      assert forall i :: IsLastOf(ring[..|ring| - 1], peer, i) ==> IsLastOf(ring, peer, i);
      LastOf(ring[..|ring| - 1], peer)
  }

  function LastN(ring: seq<Transition>, n: nat): seq<Transition> {
    if |ring| <= n then ring else ring[|ring| - n..]
  }

  function Recorded(ring: seq<Transition>, peer: PeerId, best: ConnEntry): seq<Transition> {
    var last := LastOf(ring, peer);
    var transport, origin := best.meta.facts.transport, best.meta.origin;
    if last.Some? && last.value.to == best.kind && last.value.transport == transport && last.value.origin == origin then
      ring
    else
      var from := if last.Some? then Some(last.value.to) else None;
      LastN(ring + [Transition(peer, from, best.kind, transport, best.meta.facts.ipVersion, origin)], TRANSITION_RING)
  }

  // ---------------------------------------------------------------- changes of the connection map

  function ConnsOf(connections: Conns, peer: PeerId): map<ConnId, ConnEntry> {
    if peer in connections then connections[peer] else map[]
  }

  function PutEstablished(connections: Conns, peer: PeerId, id: ConnId, kind: EndpointKind, facts: Facts): Conns {
    var byId := ConnsOf(connections, peer);
    var origin :=
      if id in byId && byId[id].meta.origin.DcutrUpgrade? then DcutrUpgrade else ClassifyOrigin(kind, facts.ipVersion);
    connections[peer := byId[id := ConnEntry(kind, ConnectionMeta(facts, origin))]]
  }

  function PutUpgraded(connections: Conns, peer: PeerId, id: ConnId): Conns {
    var byId := ConnsOf(connections, peer);
    var facts := if id in byId then byId[id].meta.facts else NO_FACTS;
    connections[peer := byId[id := ConnEntry(Direct, ConnectionMeta(facts, DcutrUpgrade))]]
  }

  /** Removes some of a peer's connections, and the peer with its last one. */
  function Drop(connections: Conns, peer: PeerId, ids: set<ConnId>): Conns {
    if peer !in connections then connections
    else if connections[peer] - ids == map[] then connections - {peer}
    else connections[peer := connections[peer] - ids]
  }

  // ---------------------------------------------------------------- steps

  datatype Event =
    | Established(peer: PeerId, id: ConnId, kind: EndpointKind, facts: Facts)
    | Upgraded(peer: PeerId, id: ConnId)
    | Closed(peer: PeerId, id: ConnId)

  datatype Step =
    | Net(event: Event)                           // a network event
    | Demote(peer: PeerId, ids: set<ConnId>)      // the ticker removes the connections it had seen
    | Wipe(peer: PeerId)                          // the conversation is deleted
    | Refresh(peer: PeerId)                       // settings changed

  function AfterEvent(connections: Conns, event: Event): Conns {
    match event
    case Established(peer, id, kind, facts) => PutEstablished(connections, peer, id, kind, facts)
    case Upgraded(peer, id) => PutUpgraded(connections, peer, id)
    case Closed(peer, id) => Drop(connections, peer, {id})
  }

  function AfterStep(connections: Conns, step: Step): Conns {
    match step
    case Net(event) => AfterEvent(connections, event)
    case Demote(peer, ids) => Drop(connections, peer, ids)
    case Wipe(peer) => connections - {peer}
    case Refresh(peer) => connections
  }

  function PeerOf(step: Step): PeerId {
    match step
    case Net(event) => event.peer
    case Demote(peer, _) => peer
    case Wipe(peer) => peer
    case Refresh(peer) => peer
  }

  /** The state after `step`, given which of the best connections the iteration order favours. */
  function Apply(v: View, step: Step, pick: Option<ConnId>): View
    requires ValidPick(AfterStep(v.connections, step), PeerOf(step), pick)
  {
    var peer := PeerOf(step);
    var moved := v.(connections := AfterStep(v.connections, step));
    if step.Wipe? then moved.(presence := v.presence - {peer}, metas := v.metas - {peer})
    else
      var best := Picked(moved.connections, peer, pick);
      var refreshed := Refreshed(moved, peer, best);
      if step.Net? then refreshed.(ring := Recorded(v.ring, peer, best)) else refreshed
  }

  ghost predicate Next(v: View, step: Step, v': View) {
    exists pick: Option<ConnId> ::
      ValidPick(AfterStep(v.connections, step), PeerOf(step), pick) && v' == Apply(v, step, pick)
  }

  lemma NextBy(v: View, step: Step, v': View, pick: Option<ConnId>)
    requires ValidPick(AfterStep(v.connections, step), PeerOf(step), pick) && v' == Apply(v, step, pick)
    ensures Next(v, step, v')
  {
  }

  /** `states` is a run from the empty state taking the steps `steps`. */
  ghost predicate IsRun(states: seq<View>, steps: seq<Step>) {
    && |states| == |steps| + 1
    && states[0] == EMPTY
    && forall i :: 0 <= i < |steps| ==> Next(states[i], steps[i], states[i + 1])
  }

  lemma RunPrefix(states: seq<View>, steps: seq<Step>)
    requires IsRun(states, steps) && steps != []
    ensures IsRun(states[..|steps|], steps[..|steps| - 1])
    ensures Next(states[|steps| - 1], steps[|steps| - 1], states[|steps|])
  {
    assert Next(states[|steps| - 1], steps[|steps| - 1], states[|steps|]);
  }

  // ---------------------------------------------------------------- the caches agree with the map

  /** The map's entries for `p` are sound, and both caches hold one of its best connections. */
  ghost predicate AgreesAt(v: View, p: PeerId) {
    && (p in v.presence <==> p in v.connections)
    && (p in v.metas <==> p in v.connections)
    && (p in v.connections ==>
          && NoneOffline(v.connections[p])
          && exists id :: IsTop(v.connections[p], id) && v.connections[p][id] == ConnEntry(v.presence[p], v.metas[p]))
  }

  ghost predicate NoneOffline(conns: map<ConnId, ConnEntry>) {
    forall id :: id in conns ==> !conns[id].kind.Offline?
  }

  ghost predicate Agrees(v: View) {
    forall p: PeerId :: AgreesAt(v, p)
  }

  lemma OthersUntouched(v: View, step: Step, pick: Option<ConnId>, p: PeerId)
    requires ValidPick(AfterStep(v.connections, step), PeerOf(step), pick)
    requires p != PeerOf(step) && AgreesAt(v, p)
    ensures AgreesAt(Apply(v, step, pick), p)
  {
    var v' := Apply(v, step, pick);
    assert p in v'.connections <==> p in v.connections;
    assert p in v.connections ==> v'.connections[p] == v.connections[p];
  }

  /** The entries of the step's own peer: never an empty map, and never offline. */
  lemma PeerEntries(connections: Conns, step: Step)
    requires var p := PeerOf(step); p in connections ==> connections[p] != map[] && NoneOffline(connections[p])
    ensures
      var p, after := PeerOf(step), AfterStep(connections, step);
      p in after ==> after[p] != map[] && NoneOffline(after[p])
  {
    if step.Net? {
      match step.event
      case Established(peer, id, kind, facts) => assert id in AfterStep(connections, step)[peer];
      case Upgraded(peer, id) => assert id in AfterStep(connections, step)[peer];
      case Closed(peer, id) =>
    }
  }

  lemma PeerRefreshed(v: View, step: Step, pick: Option<ConnId>)
    requires ValidPick(AfterStep(v.connections, step), PeerOf(step), pick)
    requires AgreesAt(v, PeerOf(step))
    ensures AgreesAt(Apply(v, step, pick), PeerOf(step))
  {
    var p := PeerOf(step);
    PeerEntries(v.connections, step);
    var after := AfterStep(v.connections, step);
    if p in after && !step.Wipe? {
      assert IsTop(after[p], pick.value);
    }
  }

  lemma AgreesNext(v: View, step: Step, v': View)
    requires Agrees(v) && Next(v, step, v')
    ensures Agrees(v')
  {
    var pick: Option<ConnId> :| ValidPick(AfterStep(v.connections, step), PeerOf(step), pick)
      && v' == Apply(v, step, pick);
    PeerRefreshed(v, step, pick);
    forall p: PeerId | p != PeerOf(step) ensures AgreesAt(v', p) {
      OthersUntouched(v, step, pick, p);
    }
  }

  /**
   * After every step of every run the caches hold exactly the connected peers, each at a best connection of its
   * own.
   */
  lemma {:induction false} CachesAgree(states: seq<View>, steps: seq<Step>)
    requires IsRun(states, steps)
    ensures Agrees(states[|steps|])
    decreases |steps|
  {
    if steps != [] {
      RunPrefix(states, steps);
      CachesAgree(states[..|steps|], steps[..|steps| - 1]);
      AgreesNext(states[|steps| - 1], steps[|steps| - 1], states[|steps|]);
    }
  }

  // ---------------------------------------------------------------- provenance

  /** What happened to a connection since it last entered the map. */
  datatype History = History(kind: ConnectionKind, facts: Facts, upgraded: bool, origin: Origin)

  /** What one step does to a connection's history. */
  function HistoryAfter(before: Option<History>, step: Step, p: PeerId, id: ConnId): Option<History> {
    match step
    case Net(Established(q, j, kind, facts)) =>
      if (q, j) != (p, id) then before
      else Some(History(kind, facts, before.Some? && before.value.upgraded, ClassifyOrigin(kind, facts.ipVersion)))
    case Net(Upgraded(q, j)) =>
      if (q, j) != (p, id) then before
      else if before.Some? then Some(before.value.(kind := Direct, upgraded := true))
      else Some(History(Direct, NO_FACTS, true, Unknown))
    case Net(Closed(q, j)) => if (q, j) == (p, id) then None else before
    case Demote(q, ids) => if q == p && id in ids then None else before
    case Wipe(q) => if q == p then None else before
    case Refresh(_) => before
  }

  /**
   * The history of connection `id` of `p`, read off the steps alone: the kind its latest event gave it, the facts
   * of its latest `Established`, whether it was ever upgraded, and the classification of that `Established`.
   */
  function HistoryOf(steps: seq<Step>, p: PeerId, id: ConnId): Option<History>
    decreases |steps|
  {
    if steps == [] then None else HistoryAfter(HistoryOf(steps[..|steps| - 1], p, id), steps[|steps| - 1], p, id)
  }

  /** The entry a history stands for: hole-punch provenance is never lost, the transport facts are the latest ones. */
  function EntryOf(h: History): ConnEntry {
    ConnEntry(h.kind, ConnectionMeta(h.facts, if h.upgraded then DcutrUpgrade else h.origin))
  }

  function Lookup(connections: Conns, p: PeerId, id: ConnId): Option<ConnEntry> {
    if p in connections && id in connections[p] then Some(connections[p][id]) else None
  }

  ghost predicate StandsFor(connections: Conns, p: PeerId, id: ConnId, h: Option<History>) {
    && Lookup(connections, p, id) == (if h.Some? then Some(EntryOf(h.value)) else None)
    && (h.Some? && !h.value.upgraded ==> !h.value.origin.DcutrUpgrade?)
  }

  lemma DropLookup(connections: Conns, peer: PeerId, ids: set<ConnId>, p: PeerId, id: ConnId)
    ensures Lookup(Drop(connections, peer, ids), p, id) ==
      if p == peer && id in ids then None else Lookup(connections, p, id)
  {
    if p == peer && p in connections && id in connections[p] && id !in ids {
      assert id in connections[p] - ids;
    }
  }

  lemma HistoryStep(connections: Conns, step: Step, p: PeerId, id: ConnId, h: Option<History>)
    requires StandsFor(connections, p, id, h)
    ensures StandsFor(AfterStep(connections, step), p, id, HistoryAfter(h, step, p, id))
  {
    match step
    case Net(Closed(q, j)) => DropLookup(connections, q, {j}, p, id);
    case Demote(q, ids) => DropLookup(connections, q, ids, p, id);
    case _ =>
  }

  lemma StepKeepsMap(v: View, step: Step, v': View)
    requires Next(v, step, v')
    ensures v'.connections == AfterStep(v.connections, step)
  {
  }

  /**
   * In every run the map holds exactly the connections the steps left open, each with the entry its history stands
   * for.
   */
  lemma {:induction false} MapIsItsHistory(states: seq<View>, steps: seq<Step>, p: PeerId, id: ConnId)
    requires IsRun(states, steps)
    ensures StandsFor(states[|steps|].connections, p, id, HistoryOf(steps, p, id))
    decreases |steps|
  {
    if steps != [] {
      RunPrefix(states, steps);
      MapIsItsHistory(states[..|steps|], steps[..|steps| - 1], p, id);
      var v, step := states[|steps| - 1], steps[|steps| - 1];
      StepKeepsMap(v, step, states[|steps|]);
      HistoryStep(v.connections, step, p, id, HistoryOf(steps[..|steps| - 1], p, id));
    }
  }

  // ---------------------------------------------------------------- what is shown of a peer

  /** The steps left connection `id` of `p` open, and its latest event gave it kind `kind`. */
  ghost predicate OpenAs(steps: seq<Step>, p: PeerId, id: ConnId, kind: ConnectionKind) {
    var h := HistoryOf(steps, p, id);
    h.Some? && h.value.kind == kind
  }

  ghost predicate SomeOpenAs(steps: seq<Step>, p: PeerId, kind: ConnectionKind) {
    exists id :: OpenAs(steps, p, id, kind)
  }

  /** How a connection came about: by a hole punch if it was ever upgraded, and otherwise as its address tells. */
  function OriginOf(h: History): Origin {
    if h.upgraded then DcutrUpgrade
    else if h.kind.Relayed? then RelayOnly
    else if h.kind.Internet? && h.facts.ipVersion == Some(V6) then PublicIpv6
    else if h.kind.Internet? && h.facts.ipVersion == Some(V4) then PublicIpv4
    else DirectDial
  }

  /** An open connection is Direct exactly if it was upgraded last; one never upgraded has the origin of its address. */
  lemma {:induction false} KindsOfHistory(steps: seq<Step>, p: PeerId, id: ConnId)
    ensures var h := HistoryOf(steps, p, id);
      h.Some? ==>
        && h.value.kind in {Direct, Lan, Internet, Relayed}
        && (h.value.kind.Direct? ==> h.value.upgraded)
        && EntryOf(h.value).meta == ConnectionMeta(h.value.facts, OriginOf(h.value))
    decreases |steps|
  {
    if steps != [] {
      KindsOfHistory(steps[..|steps| - 1], p, id);
    }
  }

  lemma TopOfHistory(states: seq<View>, steps: seq<Step>, p: PeerId) returns (id: ConnId)
    requires IsRun(states, steps) && p in states[|steps|].presence
    ensures var v, h := states[|steps|], HistoryOf(steps, p, id);
      && h.Some? && p in v.metas && EntryOf(h.value) == ConnEntry(v.presence[p], v.metas[p])
      && IsTop(ConnsOf(v.connections, p), id)
  {
    CachesAgree(states, steps);
    var v := states[|steps|];
    assert AgreesAt(v, p);
    id :| IsTop(v.connections[p], id) && v.connections[p][id] == ConnEntry(v.presence[p], v.metas[p]);
    MapIsItsHistory(states, steps, p, id);
  }

  /** The connection is of no better kind than the one shown. */
  ghost predicate NotBetter(steps: seq<Step>, p: PeerId, id: ConnId, shown: ConnectionKind)
    requires HistoryOf(steps, p, id).Some?
  {
    var other := HistoryOf(steps, p, id).value.kind;
    && (other == Direct ==> shown == Direct)
    && (other == Lan ==> shown in {Direct, Lan})
    && (other == Internet ==> shown in {Direct, Lan, Internet})
  }

  /** No open connection is of a better kind than the shown one. */
  lemma NothingBetter(states: seq<View>, steps: seq<Step>, p: PeerId, top: ConnId, id: ConnId)
    requires IsRun(states, steps) && p in states[|steps|].presence
    requires HistoryOf(steps, p, top).Some? && IsTop(ConnsOf(states[|steps|].connections, p), top)
    requires HistoryOf(steps, p, id).Some?
    ensures NotBetter(steps, p, id, HistoryOf(steps, p, top).value.kind)
  {
    MapIsItsHistory(states, steps, p, top);
    MapIsItsHistory(states, steps, p, id);
    KindsOfHistory(steps, p, top);
    KindsOfHistory(steps, p, id);
  }

  /**
   * In every run, read off the steps alone: a peer is shown exactly if they left a connection open, as Direct if one
   * was upgraded last, else as Lan if one is on the LAN, else as Internet if one is not relayed, else as Relayed; with
   * the facts and the origin of an open connection of that kind.
   */
  lemma ShownByHistory(states: seq<View>, steps: seq<Step>, p: PeerId)
    requires IsRun(states, steps)
    ensures var v := states[|steps|];
      && (p in v.presence <==> exists id :: HistoryOf(steps, p, id).Some?)
      && (p in v.presence ==>
            v.presence[p] ==
              if SomeOpenAs(steps, p, Direct) then Direct
              else if SomeOpenAs(steps, p, Lan) then Lan
              else if SomeOpenAs(steps, p, Internet) then Internet
              else Relayed)
      && (p in v.presence ==>
            exists id :: OpenAs(steps, p, id, v.presence[p]) && p in v.metas
              && v.metas[p] ==
                   ConnectionMeta(HistoryOf(steps, p, id).value.facts, OriginOf(HistoryOf(steps, p, id).value)))
  {
    var v := states[|steps|];
    CachesAgree(states, steps);
    assert AgreesAt(v, p);
    if p in v.presence {
      var top := TopOfHistory(states, steps, p);
      KindsOfHistory(steps, p, top);
      assert OpenAs(steps, p, top, v.presence[p]);
      forall id | HistoryOf(steps, p, id).Some? ensures NotBetter(steps, p, id, v.presence[p]) {
        NothingBetter(states, steps, p, top, id);
      }
      assert forall id, kind :: OpenAs(steps, p, id, kind) ==> NotBetter(steps, p, id, v.presence[p]);
    }
    if id :| HistoryOf(steps, p, id).Some? {
      MapIsItsHistory(states, steps, p, id);
    }
  }

  /**
   * The two orders in which a connection's `Established` and `Upgraded` events can arrive leave the same facts and
   * origin, whatever was known of it before, but never the same kind.
   */
  lemma OrderMattersForKindOnly(connections: Conns, p: PeerId, id: ConnId, kind: EndpointKind, facts: Facts)
    ensures var upgradeLast := PutUpgraded(PutEstablished(connections, p, id, kind, facts), p, id);
      var upgradeFirst := PutEstablished(PutUpgraded(connections, p, id), p, id, kind, facts);
      && upgradeLast[p][id] == ConnEntry(Direct, ConnectionMeta(facts, DcutrUpgrade))
      && upgradeFirst[p][id] == ConnEntry(kind, ConnectionMeta(facts, DcutrUpgrade))
      && upgradeLast[p][id].kind != upgradeFirst[p][id].kind
  {
  }

  // ---------------------------------------------------------------- the lineage ring is a chain

  /** Positions `i < j` hold consecutive retained entries of one peer. */
  ghost predicate Consecutive(ring: seq<Transition>, i: int, j: int) {
    0 <= i < j < |ring| && ring[i].peer == ring[j].peer && forall k :: i < k < j ==> ring[k].peer != ring[i].peer
  }

  predicate Continues(later: Transition, earlier: Transition) {
    && later.from == Some(earlier.to)
    && (later.to != earlier.to || later.transport != earlier.transport || later.origin != earlier.origin)
  }

  ghost predicate IsChain(ring: seq<Transition>) {
    && |ring| <= TRANSITION_RING
    && forall i, j :: Consecutive(ring, i, j) ==> Continues(ring[j], ring[i])
  }

  lemma PushKeepsChain(ring: seq<Transition>, t: Transition)
    requires forall i, j :: Consecutive(ring, i, j) ==> Continues(ring[j], ring[i])
    requires forall i :: IsLastOf(ring, t.peer, i) ==> Continues(t, ring[i])
    ensures forall i, j :: Consecutive(ring + [t], i, j) ==> Continues((ring + [t])[j], (ring + [t])[i])
  {
    var pushed := ring + [t];
    forall i, j | Consecutive(pushed, i, j) ensures Continues(pushed[j], pushed[i]) {
      if j < |ring| {
        assert forall k :: i < k < j ==> pushed[k] == ring[k];
        assert Consecutive(ring, i, j);
      } else {
        assert forall k :: i < k < |ring| ==> pushed[k] == ring[k];
        assert IsLastOf(ring, t.peer, i);
      }
    }
  }

  lemma SuffixKeepsChain(ring: seq<Transition>, n: nat)
    requires forall i, j :: Consecutive(ring, i, j) ==> Continues(ring[j], ring[i])
    ensures var kept := LastN(ring, n); forall i, j :: Consecutive(kept, i, j) ==> Continues(kept[j], kept[i])
  {
    if |ring| > n {
      var kept, d := LastN(ring, n), |ring| - n;
      forall i, j | Consecutive(kept, i, j) ensures Continues(kept[j], kept[i]) {
        forall k | i + d < k < j + d ensures ring[k].peer != ring[i + d].peer {
          assert ring[k] == kept[k - d];
        }
        assert Consecutive(ring, i + d, j + d);
      }
    }
  }

  lemma RecordedKeepsChain(ring: seq<Transition>, peer: PeerId, best: ConnEntry)
    requires IsChain(ring)
    ensures IsChain(Recorded(ring, peer, best))
  {
    var last := LastOf(ring, peer);
    var from := if last.Some? then Some(last.value.to) else None;
    var t := Transition(peer, from, best.kind, best.meta.facts.transport, best.meta.facts.ipVersion, best.meta.origin);
    if Recorded(ring, peer, best) != ring {
      if last.Some? {
        var i :| IsLastOf(ring, peer, i) && ring[i] == last.value;
        assert forall k :: IsLastOf(ring, peer, k) ==> k == i;
      }
      PushKeepsChain(ring, t);
      SuffixKeepsChain(ring + [t], TRANSITION_RING);
    }
  }

  function ShownKind(v: View, p: PeerId): ConnectionKind {
    if p in v.presence then v.presence[p] else Offline
  }

  function ShownMeta(v: View, p: PeerId): ConnectionMeta {
    if p in v.metas then v.metas[p] else NO_META
  }

  /** The entry says what is shown of its peer. */
  predicate Tells(t: Transition, kind: ConnectionKind, meta: ConnectionMeta) {
    t.to == kind && t.transport == meta.facts.transport && t.origin == meta.origin
  }

  /**
   * A network event adds one entry exactly if what is then shown of its peer is not what the peer's newest entry says;
   * the entry says what is shown and where it comes from, and only the oldest of 48 gives way. Nothing else adds any.
   */
  lemma RingRecords(v: View, step: Step, v': View)
    requires Next(v, step, v') && Agrees(v) && |v.ring| <= 48
    ensures !step.Net? ==> v'.ring == v.ring
    ensures step.Net? ==>
      var p := PeerOf(step);
      var last, kind, meta := LastOf(v.ring, p), ShownKind(v', p), ShownMeta(v', p);
      var from := if last.Some? then Some(last.value.to) else None;
      var t := Transition(p, from, kind, meta.facts.transport, meta.facts.ipVersion, meta.origin);
      v'.ring ==
        if last.Some? && Tells(last.value, kind, meta) then v.ring
        else if |v.ring| < 48 then v.ring + [t]
        else v.ring[1..] + [t]
  {
    var pick: Option<ConnId> :| ValidPick(AfterStep(v.connections, step), PeerOf(step), pick)
      && v' == Apply(v, step, pick);
    if step.Net? {
      var p := PeerOf(step);
      assert AgreesAt(v, p);
      PeerEntries(v.connections, step);
      var best := Picked(AfterStep(v.connections, step), p, pick);
      assert ShownKind(v', p) == best.kind && ShownMeta(v', p) == best.meta;
    }
  }

  /** In every run the ring stays within its bound and reads, peer by peer, as an unbroken chain of real changes. */
  lemma {:induction false} RingIsChain(states: seq<View>, steps: seq<Step>)
    requires IsRun(states, steps)
    ensures IsChain(states[|steps|].ring)
    decreases |steps|
  {
    if steps != [] {
      RunPrefix(states, steps);
      RingIsChain(states[..|steps|], steps[..|steps| - 1]);
      var step := steps[|steps| - 1];
      var v, v' := states[|steps| - 1], states[|steps|];
      var pick: Option<ConnId> :| ValidPick(AfterStep(v.connections, step), PeerOf(step), pick)
        && v' == Apply(v, step, pick);
      if step.Net? {
        RecordedKeepsChain(v.ring, PeerOf(step), Picked(AfterStep(v.connections, step), PeerOf(step), pick));
      }
    }
  }

  /** The newest retained entry of `p`, if any, describes its presence as it is now. */
  ghost predicate NewestMatches(v: View, p: PeerId) {
    var newest := LastOf(v.ring, p);
    var meta := if p in v.metas then v.metas[p] else NO_META;
    newest.Some? ==>
      && newest.value.to == (if p in v.presence then v.presence[p] else Offline)
      && newest.value.transport == meta.facts.transport
      && newest.value.origin == meta.origin
  }

  lemma {:induction false} LastOfSuffix(ring: seq<Transition>, n: nat, p: PeerId)
    ensures LastOf(LastN(ring, n), p) in {None, LastOf(ring, p)}
  {
    if |ring| > n {
      var d := |ring| - n;
      var kept := ring[d..];
      if LastOf(kept, p).Some? {
        var i :| IsLastOf(kept, p, i) && kept[i] == LastOf(kept, p).value;
        forall k | i + d < k < |ring| ensures ring[k].peer != p {
          assert ring[k] == kept[k - d];
        }
        assert IsLastOf(ring, p, i + d);
        assert forall k :: IsLastOf(ring, p, k) ==> k == i + d;
        assert LastOf(ring, p).Some?;
      }
    }
  }

  lemma RecordedNewest(ring: seq<Transition>, peer: PeerId, best: ConnEntry, p: PeerId)
    requires |ring| <= TRANSITION_RING
    ensures var newest := LastOf(Recorded(ring, peer, best), p);
      && (p != peer ==> newest in {None, LastOf(ring, p)})
      && (p == peer ==> newest.Some?)
      && (p == peer ==> newest.value.to == best.kind)
      && (p == peer ==> newest.value.transport == best.meta.facts.transport)
      && (p == peer ==> newest.value.origin == best.meta.origin)
  {
    var last := LastOf(ring, peer);
    var from := if last.Some? then Some(last.value.to) else None;
    var t := Transition(peer, from, best.kind, best.meta.facts.transport, best.meta.facts.ipVersion, best.meta.origin);
    if Recorded(ring, peer, best) != ring {
      var pushed := ring + [t];
      assert pushed[..|ring|] == ring;
      LastOfSuffix(pushed, TRANSITION_RING, p);
      var kept := LastN(pushed, TRANSITION_RING);
      assert kept[|kept| - 1] == t;
    }
  }

  /** When only network events happen, the newest retained entry of every peer describes its current presence. */
  lemma {:induction false} RingMatchesPresence(states: seq<View>, steps: seq<Step>, p: PeerId)
    requires IsRun(states, steps) && forall i :: 0 <= i < |steps| ==> steps[i].Net?
    ensures NewestMatches(states[|steps|], p)
    decreases |steps|
  {
    if steps != [] {
      RunPrefix(states, steps);
      RingMatchesPresence(states[..|steps|], steps[..|steps| - 1], p);
      RingIsChain(states[..|steps|], steps[..|steps| - 1]);
      CachesAgree(states, steps);
      var step := steps[|steps| - 1];
      var v, v' := states[|steps| - 1], states[|steps|];
      var pick: Option<ConnId> :| ValidPick(AfterStep(v.connections, step), PeerOf(step), pick)
        && v' == Apply(v, step, pick);
      RecordedNewest(v.ring, PeerOf(step), Picked(AfterStep(v.connections, step), PeerOf(step), pick), p);
      assert AgreesAt(v', p);
    }
  }
}
