/** The connection map, caches and ring as the application updates them in place. */
module ConnectionTable {
  import opened Types
  import opened Presence
  import Reconnect
  import RateLimit

  /** Everything kept in memory about peers that a wipe clears. */
  datatype Live = Live(view: View, reconnects: map<PeerId, Reconnect.Schedule>, upgradeTicks: map<PeerId, nat>)

  /** Nothing of `peer` is left, and everything of the others. */
  ghost predicate Forgotten(before: Live, peer: PeerId, after: Live) {
    && Next(before.view, Wipe(peer), after.view)
    && after.reconnects == before.reconnects - {peer}
    && after.upgradeTicks == before.upgradeTicks - {peer}
  }

  class Table {
    var connections: Conns
    var presence: map<PeerId, ConnectionKind>
    var connectionMeta: map<PeerId, ConnectionMeta>
    var transitionRing: seq<Transition>
    var reconnectBackoff: map<PeerId, Reconnect.Schedule>
    const upgradeBackoff: Reconnect.UpgradeBackoff
    const rateLimiter: RateLimit.RateLimiter

    ghost function Now(): View
      reads this
    {
      View(connections, presence, connectionMeta, transitionRing)
    }

    ghost function State(): Live
      reads this, upgradeBackoff
    {
      Live.Live(Now(), reconnectBackoff, upgradeBackoff.ticks)
    }

    constructor ()
      ensures fresh(upgradeBackoff) && fresh(rateLimiter)
      ensures State() == Live.Live(EMPTY, map[], map[]) && rateLimiter.inner == map[]
    {
      connections := map[];
      presence := map[];
      connectionMeta := map[];
      transitionRing := [];
      reconnectBackoff := map[];
      upgradeBackoff := new Reconnect.UpgradeBackoff();
      rateLimiter := new RateLimit.RateLimiter((p: RateLimit.Protocol) => RateLimit.DefaultLimit(p));
    }

    /** A best connection of `conns`, in whatever order its entries are visited. */
    static method BestConn(conns: map<ConnId, ConnEntry>) returns (best: Option<ConnId>)
      ensures best.None? <==> conns == map[]
      ensures best.Some? ==> IsTop(conns, best.value)
    {
      best := None;
      var rest := conns.Keys;
      while rest != {}
        invariant rest <= conns.Keys
        invariant best.None? ==> rest == conns.Keys
        invariant best.Some? ==> best.value in conns.Keys
        invariant best.Some? ==>
          forall j :: j in conns && j !in rest ==> Precedence(conns[j].kind) <= Precedence(conns[best.value].kind)
        decreases rest
      {
        var id :| id in rest;
        rest := rest - {id};
        if best.None? || Precedence(conns[id].kind) >= Precedence(conns[best.value].kind) {
          best := Some(id);
        }
      }
      assert best.None? ==> conns.Keys == {};
    }

    method RefreshPresence(peer: PeerId) returns (best: ConnEntry, pick: Option<ConnId>)
      modifies this`presence, this`connectionMeta
      ensures ValidPick(connections, peer, pick) && best == Picked(connections, peer, pick)
      ensures Now() == Refreshed(old(Now()), peer, best)
    {
      pick := None;
      if peer in connections {
        pick := BestConn(connections[peer]);
      }
      best := Picked(connections, peer, pick);
      if best.kind.Offline? {
        presence := presence - {peer};
        connectionMeta := connectionMeta - {peer};
      } else {
        presence := presence[peer := best.kind];
        connectionMeta := connectionMeta[peer := best.meta];
      }
    }

    method RecordTransition(peer: PeerId, best: ConnEntry)
      modifies this`transitionRing
      ensures transitionRing == Recorded(old(transitionRing), peer, best)
    {
      var last := LastOf(transitionRing, peer);
      var transport, origin := best.meta.facts.transport, best.meta.origin;
      if last.Some? && last.value.to == best.kind && last.value.transport == transport && last.value.origin == origin {
        return;
      }
      var from := if last.Some? then Some(last.value.to) else None;
      var pushed := transitionRing + [Transition(peer, from, best.kind, transport, best.meta.facts.ipVersion, origin)];
      transitionRing := pushed;
      ghost var dropped := 0;
      while |transitionRing| > TRANSITION_RING
        invariant 0 <= dropped <= |pushed| && transitionRing == pushed[dropped..]
        invariant dropped > 0 ==> |transitionRing| >= TRANSITION_RING
        decreases |transitionRing|
      {
        assert transitionRing[1..] == pushed[dropped + 1..];
        transitionRing := transitionRing[1..];
        dropped := dropped + 1;
      }
    }

    /**
     * `ConnectionEstablished`: record or update the connection, refresh the caches, drop its redial backoff, extend
     * the ring.
     */
    method OnEstablished(peer: PeerId, id: ConnId, kind: EndpointKind, facts: Facts)
      modifies this
      ensures Next(old(Now()), Net(Established(peer, id, kind, facts)), Now())
      ensures reconnectBackoff == old(reconnectBackoff) - {peer}
    {
      ghost var before := Now();
      if peer !in connections {
        connections := connections[peer := map[]];
      }
      var byId := connections[peer];
      if id in byId {
        var e := byId[id];
        if e.meta.origin.DcutrUpgrade? {
          byId := byId[id := ConnEntry(kind, ConnectionMeta(facts, DcutrUpgrade))];
        } else {
          byId := byId[id := ConnEntry(kind, ConnectionMeta(facts, ClassifyOrigin(kind, facts.ipVersion)))];
        }
      } else {
        byId := byId[id := ConnEntry(kind, ConnectionMeta(facts, ClassifyOrigin(kind, facts.ipVersion)))];
      }
      connections := connections[peer := byId];
      reconnectBackoff := reconnectBackoff - {peer};
      Settle(before, Established(peer, id, kind, facts));
    }

    /** `ConnectionUpgraded`: relabel the connection as a hole-punched direct one, creating it if need be. */
    method OnUpgraded(peer: PeerId, id: ConnId)
      modifies this, upgradeBackoff
      ensures Next(old(Now()), Net(Upgraded(peer, id)), Now())
      ensures upgradeBackoff.ticks == old(upgradeBackoff.ticks) - {peer} && reconnectBackoff == old(reconnectBackoff)
    {
      ghost var before := Now();
      upgradeBackoff.Reset(peer);
      Relabel(peer, id);
      Settle(before, Upgraded(peer, id));
    }

    method Relabel(peer: PeerId, id: ConnId)
      modifies this`connections
      ensures connections == PutUpgraded(old(connections), peer, id)
    {
      if peer !in connections {
        connections := connections[peer := map[]];
      }
      var byId := connections[peer];
      if id !in byId {
        byId := byId[id := ConnEntry(Direct, NO_META)];
      }
      var e := byId[id];
      byId := byId[id := ConnEntry(Direct, e.meta.(origin := DcutrUpgrade))];
      connections := connections[peer := byId];
      assert connections[peer] == PutUpgraded(old(connections), peer, id)[peer];
    }

    /** `ConnectionClosed`: forget that connection only, and the peer and its rate-limiter buckets with its last one. */
    method OnClosed(peer: PeerId, id: ConnId) returns (fullyGone: bool)
      modifies this, upgradeBackoff, rateLimiter
      ensures Next(old(Now()), Net(Closed(peer, id)), Now())
      ensures fullyGone <==> peer !in connections
      ensures upgradeBackoff.ticks == old(upgradeBackoff.ticks) - {peer} && reconnectBackoff == old(reconnectBackoff)
      ensures rateLimiter.inner == if fullyGone then old(rateLimiter.inner) - {peer} else old(rateLimiter.inner)
    {
      ghost var before := Now();
      fullyGone := RemoveConnections(peer, {id});
      upgradeBackoff.Reset(peer);
      if fullyGone {
        rateLimiter.Forget(peer);
      }
      Settle(before, Closed(peer, id));
    }

    /** The ticker found no live socket: only the connections it had seen before asking are removed. */
    method DemoteDead(peer: PeerId, snapshot: set<ConnId>)
      modifies this`connections, this`presence, this`connectionMeta
      ensures Next(old(Now()), Demote(peer, snapshot), Now())
    {
      var _ := RemoveConnections(peer, snapshot);
      var best, pick := RefreshPresence(peer);
      NextBy(old(Now()), Demote(peer, snapshot), Now(), pick);
    }

    /** The in-memory half of deleting a conversation. */
    method WipePeer(peer: PeerId)
      modifies this, upgradeBackoff
      ensures Forgotten(old(State()), peer, State())
    {
      presence := presence - {peer};
      connections := connections - {peer};
      connectionMeta := connectionMeta - {peer};
      upgradeBackoff.Reset(peer);
      reconnectBackoff := reconnectBackoff - {peer};
      NextBy(old(Now()), Wipe(peer), Now(), None);
    }

    method RemoveConnections(peer: PeerId, ids: set<ConnId>) returns (gone: bool)
      modifies this`connections
      ensures connections == Drop(old(connections), peer, ids)
      ensures gone <==> peer !in connections
    {
      if peer in connections {
        var byId := connections[peer] - ids;
        if byId == map[] {
          connections := connections - {peer};
          gone := true;
        } else {
          connections := connections[peer := byId];
          gone := false;
        }
      } else {
        gone := true;
      }
    }

    /** What every connection event ends with: refresh the caches and record the transition. */
    method Settle(ghost before: View, event: Event)
      requires Now() == before.(connections := AfterEvent(before.connections, event))
      modifies this`presence, this`connectionMeta, this`transitionRing
      ensures Next(before, Net(event), Now())
    {
      var best, pick := RefreshPresence(event.peer);
      RecordTransition(event.peer, best);
      NextBy(before, Net(event), Now(), pick);
    }
  }
}
