/** The swarm task's own bookkeeping: the address book, the bootstrap roster and the relay reservations. */
module Swarm {
  import opened Types

  /** An address: which one, whether it goes through a relay circuit, and the peer its last `/p2p` component names. */
  datatype Multiaddr = Multiaddr(key: nat, circuit: bool, target: Option<PeerId>)

  type ListenerId = nat

  datatype DialMode = LanOnly | Internet

  const MAX_ADDRS_PER_PEER: nat := 16

  type Book = map<PeerId, seq<Multiaddr>>

  datatype State = State(
    addressBook: Book,
    bootstrapPeers: Book,
    relayReserved: set<PeerId>,
    circuitListeners: map<PeerId, ListenerId>,
    dialMode: DialMode,
    activeCircuits: set<ListenerId>)     // circuit listeners the swarm itself still runs

  // ---------------------------------------------------------------- address lists

  ghost predicate NoRepeats(addrs: seq<Multiaddr>) {
    forall i, j :: 0 <= i < j < |addrs| ==> addrs[i] != addrs[j]
  }

  function NonCircuit(addrs: seq<Multiaddr>): (kept: seq<Multiaddr>)
    ensures forall a :: a in kept <==> a in addrs && !a.circuit
    ensures |kept| <= |addrs|
    ensures NoRepeats(addrs) ==> NoRepeats(kept)
  {
    if addrs == [] then []
    else
      var rest := NonCircuit(addrs[1..]);
      assert addrs == [addrs[0]] + addrs[1..];
      if addrs[0].circuit then rest else [addrs[0]] + rest
  }

  function Without(addrs: seq<Multiaddr>, addr: Multiaddr): (kept: seq<Multiaddr>)
    ensures forall a :: a in kept <==> a in addrs && a != addr
    ensures |kept| <= |addrs|
    ensures NoRepeats(addrs) ==> NoRepeats(kept)
  {
    if addrs == [] then []
    else
      var rest := Without(addrs[1..], addr);
      assert addrs == [addrs[0]] + addrs[1..];
      assert NoRepeats(addrs) ==> NoRepeats(addrs[1..]) && addrs[0] !in rest;
      if addrs[0] == addr then rest else [addrs[0]] + rest
  }

  function Remembered(book: Book, peer: PeerId, addr: Multiaddr): Book {
    var entry := if peer in book then book[peer] else [];
    if addr in entry then book[peer := entry]
    else if |entry| + 1 > MAX_ADDRS_PER_PEER then book[peer := (entry + [addr])[1..]]
    else book[peer := entry + [addr]]
  }

  function Pruned(book: Book): Book {
    map p | p in book && NonCircuit(book[p]) != [] :: NonCircuit(book[p])
  }

  /** The addresses grouped by the peer they name, each once; an address naming nobody is ignored. */
  function Grouped(addrs: seq<Multiaddr>): Book {
    if addrs == [] then map[]
    else
      var rest, addr := Grouped(addrs[..|addrs| - 1]), addrs[|addrs| - 1];
      if addr.target.None? then rest
      else
        var peer := addr.target.value;
        var entry := if peer in rest then rest[peer] else [];
        rest[peer := if addr in entry then entry else entry + [addr]]
  }

  lemma {:induction false} GroupedAt(addrs: seq<Multiaddr>, p: PeerId)
    ensures var roster := Grouped(addrs);
      && (p in roster ==> roster[p] != [] && NoRepeats(roster[p]))
      && forall a :: (p in roster && a in roster[p]) <==> (a in addrs && a.target == Some(p))
    decreases |addrs|
  {
    if addrs != [] {
      var shorter, addr := addrs[..|addrs| - 1], addrs[|addrs| - 1];
      GroupedAt(shorter, p);
      assert addrs == shorter + [addr];
      assert forall a :: a in addrs <==> a in shorter || a == addr;
    }
  }

  lemma GroupedRoster(addrs: seq<Multiaddr>)
    ensures var roster := Grouped(addrs);
      && (forall p: PeerId, a :: (p in roster && a in roster[p]) <==> (a in addrs && a.target == Some(p)))
      && forall p :: p in roster ==> roster[p] != [] && NoRepeats(roster[p])
  {
    forall p: PeerId { GroupedAt(addrs, p); }
  }

  // ---------------------------------------------------------------- commands and events

  datatype Step =
    /** `listen` is the outcome of asking the relay client for a circuit listener. */
    | Established(peer: PeerId, addr: Multiaddr, relayed: bool, listen: Option<ListenerId>)
    | Closed(peer: PeerId, stillConnected: bool)
    | UpdateBootstraps(addresses: seq<Multiaddr>)
    | ApplyDialMode(mode: DialMode)
    | Learn(peer: PeerId, addr: Multiaddr)        // mDNS, identify, Kademlia, or a dial by address
    | Expire(peer: PeerId, addr: Multiaddr)       // mDNS
    | ListenerEnds(listener: ListenerId)          // the swarm drops a circuit listener by itself

  predicate Reserves(s: State, peer: PeerId, relayed: bool) {
    !s.dialMode.LanOnly? && !relayed && peer in s.bootstrapPeers && peer !in s.relayReserved
  }

  function Apply(s: State, step: Step): State {
    match step
    case Established(peer, addr, relayed, listen) =>
      var s1 := s.(addressBook := Remembered(s.addressBook, peer, addr));
      if Reserves(s, peer, relayed) && listen.Some? then
        s1.(relayReserved := s.relayReserved + {peer},
            circuitListeners := s.circuitListeners[peer := listen.value],
            activeCircuits := s.activeCircuits + {listen.value})
      else s1
    case Closed(peer, stillConnected) =>
      if peer in s.bootstrapPeers then
        s.(relayReserved := s.relayReserved - {peer},
           circuitListeners := s.circuitListeners - {peer},
           activeCircuits :=
             if peer in s.circuitListeners then s.activeCircuits - {s.circuitListeners[peer]} else s.activeCircuits)
      else if !stillConnected then s.(addressBook := s.addressBook - {peer})
      else s
    case UpdateBootstraps(addresses) => s.(bootstrapPeers := Grouped(addresses))
    case ApplyDialMode(LanOnly) =>
      s.(dialMode := LanOnly,
         circuitListeners := map[],
         relayReserved := {},
         activeCircuits := s.activeCircuits - s.circuitListeners.Values,
         addressBook := Pruned(s.addressBook))
    case ApplyDialMode(Internet) => s.(dialMode := Internet)
    case Learn(peer, addr) => s.(addressBook := Remembered(s.addressBook, peer, addr))
    case Expire(peer, addr) =>
      if peer in s.addressBook then s.(addressBook := s.addressBook[peer := Without(s.addressBook[peer], addr)]) else s
    case ListenerEnds(listener) => s.(activeCircuits := s.activeCircuits - {listener})
  }

  /** The addresses a dial may try: in LAN-only mode never a circuit, whatever the book has relearned. */
  function DialTargets(s: State, peer: PeerId): (targets: seq<Multiaddr>)
    ensures forall a :: a in targets <==>
      peer in s.addressBook && a in s.addressBook[peer] && (s.dialMode.LanOnly? ==> !a.circuit)
  {
    var addrs := if peer in s.addressBook then s.addressBook[peer] else [];
    if s.dialMode.LanOnly? then NonCircuit(addrs) else addrs
  }

  lemma ValuesGrow(m: map<PeerId, ListenerId>, peer: PeerId, lid: ListenerId)
    requires peer !in m
    ensures m[peer := lid].Values == m.Values + {lid}
  {
    var grown := m[peer := lid];
    assert grown[peer] == lid;
    assert forall p :: p in m ==> grown[p] == m[p];
  }

  class TaskState {
    var addressBook: Book
    var bootstrapPeers: Book
    var relayReserved: set<PeerId>
    var circuitListeners: map<PeerId, ListenerId>
    var dialMode: DialMode
    var activeCircuits: set<ListenerId>

    ghost function Now(): State
      reads this
    {
      State(addressBook, bootstrapPeers, relayReserved, circuitListeners, dialMode, activeCircuits)
    }

    constructor (bootstraps: seq<Multiaddr>, mode: DialMode)
      ensures Now() == Initial(bootstraps, mode)
    {
      addressBook, relayReserved, circuitListeners, dialMode, activeCircuits := map[], {}, map[], mode, {};
      bootstrapPeers := map[];
      new;
      bootstrapPeers := GroupByPeer(bootstraps);
    }

    static method GroupByPeer(addresses: seq<Multiaddr>) returns (next: Book)
      ensures next == Grouped(addresses)
    {
      next := map[];
      for i := 0 to |addresses|
        invariant next == Grouped(addresses[..i])
      {
        var addr := addresses[i];
        assert addresses[..i + 1][..i] == addresses[..i];
        if addr.target.Some? {
          var peer := addr.target.value;
          var entry := if peer in next then next[peer] else [];
          if addr !in entry {
            entry := entry + [addr];
          }
          next := next[peer := entry];
        }
      }
      assert addresses[..|addresses|] == addresses;
    }

    method RememberAddress(peer: PeerId, addr: Multiaddr)
      modifies this`addressBook
      ensures addressBook == Remembered(old(addressBook), peer, addr)
    {
      var entry := if peer in addressBook then addressBook[peer] else [];
      if addr !in entry {
        entry := entry + [addr];
        if |entry| > MAX_ADDRS_PER_PEER {
          entry := entry[1..];
        }
      }
      addressBook := addressBook[peer := entry];
    }

    method OnEstablished(peer: PeerId, addr: Multiaddr, relayed: bool, listen: Option<ListenerId>)
      modifies this
      ensures Now() == Apply(old(Now()), Established(peer, addr, relayed, listen))
    {
      RememberAddress(peer, addr);
      if !dialMode.LanOnly? && !relayed && peer in bootstrapPeers && peer !in relayReserved {
        relayReserved := relayReserved + {peer};
        match listen {
          case Some(lid) =>
            activeCircuits := activeCircuits + {lid};
            circuitListeners := circuitListeners[peer := lid];
          case None =>
            relayReserved := relayReserved - {peer};
        }
      }
      assert relayReserved == Apply(old(Now()), Established(peer, addr, relayed, listen)).relayReserved;
    }

    method OnClosed(peer: PeerId, stillConnected: bool)
      modifies this
      ensures Now() == Apply(old(Now()), Closed(peer, stillConnected))
    {
      if peer in bootstrapPeers {
        relayReserved := relayReserved - {peer};
        if peer in circuitListeners {
          var lid := circuitListeners[peer];
          circuitListeners := circuitListeners - {peer};
          activeCircuits := activeCircuits - {lid};
        } else {
          assert circuitListeners - {peer} == circuitListeners;
        }
      } else if !stillConnected {
        addressBook := addressBook - {peer};
      }
    }

    method OnUpdateBootstraps(addresses: seq<Multiaddr>)
      modifies this`bootstrapPeers
      ensures Now() == Apply(old(Now()), UpdateBootstraps(addresses))
    {
      bootstrapPeers := GroupByPeer(addresses);
    }

    method OnApplyDialMode(mode: DialMode)
      modifies this
      ensures Now() == Apply(old(Now()), ApplyDialMode(mode))
    {
      dialMode := mode;
      if mode.LanOnly? {
        // Drain the listeners one by one, telling the swarm to drop each.
        var pending := circuitListeners;
        ghost var done: map<PeerId, ListenerId> := map[];
        circuitListeners := map[];
        while pending != map[]
          invariant pending.Keys !! done.Keys && done + pending == old(circuitListeners)
          invariant activeCircuits == old(activeCircuits) - done.Values
          modifies this`activeCircuits
          decreases pending.Keys
        {
          var peer :| peer in pending;
          var lid := pending[peer];
          activeCircuits := activeCircuits - {lid};
          ValuesGrow(done, peer, lid);
          done := done[peer := lid];
          pending := pending - {peer};
        }
        assert done == done + pending;
        relayReserved := {};
        addressBook := Pruned(addressBook);
      }
    }

    method OnExpired(peer: PeerId, addr: Multiaddr)
      modifies this`addressBook
      ensures Now() == Apply(old(Now()), Expire(peer, addr))
    {
      if peer in addressBook {
        addressBook := addressBook[peer := Without(addressBook[peer], addr)];
      }
    }
  }

  // ---------------------------------------------------------------- every reachable state

  ghost predicate Sound(s: State) {
    && s.circuitListeners.Keys == s.relayReserved
    && s.activeCircuits <= s.circuitListeners.Values
    && (s.dialMode.LanOnly? ==> s.relayReserved == {} && s.activeCircuits == {})
    && (forall p :: p in s.addressBook ==> |s.addressBook[p]| <= MAX_ADDRS_PER_PEER && NoRepeats(s.addressBook[p]))
    && (forall p :: p in s.bootstrapPeers ==> s.bootstrapPeers[p] != [] && NoRepeats(s.bootstrapPeers[p]))
  }

  function Initial(bootstraps: seq<Multiaddr>, mode: DialMode): State {
    State(map[], Grouped(bootstraps), {}, map[], mode, {})
  }

  function AfterSteps(start: State, steps: seq<Step>): State {
    if steps == [] then start else Apply(AfterSteps(start, steps[..|steps| - 1]), steps[|steps| - 1])
  }

  lemma ListenersSound(s: State, step: Step)
    requires Sound(s)
    ensures var s' := Apply(s, step);
      && s'.circuitListeners.Keys == s'.relayReserved
      && s'.activeCircuits <= s'.circuitListeners.Values
      && (s'.dialMode.LanOnly? ==> s'.relayReserved == {} && s'.activeCircuits == {})
  {
    var s' := Apply(s, step);
    forall l | l in s'.activeCircuits ensures l in s'.circuitListeners.Values {
      match step
      case Established(peer, addr, relayed, listen) =>
        if Reserves(s, peer, relayed) && listen == Some(l) {
          assert s'.circuitListeners[peer] == l;
        } else {
          var p :| p in s.circuitListeners && s.circuitListeners[p] == l;
          assert s'.circuitListeners[p] == l;
        }
      case Closed(peer, _) =>
        var p :| p in s.circuitListeners && s.circuitListeners[p] == l;
        if p in s'.circuitListeners {
          assert s'.circuitListeners[p] == l;
        }
      case _ =>
    }
  }

  lemma RosterSound(s: State, step: Step)
    requires Sound(s)
    ensures var s' := Apply(s, step);
      forall p :: p in s'.bootstrapPeers ==> s'.bootstrapPeers[p] != [] && NoRepeats(s'.bootstrapPeers[p])
  {
    if step.UpdateBootstraps? {
      GroupedRoster(step.addresses);
    }
  }

  lemma BookSound(s: State, step: Step, p: PeerId)
    requires Sound(s) && p in Apply(s, step).addressBook
    ensures var addrs := Apply(s, step).addressBook[p]; |addrs| <= MAX_ADDRS_PER_PEER && NoRepeats(addrs)
  {
    if step.Established? || step.Learn? {
      RememberedSound(s.addressBook, step.peer, step.addr);
    }
  }

  lemma RememberedSound(book: Book, peer: PeerId, addr: Multiaddr)
    requires peer in book ==> |book[peer]| <= MAX_ADDRS_PER_PEER && NoRepeats(book[peer])
    ensures var entry := Remembered(book, peer, addr)[peer]; |entry| <= MAX_ADDRS_PER_PEER && NoRepeats(entry)
  {
  }

  /**
   * Whatever the swarm is told and whatever happens to it: the relays with a circuit listener are exactly the
   * reserved ones, no listener runs untracked, LAN-only mode has neither, and no address list outgrows its bound
   * or repeats an address.
   */
  lemma {:induction false} ReachableSound(bootstraps: seq<Multiaddr>, mode: DialMode, steps: seq<Step>)
    ensures Sound(AfterSteps(Initial(bootstraps, mode), steps))
  {
    if steps == [] {
      GroupedRoster(bootstraps);
    } else {
      var s, step := AfterSteps(Initial(bootstraps, mode), steps[..|steps| - 1]), steps[|steps| - 1];
      ReachableSound(bootstraps, mode, steps[..|steps| - 1]);
      ListenersSound(s, step);
      RosterSound(s, step);
      forall p | p in Apply(s, step).addressBook { BookSound(s, step, p); }
    }
  }

  /** The most recently learned address is always kept, and an address is only displaced by sixteen newer ones. */
  lemma RememberedKeepsNewest(book: Book, peer: PeerId, addr: Multiaddr)
    requires peer in book ==> |book[peer]| <= MAX_ADDRS_PER_PEER
    ensures var before := if peer in book then book[peer] else [];
      var entry := Remembered(book, peer, addr)[peer];
      && addr in entry
      && (forall a :: a in before && a !in entry ==>
          |before| == MAX_ADDRS_PER_PEER && a == before[0] && addr !in before)
      && forall q :: q != peer && q in book ==> Remembered(book, peer, addr)[q] == book[q]
  {
    var before := if peer in book then book[peer] else [];
    var entry := Remembered(book, peer, addr)[peer];
    if addr !in before {
      var grown := before + [addr];
      assert grown[|grown| - 1] == addr;
      if |grown| > MAX_ADDRS_PER_PEER {
        assert entry == grown[1..] && entry[|entry| - 1] == addr;
        forall a | a in before && a != before[0] ensures a in entry {
          var i :| 0 <= i < |before| && before[i] == a;
          assert entry[i - 1] == a;
        }
      }
    }
  }

  // ---------------------------------------------------------------- which addresses are known

  predicate Knows(book: Book, p: PeerId, a: Multiaddr) {
    p in book && a in book[p]
  }

  /** The step tells of an address of `p`. */
  predicate Learns(step: Step, p: PeerId, a: Multiaddr) {
    (step.Established? || step.Learn?) && step.peer == p && step.addr == a
  }

  /** The step tells of a new address of `p` while sixteen are known, and `a` is the oldest of them. */
  predicate Displaces(s: State, step: Step, p: PeerId, a: Multiaddr) {
    && (step.Established? || step.Learn?) && step.peer == p && !Knows(s.addressBook, p, step.addr)
    && p in s.addressBook && |s.addressBook[p]| == 16 && s.addressBook[p][0] == a
  }

  /** The step forgets an address: it expired, its peer left for good and is no relay, or circuits are given up. */
  predicate Forgets(s: State, step: Step, p: PeerId, a: Multiaddr) {
    || step == Expire(p, a)
    || (step.Closed? && step.peer == p && !step.stillConnected && p !in s.bootstrapPeers)
    || (step == ApplyDialMode(LanOnly) && a.circuit)
  }

  lemma RememberedKnows(book: Book, peer: PeerId, addr: Multiaddr, p: PeerId, a: Multiaddr)
    requires peer in book ==> |book[peer]| <= 16 && NoRepeats(book[peer])
    ensures Knows(Remembered(book, peer, addr), p, a) <==>
      (p == peer && a == addr)
      || (Knows(book, p, a)
          && !(p == peer && !Knows(book, peer, addr) && |book[peer]| == 16 && book[peer][0] == a))
  {
    if peer in book && addr !in book[peer] && |book[peer]| == 16 {
      var before := book[peer];
      var kept := (before + [addr])[1..];
      assert Remembered(book, peer, addr)[peer] == kept == before[1..] + [addr];
      if a in before && a != before[0] {
        var i :| 0 <= i < |before| && before[i] == a;
        assert before[1..][i - 1] == a;
      }
    }
  }

  /** In every sound state, so in every reachable one, a step changes what is known of a peer's addresses just so. */
  lemma KnownAddresses(s: State, step: Step, p: PeerId, a: Multiaddr)
    requires Sound(s)
    ensures Knows(Apply(s, step).addressBook, p, a) <==>
      Learns(step, p, a) || (Knows(s.addressBook, p, a) && !Displaces(s, step, p, a) && !Forgets(s, step, p, a))
  {
    if step.Established? || step.Learn? {
      RememberedKnows(s.addressBook, step.peer, step.addr, p, a);
    } else if step == ApplyDialMode(LanOnly) {
      assert p in s.addressBook && a in NonCircuit(s.addressBook[p]) ==> NonCircuit(s.addressBook[p]) != [];
    }
  }

  /** The mode is the last one set, and the roster groups the addresses last given. */
  lemma ModeAndRoster(s: State, step: Step, p: PeerId, a: Multiaddr)
    ensures Apply(s, step).dialMode == if step.ApplyDialMode? then step.mode else s.dialMode
    ensures Knows(Apply(s, step).bootstrapPeers, p, a) <==>
      if step.UpdateBootstraps? then a in step.addresses && a.target == Some(p) else Knows(s.bootstrapPeers, p, a)
  {
    if step.UpdateBootstraps? {
      GroupedRoster(step.addresses);
    }
  }

  /** A circuit listener is the one last asked for, and runs until it ends by itself or is taken down. */
  lemma ListenersOf(s: State, step: Step, p: PeerId)
    requires Sound(s)
    ensures var s' := Apply(s, step);
      && (p in s'.circuitListeners ==>
            s'.circuitListeners[p] == if Takes(s, step, p) then step.listen.value else s.circuitListeners[p])
      && (forall l :: l in s'.activeCircuits <==>
            || (step.Established? && Takes(s, step, step.peer) && step.listen == Some(l))
            || (l in s.activeCircuits && step != ListenerEnds(l) && step != ApplyDialMode(LanOnly)
                && !(step.Closed? && step.peer in s.bootstrapPeers && step.peer in s.circuitListeners
                     && s.circuitListeners[step.peer] == l)))
  {
    forall l | l in s.activeCircuits ensures l in s.circuitListeners.Values {
    }
  }

  // ---------------------------------------------------------------- who holds a reservation

  /** The steps that take a relay's reservation away: a close while it is on the roster, or going LAN-only. */
  predicate Frees(s: State, step: Step, peer: PeerId) {
    (step.Closed? && step.peer == peer && peer in s.bootstrapPeers) || step == ApplyDialMode(LanOnly)
  }

  /** The step that gives one: a direct connection that may reserve, and a listener for it. */
  predicate Takes(s: State, step: Step, peer: PeerId) {
    step.Established? && step.peer == peer && Reserves(s, peer, step.relayed) && step.listen.Some?
  }

  lemma ReservedAfter(s: State, step: Step, peer: PeerId)
    ensures peer in Apply(s, step).relayReserved <==>
      Takes(s, step, peer) || (peer in s.relayReserved && !Frees(s, step, peer))
  {
  }

  ghost predicate FreesAt(s: State, steps: seq<Step>, j: int, peer: PeerId)
    requires 0 <= j < |steps|
  {
    Frees(AfterSteps(s, steps[..j]), steps[j], peer)
  }

  ghost predicate TakesAt(s: State, steps: seq<Step>, j: int, peer: PeerId)
    requires 0 <= j < |steps|
  {
    Takes(AfterSteps(s, steps[..j]), steps[j], peer)
  }

  /** No step from the `j`-th on takes the reservation away. */
  ghost predicate NoneFrees(s: State, steps: seq<Step>, j: int, peer: PeerId) {
    forall m :: j <= m < |steps| && 0 <= m ==> !FreesAt(s, steps, m, peer)
  }

  /** Step `j` gave the reservation, and nothing took it away since. */
  ghost predicate TakenAt(s: State, steps: seq<Step>, j: int, peer: PeerId)
    requires 0 <= j < |steps|
  {
    TakesAt(s, steps, j, peer) && NoneFrees(s, steps, j + 1, peer)
  }

  /** The relay had a reservation to begin with, or some step gave it one, and nothing took it away since. */
  ghost predicate KeepsReservation(s: State, steps: seq<Step>, peer: PeerId) {
    || (peer in s.relayReserved && NoneFrees(s, steps, 0, peer))
    || exists j :: 0 <= j < |steps| && TakenAt(s, steps, j, peer)
  }

  lemma PrefixSteps(s: State, steps: seq<Step>, peer: PeerId)
    requires steps != []
    ensures var shorter := steps[..|steps| - 1];
      && (forall j :: 0 <= j < |shorter| ==> (FreesAt(s, shorter, j, peer) <==> FreesAt(s, steps, j, peer)))
      && (forall j :: 0 <= j < |shorter| ==> (TakesAt(s, shorter, j, peer) <==> TakesAt(s, steps, j, peer)))
  {
    assert forall j :: 0 <= j < |steps| - 1 ==> steps[..|steps| - 1][..j] == steps[..j];
  }

  lemma NoneFreesOneMore(s: State, steps: seq<Step>, j: nat, peer: PeerId)
    requires j < |steps|
    ensures var last := |steps| - 1;
      NoneFrees(s, steps, j, peer) <==> NoneFrees(s, steps[..last], j, peer) && !FreesAt(s, steps, last, peer)
  {
    PrefixSteps(s, steps, peer);
    var last := |steps| - 1;
    if NoneFrees(s, steps[..last], j, peer) && !FreesAt(s, steps, last, peer) {
      forall m | j <= m < |steps| ensures !FreesAt(s, steps, m, peer) {
        assert m < last ==> !FreesAt(s, steps[..last], m, peer);
      }
    }
  }

  lemma TakenOneMore(s: State, steps: seq<Step>, j: nat, peer: PeerId)
    requires j < |steps| - 1
    ensures var last := |steps| - 1;
      TakenAt(s, steps, j, peer) <==> TakenAt(s, steps[..last], j, peer) && !FreesAt(s, steps, last, peer)
  {
    PrefixSteps(s, steps, peer);
    NoneFreesOneMore(s, steps, j + 1, peer);
  }

  lemma KeepsOneMore(s: State, steps: seq<Step>, peer: PeerId)
    requires steps != []
    ensures var last := |steps| - 1;
      KeepsReservation(s, steps, peer) <==>
        TakesAt(s, steps, last, peer) || (KeepsReservation(s, steps[..last], peer) && !FreesAt(s, steps, last, peer))
  {
    var last := |steps| - 1;
    NoneFreesOneMore(s, steps, 0, peer);
    forall j | 0 <= j < last
      ensures TakenAt(s, steps, j, peer) <==> TakenAt(s, steps[..last], j, peer) && !FreesAt(s, steps, last, peer)
    {
      TakenOneMore(s, steps, j, peer);
    }
    assert TakenAt(s, steps, last, peer) <==> TakesAt(s, steps, last, peer);
    if !FreesAt(s, steps, last, peer) {
      if j :| 0 <= j < last && TakenAt(s, steps[..last], j, peer) {
        assert TakenAt(s, steps, j, peer);
      }
    }
  }

  /** Whatever happens in whatever order, a relay is reserved exactly if its history says so. */
  lemma {:induction false} ReservedIff(s: State, steps: seq<Step>, peer: PeerId)
    ensures peer in AfterSteps(s, steps).relayReserved <==> KeepsReservation(s, steps, peer)
    decreases |steps|
  {
    if steps != [] {
      ReservedIff(s, steps[..|steps| - 1], peer);
      KeepsOneMore(s, steps, peer);
      ReservedAfter(AfterSteps(s, steps[..|steps| - 1]), steps[|steps| - 1], peer);
    }
  }

  /** A direct connection gets a new circuit exactly in Internet mode, on the roster, and without a reservation kept. */
  lemma NewCircuitIff(bootstraps: seq<Multiaddr>, mode: DialMode, steps: seq<Step>, peer: PeerId, addr: Multiaddr,
        lid: ListenerId)
    requires var s := AfterSteps(Initial(bootstraps, mode), steps); lid !in s.circuitListeners.Values
    ensures var s := AfterSteps(Initial(bootstraps, mode), steps);
      var s' := Apply(s, Established(peer, addr, false, Some(lid)));
      (peer in s'.circuitListeners && s'.circuitListeners[peer] == lid) <==>
        s.dialMode.Internet? && peer in s.bootstrapPeers
          && !KeepsReservation(Initial(bootstraps, mode), steps, peer)
  {
    var s := AfterSteps(Initial(bootstraps, mode), steps);
    ReservedIff(Initial(bootstraps, mode), steps, peer);
    assert peer in s.circuitListeners ==> s.circuitListeners[peer] in s.circuitListeners.Values;
  }

  /**
   * A reserved relay that comes back, whatever happened between, gets a new circuit exactly if by then the mode is
   * Internet, the roster lists it, and something between took its reservation away: a close of it while it was on the
   * roster, or a spell of LAN-only mode. Otherwise the stale reservation stands in the way.
   */
  lemma ReservationRenewedIff(s: State, mid: seq<Step>, peer: PeerId, addr: Multiaddr, lid: ListenerId)
    requires peer in s.relayReserved && lid !in AfterSteps(s, mid).circuitListeners.Values
    requires forall j :: 0 <= j < |mid| ==> !(mid[j].Established? && mid[j].peer == peer && !mid[j].relayed)
    ensures var back := AfterSteps(s, mid);
      var s' := Apply(back, Established(peer, addr, false, Some(lid)));
      (peer in s'.circuitListeners && s'.circuitListeners[peer] == lid) <==>
        back.dialMode.Internet? && peer in back.bootstrapPeers && exists j :: 0 <= j < |mid| && FreesAt(s, mid, j, peer)
  {
    var back := AfterSteps(s, mid);
    ReservedIff(s, mid, peer);
    assert peer in back.circuitListeners ==> back.circuitListeners[peer] in back.circuitListeners.Values;
    assert forall j :: 0 <= j < |mid| ==> !TakesAt(s, mid, j, peer);
    if exists j :: 0 <= j < |mid| && FreesAt(s, mid, j, peer) {
      assert !NoneFrees(s, mid, 0, peer);
    }
  }

  /** Off the roster when its connection closed, listed again and back: no new circuit. */
  lemma StaleReservation(s: State, peer: PeerId, closedLast: bool, roster: seq<Multiaddr>, addr: Multiaddr,
        lid: ListenerId)
    requires peer in s.relayReserved && peer !in s.bootstrapPeers && lid !in s.circuitListeners.Values
    ensures AfterSteps(s, [Closed(peer, closedLast), UpdateBootstraps(roster),
                           Established(peer, addr, false, Some(lid))]).circuitListeners == s.circuitListeners
  {
    var steps := [Closed(peer, closedLast), UpdateBootstraps(roster), Established(peer, addr, false, Some(lid))];
    assert steps[..2] == [Closed(peer, closedLast), UpdateBootstraps(roster)];
    assert steps[..2][..1] == [Closed(peer, closedLast)];
    assert steps[..2][..1][..0] == [];
    assert AfterSteps(s, steps[..2][..1]) == Apply(s, steps[0]);
    assert AfterSteps(s, steps[..2]) == Apply(Apply(s, steps[0]), steps[1]);
  }
}
