/** The per-peer sliding-window limiter for inbound requests. */
module RateLimit {
  import opened Types

  /** Milliseconds; the clock is read under the limiter's lock, so successive readings never decrease. */
  type Instant = int

  datatype BucketLimit = BucketLimit(maxEvents: nat, window: nat)

  datatype Protocol = Handshake | Msg | Sync

  const HANDSHAKE_LIMIT := BucketLimit(60, 60_000)
  const MSG_LIMIT := BucketLimit(1200, 60_000)
  const SYNC_LIMIT := BucketLimit(256, 60_000)

  function DefaultLimit(protocol: Protocol): BucketLimit {
    match protocol
    case Handshake => HANDSHAKE_LIMIT
    case Msg => MSG_LIMIT
    case Sync => SYNC_LIMIT
  }

  // ---------------------------------------------------------------- one bucket

  /** The events no older than `cutoff`, in their order. */
  function Retained(events: seq<Instant>, cutoff: Instant): seq<Instant> {
    if events == [] then []
    else
      var rest := Retained(events[..|events| - 1], cutoff);
      if events[|events| - 1] >= cutoff then rest + [events[|events| - 1]] else rest
  }

  /** The answer to one request and the events kept afterwards. */
  function Consume(events: seq<Instant>, limit: BucketLimit, now: Instant): (bool, seq<Instant>) {
    var kept := Retained(events, now - limit.window);
    if |kept| >= limit.maxEvents then (false, kept) else (true, kept + [now])
  }

  class Bucket {
    var events: seq<Instant>

    constructor (events: seq<Instant>)
      ensures this.events == events
    {
      this.events := events;
    }

    method TryConsume(limit: BucketLimit, now: Instant) returns (ok: bool)
      modifies this
      ensures (ok, events) == Consume(old(events), limit, now)
    {
      var cutoff := now - limit.window;
      events := Retained(events, cutoff);
      if |events| >= limit.maxEvents {
        ok := false;
      } else {
        events := events + [now];
        ok := true;
      }
    }
  }

  /** The events a bucket holds after the requests `times`, starting empty. */
  function After(times: seq<Instant>, limit: BucketLimit): seq<Instant> {
    if times == [] then []
    else Consume(After(times[..|times| - 1], limit), limit, times[|times| - 1]).1
  }

  /** The bucket's answers to the requests `times`, starting empty. */
  function Greedy(times: seq<Instant>, limit: BucketLimit): (answers: seq<bool>)
    ensures |answers| == |times|
  {
    if times == [] then []
    else
      Greedy(times[..|times| - 1], limit)
      + [Consume(After(times[..|times| - 1], limit), limit, times[|times| - 1]).0]
  }

  ghost predicate NonDecreasing(times: seq<Instant>) {
    forall i, j :: 0 <= i < j < |times| ==> times[i] <= times[j]
  }

  /** How many of the first `k` requests were admitted at a time in `[from, to]`. */
  function Admitted(times: seq<Instant>, answers: seq<bool>, k: nat, from: Instant, to: Instant): nat
    requires k <= |times| == |answers|
  {
    if k == 0 then 0
    else
      Admitted(times, answers, k - 1, from, to)
      + if answers[k - 1] && from <= times[k - 1] <= to then 1 else 0
  }

  /** How many of the first `k` requests were admitted. */
  function Total(answers: seq<bool>, k: nat): nat
    requires k <= |answers|
  {
    if k == 0 then 0 else Total(answers, k - 1) + if answers[k - 1] then 1 else 0
  }

  /** At most `maxEvents` admissions in every closed interval of length `window`. */
  ghost predicate Respects(times: seq<Instant>, answers: seq<bool>, limit: BucketLimit)
    requires |times| == |answers|
  {
    forall from, to :: to <= from + limit.window ==> Admitted(times, answers, |times|, from, to) <= limit.maxEvents
  }

  lemma {:induction false} RetainedTwice(events: seq<Instant>, low: Instant, high: Instant)
    requires low <= high
    ensures Retained(Retained(events, low), high) == Retained(events, high)
  {
    if events != [] {
      var prefix, last := events[..|events| - 1], events[|events| - 1];
      RetainedTwice(prefix, low, high);
      if last >= low {
        var kept := Retained(prefix, low) + [last];
        assert kept[..|kept| - 1] == Retained(prefix, low);
      }
    }
  }

  /** What `Greedy` admitted at or after `from` among the first `k` requests. */
  function AdmittedFrom(times: seq<Instant>, answers: seq<bool>, k: nat, from: Instant): nat
    requires k <= |times| == |answers|
  {
    if k == 0 then 0
    else AdmittedFrom(times, answers, k - 1, from) + if answers[k - 1] && from <= times[k - 1] then 1 else 0
  }

  lemma {:induction false} GreedyPrefix(times: seq<Instant>, limit: BucketLimit, k: nat)
    requires k <= |times|
    ensures Greedy(times, limit)[..k] == Greedy(times[..k], limit)
  {
    if k < |times| {
      var prefix := times[..|times| - 1];
      GreedyPrefix(prefix, limit, k);
      assert prefix[..k] == times[..k];
      assert Greedy(times, limit)[..k] == Greedy(prefix, limit)[..k];
    } else {
      assert times[..k] == times;
    }
  }

  lemma GreedyAt(times: seq<Instant>, limit: BucketLimit, k: nat)
    requires k < |times|
    ensures Greedy(times, limit)[k] == Consume(After(times[..k], limit), limit, times[k]).0
    ensures After(times[..k + 1], limit) == Consume(After(times[..k], limit), limit, times[k]).1
  {
    var upto := times[..k + 1];
    GreedyPrefix(times, limit, k + 1);
    assert upto[..k] == times[..k];
    assert Greedy(times, limit)[k] == Greedy(times, limit)[..k + 1][k] == Greedy(upto, limit)[k];
  }

  lemma RetainedLast(events: seq<Instant>, t: Instant, cutoff: Instant)
    ensures Retained(events + [t], cutoff) == Retained(events, cutoff) + if t >= cutoff then [t] else []
  {
    var longer := events + [t];
    assert longer[..|longer| - 1] == events;
  }

  /** What a bucket keeps of a request, once it has been asked. */
  lemma ConsumedKeeps(events: seq<Instant>, limit: BucketLimit, now: Instant, cutoff: Instant)
    requires now - limit.window <= cutoff
    ensures var (ok, after) := Consume(events, limit, now);
      Retained(after, cutoff) == Retained(events, cutoff) + if ok && now >= cutoff then [now] else []
  {
    RetainedTwice(events, now - limit.window, cutoff);
    RetainedLast(Retained(events, now - limit.window), now, cutoff);
  }

  /** A bucket remembers exactly the admissions still inside the current window: nothing it drops can matter later. */
  lemma {:induction false} BucketRemembers(times: seq<Instant>, limit: BucketLimit, k: nat, cutoff: Instant)
    requires k <= |times| && NonDecreasing(times)
    requires k > 0 ==> times[k - 1] - limit.window <= cutoff
    ensures |Retained(After(times[..k], limit), cutoff)| == AdmittedFrom(times, Greedy(times, limit), k, cutoff)
  {
    if k > 0 {
      GreedyAt(times, limit, k - 1);
      ConsumedKeeps(After(times[..k - 1], limit), limit, times[k - 1], cutoff);
      BucketRemembers(times, limit, k - 1, cutoff);
    }
  }

  lemma {:induction false} AdmittedBounds(times: seq<Instant>, answers: seq<bool>, k: nat, from: Instant, to: Instant)
    requires k <= |times| == |answers|
    ensures Admitted(times, answers, k, from, to) <= AdmittedFrom(times, answers, k, from)
  {
    if k > 0 {
      AdmittedBounds(times, answers, k - 1, from, to);
    }
  }

  lemma {:induction false} AdmittedFromShrinks(times: seq<Instant>, answers: seq<bool>, k: nat, low: Instant,
        high: Instant)
    requires k <= |times| == |answers| && low <= high
    ensures AdmittedFrom(times, answers, k, high) <= AdmittedFrom(times, answers, k, low)
  {
    if k > 0 {
      AdmittedFromShrinks(times, answers, k - 1, low, high);
    }
  }

  /** The bucket never admits more than `maxEvents` requests in any closed interval of length `window`. */
  lemma WindowBound(times: seq<Instant>, limit: BucketLimit)
    requires NonDecreasing(times)
    ensures Respects(times, Greedy(times, limit), limit)
  {
    forall from, to | to <= from + limit.window
      ensures Admitted(times, Greedy(times, limit), |times|, from, to) <= limit.maxEvents
    {
      WindowBoundUpTo(times, limit, |times|, from, to);
    }
  }

  /** Everything counted before an admitted request is still in the bucket that admits it, so there was room. */
  lemma RoomWhenAdmitted(times: seq<Instant>, limit: BucketLimit, k: nat, from: Instant, to: Instant)
    requires k < |times| && NonDecreasing(times) && from <= times[k] <= to <= from + limit.window
    requires Greedy(times, limit)[k]
    ensures Admitted(times, Greedy(times, limit), k, from, to) < limit.maxEvents
  {
    var answers := Greedy(times, limit);
    var cutoff := times[k] - limit.window;
    GreedyAt(times, limit, k);
    AdmittedBounds(times, answers, k, from, to);
    AdmittedFromShrinks(times, answers, k, cutoff, from);
    BucketRemembers(times, limit, k, cutoff);
  }

  lemma {:induction false} WindowBoundUpTo(times: seq<Instant>, limit: BucketLimit, k: nat, from: Instant, to: Instant)
    requires k <= |times| && NonDecreasing(times) && to <= from + limit.window
    ensures Admitted(times, Greedy(times, limit), k, from, to) <= limit.maxEvents
  {
    if k > 0 {
      WindowBoundUpTo(times, limit, k - 1, from, to);
      if Greedy(times, limit)[k - 1] && from <= times[k - 1] <= to {
        RoomWhenAdmitted(times, limit, k - 1, from, to);
      }
    }
  }

  // ---------------------------------------------------------------- optimality of admitting greedily

  /** The first request that is still inside a window starting at `from`. */
  function FirstFrom(times: seq<Instant>, k: nat, from: Instant): (p: nat)
    requires k <= |times|
    ensures p <= k
    ensures NonDecreasing(times) ==>
      (forall i :: 0 <= i < p ==> times[i] < from) && (forall i :: p <= i < k ==> from <= times[i])
  {
    if k == 0 then 0
    else if times[k - 1] < from then k
    else FirstFrom(times, k - 1, from)
  }

  lemma {:induction false} AdmittedSplits(times: seq<Instant>, answers: seq<bool>, p: nat, k: nat, from: Instant,
        to: Instant)
    requires p <= k <= |times| == |answers|
    requires forall i :: 0 <= i < p ==> times[i] < from
    requires forall i :: p <= i < k ==> from <= times[i] <= to
    ensures Admitted(times, answers, k, from, to) == Total(answers, k) - Total(answers, p)
    ensures AdmittedFrom(times, answers, k, from) == Total(answers, k) - Total(answers, p)
  {
    if k > 0 {
      AdmittedSplits(times, answers, if p == k then k - 1 else p, k - 1, from, to);
    }
  }

  lemma {:induction false} AdmittedGrows(times: seq<Instant>, answers: seq<bool>, j: nat, k: nat, from: Instant,
        to: Instant)
    requires j <= k <= |times| == |answers|
    ensures Admitted(times, answers, j, from, to) <= Admitted(times, answers, k, from, to)
  {
    if j < k {
      AdmittedGrows(times, answers, j, k - 1, from, to);
    }
  }

  /**
   * The bucket refuses the `k`-th request and the other choice admits it: within the window before it the bucket had
   * admitted all it may, so if it was not behind when that window began it is not behind now.
   */
  lemma RefusedButNotBehind(times: seq<Instant>, other: seq<bool>, limit: BucketLimit, k: nat)
    requires NonDecreasing(times) && |other| == |times| && 0 < k <= |times|
    requires Respects(times, other, limit) && other[k - 1] && !Greedy(times, limit)[k - 1]
    requires var p := FirstFrom(times, k - 1, times[k - 1] - limit.window);
      Total(other, p) <= Total(Greedy(times, limit), p)
    ensures Total(other, k) <= Total(Greedy(times, limit), k)
  {
    var answers := Greedy(times, limit);
    var to := times[k - 1];
    var from := to - limit.window;
    var p := FirstFrom(times, k - 1, from);
    GreedyAt(times, limit, k - 1);
    BucketRemembers(times, limit, k - 1, from);
    AdmittedSplits(times, answers, p, k - 1, from, to);
    AdmittedSplits(times, other, p, k, from, to);
    AdmittedGrows(times, other, k, |times|, from, to);
  }

  /** No choice of admissions that respects the same bound is ahead of the bucket after any number of requests. */
  lemma {:induction false} GreedyIsOptimal(times: seq<Instant>, other: seq<bool>, limit: BucketLimit, k: nat)
    requires NonDecreasing(times) && |other| == |times| && k <= |times|
    requires Respects(times, other, limit)
    ensures Total(other, k) <= Total(Greedy(times, limit), k)
  {
    if k > 0 {
      GreedyIsOptimal(times, other, limit, k - 1);
      if other[k - 1] && !Greedy(times, limit)[k - 1] {
        GreedyIsOptimal(times, other, limit, FirstFrom(times, k - 1, times[k - 1] - limit.window));
        RefusedButNotBehind(times, other, limit, k);
      }
    }
  }

  // ---------------------------------------------------------------- a full reconcile fits

  lemma {:induction false} RetainedShrinks(events: seq<Instant>, cutoff: Instant)
    ensures |Retained(events, cutoff)| <= |events|
  {
    if events != [] {
      RetainedShrinks(events[..|events| - 1], cutoff);
    }
  }

  /** The bucket after further requests `times` on top of `events`, and whether all of them were admitted. */
  function Serve(events: seq<Instant>, limit: BucketLimit, times: seq<Instant>): (bool, seq<Instant>)
    decreases |times|
  {
    if |times| == 0 then (true, events)
    else
      var (ok, next) := Consume(events, limit, times[0]);
      var (rest, final) := Serve(next, limit, times[1..]);
      (ok && rest, final)
  }

  /** A bucket with room for all of them refuses none of a burst of requests, whenever they come. */
  lemma {:induction false} BurstAdmitted(events: seq<Instant>, limit: BucketLimit, times: seq<Instant>)
    requires |events| + |times| <= limit.maxEvents
    ensures Serve(events, limit, times).0
    decreases |times|
  {
    if times != [] {
      RetainedShrinks(events, times[0] - limit.window);
      BurstAdmitted(Consume(events, limit, times[0]).1, limit, times[1..]);
    }
  }

  // ---------------------------------------------------------------- the limiter

  /** The three buckets of one peer, as values. */
  datatype PeerEvents = PeerEvents(handshake: seq<Instant>, msg: seq<Instant>, sync: seq<Instant>) {
    function Of(protocol: Protocol): seq<Instant> {
      match protocol
      case Handshake => handshake
      case Msg => msg
      case Sync => sync
    }

    function With(protocol: Protocol, events: seq<Instant>): PeerEvents {
      match protocol
      case Handshake => this.(handshake := events)
      case Msg => this.(msg := events)
      case Sync => this.(sync := events)
    }
  }

  type Buckets = map<PeerId, PeerEvents>

  function EntryOf(buckets: Buckets, peer: PeerId): PeerEvents {
    if peer in buckets then buckets[peer] else PeerEvents([], [], [])
  }

  datatype Call = Request(peer: PeerId, protocol: Protocol, now: Instant) | Forget(peer: PeerId)

  /** One call on the limiter: the answer (`true` for `Forget`) and the new buckets. */
  function Step(buckets: Buckets, call: Call, limits: Protocol -> BucketLimit): (bool, Buckets) {
    match call
    case Forget(peer) => (true, buckets - {peer})
    case Request(peer, protocol, now) =>
      var entry := EntryOf(buckets, peer);
      var (ok, events) := Consume(entry.Of(protocol), limits(protocol), now);
      (ok, buckets[peer := entry.With(protocol, events)])
  }

  /**
   * The limiter owns its buckets by value: an entry is read, one of its buckets consumes, and the entry is stored
   * back.
   */
  class RateLimiter {
    var inner: Buckets
    const limits: Protocol -> BucketLimit

    constructor (limits: Protocol -> BucketLimit)
      ensures inner == map[] && this.limits == limits
    {
      inner := map[];
      this.limits := limits;
    }

    /** `allow_handshake`, `allow_msg` and `allow_sync`, which differ only in the bucket and the limit they use. */
    method Allow(peer: PeerId, protocol: Protocol, now: Instant) returns (ok: bool)
      modifies this
      ensures (ok, inner) == Step(old(inner), Request(peer, protocol, now), limits)
    {
      var entry := EntryOf(inner, peer);
      var bucket := new Bucket(entry.Of(protocol));
      ok := bucket.TryConsume(limits(protocol), now);
      inner := inner[peer := entry.With(protocol, bucket.events)];
    }

    /** Drops the buckets of a peer that fully disconnected. */
    method Forget(peer: PeerId)
      modifies this
      ensures inner == Step(old(inner), Call.Forget(peer), limits).1
    {
      inner := inner - {peer};
    }
  }

  function AfterCalls(calls: seq<Call>, limits: Protocol -> BucketLimit): Buckets {
    if calls == [] then map[]
    else Step(AfterCalls(calls[..|calls| - 1], limits), calls[|calls| - 1], limits).1
  }

  /** When `peer` sent the requests on `protocol` that came after it was last forgotten. */
  function Since(calls: seq<Call>, peer: PeerId, protocol: Protocol): seq<Instant> {
    if calls == [] then []
    else
      var before := Since(calls[..|calls| - 1], peer, protocol);
      match calls[|calls| - 1]
      case Forget(p) => if p == peer then [] else before
      case Request(p, k, now) => if p == peer && k == protocol then before + [now] else before
  }

  ghost predicate Ordered(calls: seq<Call>) {
    forall i, j :: 0 <= i < j < |calls| && calls[i].Request? && calls[j].Request? ==> calls[i].now <= calls[j].now
  }

  lemma OneCall(buckets: Buckets, call: Call, limits: Protocol -> BucketLimit, peer: PeerId, protocol: Protocol)
    ensures var was := EntryOf(buckets, peer).Of(protocol);
      EntryOf(Step(buckets, call, limits).1, peer).Of(protocol) ==
        match call
        case Forget(p) => if p == peer then [] else was
        case Request(p, k, now) => if p == peer && k == protocol then Consume(was, limits(k), now).1 else was
  {
  }

  /** A bucket depends only on its own peer's requests on its own protocol since that peer was last forgotten. */
  lemma {:induction false} BucketsAreIndependent(calls: seq<Call>, limits: Protocol -> BucketLimit, peer: PeerId,
        protocol: Protocol)
    ensures EntryOf(AfterCalls(calls, limits), peer).Of(protocol) ==
      After(Since(calls, peer, protocol), limits(protocol))
  {
    if calls != [] {
      var prefix, call := calls[..|calls| - 1], calls[|calls| - 1];
      BucketsAreIndependent(prefix, limits, peer, protocol);
      OneCall(AfterCalls(prefix, limits), call, limits, peer, protocol);
      var times := Since(prefix, peer, protocol);
      if call.Request? && call.peer == peer && call.protocol == protocol {
        assert (times + [call.now])[..|times|] == times;
      }
    }
  }

  lemma {:induction false} SinceOrdered(calls: seq<Call>, peer: PeerId, protocol: Protocol)
    requires Ordered(calls)
    ensures NonDecreasing(Since(calls, peer, protocol))
    ensures forall t :: t in Since(calls, peer, protocol) ==>
      exists i :: 0 <= i < |calls| && calls[i].Request? && calls[i].now == t
  {
    if calls != [] {
      var prefix := calls[..|calls| - 1];
      assert forall i :: 0 <= i < |prefix| ==> prefix[i] == calls[i];
      SinceOrdered(prefix, peer, protocol);
      var before, last := Since(prefix, peer, protocol), calls[|calls| - 1];
      forall k | 0 <= k < |before|
        ensures last.Request? ==> before[k] <= last.now
        ensures exists i :: 0 <= i < |calls| && calls[i].Request? && calls[i].now == before[k]
      {
        assert before[k] in before;
        var i :| 0 <= i < |prefix| && prefix[i].Request? && prefix[i].now == before[k];
        assert calls[i] == prefix[i];
      }
    }
  }

  /**
   * The limiter as a whole: after any sequence of calls, what it admitted from a peer on a protocol since that
   * peer was last forgotten respects the limit, no other choice would have admitted more of those requests, and
   * the next request is answered as that peer's own requests decide.
   */
  lemma LimiterBound(calls: seq<Call>, limits: Protocol -> BucketLimit, peer: PeerId, protocol: Protocol, now: Instant,
        other: seq<bool>)
    requires Ordered(calls)
    ensures var times := Since(calls, peer, protocol);
      && Respects(times, Greedy(times, limits(protocol)), limits(protocol))
      && Step(AfterCalls(calls, limits), Request(peer, protocol, now), limits).0
         == Greedy(times + [now], limits(protocol))[|times|]
      && (|other| == |times| && Respects(times, other, limits(protocol)) ==>
            Total(other, |times|) <= Total(Greedy(times, limits(protocol)), |times|))
  {
    var times := Since(calls, peer, protocol);
    SinceOrdered(calls, peer, protocol);
    WindowBound(times, limits(protocol));
    BucketsAreIndependent(calls, limits, peer, protocol);
    assert (times + [now])[..|times|] == times;
    if |other| == |times| && Respects(times, other, limits(protocol)) {
      GreedyIsOptimal(times, other, limits(protocol), |times|);
    }
  }

  lemma BucketHolds(times: seq<Instant>, limit: BucketLimit, cutoff: Instant)
    requires NonDecreasing(times) && (times == [] || times[|times| - 1] - limit.window <= cutoff)
    ensures |Retained(After(times, limit), cutoff)| == AdmittedFrom(times, Greedy(times, limit), |times|, cutoff)
  {
    var all := times[..|times|];
    assert all == times;
    BucketRemembers(times, limit, |times|, cutoff);
  }

  lemma ConsumeAnswers(events: seq<Instant>, limit: BucketLimit, now: Instant, held: nat)
    requires |Retained(events, now - limit.window)| == held
    ensures Consume(events, limit, now).0 <==> held < limit.maxEvents
  {
  }

  /** A bucket admits a request exactly if it admitted fewer than the limit in the window that ends with it. */
  lemma AdmitsIff(times: seq<Instant>, now: Instant, limit: BucketLimit)
    requires NonDecreasing(times) && (times == [] || times[|times| - 1] <= now)
    ensures Consume(After(times, limit), limit, now).0 <==>
      AdmittedFrom(times, Greedy(times, limit), |times|, now - limit.window) < limit.maxEvents
  {
    var held := AdmittedFrom(times, Greedy(times, limit), |times|, now - limit.window);
    BucketHolds(times, limit, now - limit.window);
    ConsumeAnswers(After(times, limit), limit, now, held);
  }

  /** How many requests a peer may make in a minute. */
  function PerMinute(protocol: Protocol): nat {
    match protocol
    case Handshake => 60
    case Msg => 1200
    case Sync => 256
  }

  lemma SinceWith(calls: seq<Call>, peer: PeerId, protocol: Protocol, now: Instant)
    requires Ordered(calls + [Request(peer, protocol, now)])
    ensures var times := Since(calls, peer, protocol);
      Ordered(calls) && NonDecreasing(times) && (times == [] || times[|times| - 1] <= now)
  {
    var longer := calls + [Request(peer, protocol, now)];
    assert longer[..|calls|] == calls;
    assert forall i :: 0 <= i < |calls| ==> calls[i] == longer[i];
    SinceOrdered(longer, peer, protocol);
    var times := Since(calls, peer, protocol);
    assert Since(longer, peer, protocol) == times + [now];
    Shortened(times, now);
  }

  lemma Shortened(times: seq<Instant>, now: Instant)
    requires NonDecreasing(times + [now])
    ensures NonDecreasing(times) && (times == [] || times[|times| - 1] <= now)
  {
    var longer := times + [now];
    assert forall i :: 0 <= i < |times| ==> longer[i] == times[i];
    assert times == [] || longer[|times| - 1] <= longer[|times|];
  }

  /**
   * With the limits as shipped, whatever the other peers do, a request is served exactly if fewer than 60 handshakes,
   * 1200 messages or 256 sync requests of that peer were served in the last minute, since it was last forgotten.
   */
  lemma ServedIff(calls: seq<Call>, peer: PeerId, protocol: Protocol, now: Instant)
    requires Ordered(calls + [Request(peer, protocol, now)])
    ensures var limits := (p: Protocol) => DefaultLimit(p);
      var times := Since(calls, peer, protocol);
      Step(AfterCalls(calls, limits), Request(peer, protocol, now), limits).0 <==>
        AdmittedFrom(times, Greedy(times, DefaultLimit(protocol)), |times|, now - 60_000) < PerMinute(protocol)
  {
    SinceWith(calls, peer, protocol, now);
    BucketsAreIndependent(calls, (p: Protocol) => DefaultLimit(p), peer, protocol);
    AdmitsIff(Since(calls, peer, protocol), now, DefaultLimit(protocol));
  }
}
