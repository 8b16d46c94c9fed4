/** Throttling of redials to offline peers, and the relay-to-direct upgrade schedule. */
module Reconnect {
  import opened Types

  const U32_MAX: nat := 0xFFFF_FFFF

  // Durations and instants in milliseconds.
  const BASE: nat := 30_000
  const MAX_STEP: nat := 6
  const CEILING: nat := 600_000

  function Min(a: nat, b: nat): nat { if a <= b then a else b }

  function SaturatingInc(n: nat): nat { if n >= U32_MAX then U32_MAX else n + 1 }

  /** `BASE * 2^min(step, MAX_STEP)`, at most `CEILING`. */
  function CooldownFor(step: nat): nat {
    Min(BASE * Pow2(Min(step, MAX_STEP)), CEILING)
  }

  datatype Schedule = Schedule(attempts: nat, nextAt: int)

  function Recorded(s: Schedule, now: int, jitter: nat): Schedule {
    Schedule(SaturatingInc(s.attempts), now + CooldownFor(s.attempts) + jitter)
  }

  class Backoff {
    var attempts: nat
    var nextAt: int

    function View(): Schedule
      reads this
    {
      Schedule(attempts, nextAt)
    }

    constructor Ready(now: int)
      ensures View() == Schedule(0, now)
    {
      attempts := 0;
      nextAt := now;
    }

    predicate Due(now: int)
      reads this
    {
      now >= nextAt
    }

    method Record(now: int, jitter: nat)
      modifies this
      ensures View() == Recorded(old(View()), now, jitter)
    {
      var wait := CooldownFor(attempts) + jitter;
      attempts := SaturatingInc(attempts);
      nextAt := now + wait;
    }

    /** The ticker's guard: an attempt fires, and is recorded, exactly when one is due. */
    method TryRecord(now: int, jitter: nat) returns (fired: bool)
      modifies this
      ensures fired == (now >= old(nextAt))
      ensures View() == if fired then Recorded(old(View()), now, jitter) else old(View())
    {
      fired := Due(now);
      if fired {
        Record(now, jitter);
      }
    }
  }

  /** One look at an offline contact by the ticker: when, and with which jitter. */
  datatype Look = Look(now: int, jitter: nat)

  /** The schedule after the ticker looked at an offline peer at each of `looks`, the first look creating it. */
  function AfterLooks(looks: seq<Look>): Schedule
    requires looks != []
    decreases |looks|
  {
    var last := looks[|looks| - 1];
    var before := if |looks| == 1 then Schedule(0, last.now) else AfterLooks(looks[..|looks| - 1]);
    if last.now >= before.nextAt then Recorded(before, last.now, last.jitter) else before
  }

  /** The times at which an attempt was recorded. */
  function Attempts(looks: seq<Look>): seq<int>
    decreases |looks|
  {
    if looks == [] then []
    else
      var last := looks[|looks| - 1];
      var before := Attempts(looks[..|looks| - 1]);
      if |looks| == 1 || last.now >= AfterLooks(looks[..|looks| - 1]).nextAt then before + [last.now] else before
  }

  /** The least time from the first recorded attempt to attempt number `n`, counting from 0. */
  function Earliest(n: nat): nat {
    if n <= 5 then BASE * (Pow2(n) - 1) else 930_000 + 600_000 * (n - 5)
  }

  lemma CooldownTable(step: nat)
    ensures CooldownFor(step) == if step < 5 then BASE * Pow2(step) else CEILING
    ensures Earliest(step + 1) == Earliest(step) + CooldownFor(step)
  {
    assert Pow2(0) == 1 && Pow2(1) == 2 && Pow2(2) == 4 && Pow2(3) == 8 && Pow2(4) == 16;
    assert Pow2(5) == 32 && Pow2(6) == 64;
  }

  /** Attempt number `n` is never earlier than `Earliest(n)` after the first, even once the counter has saturated. */
  lemma {:induction false} AttemptsAreSpaced(looks: seq<Look>)
    requires looks != []
    ensures var times := Attempts(looks);
      && 0 < |times| <= |looks| && times[0] == looks[0].now
      && AfterLooks(looks).attempts == Min(|times|, U32_MAX)
      && AfterLooks(looks).nextAt >= times[0] + Earliest(|times|)
      && forall n :: 0 <= n < |times| ==> times[n] >= times[0] + Earliest(n)
    decreases |looks|
  {
    var prefix := looks[..|looks| - 1];
    assert Earliest(0) == 0 by { assert Pow2(0) == 1; }
    if |looks| == 1 {
      CooldownTable(0);
      assert Attempts(prefix) == [];
    } else {
      AttemptsAreSpaced(prefix);
      CooldownTable(|Attempts(prefix)|);
    }
  }

  /** The look at which the latest attempt was recorded. */
  function LastFired(looks: seq<Look>): Look
    requires looks != []
    decreases |looks|
  {
    var last, before := looks[|looks| - 1], looks[..|looks| - 1];
    if |looks| == 1 || |Attempts(looks)| > |Attempts(before)| then last else LastFired(before)
  }

  /** The wait after the `n`-th attempt, counting from 0, in milliseconds and without the jitter. */
  function WaitAfter(n: nat): nat {
    match n
    case 0 => 30_000
    case 1 => 60_000
    case 2 => 120_000
    case 3 => 240_000
    case 4 => 480_000
    case _ => 600_000
  }

  lemma WaitAfterIs(n: nat)
    ensures CooldownFor(n) == WaitAfter(n)
  {
    CooldownTable(n);
    assert Pow2(0) == 1 && Pow2(1) == 2 && Pow2(2) == 4 && Pow2(3) == 8 && Pow2(4) == 16;
  }

  lemma {:induction false} NextIsAfterLast(looks: seq<Look>)
    requires looks != []
    ensures Attempts(looks) != [] && Attempts(looks)[|Attempts(looks)| - 1] == LastFired(looks).now
    ensures AfterLooks(looks).nextAt ==
      LastFired(looks).now + WaitAfter(|Attempts(looks)| - 1) + LastFired(looks).jitter
    decreases |looks|
  {
    var prefix := looks[..|looks| - 1];
    AttemptsAreSpaced(looks);
    if |looks| == 1 {
      assert Attempts(prefix) == [];
      WaitAfterIs(0);
    } else {
      NextIsAfterLast(prefix);
      AttemptsAreSpaced(prefix);
      WaitAfterIs(|Attempts(prefix)|);
      WaitAfterIs(Min(|Attempts(prefix)|, U32_MAX));
    }
  }

  /** A look redials exactly if the wait since the latest attempt, its jitter included, is over. */
  lemma FiresIff(looks: seq<Look>)
    requires |looks| > 1
    ensures var before, now := looks[..|looks| - 1], looks[|looks| - 1].now;
      && Attempts(before) != []
      && (|Attempts(looks)| > |Attempts(before)| <==>
            now >= LastFired(before).now + WaitAfter(|Attempts(before)| - 1) + LastFired(before).jitter)
  {
    NextIsAfterLast(looks[..|looks| - 1]);
  }

  /**
   * However often the ticker looks, a span of at least 930 s from the first attempt sees one attempt per 600 s at
   * most.
   */
  lemma SpanBound(looks: seq<Look>, span: nat, n: nat)
    requires looks != [] && span >= 930_000
    requires n < |Attempts(looks)| && Attempts(looks)[n] <= Attempts(looks)[0] + span
    ensures n + 1 <= 6 + (span - 930_000) / 600_000
  {
    AttemptsAreSpaced(looks);
  }

  // ---------------------------------------------------------------- relay-to-direct upgrades

  /** An early burst at 0, 5 and 10, then every twentieth relayed tick. */
  predicate ShouldAttemptUpgrade(attempts: nat) {
    attempts == 0 || attempts == 5 || attempts == 10 || (attempts > 10 && attempts % 20 == 0)
  }

  class UpgradeBackoff {
    var ticks: map<nat, nat>

    constructor ()
      ensures ticks == map[]
    {
      ticks := map[];
    }

    /** One relayed tick of `peer`: whether to redial, by the count before it is bumped. */
    method Tick(peer: nat) returns (attempt: bool)
      modifies this
      ensures var n := if peer in old(ticks) then old(ticks)[peer] else 0;
        attempt == ShouldAttemptUpgrade(n) && ticks == old(ticks)[peer := SaturatingInc(n)]
    {
      if peer !in ticks {
        ticks := ticks[peer := 0];
      }
      var n := ticks[peer];
      ticks := ticks[peer := SaturatingInc(n)];
      attempt := ShouldAttemptUpgrade(n);
    }

    method Reset(peer: nat)
      modifies this
      ensures ticks == old(ticks) - {peer}
    {
      ticks := ticks - {peer};
    }
  }

  /** The counter after `n` ticks without a reset, and how many of those ticks attempted an upgrade. */
  function AfterTicks(n: nat): (counter: nat) {
    if n == 0 then 0 else SaturatingInc(AfterTicks(n - 1))
  }

  function UpgradeAttempts(n: nat): nat {
    if n == 0 then 0 else UpgradeAttempts(n - 1) + if ShouldAttemptUpgrade(AfterTicks(n - 1)) then 1 else 0
  }

  lemma {:induction false} TicksSaturate(n: nat)
    ensures AfterTicks(n) == Min(n, U32_MAX)
  {
    if n > 0 {
      TicksSaturate(n - 1);
    }
  }

  /** Three attempts in the burst, one per twenty ticks afterwards, and none any more once the counter has saturated. */
  lemma {:induction false} UpgradeCount(n: nat)
    requires n >= 11
    ensures UpgradeAttempts(n) == 3 + Min(n - 1, 4_294_967_295) / 20
  {
    if n == 11 {
      TicksSaturate(10);
      UpgradeBurst(10);
    } else {
      UpgradeCount(n - 1);
      TicksSaturate(n - 1);
    }
  }

  lemma {:induction false} UpgradeBurst(n: nat)
    requires n <= 10
    ensures UpgradeAttempts(n) == if n == 0 then 0 else if n <= 5 then 1 else 2
  {
    if n > 0 {
      UpgradeBurst(n - 1);
      TicksSaturate(n - 1);
    }
  }
}
