/**
 * The server-tick counter that periodically asks the ship-mass weights to
 * drop their cache.
 */
module CacheCleaner {
  /** Ticks between two cleanings (ten seconds at twenty ticks a second). */
  const CleanInterval: int := 200

  /** One server tick: (new counter, whether the cache was cleaned). Only the END phase counts. */
  function Step(counter: int, endPhase: bool): (r: (int, bool))
    ensures !endPhase ==> r == (counter, false)
    ensures 0 <= counter < CleanInterval ==> 0 <= r.0 < CleanInterval
  {
    if !endPhase then (counter, false)
    else if counter + 1 >= CleanInterval then (0, true)
    else (counter + 1, false)
  }

  /** The counter after `n` END ticks from `counter`. */
  function AfterEndTicks(counter: int, n: nat): int
  {
    if n == 0 then counter else Step(AfterEndTicks(counter, n - 1), true).0
  }

  /** How many cleanings `n` END ticks from `counter` trigger. */
  function CleansDuring(counter: int, n: nat): nat
  {
    if n == 0 then 0
    else CleansDuring(counter, n - 1) + (if Step(AfterEndTicks(counter, n - 1), true).1 then 1 else 0)
  }

  /** From any in-range counter, n END ticks leave the counter at (c + n) mod 200 and clean (c + n) div 200 times. */
  lemma {:induction false} EndTicksCount(counter: int, n: nat)
    requires 0 <= counter < CleanInterval
    ensures AfterEndTicks(counter, n) == (counter + n) % CleanInterval
    ensures CleansDuring(counter, n) == (counter + n) / CleanInterval
  {
    if n > 0 {
      EndTicksCount(counter, n - 1);
      var k := counter + n - 1;
      assert k == CleanInterval * (k / CleanInterval) + k % CleanInterval;
      if k % CleanInterval + 1 == CleanInterval {
        assert k + 1 == CleanInterval * (k / CleanInterval + 1);
      } else {
        assert k + 1 == CleanInterval * (k / CleanInterval) + (k % CleanInterval + 1);
      }
    }
  }

  /** So from a fresh counter the cache is cleaned once every 200 END ticks. */
  lemma OncePerInterval(rounds: nat)
    ensures CleansDuring(0, rounds * CleanInterval) == rounds
    ensures AfterEndTicks(0, rounds * CleanInterval) == 0
  {
    EndTicksCount(0, rounds * CleanInterval);
  }

  class VsCacheCleaner {
    var tickCounter: int
    /** How many times the cleaner has asked for the cache to be cleaned. */
    var cleanCount: nat

    predicate Valid()
      reads this
    {
      0 <= tickCounter < CleanInterval
    }

    constructor ()
      ensures Valid() && tickCounter == 0 && cleanCount == 0
    {
      tickCounter := 0;
      cleanCount := 0;
    }

    /** onServerTick: counts END ticks and cleans the weights cache when the count reaches the interval. */
    method OnServerTick(endPhase: bool) returns (cleaned: bool)
      requires Valid()
      modifies this
      ensures Valid()
      ensures (tickCounter, cleaned) == Step(old(tickCounter), endPhase)
      ensures cleanCount == old(cleanCount) + (if cleaned then 1 else 0)
    {
      cleaned := false;
      if endPhase {
        tickCounter := tickCounter + 1;
        if tickCounter >= CleanInterval {
          tickCounter := 0;
          cleaned := true;
          cleanCount := cleanCount + 1;
        }
      }
    }
  }
}
