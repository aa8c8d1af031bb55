/**
 * The expiring token bucket the verification handlers call. Its algorithm
 * lives in `rate-limit.ts`, which is not part of this model: a bucket here
 * holds opaque per-key bookkeeping and answers `check` and `consume` through
 * two oracle functions fixed when it is built.
 */
module RateLimit {
  import opened Common

  /** The bucket's bookkeeping for all keys, whatever it is. */
  type Memory

  class ExpiringTokenBucket {
    const max: nat
    const expiresInSeconds: nat
    /** The answer `check(key, cost)` gives in a given state at a given time. */
    const allows: (Memory, string, nat, Millis) -> bool
    /** The answer `consume(key, cost)` gives, and the state it leaves. */
    const takes: (Memory, string, nat, Millis) -> (bool, Memory)
    var memory: Memory

    constructor (max: nat, expiresInSeconds: nat, allows: (Memory, string, nat, Millis) -> bool,
                 takes: (Memory, string, nat, Millis) -> (bool, Memory), initial: Memory)
      ensures this.max == max && this.expiresInSeconds == expiresInSeconds
      ensures this.allows == allows && this.takes == takes && memory == initial
    {
      this.max := max;
      this.expiresInSeconds := expiresInSeconds;
      this.allows := allows;
      this.takes := takes;
      memory := initial;
    }

    /** `check`: reads the state, changes nothing. */
    function Check(key: string, cost: nat, now: Millis): bool
      reads this
    {
      allows(memory, key, cost, now)
    }

    /** `consume`: may succeed or refuse, and may change the state either way. */
    method Consume(key: string, cost: nat, now: Millis) returns (ok: bool)
      modifies this
      ensures (ok, memory) == takes(old(memory), key, cost, now)
    {
      var outcome := takes(memory, key, cost, now);
      ok, memory := outcome.0, outcome.1;
    }
  }
}
