/** The token bucket called by one thread at a time: how many orders any stretch of
    time can let through, and which callers are never refused. */
module OrderRateLimiter {
  import opened Types

  const NS_PER_SEC := 1.0e9
  const MAX_RETRIES := 10
  const UINT32 := 0x1_0000_0000

  datatype Bucket = Bucket(tokens: real, last: int)

  /** Tokens earned at `rate` per second over `ns` nanoseconds. */
  function Credit(rate: nat, ns: int): real {
    ns as real * rate as real / NS_PER_SEC
  }

  function Refill(b: Bucket, rate: nat, burst: nat, now: int): Bucket {
    var credit := Credit(rate, now - b.last);
    if now - b.last <= 0 || credit < 0.001 then b
    else Bucket(MinR(b.tokens + credit, burst as real), now)
  }

  /** One uncontended call at time `now`. */
  function Attempt(b: Bucket, rate: nat, burst: nat, now: int): (Bucket, bool) {
    var r := Refill(b, rate, burst, now);
    if r.tokens < 1.0 then (r, false) else (r.(tokens := r.tokens - 1.0), true)
  }

  function RunAttempts(b: Bucket, rate: nat, burst: nat, times: seq<int>): Bucket
    decreases |times|
  {
    if times == [] then b
    else RunAttempts(Attempt(b, rate, burst, times[0]).0, rate, burst, times[1..])
  }

  /** How many of the calls at `times` are granted. */
  function Grants(b: Bucket, rate: nat, burst: nat, times: seq<int>): nat
    decreases |times|
  {
    if times == [] then 0
    else
      var (b', granted) := Attempt(b, rate, burst, times[0]);
      (if granted then 1 else 0) + Grants(b', rate, burst, times[1..])
  }

  /** The clock never runs backwards and stays within [from, until]. */
  ghost predicate Within(times: seq<int>, from: int, until: int) {
    && from <= until
    && (forall i | 0 <= i < |times| :: from <= times[i] <= until)
    && (forall i, j | 0 <= i < j < |times| :: times[i] <= times[j])
  }

  ghost predicate Sound(b: Bucket, burst: nat, now: int) {
    0.0 <= b.tokens <= burst as real && b.last <= now
  }

  /** Tokens on hand plus those earned but not yet credited. */
  ghost function Level(b: Bucket, rate: nat, at: int): real {
    b.tokens + Credit(rate, at - b.last)
  }

  lemma CreditMonotone(rate: nat, ns: int, ns': int)
    requires ns <= ns'
    ensures Credit(rate, ns) <= Credit(rate, ns')
    ensures Credit(rate, 0) == 0.0
  {
    assert (ns' - ns) as real * rate as real >= 0.0;
    assert ns' as real * rate as real == ns as real * rate as real + (ns' - ns) as real * rate as real;
  }

  lemma CreditSplit(rate: nat, a: int, b: int)
    ensures Credit(rate, a + b) == Credit(rate, a) + Credit(rate, b)
  {
    assert (a + b) as real * rate as real == a as real * rate as real + b as real * rate as real;
  }

  /** A call keeps the bucket sound, costs a granted caller one token, and lets no
      credit be counted twice. */
  lemma AttemptLevel(b: Bucket, rate: nat, burst: nat, now: int, until: int)
    requires Sound(b, burst, now) && now <= until
    ensures
      var (b', granted) := Attempt(b, rate, burst, now);
      && Sound(b', burst, now)
      && Level(b', rate, until) + (if granted then 1.0 else 0.0) <= Level(b, rate, until)
  {
    CreditMonotone(rate, 0, now - b.last);
    CreditSplit(rate, now - b.last, until - now);
    assert now - b.last + (until - now) == until - b.last;
  }

  lemma {:induction false} GrantsWithinLevel(b: Bucket, rate: nat, burst: nat, times: seq<int>, from: int, until: int)
    requires Sound(b, burst, from) && Within(times, from, until)
    ensures Grants(b, rate, burst, times) as real <= Level(b, rate, until)
    decreases |times|
  {
    if times == [] {
      CreditMonotone(rate, 0, until - b.last);
    } else {
      AttemptLevel(b, rate, burst, times[0], until);
      var b' := Attempt(b, rate, burst, times[0]).0;
      GrantsWithinLevel(b', rate, burst, times[1..], times[0], until);
    }
  }

  lemma {:induction false} RunIsSound(b: Bucket, rate: nat, burst: nat, times: seq<int>, from: int, until: int)
    requires Sound(b, burst, from) && Within(times, from, until)
    ensures Sound(RunAttempts(b, rate, burst, times), burst, until)
    decreases |times|
  {
    if times != [] {
      AttemptLevel(b, rate, burst, times[0], until);
      RunIsSound(Attempt(b, rate, burst, times[0]).0, rate, burst, times[1..], times[0], until);
    }
  }

  /** Right after a refill at most `burst` tokens and less than 0.001 of credit exist. */
  lemma RefillCaps(b: Bucket, rate: nat, burst: nat, now: int)
    requires Sound(b, burst, now)
    ensures
      var r := Refill(b, rate, burst, now);
      && Sound(r, burst, now)
      && Level(r, rate, now) <= burst as real + 0.001
      && Attempt(r, rate, burst, now) == Attempt(b, rate, burst, now)
  {
    CreditMonotone(rate, 0, now - b.last);
  }

  /** From construction on, `burst` plus the elapsed credit bounds the grants, with no slack. */
  lemma BoundFromConstruction(rate: nat, burst: nat, t0: int, times: seq<int>, until: int)
    requires Within(times, t0, until)
    ensures Grants(Bucket(burst as real, t0), rate, burst, times) as real
         <= burst as real + Credit(rate, until - t0)
  {
    GrantsWithinLevel(Bucket(burst as real, t0), rate, burst, times, t0, until);
  }

  /** In any window [from, until] of any run, whatever happened before it, at most
      burst + rate * length + 0.001 calls are granted. */
  lemma WindowBound(rate: nat, burst: nat, t0: int, before: seq<int>, window: seq<int>, from: int, until: int)
    requires Within(before, t0, from) && Within(window, from, until)
    ensures
      var b := RunAttempts(Bucket(burst as real, t0), rate, burst, before);
      Grants(b, rate, burst, window) as real <= burst as real + Credit(rate, until - from) + 0.001
  {
    var b := RunAttempts(Bucket(burst as real, t0), rate, burst, before);
    RunIsSound(Bucket(burst as real, t0), rate, burst, before, t0, from);
    CreditMonotone(rate, 0, until - from);
    if window != [] {
      var t := window[0];
      RefillCaps(b, rate, burst, t);
      var r := Refill(b, rate, burst, t);
      GrantsWithinLevel(r, rate, burst, window, t, until);
      CreditSplit(rate, t - r.last, until - t);
      assert t - r.last + (until - t) == until - r.last;
      CreditMonotone(rate, until - t, until - from);
    }
  }

  /** Calls are at least 1/rate seconds apart. */
  ghost predicate Spaced(times: seq<int>, rate: nat) {
    forall i | 0 <= i < |times| - 1 :: Credit(rate, times[i + 1] - times[i]) >= 1.0
  }

  lemma {:induction false} PacedFrom(b: Bucket, rate: nat, burst: nat, times: seq<int>, from: int, until: int)
    requires burst >= 1 && Sound(b, burst, from) && Within(times, from, until) && Spaced(times, rate)
    requires times != [] ==> b.tokens >= 1.0 || Credit(rate, times[0] - b.last) >= 1.0
    ensures Grants(b, rate, burst, times) == |times|
    decreases |times|
  {
    if times != [] {
      var t := times[0];
      AttemptLevel(b, rate, burst, t, until);
      CreditMonotone(rate, 0, t - b.last);
      var b' := Attempt(b, rate, burst, t).0;
      if |times| > 1 {
        CreditMonotone(rate, times[1] - t, times[1] - b'.last);
        assert Spaced(times[1..], rate) by {
          forall i | 0 <= i < |times[1..]| - 1
            ensures Credit(rate, times[1..][i + 1] - times[1..][i]) >= 1.0
          {
            assert Credit(rate, times[i + 1 + 1] - times[i + 1]) >= 1.0;
          }
        }
      }
      PacedFrom(b', rate, burst, times[1..], t, until);
    }
  }

  /** A caller that keeps to the sustained rate is never refused. */
  lemma PacedCallerNeverRefused(rate: nat, burst: nat, t0: int, times: seq<int>, until: int)
    requires burst >= 1 && Within(times, t0, until) && Spaced(times, rate)
    ensures Grants(Bucket(burst as real, t0), rate, burst, times) == |times|
  {
    PacedFrom(Bucket(burst as real, t0), rate, burst, times, t0, until);
  }

  // -------------------------------------------------------------------------
  // What a caller is owed
  // -------------------------------------------------------------------------

  /** A second earns `rate` tokens. */
  lemma CreditPerSecond(rate: nat, seconds: nat)
    ensures Credit(rate, 1_000_000_000 * seconds) == (rate * seconds) as real
  {
    assert (1_000_000_000 * seconds) as real * rate as real == 1.0e9 * (seconds as real * rate as real);
  }

  /** One call at a clock that does not run backwards: credit below 0.001 stays uncounted;
      otherwise all of it is counted, up to the burst, and the stamp moves. A call is
      granted exactly when a whole token is there, and costs that token. */
  lemma AttemptExactly(b: Bucket, rate: nat, burst: nat, now: int)
    requires Sound(b, burst, now)
    ensures
      var (b', granted) := Attempt(b, rate, burst, now);
      var credit, cost := Credit(rate, now - b.last), if granted then 1.0 else 0.0;
      && (credit < 0.001 ==> b'.tokens + cost == b.tokens && b'.last == b.last)
      && (credit >= 0.001 && b.tokens + credit <= burst as real ==> b'.tokens + cost == b.tokens + credit && b'.last == now)
      && (credit >= 0.001 && b.tokens + credit > burst as real ==> b'.tokens + cost == burst as real && b'.last == now)
      && (granted <==> b'.tokens + cost >= 1.0)
  {
    CreditMonotone(rate, 0, now - b.last);
  }

  /** A call is refused only when less than a token and 0.001 of credit was on hand, or the
      bucket can hold no token. */
  lemma RefusedOnlyWhenEmpty(b: Bucket, rate: nat, burst: nat, now: int)
    requires Sound(b, burst, now) && burst >= 1 && !Attempt(b, rate, burst, now).1
    ensures Level(b, rate, now) < 1.001
  {
    AttemptExactly(b, rate, burst, now);
  }

  /** No call of the run finds the bucket overflowing. */
  ghost predicate NeverFull(b: Bucket, rate: nat, burst: nat, times: seq<int>)
    decreases |times|
  {
    times == [] ||
    (b.tokens + Credit(rate, times[0] - b.last) <= burst as real
     && NeverFull(Attempt(b, rate, burst, times[0]).0, rate, burst, times[1..]))
  }

  /** While the bucket does not overflow nothing is lost: the level drops by exactly one for
      each call granted. */
  lemma {:induction false} LevelConserved(b: Bucket, rate: nat, burst: nat, times: seq<int>, from: int, until: int)
    requires Sound(b, burst, from) && Within(times, from, until) && NeverFull(b, rate, burst, times)
    ensures Level(RunAttempts(b, rate, burst, times), rate, until) + Grants(b, rate, burst, times) as real
         == Level(b, rate, until)
    decreases |times|
  {
    if times != [] {
      var t := times[0];
      AttemptExactly(b, rate, burst, t);
      AttemptLevel(b, rate, burst, t, until);
      CreditSplit(rate, t - b.last, until - t);
      assert t - b.last + (until - t) == until - b.last;
      LevelConserved(Attempt(b, rate, burst, t).0, rate, burst, times[1..], t, until);
    }
  }

  /** So a caller who keeps the bucket from overflowing and is refused at time `now` has
      been granted all but 1.001 of what BoundFromConstruction allows. */
  lemma GrantsAtLeast(rate: nat, burst: nat, t0: int, times: seq<int>, now: int)
    requires burst >= 1 && Within(times, t0, now) && NeverFull(Bucket(burst as real, t0), rate, burst, times)
    requires !Attempt(RunAttempts(Bucket(burst as real, t0), rate, burst, times), rate, burst, now).1
    ensures Grants(Bucket(burst as real, t0), rate, burst, times) as real > burst as real + Credit(rate, now - t0) - 1.001
  {
    var b := Bucket(burst as real, t0);
    LevelConserved(b, rate, burst, times, t0, now);
    RunIsSound(b, rate, burst, times, t0, now);
    RefusedOnlyWhenEmpty(RunAttempts(b, rate, burst, times), rate, burst, now);
  }

  /** As many calls as there are tokens are all granted. */
  lemma {:induction false} TokensOnHandSuffice(b: Bucket, rate: nat, burst: nat, times: seq<int>, from: int, until: int)
    requires Sound(b, burst, from) && Within(times, from, until) && |times| as real <= b.tokens
    ensures Grants(b, rate, burst, times) == |times|
    decreases |times|
  {
    if times != [] {
      AttemptExactly(b, rate, burst, times[0]);
      AttemptLevel(b, rate, burst, times[0], until);
      TokensOnHandSuffice(Attempt(b, rate, burst, times[0]).0, rate, burst, times[1..], times[0], until);
    }
  }

  /** Whatever came before: after a pause worth what is missing, as many calls in a row are
      granted as the bucket holds, up to the burst. */
  lemma PauseRefills(b: Bucket, rate: nat, burst: nat, times: seq<int>, from: int, until: int)
    requires Sound(b, burst, from) && Within(times, from, until) && times != [] && |times| <= burst
    requires Credit(rate, times[0] - b.last) >= 0.001 && b.tokens + Credit(rate, times[0] - b.last) >= |times| as real
    ensures Grants(b, rate, burst, times) == |times|
  {
    AttemptExactly(b, rate, burst, times[0]);
    AttemptLevel(b, rate, burst, times[0], until);
    TokensOnHandSuffice(Attempt(b, rate, burst, times[0]).0, rate, burst, times[1..], times[0], until);
  }

  // -------------------------------------------------------------------------
  // The limiter object
  // -------------------------------------------------------------------------

  class Limiter {
    var maxRate: nat
    var burstCapacity: nat
    var tokens: real
    var lastRefillNs: int

    ghost function State(): Bucket
      reads this
    {
      Bucket(tokens, lastRefillNs)
    }

    /** A burst of 0 asks for twice the rate, doubled in 32 bits. */
    constructor (maxOrdersPerSec: nat, burst: nat, nowNs: int)
      requires maxOrdersPerSec < UINT32 && burst < UINT32
      ensures maxRate == maxOrdersPerSec
      ensures burstCapacity == if burst == 0 then (2 * maxOrdersPerSec) % UINT32 else burst
      ensures State() == Bucket(burstCapacity as real, nowNs)
    {
      var capacity := if burst == 0 then (maxOrdersPerSec * 2) % UINT32 else burst;
      if capacity == 0 {
        capacity := (maxOrdersPerSec * 2) % UINT32;
      }
      maxRate, burstCapacity := maxOrdersPerSec, capacity;
      tokens, lastRefillNs := capacity as real, nowNs;
    }

    /** `refillFails` and `acquireFails` say how the weak compare-exchange fails
        spuriously: the refill's only one, and that many of the acquire loop's. */
    method TryAcquire(nowNs: int, refillFails: bool, acquireFails: nat) returns (granted: bool)
      modifies this`tokens, this`lastRefillNs
      ensures !refillFails && acquireFails == 0 ==>
                (State(), granted) == Attempt(old(State()), maxRate, burstCapacity, nowNs)
      ensures
        var r := if refillFails then old(State()) else Refill(old(State()), maxRate, burstCapacity, nowNs);
        && granted == (r.tokens >= 1.0 && acquireFails < 10)
        && State() == if granted then r.(tokens := r.tokens - 1.0) else r
    {
      RefillNow(nowNs, refillFails);
      ghost var r := State();
      granted := false;
      for attempt := 0 to MAX_RETRIES
        invariant State() == r && attempt <= acquireFails
        invariant attempt > 0 ==> tokens >= 1.0
      {
        var current := tokens;
        if current < 1.0 {
          return false;
        }
        if attempt == acquireFails {
          tokens := current - 1.0;
          return true;
        }
      }
    }

    method RefillNow(nowNs: int, casFails: bool)
      modifies this`tokens, this`lastRefillNs
      ensures State() == if casFails then old(State()) else Refill(old(State()), maxRate, burstCapacity, nowNs)
    {
      var elapsedNs := nowNs - lastRefillNs;
      if elapsedNs <= 0 {
        return;
      }
      var newTokens := elapsedNs as real * maxRate as real / NS_PER_SEC;
      if newTokens < 0.001 {
        return;
      }
      var updated := tokens + newTokens;
      if updated > burstCapacity as real {
        updated := burstCapacity as real;
      }
      if !casFails {
        tokens := updated;
        lastRefillNs := nowNs;
      }
    }

    method Reset(nowNs: int)
      modifies this`tokens, this`lastRefillNs
      ensures State() == Bucket(burstCapacity as real, nowNs)
    {
      tokens := burstCapacity as real;
      lastRefillNs := nowNs;
    }
  }
}
