/** Redis token locks with a time to live: `SET key token NX PX ttl` and compare-then-delete.

    A token is drawn fresh for every attempt, so tokens are natural numbers handed out in order. */
module CacheSingleflight {
  import opened CacheSupport
  import opened Wrappers

  datatype Lock = Lock(token: nat, expires: int)

  type Locks = map<Key, Lock>

  /** The lifetime `SET … PX` is given. */
  function Lifetime(ttlMs: int): int {
    Max(ttlMs, 1)
  }

  predicate Held(locks: Locks, key: Key, now: int) {
    key in locks && now < locks[key].expires
  }

  function TryLock(locks: Locks, key: Key, token: nat, now: int, ttlMs: int): Locks {
    if Held(locks, key, now) then locks else locks[key := Lock(token, now + Lifetime(ttlMs))]
  }

  /** A lock that is granted is held for as many milliseconds as `ttlMs` says, at least one, by the token that was
      granted; a lock that somebody holds stays as it is, and so does every other lock. */
  lemma LockLastsItsTtl(locks: Locks, key: Key, token: nat, now: int, ttlMs: int, t: int)
    ensures var after := TryLock(locks, key, token, now, ttlMs);
      if key in locks && now < locks[key].expires then after == locks
      else
        && key in after && after[key].token == token && after - {key} == locks - {key}
        && (Held(after, key, t) <==> t < now + ttlMs || t < now + 1)
  {}

  /** The release script: delete only when the stored token is still the caller's. */
  function CompareAndDelete(locks: Locks, key: Key, token: nat, now: int): Locks {
    if Held(locks, key, now) && locks[key].token == token then locks - {key} else locks
  }

  /** A release frees exactly the live lock that its own token holds: anybody else's lock survives it as it was. */
  lemma ReleaseSparesOthers(locks: Locks, key: Key, token: nat, now: int, other: Key)
    requires other in locks
    ensures var after := CompareAndDelete(locks, key, token, now);
      && (other !in after <==> other == key && locks[key].token == token && now < locks[key].expires)
      && (other in after ==> after[other] == locks[other])
  {}

  /** Delay of one back-off round, before jitter, in units of 25 ms. */
  function BaseDelay(attempt: nat): (d: nat)
    ensures 1 <= d <= 16
  {
    if attempt == 0 then 1 else if attempt == 1 then 2 else if attempt == 2 then 4
    else if attempt == 3 then 8 else 16
  }

  /** Back-off of all rounds before `n`, without jitter, in units of 25 ms. */
  function TotalBase(n: nat): nat {
    if n == 0 then 0 else TotalBase(n - 1) + BaseDelay(n - 1)
  }

  /** The waiter sleeps `max(attempts, 1)` growing rounds; every round is scaled by a factor the random
      source picks from [0.5, 1.5).  So the whole wait lies within a half and one and a half of the plain sum. */
  method WaitForFill(attempts: int, jitter: nat -> real) returns (slept: real)
    requires forall i: nat :: 0.0 <= jitter(i) < 1.0
    ensures 12.5 * TotalBase(Max(attempts, 1)) as real <= slept < 37.5 * TotalBase(Max(attempts, 1)) as real
    ensures attempts <= 28 ==> slept < 15_000.0
  {
    slept := 0.0;
    var attempt := 0;
    while attempt < Max(attempts, 1)
      invariant 0 <= attempt <= Max(attempts, 1)
      invariant 12.5 * TotalBase(attempt) as real <= slept
      invariant if attempt == 0 then slept == 0.0 else slept < 37.5 * TotalBase(attempt) as real
    {
      var delay := 25.0 * BaseDelay(attempt) as real;
      ScaledDelay(delay, 0.5 + jitter(attempt));
      slept := slept + delay * (0.5 + jitter(attempt));
      attempt := attempt + 1;
    }
    LongestWaitFitsTheLock(attempt);
  }

  lemma ScaledDelay(delay: real, factor: real)
    requires delay > 0.0 && 0.5 <= factor < 1.5
    ensures 0.5 * delay <= delay * factor < 1.5 * delay
  {}

  /** From the fifth round on every round adds the capped delay. */
  lemma {:induction false} TotalBaseIs(n: nat)
    ensures n >= 4 ==> TotalBase(n) == 16 * n - 49
    ensures n <= 4 ==> TotalBase(n) <= 15
  {
    if n > 0 { TotalBaseIs(n - 1); }
    assert TotalBase(0) == 0 && TotalBase(1) == 1 && TotalBase(2) == 3 && TotalBase(3) == 7;
  }

  /** Up to 28 rounds, and so in the source's eight, the longest wait ends before a lock taken when it began
      expires; 29 rounds can outlast it. */
  lemma LongestWaitFitsTheLock(rounds: nat)
    ensures 37.5 * TotalBase(rounds) as real < 15_000.0 <==> rounds <= 28
  {
    TotalBaseIs(rounds);
  }
}
