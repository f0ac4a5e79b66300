/** The shared HTTP client's `request`: retries on 429 and on transport errors, one permit for each attempt, and
    sleeps between attempts.  Seconds are reals. */
module HttpRetry {
  /** A Retry-After header: missing or empty, a number, a date that far ahead, or neither. */
  datatype RetryAfter = Absent | Seconds(value: real) | Date(ahead: real) | Garbage

  /** What one attempt ends in; `Broken` is any exception that is no transport error. */
  datatype Reply = Status(code: nat, header: RetryAfter) | Transport(error: nat) | Broken(error: nat)

  datatype Outcome = Response(code: nat) | TransportRaised(error: nat) | OtherRaised(error: nat) | AssertionFailed

  function Clamp(value: real, clamp: real): real {
    var positive := if value < 0.0 then 0.0 else value;
    if clamp < positive then clamp else positive
  }

  /** `parse_retry_after_seconds`. */
  function ParseRetryAfter(header: RetryAfter, default: real, clamp: real): (delay: real)
    ensures delay <= clamp
    ensures 0.0 <= clamp ==> 0.0 <= delay
    ensures header.Seconds? && 0.0 <= header.value <= clamp ==> delay == header.value
    ensures header.Date? && 0.0 <= header.ahead <= clamp ==> delay == header.ahead
    ensures (header.Absent? || header.Garbage?) && 0.0 <= default <= clamp ==> delay == default
    ensures header.Seconds? && header.value > clamp >= 0.0 ==> delay == clamp
    ensures header.Date? && header.ahead > clamp >= 0.0 ==> delay == clamp
    ensures (header.Absent? || header.Garbage?) && default > clamp >= 0.0 ==> delay == clamp
    ensures (header.Seconds? && header.value < 0.0) || (header.Date? && header.ahead < 0.0) ==>
      delay == if clamp < 0.0 then clamp else 0.0
  {
    match header
    case Seconds(v) => Clamp(v, clamp)
    case Date(ahead) => Clamp(ahead, clamp)
    case _ => Clamp(default, clamp)
  }

  function Pow2(n: nat): (p: nat)
    ensures p >= 1
  {
    if n == 0 then 1 else 2 * Pow2(n - 1)
  }

  function Backoff(attempt: nat): nat {
    if Pow2(attempt) < 8 then Pow2(attempt) else 8
  }

  /** The sleep after a retryable attempt. */
  function Delay(reply: Reply, attempt: nat, clamp: real): real {
    if reply.Status? then ParseRetryAfter(reply.header, 1.0, clamp) else Backoff(attempt) as real
  }

  // ---- Whole calls ----

  /** A lost attempt is one that was answered 429, or that a transport error ended. */
  ghost predicate Lost(reply: Reply) {
    match reply
    case Status(code, _) => code == 429
    case Transport(_) => true
    case Broken(_) => false
  }

  /** Is attempt `n` the one a call with `retries` retries ends with?  The first that is not lost, or the last. */
  ghost predicate EndsAt(replies: nat -> Reply, retries: nat, n: nat) {
    && n <= retries
    && (forall i :: 0 <= i < n ==> Lost(replies(i)))
    && (n == retries || !Lost(replies(n)))
  }

  function RateLimited(replies: nat -> Reply, n: nat): nat {
    if n == 0 then 0 else RateLimited(replies, n - 1) + if replies(n - 1).Status? then 1 else 0
  }

  function Transports(replies: nat -> Reply, n: nat): nat {
    if n == 0 then 0 else Transports(replies, n - 1) + if replies(n - 1).Transport? then 1 else 0
  }

  /** Total sleep after the first `n` attempts. */
  function Slept(replies: nat -> Reply, n: nat, clamp: real): real {
    if n == 0 then 0.0 else Slept(replies, n - 1, clamp) + Delay(replies(n - 1), n - 1, clamp)
  }

  /** Before the end every attempt was rate limited or lost in transport. */
  lemma {:induction false} EveryRetryHasACause(replies: nat -> Reply, n: nat)
    requires forall i :: 0 <= i < n ==> Lost(replies(i))
    ensures RateLimited(replies, n) + Transports(replies, n) == n
  {
    if n > 0 {
      EveryRetryHasACause(replies, n - 1);
      assert Lost(replies(n - 1));
    }
  }

  /** The attempts before the n-th that were answered, and those that transport errors ended. */
  function Answered(replies: nat -> Reply, n: nat): set<nat> {
    set i | 0 <= i < n && replies(i).Status?
  }

  function Ended(replies: nat -> Reply, n: nat): set<nat> {
    set i | 0 <= i < n && replies(i).Transport?
  }

  /** The counters count them. */
  lemma {:induction false} CausesAreCounted(replies: nat -> Reply, n: nat)
    ensures RateLimited(replies, n) == |Answered(replies, n)| && Transports(replies, n) == |Ended(replies, n)|
  {
    if n > 0 {
      CausesAreCounted(replies, n - 1);
      OneMoreAttempt(replies, n);
    }
  }

  lemma OneMoreAttempt(replies: nat -> Reply, n: nat)
    requires n > 0
    ensures |Answered(replies, n)| == |Answered(replies, n - 1)| + if replies(n - 1).Status? then 1 else 0
    ensures |Ended(replies, n)| == |Ended(replies, n - 1)| + if replies(n - 1).Transport? then 1 else 0
  {
    OneMoreAnswered(replies, n - 1);
    OneMoreEnded(replies, n - 1);
  }

  lemma OneMoreAnswered(replies: nat -> Reply, n: nat)
    ensures |Answered(replies, n + 1)| == |Answered(replies, n)| + if replies(n).Status? then 1 else 0
  {
    if replies(n).Status? {
      assert Answered(replies, n + 1) == Answered(replies, n) + {n};
    } else {
      assert Answered(replies, n + 1) == Answered(replies, n);
    }
  }

  lemma OneMoreEnded(replies: nat -> Reply, n: nat)
    ensures |Ended(replies, n + 1)| == |Ended(replies, n)| + if replies(n).Transport? then 1 else 0
  {
    if replies(n).Transport? {
      assert Ended(replies, n + 1) == Ended(replies, n) + {n};
    } else {
      assert Ended(replies, n + 1) == Ended(replies, n);
    }
  }

  /** What a call sleeps after attempt `n`: the seconds that a 429 asks for, one when it does not say, each up to the
      clamp; after a transport error 1, 2 and 4 seconds, and 8 from the fourth on. */
  lemma EachSleep(replies: nat -> Reply, n: nat, clamp: real)
    requires 1.0 <= clamp && Lost(replies(n))
    ensures var slept := Slept(replies, n + 1, clamp) - Slept(replies, n, clamp);
      match replies(n)
      case Status(_, Seconds(v)) => slept == (if v < 0.0 then 0.0 else if v > clamp then clamp else v)
      case Status(_, Date(ahead)) => slept == (if ahead < 0.0 then 0.0 else if ahead > clamp then clamp else ahead)
      case Status(_, _) => slept == 1.0
      case Transport(_) => slept == (if n == 0 then 1.0 else if n == 1 then 2.0 else if n == 2 then 4.0 else 8.0)
      case Broken(_) => false
  {
    if n >= 3 { BackoffSettles(n); }
    assert Pow2(0) == 1 && Pow2(1) == 2 && Pow2(2) == 4;
  }

  /** The time bound: a call that ends at attempt `n` has slept at most `n` times the longer of eight seconds
      and the Retry-After clamp, so at most `retries` times that. */
  lemma {:induction false} SleepIsBounded(replies: nat -> Reply, n: nat, retries: nat, clamp: real)
    requires n <= retries && 0.0 <= clamp
    ensures 0.0 <= Slept(replies, n, clamp) <= n as real * Longest(clamp) <= retries as real * Longest(clamp)
  {
    hide Delay, Longest;
    if n > 0 {
      SleepIsBounded(replies, n - 1, n - 1, clamp);
      DelayIsBounded(replies(n - 1), n - 1, clamp);
      AddOne(n, Longest(clamp));
    }
    Scales(n, retries, Longest(clamp));
  }

  function SleepBound(retries: nat, clamp: real): real {
    retries as real * Longest(clamp)
  }

  lemma SleepWithinBound(replies: nat -> Reply, n: nat, retries: nat, clamp: real)
    requires n <= retries && 0.0 <= clamp
    ensures 0.0 <= Slept(replies, n, clamp) <= SleepBound(retries, clamp)
  {
    SleepIsBounded(replies, n, retries, clamp);
  }

  lemma DelayIsBounded(reply: Reply, attempt: nat, clamp: real)
    requires 0.0 <= clamp
    ensures 0.0 <= Delay(reply, attempt, clamp) <= Longest(clamp)
  {}

  lemma AddOne(n: nat, x: real)
    requires n > 0
    ensures n as real * x == (n - 1) as real * x + x
  {}

  function Longest(clamp: real): (r: real)
    ensures r >= clamp && r >= 8.0 && (r == clamp || r == 8.0)
  {
    if clamp < 8.0 then 8.0 else clamp
  }

  lemma Scales(n: nat, m: nat, x: real)
    requires n <= m && 0.0 <= x
    ensures n as real * x <= m as real * x
  {
    assert m as real * x == n as real * x + (m - n) as real * x;
  }

  /** Transport errors alone cost 1, 2, 4 and then 8 seconds each. */
  lemma {:induction false} TransportSleep(replies: nat -> Reply, n: nat, clamp: real)
    requires forall i :: 0 <= i < n ==> replies(i).Transport?
    ensures Slept(replies, n, clamp) == (if n <= 3 then Pow2(n) - 1 else 8 * n - 17) as real
  {
    if n > 0 {
      TransportSleep(replies, n - 1, clamp);
      assert replies(n - 1).Transport?;
      if n > 3 { BackoffSettles(n - 1); }
    }
  }

  lemma {:induction false} BackoffSettles(attempt: nat)
    requires attempt >= 3
    ensures Backoff(attempt) == 8
  {
    if attempt == 3 {
      assert Pow2(3) == 2 * Pow2(2);
    } else {
      BackoffSettles(attempt - 1);
    }
  }

  // ---- The client ----

  /** The process-wide counters. */
  datatype Stats = Stats(requests: nat, retries: nat, rateLimited: nat, transportErrors: nat)

  /** The counters after `n` attempts that were retried. */
  function Grown(stats: Stats, replies: nat -> Reply, n: nat): Stats {
    Stats(stats.requests + n, stats.retries + n, stats.rateLimited + RateLimited(replies, n),
          stats.transportErrors + Transports(replies, n))
  }

  /** The counters after a whole call that ends at attempt `n`. */
  function Called(stats: Stats, replies: nat -> Reply, n: nat): Stats {
    var before := Grown(stats, replies, n);
    before.(requests := before.requests + 1,
            transportErrors := before.transportErrors + if replies(n).Transport? then 1 else 0)
  }

  lemma OneMoreRetry(stats: Stats, replies: nat -> Reply, n: nat, clamp: real)
    ensures var before, after := Grown(stats, replies, n), Grown(stats, replies, n + 1);
      && after.requests == before.requests + 1 && after.retries == before.retries + 1
      && after.rateLimited == before.rateLimited + (if replies(n).Status? then 1 else 0)
      && after.transportErrors == before.transportErrors + (if replies(n).Transport? then 1 else 0)
    ensures Slept(replies, n + 1, clamp) == Slept(replies, n, clamp) + Delay(replies(n), n, clamp)
  {}

  /** After any number of calls: `requests - retries` is the number of calls, and every retry has a 429 or a
      transport error to its name.  `lost` counts the calls that raised a transport error. */
  ghost predicate Balanced(stats: Stats, calls: nat, lost: nat) {
    stats.requests - stats.retries == calls && stats.retries == stats.rateLimited + stats.transportErrors - lost
  }

  lemma CallKeepsBalance(stats: Stats, calls: nat, lost: nat, replies: nat -> Reply, retries: nat, n: nat)
    requires Balanced(stats, calls, lost) && EndsAt(replies, retries, n)
    ensures Balanced(Called(stats, replies, n), calls + 1, lost + if replies(n).Transport? then 1 else 0)
  {
    EveryRetryHasACause(replies, n);
  }

  /** One provider's permits, the counters, and the sleeping so far.  `others` are the permits that other calls
      of the provider hold; they take and return permits whenever this call waits. */
  class Client {
    const limit: nat
    const clamp: real
    var permits: nat
    var others: nat
    var stats: Stats
    var slept: real

    /** Every permit is free or held by another call: this call holds none. */
    ghost predicate HoldsNone()
      reads this
    {
      limit > 0 && permits + others == limit
    }

    constructor (limit: nat, clamp: real)
      requires limit > 0
      ensures HoldsNone() && this.limit == limit && this.clamp == clamp && Balanced(stats, 0, 0) && slept == 0.0
    {
      this.limit, this.clamp, permits, others := limit, clamp, limit, 0;
      stats, slept := Stats(0, 0, 0, 0), 0.0;
    }

    /** The other calls, in any way they like. */
    method OthersMove()
      requires HoldsNone()
      modifies this`permits, this`others
      ensures HoldsNone()
    {
      var free: nat := *;
      if free <= limit { permits, others := free, limit - free; }
    }

    /** Wait for a permit: while none is free another call holds one and returns it. */
    method Acquire()
      requires HoldsNone()
      modifies this`permits, this`others
      ensures permits + others + 1 == limit
    {
      OthersMove();
      while permits == 0
        invariant HoldsNone()
        decreases others
      {
        permits, others := permits + 1, others - 1;
      }
      permits := permits - 1;
    }

    /** One network attempt under a permit, released however it ends. */
    method Attempt(replies: nat -> Reply, attempt: nat) returns (reply: Reply)
      requires HoldsNone()
      modifies this`permits, this`others
      ensures reply == replies(attempt) && HoldsNone()
    {
      Acquire();
      reply := replies(attempt);
      permits := permits + 1;
    }

    /** Sleeping holds no permit. */
    method Sleep(delay: real)
      requires HoldsNone()
      modifies this`slept
      ensures slept == old(slept) + delay
    {
      slept := slept + delay;
    }

    /** Main result: a call with `retries` >= 0 ends at the first attempt that is not retryable, or at the
        last one, with what that attempt ended in; the code after the loop is reached only for a negative
        number of retries. */
    method Request(replies: nat -> Reply, retries: int) returns (outcome: Outcome, ghost end: nat)
      requires HoldsNone()
      modifies this
      ensures HoldsNone()
      ensures outcome == AssertionFailed <==> retries < 0
      ensures retries < 0 ==> stats == old(stats) && slept == old(slept)
      ensures retries >= 0 ==>
        && EndsAt(replies, retries, end)
        && (match replies(end)
            case Status(code, _) => outcome == Response(code)
            case Transport(error) => outcome == TransportRaised(error)
            case Broken(error) => outcome == OtherRaised(error))
        && stats == Called(old(stats), replies, end)
        && slept == old(slept) + Slept(replies, end, clamp)
        && (clamp >= 0.0 ==> 0.0 <= slept - old(slept) <= SleepBound(retries, clamp))
    {
      hide Grown, Slept, SleepBound, ParseRetryAfter, Backoff, Pow2;
      end := 0;
      var attempt := 0;
      assert stats == Grown(stats, replies, 0) && Slept(replies, 0, clamp) == 0.0 by { StartsAtZero(stats, replies, clamp); }
      while attempt < retries + 1
        invariant 0 <= attempt && (retries >= 0 ==> attempt <= retries) && (retries < 0 ==> attempt == 0)
        invariant HoldsNone()
        invariant forall i :: 0 <= i < attempt ==> Lost(replies(i))
        invariant stats == Grown(old(stats), replies, attempt)
        invariant slept == old(slept) + Slept(replies, attempt, clamp)
      {
        OneMoreRetry(old(stats), replies, attempt, clamp);
        if clamp >= 0.0 { SleepWithinBound(replies, attempt, retries, clamp); }
        stats := stats.(requests := stats.requests + 1);
        end := attempt;
        var reply := Attempt(replies, attempt);
        match reply {
          case Status(code, header) =>
            if code != 429 || attempt >= retries { return Response(code), attempt; }
            stats := stats.(retries := stats.retries + 1);
            var delay := ParseRetryAfter(header, 1.0, clamp);
            stats := stats.(rateLimited := stats.rateLimited + 1);
            Sleep(delay);
          case Transport(error) =>
            stats := stats.(transportErrors := stats.transportErrors + 1);
            if attempt >= retries { return TransportRaised(error), attempt; }
            stats := stats.(retries := stats.retries + 1);
            Sleep(Backoff(attempt) as real);
          case Broken(error) =>
            return OtherRaised(error), attempt;
        }
        attempt := attempt + 1;
      }
      outcome := AssertionFailed;
    }
  }

  lemma StartsAtZero(stats: Stats, replies: nat -> Reply, clamp: real)
    ensures stats == Grown(stats, replies, 0) && Slept(replies, 0, clamp) == 0.0
  {}
}
