/** The token-lock protocol shared by the single-flight cache and the periodic Celery tasks.

    Holders take a lock with a fresh token, run, and release it with a script that compares the token first.
    A lock expires on its own, so exclusion is timed: it can only be broken by a holder that has overstayed. */
module TokenLock {
  import opened CacheSupport
  import opened CacheSingleflight

  type Name = nat

  datatype Holder = Holder(key: Key, token: nat, since: int)

  datatype State = State(now: int, ttl: int, locks: Locks, nextToken: nat, holders: map<Name, Holder>)

  /** `Attempt`: `SET NX PX`; `ran` says whether it reached Redis and `told` whether the caller learned the
      answer (a raising call may have set the key).  `Release`: the script. */
  datatype Step =
    | Tick(d: nat)
    | Attempt(who: Name, key: Key, ran: bool, told: bool)
    | Release(who: Name, ran: bool)

  predicate Enabled(s: State, step: Step) {
    match step
    case Tick(_) => true
    case Attempt(who, _, ran, told) => who !in s.holders && (told ==> ran)
    case Release(who, _) => who in s.holders
  }

  function Next(s: State, step: Step): State
    requires Enabled(s, step)
  {
    match step
    case Tick(d) => s.(now := s.now + d)
    case Attempt(who, key, ran, told) =>
      s.(locks := if ran then TryLock(s.locks, key, s.nextToken, s.now, s.ttl) else s.locks,
         nextToken := s.nextToken + 1,
         holders := if told && !Held(s.locks, key, s.now) then s.holders[who := Holder(key, s.nextToken, s.now)]
                    else s.holders)
    case Release(who, ran) =>
      var h := s.holders[who];
      s.(locks := if ran then CompareAndDelete(s.locks, h.key, h.token, s.now) else s.locks,
         holders := s.holders - {who})
  }

  /** The holder is still within the lifetime its lock was given. */
  predicate Fresh(s: State, h: Holder) {
    s.now < h.since + Lifetime(s.ttl)
  }

  ghost predicate Inv(s: State) {
    && (forall w :: w in s.holders ==> s.holders[w].token < s.nextToken)
    && (forall w, u :: w in s.holders && u in s.holders && s.holders[w].token == s.holders[u].token ==> w == u)
    && (forall w :: w in s.holders && Fresh(s, s.holders[w]) ==>
          var h := s.holders[w]; h.key in s.locks && s.locks[h.key] == Lock(h.token, h.since + Lifetime(s.ttl)))
    && (forall k :: k in s.locks ==> s.locks[k].token < s.nextToken)
  }

  lemma AttemptInv(s: State, step: Step)
    requires Inv(s) && step.Attempt? && Enabled(s, step)
    ensures Inv(Next(s, step))
  {}

  lemma ReleaseInv(s: State, step: Step)
    requires Inv(s) && step.Release? && Enabled(s, step)
    ensures Inv(Next(s, step))
  {
    var s' := Next(s, step);
    match step
    case Release(who, ran) =>
      var mine := s.holders[who];
      forall w | w in s'.holders && Fresh(s', s'.holders[w])
        ensures var h := s'.holders[w]; h.key in s'.locks && s'.locks[h.key] == Lock(h.token, h.since + Lifetime(s.ttl))
      {
        ReleaseSparesOthers(s.locks, mine.key, mine.token, s.now, s.holders[w].key);
      }
  }

  lemma NextInv(s: State, step: Step)
    requires Inv(s) && Enabled(s, step)
    ensures Inv(Next(s, step))
  {
    match step
    case Attempt(_, _, _, _) => AttemptInv(s, step);
    case Release(_, _) => ReleaseInv(s, step);
    case Tick(_) =>
  }

  predicate Legal(s: State, steps: seq<Step>)
    decreases |steps|
  {
    |steps| == 0 || (Enabled(s, steps[0]) && Legal(Next(s, steps[0]), steps[1..]))
  }

  function Exec(s: State, steps: seq<Step>): State
    requires Legal(s, steps)
    decreases |steps|
  {
    if |steps| == 0 then s else Exec(Next(s, steps[0]), steps[1..])
  }

  lemma {:induction false} RunInv(s: State, steps: seq<Step>)
    requires Inv(s) && Legal(s, steps)
    ensures Inv(Exec(s, steps))
    decreases |steps|
  {
    if |steps| != 0 {
      NextInv(s, steps[0]);
      RunInv(Next(s, steps[0]), steps[1..]);
    }
  }

  /** Timed mutual exclusion for two holders in one state. */
  ghost predicate Exclusive(s: State) {
    forall w, u :: w in s.holders && u in s.holders && w != u && s.holders[w].key == s.holders[u].key ==>
      !Fresh(s, s.holders[w]) || !Fresh(s, s.holders[u])
  }

  /** No holder, and every token in Redis has been drawn. */
  ghost predicate Init(s: State) {
    s.holders == map[] && forall k :: k in s.locks ==> s.locks[k].token < s.nextToken
  }

  /** Main result.  After any run: of two simultaneous holders of one lock at least one took it `ttl` milliseconds
      ago, and one millisecond at least. */
  lemma TimedExclusion(s: State, steps: seq<Step>, w: Name, u: Name)
    requires Init(s) && Legal(s, steps)
    requires var r := Exec(s, steps); w != u && w in r.holders && u in r.holders && r.holders[w].key == r.holders[u].key
    ensures var r := Exec(s, steps);
      var a, b := r.holders[w].since, r.holders[u].since;
      (a + s.ttl <= r.now && a < r.now) || (b + s.ttl <= r.now && b < r.now)
  {
    RunInv(s, steps);
    TtlIsConstant(s, steps);
    assert Exclusive(Exec(s, steps));
  }

  /** An attempt gets the lock exactly when it is free and the answer arrives, and the lock is then its own for
      `ttl` milliseconds. */
  lemma GrantedExactlyWhenFree(s: State, who: Name, key: Key, told: bool)
    requires Enabled(s, Attempt(who, key, true, told))
    ensures var s' := Next(s, Attempt(who, key, true, told));
      var free := key !in s.locks || s.locks[key].expires <= s.now;
      && (who in s'.holders <==> told && free)
      && (free ==> key in s'.locks && s'.locks[key] == Lock(s.nextToken, s.now + if s.ttl < 1 then 1 else s.ttl))
      && s'.holders - {who} == s.holders
  {}

  /** A holder whose token was drawn before a run has held the lock throughout. */
  lemma {:induction false} OldTokensWereHeld(s: State, steps: seq<Step>, w: Name)
    requires Legal(s, steps)
    requires var r := Exec(s, steps); w in r.holders && r.holders[w].token < s.nextToken
    ensures w in s.holders && s.holders[w] == Exec(s, steps).holders[w]
    decreases |steps|
  {
    if |steps| != 0 { OldTokensWereHeld(Next(s, steps[0]), steps[1..], w); }
  }

  /** While `who` is fresh and keeps its lock, nobody else joins the holders of it. */
  lemma {:induction false} FreshHolderIsLast(s: State, steps: seq<Step>, who: Name, u: Name)
    requires Inv(s) && Legal(s, steps) && who in s.holders
    requires var r := Exec(s, steps);
      && who in r.holders && r.holders[who] == s.holders[who] && Fresh(r, r.holders[who])
      && u != who && u in r.holders && r.holders[u].key == r.holders[who].key
    ensures u in s.holders && s.holders[u] == Exec(s, steps).holders[u]
    decreases |steps|
  {
    if |steps| != 0 {
      var s' := Next(s, steps[0]);
      NextInv(s, steps[0]);
      OldTokensWereHeld(s', steps[1..], who);
      FreshHolderIsLast(s', steps[1..], who, u);
      NowGrows(s, steps);
      TtlIsConstant(s, steps);
    }
  }

  lemma {:induction false} NowGrows(s: State, steps: seq<Step>)
    requires Legal(s, steps)
    ensures s.now <= Exec(s, steps).now
    decreases |steps|
  {
    if |steps| != 0 { NowGrows(Next(s, steps[0]), steps[1..]); }
  }

  /** Main result.  From the moment an attempt got a lock, for `ttl` milliseconds or until it lets go, nobody else
      gets it: who holds it beside the winner held it before. */
  lemma GrantExcludes(init: State, steps: seq<Step>, who: Name, key: Key, rest: seq<Step>, u: Name)
    requires Init(init) && Legal(init, steps) && Enabled(Exec(init, steps), Attempt(who, key, true, true))
    requires var s := Exec(init, steps);
      var s' := Next(s, Attempt(who, key, true, true));
      && who in s'.holders && Legal(s', rest)
      && var r := Exec(s', rest);
         && r.now < s.now + init.ttl && who in r.holders && r.holders[who] == s'.holders[who]
         && u != who && u in r.holders && r.holders[u].key == key
    ensures var s := Exec(init, steps);
      var r := Exec(Next(s, Attempt(who, key, true, true)), rest);
      u in s.holders && s.holders[u] == r.holders[u]
  {
    RunInv(init, steps);
    TtlIsConstant(init, steps);
    var s := Exec(init, steps);
    var s' := Next(s, Attempt(who, key, true, true));
    NextInv(s, Attempt(who, key, true, true));
    TtlIsConstant(s', rest);
    FreshHolderIsLast(s', rest, who, u);
  }

  /** A release, however late, leaves the lock of every holder in place that took its own less than `ttl`
      milliseconds ago. */
  lemma LateReleaseSparesNextHolder(s: State, steps: seq<Step>, who: Name, ran: bool, next: Name)
    requires Init(s) && Legal(s, steps)
    requires var r := Exec(s, steps);
      && who in r.holders && next in r.holders && next != who
      && (r.now < r.holders[next].since + s.ttl || r.now <= r.holders[next].since)
    ensures var r := Exec(s, steps);
      var h := r.holders[next];
      var after := Next(r, Release(who, ran)).locks;
      h.key in after && after[h.key] == Lock(h.token, h.since + if s.ttl < 1 then 1 else s.ttl)
  {
    RunInv(s, steps);
    TtlIsConstant(s, steps);
    NextInv(Exec(s, steps), Release(who, ran));
  }

  lemma {:induction false} TtlIsConstant(s: State, steps: seq<Step>)
    requires Legal(s, steps)
    ensures Exec(s, steps).ttl == s.ttl
    decreases |steps|
  {
    if |steps| != 0 { TtlIsConstant(Next(s, steps[0]), steps[1..]); }
  }
}
