/** Cached payloads: the stale-while-revalidate wrapper, the negative marker and the TTL.

    Times are integer milliseconds.  `JNull` plays the part of Python's `None`. */
module CacheSupport {
  import opened Wrappers

  datatype Json =
    | JNull
    | JBool(b: bool)
    | JNum(n: int)
    | JStr(s: string)
    | JList(items: seq<Json>)
    | JObj(fields: map<string, Json>)

  const NEGATIVE := "__cg_negative__"
  const META := "_cg_meta"
  const SOFT_EXP := "soft_exp"
  const HARD_EXTRA := "hard_extra"
  const DATA := "data"

  /** What a reader makes of a stored payload.  `Broken` is an exception raised while unwrapping. */
  datatype Reading = Miss | Negative | Broken | Hit(value: Json, stale: bool)

  predicate IsNegative(p: Json) {
    p.JObj? && NEGATIVE in p.fields && p.fields[NEGATIVE] == JBool(true)
  }

  function NegativePayload(now: int): Json {
    JObj(map[NEGATIVE := JBool(true), "at" := JNum(now)])
  }

  predicate LooksWrapped(p: Json) {
    p.JObj? && META in p.fields && DATA in p.fields
  }

  /** A value that cannot be mistaken for one of the cache's own payload shapes. */
  predicate Plain(v: Json) {
    !IsNegative(v) && !LooksWrapped(v)
  }

  function Wrap(v: Json, now: int, soft: int, swr: int): Json {
    if swr <= 0 then v
    else JObj(map[META := JObj(map[SOFT_EXP := JNum(now + 1000 * soft), HARD_EXTRA := JNum(swr)]), DATA := v])
  }

  function Unwrap(p: Json, now: int): Reading {
    if !LooksWrapped(p) then Hit(p, false)
    else if !p.fields[META].JObj? then Broken
    else
      var meta := p.fields[META].fields;
      if SOFT_EXP !in meta then Hit(p.fields[DATA], now > 0)
      else match meta[SOFT_EXP]
        case JNum(n) => Hit(p.fields[DATA], now > n)
        case JBool(b) => Hit(p.fields[DATA], now > if b then 1000 else 0)
        case _ => Broken
  }

  function Read(p: Json, now: int): Reading {
    if IsNegative(p) then Negative else Unwrap(p, now)
  }

  /** What `get_json` hands to its caller: the value, or `JNull` for every kind of miss. */
  function ValueOf(r: Reading): Json {
    if r.Hit? then r.value else JNull
  }

  /** A value comes back from the wrapper exactly when it was wrapped, or is no dictionary that reads as a marker or as
      a wrapper itself. */
  lemma WrapRoundTrip(v: Json, wrote: int, soft: int, swr: int, now: int)
    requires v != JNull
    ensures Plain(v) <==>
      (v.JObj? ==>
         && ("__cg_negative__" !in v.fields || v.fields["__cg_negative__"] != JBool(true))
         && ("_cg_meta" !in v.fields || "data" !in v.fields))
    ensures ValueOf(Read(Wrap(v, wrote, soft, swr), now)) == v <==> swr > 0 || Plain(v)
  {
    if swr <= 0 && LooksWrapped(v) {
      assert v.fields[DATA] != v;
    }
  }

  /** What a reader makes of a wrapper, whoever wrote it: the data, stale once the clock, in seconds, is past the soft
      expiry, a missing one reading as zero and a truth value as a number; anything else raises. */
  lemma WrappersRead(p: Json, now: int)
    requires p.JObj? && "_cg_meta" in p.fields && "data" in p.fields
    requires "__cg_negative__" in p.fields ==> p.fields["__cg_negative__"] != JBool(true)
    ensures var meta := p.fields["_cg_meta"];
      if !meta.JObj? || ("soft_exp" in meta.fields && !meta.fields["soft_exp"].JNum? && !meta.fields["soft_exp"].JBool?)
      then Read(p, now) == Broken
      else
        && Read(p, now).Hit? && Read(p, now).value == p.fields["data"]
        && ("soft_exp" !in meta.fields ==> (Read(p, now).stale <==> 0 < now))
        && ("soft_exp" in meta.fields && meta.fields["soft_exp"].JNum? ==>
              (Read(p, now).stale <==> meta.fields["soft_exp"].n < now))
        && ("soft_exp" in meta.fields && meta.fields["soft_exp"] == JBool(true) ==> (Read(p, now).stale <==> 1_000 < now))
        && ("soft_exp" in meta.fields && meta.fields["soft_exp"] == JBool(false) ==> (Read(p, now).stale <==> 0 < now))
  {}

  /** What the cache's own wrapper holds. */
  lemma WrapperHolds(v: Json, wrote: int, soft: int, swr: int)
    requires swr > 0
    ensures Wrap(v, wrote, soft, swr) ==
      JObj(map["_cg_meta" := JObj(map["soft_exp" := JNum(wrote + 1_000 * soft), "hard_extra" := JNum(swr)]), "data" := v])
  {}

  /** `effective_ttl`; `draw` is the random jitter, `jitter == 0` selects the configured default. */
  function EffectiveTtl(ttl: int, jitter: int, defaultJitter: int, draw: nat): (soft: int)
    requires var j := if jitter == 0 then defaultJitter else jitter; draw <= Max(j, 0)
    ensures Max(ttl, 1) <= soft
    ensures soft <= Max(ttl + Max(if jitter == 0 then defaultJitter else jitter, 0), 1)
    ensures ttl >= 1 && (jitter > 0 || (jitter == 0 && defaultJitter > 0)) ==> soft - ttl == draw
  {
    var j := if jitter == 0 then defaultJitter else jitter;
    Max(if j > 0 then ttl + draw else ttl, 1)
  }

  // ---- The key/value store under the cache ----

  type Key = string

  datatype Entry = Entry(payload: Json, expires: int)

  type Store = map<Key, Entry>

  predicate Live(store: Store, key: Key, now: int) {
    key in store && now < store[key].expires
  }

  function GetJson(store: Store, key: Key, now: int): Reading {
    if Live(store, key, now) then Read(store[key].payload, now) else Miss
  }

  /** `SETEX`: the hard lifetime is the soft one plus the stale-while-revalidate window. */
  function SetJson(store: Store, key: Key, v: Json, now: int, soft: int, swr: int): Store {
    store[key := Entry(Wrap(v, now, soft, swr), now + 1000 * (soft + Max(swr, 0)))]
  }

  /** A value written at `wrote` reads back, unchanged, before `wrote + soft + swr` and not after; it is
      reported stale exactly when the soft lifetime is over; without a stale window it never is. */
  lemma ReadAfterWrite(store: Store, key: Key, v: Json, wrote: int, soft: int, swr: int, now: int)
    requires v != JNull && (swr > 0 || Plain(v))
    ensures GetJson(SetJson(store, key, v, wrote, soft, swr), key, now) ==
      if now < wrote + 1000 * (soft + Max(swr, 0))
      then Hit(v, swr > 0 && now > wrote + 1000 * soft)
      else Miss
  {
    var payload := Wrap(v, wrote, soft, swr);
    if swr > 0 {
      assert payload.fields[META].fields[SOFT_EXP] == JNum(wrote + 1000 * soft);
    }
  }
}
