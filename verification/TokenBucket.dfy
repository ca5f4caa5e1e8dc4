/** The ingress token bucket of ratelimit/limiter.go, over real arithmetic and a
    clock that does not go backwards. Times are whole nanoseconds. */
module TokenBucket {
  import opened Common

  datatype Config = Config(rate: real, burst: nat, ttl: int) {
    /** New returns a limiter only for a positive rate and burst. */
    predicate Valid() {
      rate > 0.0 && burst >= 1 && ttl >= 0
    }
  }

  datatype Bucket = Bucket(tokens: real, lastSeen: int)

  type Buckets = map<Text, Bucket>

  const NANOS: real := 1_000_000_000.0

  function MinReal(a: real, b: real): real {
    if a <= b then a else b
  }

  /** Tokens added in `d` nanoseconds. */
  function Accrued(cfg: Config, d: int): real {
    d as real / NANOS * cfg.rate
  }

  lemma AccruedSum(cfg: Config, a: int, b: int)
    requires cfg.Valid() && a >= 0
    ensures Accrued(cfg, a + b) == Accrued(cfg, a) + Accrued(cfg, b)
    ensures Accrued(cfg, a) >= 0.0
  {
  }

  /** The number of tokens a bucket has accrued by `now`. */
  function Refill(cfg: Config, b: Bucket, now: int): real {
    MinReal(cfg.burst as real, b.tokens + Accrued(cfg, now - b.lastSeen))
  }

  /** The tokens that a request for `key` finds at `now`; an unknown key has a
      full bucket. */
  function Level(cfg: Config, m: Buckets, key: Text, now: int): real {
    if key in m then Refill(cfg, m[key], now) else cfg.burst as real
  }

  /** Nanoseconds until a full token, as converted to a Duration. */
  function Wait(cfg: Config, level: real): int
    requires cfg.Valid()
  {
    ((1.0 - level) / cfg.rate * NANOS).Floor
  }

  datatype Answer = Answer(allowed: bool, wait: int)

  function Ask(cfg: Config, level: real): Answer
    requires cfg.Valid()
  {
    if level >= 1.0 then Answer(true, 0) else Answer(false, Wait(cfg, level))
  }

  function Touched(cfg: Config, m: Buckets, key: Text, now: int): Buckets {
    var level := Level(cfg, m, key, now);
    m[key := Bucket(if level >= 1.0 then level - 1.0 else level, now)]
  }

  function Swept(cfg: Config, m: Buckets, now: int): Buckets {
    map k | k in m && !(now - m[k].lastSeen > cfg.ttl) :: m[k]
  }

  class Limiter {
    const cfg: Config
    var buckets: Buckets

    ghost predicate Valid() {
      cfg.Valid()
    }

    constructor (cfg: Config)
      requires cfg.Valid()
      ensures this.cfg == cfg && buckets == map[] && Valid()
    {
      this.cfg := cfg;
      buckets := map[];
    }

    method Allow(key: Text, now: int) returns (allowed: bool, retryAfter: int)
      requires Valid()
      modifies this
      ensures Answer(allowed, retryAfter) == Ask(cfg, Level(cfg, old(buckets), key, now))
      ensures buckets == Touched(cfg, old(buckets), key, now)
    {
      var b := Bucket(cfg.burst as real, now);
      if key in buckets {
        b := buckets[key];
      }
      var elapsed := now - b.lastSeen;
      b := Bucket(MinReal(cfg.burst as real, b.tokens + Accrued(cfg, elapsed)), now);
      if b.tokens >= 1.0 {
        buckets := buckets[key := b.(tokens := b.tokens - 1.0)];
        return true, 0;
      }
      buckets := buckets[key := b];
      return false, ((1.0 - b.tokens) / cfg.rate * NANOS).Floor;
    }

    method EvictIdle(now: int)
      requires Valid()
      modifies this
      ensures buckets == Swept(cfg, old(buckets), now)
    {
      ghost var all := buckets;
      var todo := buckets.Keys;
      while todo != {}
        invariant todo <= buckets.Keys
        invariant buckets == map k | k in all && (k in todo || !(now - all[k].lastSeen > cfg.ttl)) :: all[k]
        decreases todo
      {
        var key :| key in todo;
        if now - buckets[key].lastSeen > cfg.ttl {
          buckets := buckets - {key};
        }
        todo := todo - {key};
      }
    }
  }

  // ---------------------------------------------------------------- runs

  datatype Event = Request(at: int, key: Text) | Evict(at: int)

  function After(cfg: Config, m: Buckets, e: Event): Buckets {
    match e
    case Request(at, key) => Touched(cfg, m, key, at)
    case Evict(at) => Swept(cfg, m, at)
  }

  function AfterAll(cfg: Config, m: Buckets, events: seq<Event>): Buckets
    decreases |events|
  {
    if events == [] then m else AfterAll(cfg, After(cfg, m, events[0]), events[1..])
  }

  /** The answers to the requests of a run, in order. */
  function Answers(cfg: Config, m: Buckets, events: seq<Event>): seq<Answer>
    requires cfg.Valid()
    decreases |events|
  {
    if events == [] then []
    else (if events[0].Request? then [Ask(cfg, Level(cfg, m, events[0].key, events[0].at))] else [])
         + Answers(cfg, After(cfg, m, events[0]), events[1..])
  }

  /** How many requests of `key` a run admits. */
  function Admitted(cfg: Config, m: Buckets, events: seq<Event>, key: Text): nat
    decreases |events|
  {
    if events == [] then 0
    else (if events[0].Request? && events[0].key == key && Level(cfg, m, key, events[0].at) >= 1.0 then 1 else 0)
         + Admitted(cfg, After(cfg, m, events[0]), events[1..], key)
  }

  /** The times of a run do not decrease and lie within a window. */
  predicate Within(events: seq<Event>, s: int, t: int) {
    if events == [] then s <= t else s <= events[0].at && Within(events[1..], events[0].at, t)
  }

  predicate NoEvictions(events: seq<Event>) {
    forall i :: 0 <= i < |events| ==> events[i].Request?
  }

  ghost predicate Sane(cfg: Config, m: Buckets, now: int) {
    forall k :: k in m ==> 0.0 <= m[k].tokens <= cfg.burst as real && m[k].lastSeen <= now
  }

  // ---------------------------------------------------------------- levels

  /** Accrual is linear up to the cap. */
  lemma LevelLater(cfg: Config, m: Buckets, key: Text, now: int, later: int)
    requires cfg.Valid() && Sane(cfg, m, now) && now <= later
    ensures Level(cfg, m, key, later) == MinReal(cfg.burst as real, Level(cfg, m, key, now) + Accrued(cfg, later - now))
    ensures 0.0 <= Level(cfg, m, key, now) <= cfg.burst as real
    ensures Accrued(cfg, later - now) >= 0.0
  {
    AccruedSum(cfg, later - now, 0);
    if key in m {
      AccruedSum(cfg, now - m[key].lastSeen, later - now);
    }
  }

  lemma SaneAfter(cfg: Config, m: Buckets, e: Event, now: int)
    requires cfg.Valid() && Sane(cfg, m, now) && now <= e.at
    ensures Sane(cfg, After(cfg, m, e), e.at)
  {
    if e.Request? {
      LevelLater(cfg, m, e.key, now, e.at);
    }
  }

  /** The refill takes no longer than the least idle time of an evicted bucket. */
  predicate Refills(cfg: Config) {
    cfg.burst as real <= Accrued(cfg, cfg.ttl + 1)
  }

  /** Then an evicted bucket was full anyway. */
  lemma SweptLevel(cfg: Config, m: Buckets, key: Text, now: int)
    requires cfg.Valid() && Sane(cfg, m, now) && Refills(cfg)
    ensures Level(cfg, Swept(cfg, m, now), key, now) == Level(cfg, m, key, now)
  {
    if key in m && now - m[key].lastSeen > cfg.ttl {
      AccruedSum(cfg, now - m[key].lastSeen - cfg.ttl - 1, cfg.ttl + 1);
    }
  }

  /** What one event does to the level of a key. */
  lemma LevelAfter(cfg: Config, m: Buckets, e: Event, key: Text)
    requires cfg.Valid() && Sane(cfg, m, e.at)
    requires e.Evict? ==> Refills(cfg)
    ensures Level(cfg, After(cfg, m, e), key, e.at)
            == Level(cfg, m, key, e.at) - (if e.Request? && e.key == key && Level(cfg, m, key, e.at) >= 1.0 then 1.0
                                           else 0.0)
  {
    LevelLater(cfg, m, key, e.at, e.at);
    assert Accrued(cfg, e.at - e.at) == 0.0;
    if e.Evict? {
      SweptLevel(cfg, m, key, e.at);
    }
  }

  lemma SaneLater(cfg: Config, m: Buckets, now: int, later: int)
    requires Sane(cfg, m, now) && now <= later
    ensures Sane(cfg, m, later)
  {
  }

  // ---------------------------------------------------------------- the window bound

  predicate Covers(cfg: Config, events: seq<Event>) {
    Refills(cfg) || NoEvictions(events)
  }

  /** Tokens are conserved: what is admitted and what is left at the end was
      there at the start or has accrued since. */
  lemma {:induction false} Budget(cfg: Config, m: Buckets, events: seq<Event>, key: Text, s: int, t: int)
    requires cfg.Valid() && Sane(cfg, m, s) && Within(events, s, t) && Covers(cfg, events)
    ensures Sane(cfg, AfterAll(cfg, m, events), t) && s <= t
    ensures Admitted(cfg, m, events, key) as real + Level(cfg, AfterAll(cfg, m, events), key, t)
            <= Level(cfg, m, key, s) + Accrued(cfg, t - s)
    decreases |events|
  {
    if events == [] {
      LevelLater(cfg, m, key, s, t);
    } else {
      var e, rest := events[0], events[1..];
      var m' := After(cfg, m, e);
      SaneAfter(cfg, m, e, s);
      SaneLater(cfg, m, s, e.at);
      assert NoEvictions(events) ==> events[0].Request?;
      Budget(cfg, m', rest, key, e.at, t);
      LevelAfter(cfg, m, e, key);
      LevelLater(cfg, m, key, s, e.at);
      AccruedSum(cfg, e.at - s, t - e.at);
    }
  }

  /** Every window [s, t] of every run admits at most burst + rate (t - s). */
  ghost predicate WindowBound(cfg: Config, before: seq<Event>, window: seq<Event>, key: Text, s: int, t: int) {
    Admitted(cfg, AfterAll(cfg, map[], before), window, key) as real <= cfg.burst as real + Accrued(cfg, t - s)
  }

  lemma WindowIsBounded(cfg: Config, before: seq<Event>, window: seq<Event>, key: Text, start: int, s: int, t: int)
    requires cfg.Valid() && Refills(cfg)
    requires Within(before, start, s) && Within(window, s, t)
    ensures WindowBound(cfg, before, window, key, s, t)
  {
    Budget(cfg, map[], before, key, start, s);
    var m := AfterAll(cfg, map[], before);
    Budget(cfg, m, window, key, s, t);
    LevelLater(cfg, m, key, s, s);
    LevelLater(cfg, AfterAll(cfg, m, window), key, t, t);
  }

  // ---------------------------------------------------------------- eviction is unobservable

  function WithoutEvictions(events: seq<Event>): seq<Event> {
    if events == [] then []
    else (if events[0].Evict? then [] else [events[0]]) + WithoutEvictions(events[1..])
  }

  ghost predicate SameLevels(cfg: Config, a: Buckets, b: Buckets, now: int) {
    forall k :: Level(cfg, a, k, now) == Level(cfg, b, k, now)
  }

  lemma {:induction false} SameLevelsSameAnswers(cfg: Config, a: Buckets, b: Buckets, events: seq<Event>, now: int,
                                                 end: int)
    requires cfg.Valid() && Refills(cfg)
    requires Sane(cfg, a, now) && Sane(cfg, b, now) && SameLevels(cfg, a, b, now) && Within(events, now, end)
    ensures Answers(cfg, a, events) == Answers(cfg, b, WithoutEvictions(events))
    decreases |events|
  {
    if events != [] {
      var e, rest := events[0], events[1..];
      var kept := WithoutEvictions(events);
      var a', b' := After(cfg, a, e), if e.Evict? then b else After(cfg, b, e);
      SaneAfter(cfg, a, e, now);
      SaneLater(cfg, b, now, e.at);
      SaneAfter(cfg, b, e, now);
      forall k
        ensures Level(cfg, a, k, e.at) == Level(cfg, b, k, e.at)
        ensures Level(cfg, a', k, e.at) == Level(cfg, b', k, e.at)
      {
        LevelLater(cfg, a, k, now, e.at);
        LevelLater(cfg, b, k, now, e.at);
        SaneLater(cfg, a, now, e.at);
        LevelAfter(cfg, a, e, k);
        LevelAfter(cfg, b, e, k);
      }
      SameLevelsSameAnswers(cfg, a', b', rest, e.at, end);
      if e.Evict? {
        assert kept == WithoutEvictions(rest);
      } else {
        assert kept[0] == e && kept[1..] == WithoutEvictions(rest);
      }
    }
  }

  /** Whether evictions show in the answers of this run from the start. */
  ghost predicate Unobservable(cfg: Config, events: seq<Event>)
    requires cfg.Valid()
  {
    Answers(cfg, map[], events) == Answers(cfg, map[], WithoutEvictions(events))
  }

  lemma EvictionIsUnobservable(cfg: Config, events: seq<Event>, start: int, end: int)
    requires cfg.Valid() && Refills(cfg) && Within(events, start, end)
    ensures Unobservable(cfg, events)
  {
    SameLevelsSameAnswers(cfg, map[], map[], events, start, end);
  }
}
