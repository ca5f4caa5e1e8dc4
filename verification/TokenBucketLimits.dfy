/** Exactly when the token bucket keeps its promises: the window bound and the
    invisibility of eviction hold if and only if a bucket refills before it can be
    evicted; and which rates let a denied client that waits as told in. */
module TokenBucketLimits {
  import opened Common
  import opened TokenBucket

  // ---------------------------------------------------------------- building runs

  function Repeat(at: int, key: Text, n: nat): seq<Event> {
    if n == 0 then [] else [Request(at, key)] + Repeat(at, key, n - 1)
  }

  lemma {:induction false} Concat(cfg: Config, m: Buckets, a: seq<Event>, b: seq<Event>, key: Text)
    ensures AfterAll(cfg, m, a + b) == AfterAll(cfg, AfterAll(cfg, m, a), b)
    ensures Admitted(cfg, m, a + b, key) == Admitted(cfg, m, a, key) + Admitted(cfg, AfterAll(cfg, m, a), b, key)
    decreases |a|
  {
    if a == [] {
      assert a + b == b;
    } else {
      assert (a + b)[1..] == a[1..] + b;
      Concat(cfg, After(cfg, m, a[0]), a[1..], b, key);
    }
  }

  lemma {:induction false} WithinConcat(a: seq<Event>, b: seq<Event>, s: int, t: int, u: int)
    requires Within(a, s, t) && Within(b, t, u)
    ensures Within(a + b, s, u)
    decreases |a|
  {
    if a == [] {
      assert a + b == b;
      if b != [] {
        assert s <= t <= b[0].at;
      }
    } else {
      assert (a + b)[1..] == a[1..] + b;
      WithinConcat(a[1..], b, a[0].at, t, u);
    }
  }

  lemma {:induction false} RepeatFacts(at: int, key: Text, n: nat)
    ensures Within(Repeat(at, key, n), at, at) && NoEvictions(Repeat(at, key, n)) && |Repeat(at, key, n)| == n
    ensures forall i :: 0 <= i < n ==> Repeat(at, key, n)[i] == Request(at, key)
  {
    if n > 0 {
      RepeatFacts(at, key, n - 1);
      assert Repeat(at, key, n)[1..] == Repeat(at, key, n - 1);
    }
  }

  /** A level of n admits n requests at once and leaves the rest. */
  lemma {:induction false} BurstAdmitted(cfg: Config, m: Buckets, key: Text, at: int, n: nat)
    requires cfg.Valid() && Sane(cfg, m, at) && Level(cfg, m, key, at) >= n as real
    ensures Admitted(cfg, m, Repeat(at, key, n), key) == n
    ensures n > 0 ==>
            key in AfterAll(cfg, m, Repeat(at, key, n)) && AfterAll(cfg, m, Repeat(at, key, n))[key].lastSeen == at
    decreases n
  {
    if n > 0 {
      var e := Request(at, key);
      assert Repeat(at, key, n)[1..] == Repeat(at, key, n - 1);
      SaneAfter(cfg, m, e, at);
      LevelAfter(cfg, m, e, key);
      BurstAdmitted(cfg, After(cfg, m, e), key, at, n - 1);
    }
  }

  // ---------------------------------------------------------------- a run that beats the bucket

  /** Spend the burst, stay idle just long enough to be evicted, spend it again. */
  function Cheat(cfg: Config, key: Text, t: int): seq<Event> {
    Repeat(0, key, cfg.burst) + ([Evict(t)] + Repeat(t, key, cfg.burst))
  }

  lemma CheatAdmitsTwice(cfg: Config, key: Text, t: int)
    requires cfg.Valid() && t > cfg.ttl
    ensures Admitted(cfg, map[], Cheat(cfg, key, t), key) == 2 * cfg.burst
    ensures Within(Cheat(cfg, key, t), 0, t)
  {
    var first, second := Repeat(0, key, cfg.burst), Repeat(t, key, cfg.burst);
    var tail := [Evict(t)] + second;
    BurstAdmitted(cfg, map[], key, 0, cfg.burst);
    RepeatFacts(0, key, cfg.burst);
    RepeatFacts(t, key, cfg.burst);
    var m := AfterAll(cfg, map[], first);
    Budget(cfg, map[], first, key, 0, 0);
    Concat(cfg, map[], first, tail, key);
    var m' := After(cfg, m, Evict(t));
    assert key !in m' && tail[0] == Evict(t) && tail[1..] == second;
    SaneAfter(cfg, m, Evict(t), 0);
    BurstAdmitted(cfg, m', key, t, cfg.burst);
    assert Within(tail, 0, t);
    WithinConcat(first, tail, 0, 0, t);
  }

  ghost predicate AlwaysBounded(cfg: Config) {
    forall before: seq<Event>, window: seq<Event>, key: Text, start: int, s: int, t: int ::
      Within(before, start, s) && Within(window, s, t) ==> WindowBound(cfg, before, window, key, s, t)
  }

  /** Window bound: for every key, run and window at most burst + rate (t - s)
      requests are admitted, if and only if burst <= rate * (ttl + 1 ns). */
  lemma WindowBoundIff(cfg: Config)
    requires cfg.Valid()
    ensures AlwaysBounded(cfg) <==> Refills(cfg)
  {
    if Refills(cfg) {
      forall before: seq<Event>, window: seq<Event>, key: Text, start: int, s: int, t: int |
        Within(before, start, s) && Within(window, s, t)
        ensures WindowBound(cfg, before, window, key, s, t)
      {
        WindowIsBounded(cfg, before, window, key, start, s, t);
      }
    } else {
      var t := cfg.ttl + 1;
      var key: Text := [];
      CheatAdmitsTwice(cfg, key, t);
      assert Within([], 0, 0);
      assert AfterAll(cfg, map[], []) == map[];
      assert !WindowBound(cfg, [], Cheat(cfg, key, t), key, 0, t);
    }
  }

  // ---------------------------------------------------------------- visibility of eviction

  function AllowedCount(answers: seq<Answer>): nat {
    if answers == [] then 0 else (if answers[0].allowed then 1 else 0) + AllowedCount(answers[1..])
  }

  predicate OnlyKey(events: seq<Event>, key: Text) {
    forall i :: 0 <= i < |events| && events[i].Request? ==> events[i].key == key
  }

  lemma {:induction false} AnswersCount(cfg: Config, m: Buckets, events: seq<Event>, key: Text)
    requires cfg.Valid() && OnlyKey(events, key)
    ensures AllowedCount(Answers(cfg, m, events)) == Admitted(cfg, m, events, key)
    decreases |events|
  {
    if events != [] {
      AnswersCount(cfg, After(cfg, m, events[0]), events[1..], key);
      var rest := Answers(cfg, After(cfg, m, events[0]), events[1..]);
      if events[0].Request? {
        assert Answers(cfg, m, events)[1..] == rest;
      } else {
        assert Answers(cfg, m, events) == rest;
      }
    }
  }

  lemma {:induction false} KeptFacts(events: seq<Event>, key: Text, s: int, t: int)
    requires OnlyKey(events, key) && Within(events, s, t)
    ensures var kept := WithoutEvictions(events); OnlyKey(kept, key) && NoEvictions(kept) && Within(kept, s, t)
    decreases |events|
  {
    if events != [] {
      KeptFacts(events[1..], key, events[0].at, t);
      var kept, rest := WithoutEvictions(events), WithoutEvictions(events[1..]);
      if events[0].Evict? {
        assert kept == rest;
        WithinEarlier(rest, events[0].at, s, t);
      } else {
        assert kept[1..] == rest;
      }
    }
  }

  lemma WithinEarlier(events: seq<Event>, s: int, s': int, t: int)
    requires Within(events, s, t) && s' <= s
    ensures Within(events, s', t)
  {
  }

  ghost predicate AlwaysUnobservable(cfg: Config)
    requires cfg.Valid()
  {
    forall events: seq<Event>, start: int, end: int :: Within(events, start, end) ==> Unobservable(cfg, events)
  }

  /** Idle eviction changes no answer of any run, if and only if
      burst <= rate * (ttl + 1 ns). */
  lemma UnobservableIff(cfg: Config)
    requires cfg.Valid()
    ensures AlwaysUnobservable(cfg) <==> Refills(cfg)
  {
    if Refills(cfg) {
      forall events: seq<Event>, start: int, end: int | Within(events, start, end)
        ensures Unobservable(cfg, events)
      {
        EvictionIsUnobservable(cfg, events, start, end);
      }
    } else {
      var t := cfg.ttl + 1;
      var key: Text := [];
      var events := Cheat(cfg, key, t);
      var kept := WithoutEvictions(events);
      CheatAdmitsTwice(cfg, key, t);
      RepeatFacts(0, key, cfg.burst);
      RepeatFacts(t, key, cfg.burst);
      assert OnlyKey(events, key);
      KeptFacts(events, key, 0, t);
      AnswersCount(cfg, map[], events, key);
      AnswersCount(cfg, map[], kept, key);
      Budget(cfg, map[], kept, key, 0, t);
      LevelLater(cfg, AfterAll(cfg, map[], kept), key, t, t);
      assert !Unobservable(cfg, events);
    }
  }

  /** For a whole rate, as the program passes it, and a TTL in whole seconds, the
      extra nanosecond makes no difference. */
  lemma WholeRatesIgnoreTheTick(cfg: Config, rate: nat, seconds: nat)
    requires cfg.Valid() && cfg.rate == rate as real && cfg.ttl == seconds * 1_000_000_000 && rate < 1_000_000_000
    ensures Refills(cfg) <==> cfg.burst <= rate * seconds
  {
    assert Accrued(cfg, cfg.ttl + 1) == (rate * seconds) as real + rate as real / NANOS;
  }

  // ---------------------------------------------------------------- Retry-After

  /** Nanoseconds until a full token, before any rounding. */
  function Need(cfg: Config, level: real): real
    requires cfg.Valid()
  {
    (1.0 - level) / cfg.rate * NANOS
  }

  /** The Retry-After header that the webhook handler derives from the wait:
      whole seconds, rounded up, at least one. */
  function Header(wait: int): int {
    Max(1, -((-wait) / SECOND))
  }

  const SECOND: int := 1_000_000_000

  lemma NeedIsExact(cfg: Config, level: real, d: int)
    requires cfg.Valid()
    ensures level + Accrued(cfg, d) >= 1.0 <==> d as real >= Need(cfg, level)
  {
    var need := Need(cfg, level) / NANOS;
    var secs := d as real / NANOS;
    assert need * cfg.rate == 1.0 - level;
    if secs >= need {
      assert (secs - need) * cfg.rate >= 0.0;
    } else {
      assert (need - secs) * cfg.rate > 0.0;
    }
  }

  predicate Leaves(events: seq<Event>, key: Text) {
    forall i :: 0 <= i < |events| && events[i].Request? ==> events[i].key != key
  }

  /** While a key is left alone its level only accrues; an eviction fills it. */
  lemma {:induction false} LeftAlone(cfg: Config, m: Buckets, events: seq<Event>, key: Text, s: int, t: int)
    requires cfg.Valid() && Sane(cfg, m, s) && Within(events, s, t) && Leaves(events, key)
    ensures Sane(cfg, AfterAll(cfg, m, events), t)
    ensures Level(cfg, AfterAll(cfg, m, events), key, t) >= Level(cfg, m, key, t)
    ensures NoEvictions(events) ==> Level(cfg, AfterAll(cfg, m, events), key, t) == Level(cfg, m, key, t)
    decreases |events|
  {
    if events == [] {
      SaneLater(cfg, m, s, t);
    } else {
      var e, m' := events[0], After(cfg, m, events[0]);
      SaneAfter(cfg, m, e, s);
      SaneLater(cfg, m, s, e.at);
      LeftAlone(cfg, m', events[1..], key, e.at, t);
      WithinEnd(events[1..], e.at, t);
      LevelLater(cfg, m, key, e.at, t);
    }
  }

  lemma {:induction false} WithinEnd(events: seq<Event>, s: int, t: int)
    requires Within(events, s, t)
    ensures s <= t
    decreases |events|
  {
    if events != [] {
      WithinEnd(events[1..], events[0].at, t);
    }
  }

  /** After a denial at `now`, a client that is alone on its key is admitted at
      `later` if it waited for the unrounded time; without an eviction in
      between, only then. */
  lemma AdmittedAfterNeed(cfg: Config, m: Buckets, key: Text, now: int, between: seq<Event>, later: int)
    requires cfg.Valid() && Sane(cfg, m, now) && Level(cfg, m, key, now) < 1.0
    requires Within(between, now, later) && Leaves(between, key)
    ensures var m' := AfterAll(cfg, Touched(cfg, m, key, now), between);
            var waited := (later - now) as real >= Need(cfg, Level(cfg, m, key, now));
            && (waited ==> Level(cfg, m', key, later) >= 1.0)
            && (NoEvictions(between) && Level(cfg, m', key, later) >= 1.0 ==> waited)
  {
    var level := Level(cfg, m, key, now);
    var m1 := Touched(cfg, m, key, now);
    SaneAfter(cfg, m, Request(now, key), now);
    LeftAlone(cfg, m1, between, key, now, later);
    WithinEnd(between, now, later);
    LevelLater(cfg, m, key, now, now);
    LevelLater(cfg, m1, key, now, later);
    assert Accrued(cfg, 0) == 0.0;
    assert Level(cfg, m1, key, now) == level;
    NeedIsExact(cfg, level, later - now);
  }

  /** The advertised nanoseconds fall short of the need by less than one. */
  lemma WaitTruncates(cfg: Config, level: real)
    requires cfg.Valid()
    ensures Wait(cfg, level) as real <= Need(cfg, level) < Wait(cfg, level) as real + 1.0
  {
  }

  /** The header is long enough unless the need is over one second and exceeds a
      whole number of seconds by less than a nanosecond. */
  lemma HeaderEnoughIff(cfg: Config, level: real)
    requires cfg.Valid() && level < 1.0
    ensures var need := Need(cfg, level);
            (Header(Wait(cfg, level)) * SECOND) as real >= need
            <==> !(need > SECOND as real && need > need.Floor as real && need.Floor % SECOND == 0)
  {
    var need, w := Need(cfg, level), Wait(cfg, level);
    WaitTruncates(cfg, level);
    assert w == need.Floor && w >= 0;
    var h := -((-w) / SECOND);
    assert (h - 1) * SECOND < w <= h * SECOND;
    assert w % SECOND == 0 <==> w == h * SECOND;
  }

  /** The header is no longer than it has to be: a second less would be too short. */
  lemma HeaderIsLeast(cfg: Config, level: real)
    requires cfg.Valid() && level < 1.0
    ensures var h := Header(Wait(cfg, level)); h >= 1 && (h > 1 ==> ((h - 1) * SECOND) as real < Need(cfg, level))
  {
    var w := Wait(cfg, level);
    WaitTruncates(cfg, level);
    var h := -((-w) / SECOND);
    assert (h - 1) * SECOND < w <= h * SECOND;
  }

  /** With a rate of at least one per second, the header is always one second and
      always enough. */
  lemma OneSecondIsEnough(cfg: Config, m: Buckets, key: Text, now: int, between: seq<Event>, later: int)
    requires cfg.Valid() && cfg.rate >= 1.0 && Sane(cfg, m, now) && Level(cfg, m, key, now) < 1.0
    requires Within(between, now, later) && Leaves(between, key) && later >= now + SECOND
    ensures Header(Ask(cfg, Level(cfg, m, key, now)).wait) == 1
    ensures Ask(cfg, Level(cfg, AfterAll(cfg, Touched(cfg, m, key, now), between), key, later)).allowed
  {
    var level := Level(cfg, m, key, now);
    LevelLater(cfg, m, key, now, now);
    NeedIsExact(cfg, level, SECOND);
    assert Accrued(cfg, SECOND) >= 1.0;
    assert Need(cfg, level) <= SECOND as real;
    WaitTruncates(cfg, level);
    assert Wait(cfg, level) <= SECOND;
    AdmittedAfterNeed(cfg, m, key, now, between, later);
  }

  // ---------------------------------------------------------------- when the header is honest

  /** The second request is told to wait two seconds, does, and is denied again. */
  lemma HeaderFallsShort(key: Text)
    ensures var cfg := Config(0.3, 1, 600 * SECOND);
            var m1 := Touched(cfg, map[], key, 0);
            var m2 := Touched(cfg, m1, key, 1_333_333_333);
            && Ask(cfg, Level(cfg, map[], key, 0)).allowed
            && !Ask(cfg, Level(cfg, m1, key, 1_333_333_333)).allowed
            && Header(Ask(cfg, Level(cfg, m1, key, 1_333_333_333)).wait) == 2
            && !Ask(cfg, Level(cfg, m2, key, 1_333_333_333 + 2 * SECOND)).allowed
  {
    var cfg := Config(0.3, 1, 600 * SECOND);
    var m1 := Touched(cfg, map[], key, 0);
    assert m1[key] == Bucket(0.0, 0);
    assert Level(cfg, m1, key, 1_333_333_333) == 0.3999999999;
    assert 2_000_000_000.0 <= (1.0 - 0.3999999999) / 0.3 * NANOS < 2_000_000_001.0;
    assert Wait(cfg, 0.3999999999) == 2_000_000_000;
    var m2 := Touched(cfg, m1, key, 1_333_333_333);
    assert m2[key] == Bucket(0.3999999999, 1_333_333_333);
  }

  lemma {:induction false} SaneRun(cfg: Config, m: Buckets, events: seq<Event>, s: int, t: int)
    requires cfg.Valid() && Sane(cfg, m, s) && Within(events, s, t)
    ensures Sane(cfg, AfterAll(cfg, m, events), t)
    decreases |events|
  {
    if events == [] {
      SaneLater(cfg, m, s, t);
    } else {
      SaneAfter(cfg, m, events[0], s);
      SaneRun(cfg, After(cfg, m, events[0]), events[1..], events[0].at, t);
    }
  }

  /** A client denied at `now`, after any history, that waits for the advertised
      seconds while nobody else uses its key, is admitted. */
  ghost predicate Honoured(cfg: Config, before: seq<Event>, key: Text, start: int, now: int, between: seq<Event>,
                           later: int)
    requires cfg.Valid()
  {
    var m := AfterAll(cfg, map[], before);
    var denied := Ask(cfg, Level(cfg, m, key, now));
    Within(before, start, now) && !denied.allowed && Within(between, now, later) && Leaves(between, key)
    && later - now >= Header(denied.wait) * SECOND
    ==> Ask(cfg, Level(cfg, AfterAll(cfg, Touched(cfg, m, key, now), between), key, later)).allowed
  }

  ghost predicate AlwaysHonoured(cfg: Config)
    requires cfg.Valid()
  {
    forall before: seq<Event>, key: Text, start: int, now: int, between: seq<Event>, later: int ::
      Honoured(cfg, before, key, start, now, between, later)
  }

  predicate Whole(x: real) {
    x == x.Floor as real
  }

  lemma IntIsWhole(n: int)
    ensures Whole(n as real)
  {
  }

  lemma WholeSum(x: real, y: real)
    requires Whole(x) && Whole(y)
    ensures Whole(x + y) && Whole(x - y)
  {
    var a, b := x.Floor, y.Floor;
    assert (a + b) as real == x + y && (a - b) as real == x - y;
    IntIsWhole(a + b);
    IntIsWhole(a - b);
  }

  /** Nanoseconds per token. */
  function Period(cfg: Config): real
    requires cfg.Valid()
  {
    NANOS / cfg.rate
  }

  /** The nanoseconds that it takes to accrue these tokens. */
  function Worth(cfg: Config, tokens: real): real
    requires cfg.Valid()
  {
    tokens * Period(cfg)
  }

  lemma WorthSum(cfg: Config, a: real, b: real)
    requires cfg.Valid()
    ensures Worth(cfg, a + b) == Worth(cfg, a) + Worth(cfg, b) && Worth(cfg, a - b) == Worth(cfg, a) - Worth(cfg, b)
  {
  }

  lemma WorthOfWhole(cfg: Config, n: int)
    requires cfg.Valid() && Whole(Period(cfg))
    ensures Whole(Worth(cfg, n as real))
  {
    var a := Period(cfg).Floor;
    assert Worth(cfg, n as real) == (n * a) as real;
    IntIsWhole(n * a);
  }

  lemma WorthFacts(cfg: Config, level: real, d: int)
    requires cfg.Valid()
    ensures Worth(cfg, Accrued(cfg, d)) == d as real && Worth(cfg, 1.0) == Period(cfg)
    ensures Need(cfg, level) == Worth(cfg, 1.0 - level)
  {
    assert Period(cfg) * cfg.rate == NANOS;
    var secs := d as real / NANOS;
    assert secs * cfg.rate * Period(cfg) == secs * NANOS;
  }

  // ---------------------------------------------------------------- a whole period

  /** Every bucket holds a whole number of nanoseconds' worth of tokens. */
  ghost predicate InNanos(cfg: Config, m: Buckets)
    requires cfg.Valid()
  {
    forall k :: k in m ==> Whole(Worth(cfg, m[k].tokens))
  }

  lemma LevelInNanos(cfg: Config, m: Buckets, key: Text, now: int)
    requires cfg.Valid() && Whole(Period(cfg)) && InNanos(cfg, m)
    ensures Whole(Worth(cfg, Level(cfg, m, key, now)))
  {
    WorthOfWhole(cfg, cfg.burst);
    if key in m {
      var tokens, d := m[key].tokens, now - m[key].lastSeen;
      WorthFacts(cfg, 0.0, d);
      IntIsWhole(d);
      WorthSum(cfg, tokens, Accrued(cfg, d));
      WholeSum(Worth(cfg, tokens), d as real);
    }
  }

  lemma AfterInNanos(cfg: Config, m: Buckets, e: Event)
    requires cfg.Valid() && Whole(Period(cfg)) && InNanos(cfg, m)
    ensures InNanos(cfg, After(cfg, m, e))
  {
    if e.Request? {
      var level := Level(cfg, m, e.key, e.at);
      LevelInNanos(cfg, m, e.key, e.at);
      WorthFacts(cfg, 0.0, 0);
      WorthSum(cfg, level, 1.0);
      WholeSum(Worth(cfg, level), Period(cfg));
    }
  }

  lemma {:induction false} RunInNanos(cfg: Config, m: Buckets, events: seq<Event>)
    requires cfg.Valid() && Whole(Period(cfg)) && InNanos(cfg, m)
    ensures InNanos(cfg, AfterAll(cfg, m, events))
    decreases |events|
  {
    if events != [] {
      AfterInNanos(cfg, m, events[0]);
      RunInNanos(cfg, After(cfg, m, events[0]), events[1..]);
    }
  }

  /** Then the wait needs no rounding, and the header is enough. */
  lemma WholePeriodIsEnough(cfg: Config, before: seq<Event>, key: Text, now: int)
    requires cfg.Valid() && Whole(Period(cfg))
    ensures var level := Level(cfg, AfterAll(cfg, map[], before), key, now);
            level < 1.0 ==> (Header(Wait(cfg, level)) * SECOND) as real >= Need(cfg, level)
  {
    var m := AfterAll(cfg, map[], before);
    var level := Level(cfg, m, key, now);
    if level < 1.0 {
      RunInNanos(cfg, map[], before);
      LevelInNanos(cfg, m, key, now);
      WorthFacts(cfg, level, 0);
      WorthSum(cfg, 1.0, level);
      WholeSum(Period(cfg), Worth(cfg, level));
      HeaderEnoughIff(cfg, level);
    }
  }

  // ---------------------------------------------------------------- a broken period

  /** Then there is a time at which an empty bucket needs a second and a fraction
      of a nanosecond more. */
  lemma JustOver(cfg: Config) returns (d: int)
    requires cfg.Valid() && cfg.rate < 1.0 && !Whole(Period(cfg))
    ensures d >= 0 && 0.0 <= Accrued(cfg, d) < 1.0
    ensures SECOND as real < Need(cfg, Accrued(cfg, d)) < SECOND as real + 1.0
  {
    var p := Period(cfg);
    assert p * cfg.rate == NANOS;
    assert p > NANOS;
    d := p.Floor - SECOND;
    var level := Accrued(cfg, d);
    WorthFacts(cfg, level, d);
    WorthSum(cfg, 1.0, level);
    assert level * p == d as real;
    assert level < 1.0;
    AccruedSum(cfg, d, 0);
  }

  /** After its burst a bucket is empty, and fills up from there. */
  lemma SpentBurst(cfg: Config, key: Text, d: int)
    requires cfg.Valid() && d >= 0 && Accrued(cfg, d) < 1.0
    ensures var before := Repeat(0, key, cfg.burst);
            var m := AfterAll(cfg, map[], before);
            Within(before, 0, d) && Sane(cfg, m, d) && Level(cfg, m, key, d) == Accrued(cfg, d)
  {
    var before := Repeat(0, key, cfg.burst);
    var m := AfterAll(cfg, map[], before);
    BurstAdmitted(cfg, map[], key, 0, cfg.burst);
    RepeatFacts(0, key, cfg.burst);
    Budget(cfg, map[], before, key, 0, 0);
    LevelLater(cfg, m, key, 0, d);
    SaneLater(cfg, m, 0, d);
    assert Within([], 0, d) && before + [] == before;
    WithinConcat(before, [], 0, 0, d);
  }

  /** A run in which waiting as told is not enough. */
  lemma BrokenPeriodFallsShort(cfg: Config, key: Text) returns (before: seq<Event>, now: int, later: int)
    requires cfg.Valid() && cfg.rate < 1.0 && !Whole(Period(cfg))
    ensures !Honoured(cfg, before, key, 0, now, [], later)
  {
    now := JustOver(cfg);
    SpentBurst(cfg, key, now);
    before := Repeat(0, key, cfg.burst);
    var m := AfterAll(cfg, map[], before);
    var level := Level(cfg, m, key, now);
    assert Need(cfg, level).Floor == SECOND;
    HeaderEnoughIff(cfg, level);
    later := now + Header(Wait(cfg, level)) * SECOND;
    assert Within([], now, later);
    AdmittedAfterNeed(cfg, m, key, now, [], later);
  }

  lemma HonouredIfEnough(cfg: Config, before: seq<Event>, key: Text, start: int, now: int, between: seq<Event>,
                         later: int)
    requires cfg.Valid() && (cfg.rate >= 1.0 || Whole(Period(cfg)))
    ensures Honoured(cfg, before, key, start, now, between, later)
  {
    var m := AfterAll(cfg, map[], before);
    var level := Level(cfg, m, key, now);
    if Within(before, start, now) && level < 1.0 && Within(between, now, later) && Leaves(between, key)
       && later - now >= Header(Wait(cfg, level)) * SECOND {
      SaneRun(cfg, map[], before, start, now);
      if cfg.rate >= 1.0 {
        OneSecondIsEnough(cfg, m, key, now, between, later);
      } else {
        WholePeriodIsEnough(cfg, before, key, now);
        AdmittedAfterNeed(cfg, m, key, now, between, later);
      }
    }
  }

  /** The Retry-After header is honest in all runs if and only if the rate is at
      least one request per second, or a token takes a whole number of
      nanoseconds. */
  lemma AlwaysHonouredIff(cfg: Config)
    requires cfg.Valid()
    ensures AlwaysHonoured(cfg) <==> cfg.rate >= 1.0 || Whole(Period(cfg))
  {
    if cfg.rate >= 1.0 || Whole(Period(cfg)) {
      forall before: seq<Event>, key: Text, start: int, now: int, between: seq<Event>, later: int
        ensures Honoured(cfg, before, key, start, now, between, later)
      {
        HonouredIfEnough(cfg, before, key, start, now, between, later);
      }
    } else {
      var before, now, later := BrokenPeriodFallsShort(cfg, []);
      assert !Honoured(cfg, before, [], 0, now, [], later);
    }
  }
}
