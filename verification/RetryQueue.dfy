/** The retry queue object of queue/queue.go: what each locked section does to
    the queued items, and the in-place slice manipulation that does it. */
module RetryQueue {
  import opened Common

  datatype Payload = Payload(host: Text, service: Text, exitStatus: int, message: Text, source: Text, requestID: Text)

  /** `ticket` numbers the items in the order in which they were enqueued. It
      stands for the identity of an item and is not looked at by the queue. */
  datatype Item = Item(id: Text, load: Payload, enqueuedAt: int, attempts: nat, nextRetry: int, ticket: nat)

  /** `overflow`, `underflow` and `nan` are what converting a float64 of 2^63 or
      more, of less than -2^63, and NaN to a Duration yields: the language leaves
      them to the platform. */
  datatype Config = Config(maxSize: int, base: int, max: int, overflow: int, underflow: int, nan: int,
                           persistent: bool) {
    /** The durations among them are 64-bit integers. */
    predicate Typed() {
      && -DURATION_LIMIT <= base < DURATION_LIMIT && -DURATION_LIMIT <= max < DURATION_LIMIT
      && -DURATION_LIMIT <= overflow < DURATION_LIMIT && -DURATION_LIMIT <= underflow < DURATION_LIMIT
      && -DURATION_LIMIT <= nan < DURATION_LIMIT
    }
  }

  const NO_ITEM := Item([], Payload([], [], 0, [], [], []), 0, 0, 0, 0)

  function Pow2(n: nat): (p: nat)
    ensures p >= 1
  {
    if n == 0 then 1 else 2 * Pow2(n - 1)
  }

  // ---------------------------------------------------------------- backoff

  const DURATION_LIMIT: int := 0x8000_0000_0000_0000

  /** From this exponent on, a power of two is infinite as a float64. */
  const INFINITE_FROM: nat := 1024

  /** Zero times infinity. */
  predicate IsNaN(cfg: Config, attempts: nat) {
    cfg.base == 0 && attempts >= INFINITE_FROM
  }

  function Converted(cfg: Config, attempts: nat): int {
    var product := cfg.base * Pow2(attempts);
    if IsNaN(cfg, attempts) then cfg.nan
    else if product >= DURATION_LIMIT then cfg.overflow
    else if product < -DURATION_LIMIT then cfg.underflow
    else product
  }

  function Backoff(cfg: Config, attempts: nat): int {
    var d := Converted(cfg, attempts);
    if d > cfg.max then cfg.max else d
  }

  /** The intended delay: doubling, up to the cap. */
  function Delay(cfg: Config, attempts: nat): int {
    Min(cfg.base * Pow2(attempts), cfg.max)
  }

  predicate Overflows(cfg: Config, attempts: nat) {
    cfg.base * Pow2(attempts) >= DURATION_LIMIT
  }

  predicate Underflows(cfg: Config, attempts: nat) {
    cfg.base * Pow2(attempts) < -DURATION_LIMIT
  }

  /** An overflow is absorbed by the cap, and NaN is no shorter than no delay. */
  predicate Sufficient(cfg: Config, attempts: nat) {
    && (Overflows(cfg, attempts) ==> cfg.overflow >= cfg.max)
    && (IsNaN(cfg, attempts) ==> cfg.nan >= Min(0, cfg.max))
  }

  /** The backoff is at least the intended one exactly under that condition. */
  lemma BackoffSufficesIff(cfg: Config, attempts: nat)
    requires cfg.Typed()
    ensures Backoff(cfg, attempts) >= Delay(cfg, attempts) <==> Sufficient(cfg, attempts)
  {
    assert cfg.base == 0 ==> cfg.base * Pow2(attempts) == 0;
  }

  /** The backoff is the intended one if and only if the product is in range, or
      an overflow is absorbed by the cap, or NaN converts to no delay. */
  lemma BackoffCorrectIff(cfg: Config, attempts: nat)
    requires cfg.Typed()
    ensures Backoff(cfg, attempts) == Delay(cfg, attempts)
            <==> (&& !Underflows(cfg, attempts)
                  && (Overflows(cfg, attempts) ==> cfg.overflow >= cfg.max)
                  && (IsNaN(cfg, attempts) ==> if cfg.max > 0 then cfg.nan == 0 else cfg.nan >= cfg.max))
  {
    assert cfg.base == 0 ==> cfg.base * Pow2(attempts) == 0;
  }

  /** On a platform that yields the smallest Duration, the default settings (5 s
      doubling up to 300 s) are exact for thirty failures and no longer. */
  lemma DefaultBackoffBreaks()
    ensures var least := -DURATION_LIMIT;
            var cfg := Config(1000, 5_000_000_000, 300_000_000_000, least, least, least, true);
            && Backoff(cfg, 30) == cfg.max
            && Backoff(cfg, 31) == -DURATION_LIMIT
  {
    assert Pow2(10) == 1024;
    Pow2Sum(10, 10);
    Pow2Sum(20, 10);
    Pow2Sum(30, 1);
  }

  lemma {:induction false} Pow2Sum(a: nat, b: nat)
    ensures Pow2(a + b) == Pow2(a) * Pow2(b)
  {
    if b > 0 {
      Pow2Sum(a, b - 1);
      assert Pow2(a + b) == 2 * Pow2(a + b - 1);
    }
  }

  lemma {:induction false} Pow2Monotone(a: nat, b: nat)
    requires a <= b
    ensures Pow2(a) <= Pow2(b)
  {
    if a < b {
      Pow2Monotone(a, b - 1);
    }
  }

  /** What is sufficient after some failures was sufficient after fewer. */
  lemma SufficientBelow(cfg: Config, a: nat, b: nat)
    requires a <= b && Sufficient(cfg, b)
    ensures Sufficient(cfg, a)
  {
    Pow2Monotone(a, b);
    if Overflows(cfg, a) {
      TimesMonotone(cfg.base, Pow2(a), Pow2(b));
    }
  }

  lemma TimesMonotone(base: int, p: nat, q: nat)
    requires base * p > 0 && p <= q
    ensures base * p <= base * q
  {
    assert base > 0;
    assert base * q == base * p + base * (q - p);
  }

  /** The least time between enqueueing an item and its retry number `attempts`:
      the sum of the delays before retries 0 .. attempts. */
  function Spacing(cfg: Config, attempts: nat): int {
    if attempts == 0 then Delay(cfg, 0) else Spacing(cfg, attempts - 1) + Delay(cfg, attempts)
  }

  // ---------------------------------------------------------------- locked sections on the item list

  /** Enqueue: drop the oldest item if the queue is full, then append. */
  function Pushed(cfg: Config, items: seq<Item>, item: Item): seq<Item>
    requires cfg.maxSize >= 1
  {
    (if |items| >= cfg.maxSize then items[1..] else items) + [item]
  }

  /** removeByIDs. */
  function Without(items: seq<Item>, ids: set<Text>): seq<Item> {
    if items == [] then []
    else (if items[0].id in ids then [] else [items[0]]) + Without(items[1..], ids)
  }

  /** incrementAttempt: only the first item with that ID. */
  function Bumped(cfg: Config, items: seq<Item>, id: Text, now: int): seq<Item> {
    if items == [] then []
    else if items[0].id == id then
      [items[0].(attempts := items[0].attempts + 1,
                 nextRetry := now + Backoff(cfg, items[0].attempts + 1))] + items[1..]
    else [items[0]] + Bumped(cfg, items[1..], id, now)
  }

  /** The items whose time has come, as processReady snapshots them. */
  function Ready(items: seq<Item>, now: int): seq<Item> {
    if items == [] then []
    else (if items[0].nextRetry > now then [] else [items[0]]) + Ready(items[1..], now)
  }

  /** What is due, and what a removal leaves, said of single items. */
  lemma {:induction false} ReadyIff(items: seq<Item>, at: int, x: Item)
    ensures x in Ready(items, at) <==> x in items && x.nextRetry <= at
    decreases |items|
  {
    if items != [] {
      ReadyIff(items[1..], at, x);
      assert items == [items[0]] + items[1..];
    }
  }

  lemma {:induction false} WithoutIff(items: seq<Item>, ids: set<Text>, x: Item)
    ensures x in Without(items, ids) <==> x in items && x.id !in ids
    decreases |items|
  {
    if items != [] {
      WithoutIff(items[1..], ids, x);
      assert items == [items[0]] + items[1..];
    }
  }

  lemma Regroup(a: seq<Item>, b: seq<Item>, c: seq<Item>)
    ensures a + (b + c) == a + b + c
  {
  }

  lemma HeadAndRest(items: seq<Item>, x: Item)
    requires items != []
    ensures (items + [x])[0] == items[0] && (items + [x])[1..] == items[1..] + [x]
  {
  }

  lemma {:induction false} WithoutAppend(items: seq<Item>, x: Item, ids: set<Text>)
    ensures Without(items + [x], ids) == Without(items, ids) + (if x.id in ids then [] else [x])
    decreases |items|
  {
    if items == [] {
      assert items + [x] == [x];
    } else {
      HeadAndRest(items, x);
      WithoutAppend(items[1..], x, ids);
      Regroup(if items[0].id in ids then [] else [items[0]], Without(items[1..], ids), if x.id in ids then [] else [x]);
    }
  }

  lemma {:induction false} ReadyAppend(items: seq<Item>, x: Item, now: int)
    ensures Ready(items + [x], now) == Ready(items, now) + (if x.nextRetry > now then [] else [x])
    decreases |items|
  {
    if items == [] {
      assert items + [x] == [x];
    } else {
      HeadAndRest(items, x);
      ReadyAppend(items[1..], x, now);
      Regroup(if items[0].nextRetry > now then [] else [items[0]], Ready(items[1..], now),
              if x.nextRetry > now then [] else [x]);
    }
  }

  lemma {:induction false} BumpedAt(cfg: Config, items: seq<Item>, id: Text, now: int, i: nat)
    requires i < |items| && items[i].id == id && forall j :: 0 <= j < i ==> items[j].id != id
    ensures Bumped(cfg, items, id, now)
            == items[i := items[i].(attempts := items[i].attempts + 1,
                                    nextRetry := now + Backoff(cfg, items[i].attempts + 1))]
    decreases i
  {
    if i > 0 {
      BumpedAt(cfg, items[1..], id, now, i - 1);
    }
  }

  lemma {:induction false} BumpedNowhere(cfg: Config, items: seq<Item>, id: Text, now: int)
    requires forall j :: 0 <= j < |items| ==> items[j].id != id
    ensures Bumped(cfg, items, id, now) == items
    decreases |items|
  {
    if items != [] {
      BumpedNowhere(cfg, items[1..], id, now);
    }
  }

  // ---------------------------------------------------------------- the object

  /** Move the surviving items of a[lo..hi] to the front, keeping their order. */
  method Compact(a: array<Item>, lo: nat, hi: nat, ids: set<Text>) returns (n: nat)
    requires lo <= hi <= a.Length
    modifies a
    ensures lo <= n <= hi && a[lo..n] == Without(old(a[lo..hi]), ids)
  {
    ghost var before := a[..];
    ghost var all := a[lo..hi];
    n := lo;
    var i := lo;
    while i < hi
      invariant lo <= n <= i <= hi
      invariant forall j :: i <= j < hi ==> a[j] == before[j]
      invariant a[lo..n] == Without(all[..i - lo], ids)
    {
      var item := a[i];
      assert all[..i - lo + 1] == all[..i - lo] + [item];
      WithoutAppend(all[..i - lo], item, ids);
      if item.id !in ids {
        a[n] := item;
        n := n + 1;
      }
      i := i + 1;
    }
    assert all[..hi - lo] == all;
  }

  datatype Stats = Stats(depth: nat, maxSize: int, oldest: Option<int>, retried: nat, dropped: nat, failed: nat,
                         processing: bool)

  /** `items` is the slice buf[lo..hi]: dropping the oldest item moves `lo`,
      appending fills the room behind `hi` or moves to a larger array, and
      removal compacts in place. */
  class Queue {
    const cfg: Config
    var buf: array<Item>
    var lo: nat
    var hi: nat
    var totalRetried: nat
    var totalDropped: nat
    var totalFailed: nat
    var processing: bool

    ghost predicate Valid()
      reads this
    {
      lo <= hi <= buf.Length
    }

    ghost function Items(): seq<Item>
      requires Valid()
      reads this, buf
    {
      buf[lo..hi]
    }

    constructor (cfg: Config, restored: seq<Item>)
      ensures Valid() && this.cfg == cfg && Items() == restored && fresh(buf)
      ensures totalRetried == totalDropped == totalFailed == 0 && !processing
    {
      this.cfg := cfg;
      buf := new Item[|restored|](i requires 0 <= i < |restored| => restored[i]);
      lo, hi := 0, |restored|;
      totalRetried, totalDropped, totalFailed, processing := 0, 0, 0, false;
    }

    /** Make room for one more item, as append does. */
    method Grow()
      requires Valid()
      modifies this`buf, this`lo, this`hi
      ensures Valid() && hi < buf.Length && Items() == old(Items()) && (buf == old(buf) || fresh(buf))
    {
      if hi == buf.Length {
        var n := hi - lo;
        var bigger := new Item[2 * n + 1](_ => NO_ITEM);
        forall i | 0 <= i < n {
          bigger[i] := buf[lo + i];
        }
        assert bigger[..n] == buf[lo..hi];
        buf, lo, hi := bigger, 0, n;
      }
    }

    /** The two clock readings of Enqueue are `now` and `later`. */
    method Enqueue(id: Text, load: Payload, now: int, later: int, ticket: nat)
      requires Valid() && cfg.maxSize >= 1 && now <= later
      modifies this`buf, this`lo, this`hi, this`totalDropped, buf
      ensures Valid() && (buf == old(buf) || fresh(buf))
      ensures Items() == Pushed(cfg, old(Items()), Item(id, load, now, 0, later + cfg.base, ticket))
      ensures var x := Item(id, load, now, 0, later + cfg.base, ticket);
              if |old(Items())| >= cfg.maxSize
              then Items() == old(Items())[1..] + [x] && totalDropped == old(totalDropped) + 1
              else Items() == old(Items()) + [x] && totalDropped == old(totalDropped)
    {
      if hi - lo >= cfg.maxSize {
        totalDropped := totalDropped + 1;
        lo := lo + 1;
      }
      Grow();
      ghost var before := Items();
      var x := Item(id, load, now, 0, later + cfg.base, ticket);
      buf[hi] := x;
      hi := hi + 1;
      assert Items() == before + [x];
    }

    method IncrementAttempt(id: Text, now: int)
      requires Valid()
      modifies buf
      ensures Valid() && Items() == Bumped(cfg, old(Items()), id, now)
    {
      ghost var before := Items();
      var i := lo;
      while i < hi
        invariant lo <= i <= hi && Items() == before
        invariant forall j :: 0 <= j < i - lo ==> before[j].id != id
      {
        if buf[i].id == id {
          assert before[i - lo] == buf[i];
          BumpedAt(cfg, before, id, now, i - lo);
          var attempts := buf[i].attempts + 1;
          buf[i] := buf[i].(attempts := attempts, nextRetry := now + Backoff(cfg, attempts));
          return;
        }
        assert before[i - lo] == buf[i];
        i := i + 1;
      }
      BumpedNowhere(cfg, before, id, now);
    }

    /** In-place compaction; the freed tail is cleared. */
    method RemoveByIDs(ids: set<Text>)
      requires Valid()
      modifies this`hi, buf
      ensures Valid() && Items() == Without(old(Items()), ids)
      ensures forall i :: hi <= i < old(hi) ==> buf[i] == NO_ITEM
    {
      var n := Compact(buf, lo, hi, ids);
      var i := n;
      ghost var kept := buf[lo..n];
      while i < hi
        invariant n <= i <= hi == old(hi) && buf[lo..n] == kept
        invariant forall j :: n <= j < i ==> buf[j] == NO_ITEM
      {
        buf[i] := NO_ITEM;
        i := i + 1;
      }
      hi := n;
    }

    /** Whether processReady is under way. */
    method SetProcessing(on: bool)
      modifies this`processing
      ensures processing == on
    {
      processing := on;
    }

    method SnapshotReady(now: int) returns (ready: seq<Item>)
      requires Valid()
      ensures ready == Ready(Items(), now)
    {
      ready := [];
      var i := lo;
      while i < hi
        invariant lo <= i <= hi
        invariant ready == Ready(Items()[..i - lo], now)
      {
        assert Items()[..i - lo + 1] == Items()[..i - lo] + [buf[i]];
        ReadyAppend(Items()[..i - lo], buf[i], now);
        if !(buf[i].nextRetry > now) {
          ready := ready + [buf[i]];
        }
        i := i + 1;
      }
      assert Items()[..hi - lo] == Items();
    }

    method GetStats() returns (st: Stats)
      requires Valid()
      ensures st.depth == |Items()| && st.maxSize == cfg.maxSize
      ensures st.oldest == if Items() == [] then None else Some(Items()[0].enqueuedAt)
      ensures st.retried == totalRetried && st.dropped == totalDropped && st.failed == totalFailed
      ensures st.processing == processing
    {
      var oldest := if hi > lo then Some(buf[lo].enqueuedAt) else None;
      st := Stats(hi - lo, cfg.maxSize, oldest, totalRetried, totalDropped, totalFailed, processing);
    }
  }
}
