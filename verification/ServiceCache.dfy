/** The TTL cache of Icinga2 service states (cache/services.go).

    Every read of the cache is shown to be a function of one timed map, `View`,
    and lazy expiry together with eager eviction is shown to be unobservable. */
module ServiceCache {
  import opened Common

  datatype ServiceState = NotFound | Pending | Ready | PendingDelete

  datatype Entry = Entry(state: ServiceState, createdAt: int)

  type Entries = map<Text, Entry>

  const SEPARATOR: byte := 0x1f

  // ---------------------------------------------------------------- keys

  function ServiceKey(host: Text, service: Text): Text {
    host + [SEPARATOR] + service
  }

  /** Cut at the first separator; a key without one is all service. */
  function SplitServiceKey(key: Text): (Text, Text) {
    var i := FirstSeparator(key);
    if i == |key| then ([], key) else (key[..i], key[i + 1..])
  }

  function FirstSeparator(key: Text): (i: nat)
    ensures i <= |key| && SEPARATOR !in key[..i]
    ensures i < |key| ==> key[i] == SEPARATOR
  {
    if key == [] || key[0] == SEPARATOR then 0
    else
      var j := FirstSeparator(key[1..]);
      assert key[..j + 1] == [key[0]] + key[1..][..j];
      j + 1
  }

  /** Splitting a composite key recovers the pair exactly for the hosts that do
      not contain the separator byte. */
  lemma SplitRecoversPair(host: Text, service: Text)
    ensures SplitServiceKey(ServiceKey(host, service)) == (host, service) <==> SEPARATOR !in host
  {
    var key := ServiceKey(host, service);
    var i := FirstSeparator(key);
    assert key[|host|] == SEPARATOR;
    assert forall j :: 0 <= j < i ==> key[j] == key[..i][j];
    assert forall j :: 0 <= j < |host| ==> key[j] == host[j];
    if SEPARATOR !in host {
      assert i == |host|;
      assert key[..i] == host && key[i + 1..] == service;
    }
  }

  /** The intended order of the listings: by host, then by service. */
  predicate PairLess(h1: Text, s1: Text, h2: Text, s2: Text) {
    Less(h1, h2) || (h1 == h2 && Less(s1, s2))
  }

  predicate AboveSeparator(host: Text) {
    forall i :: 0 <= i < |host| ==> host[i] > SEPARATOR
  }

  /** Comparing composite keys is comparing (host, service) pairs. */
  lemma {:induction false} KeyOrderIsPairOrder(h1: Text, s1: Text, h2: Text, s2: Text)
    requires AboveSeparator(h1) && AboveSeparator(h2)
    ensures Less(ServiceKey(h1, s1), ServiceKey(h2, s2)) <==> PairLess(h1, s1, h2, s2)
    decreases |h1|
  {
    var k1, k2 := ServiceKey(h1, s1), ServiceKey(h2, s2);
    if h1 == [] || h2 == [] {
      if h1 == h2 {
        LessSamePrefix([SEPARATOR], s1, s2);
        assert k1 == [SEPARATOR] + s1 && k2 == [SEPARATOR] + s2;
        LessTotal(h1, h1);
      }
    } else if h1[0] == h2[0] {
      KeyOrderIsPairOrder(h1[1..], s1, h2[1..], s2);
      assert k1[1..] == ServiceKey(h1[1..], s1) && k2[1..] == ServiceKey(h2[1..], s2);
      assert h1 == [h1[0]] + h1[1..] && h2 == [h2[0]] + h2[1..];
    }
  }

  /** Whether the byte order of composite keys agrees with the pair order for
      this host against every other acceptable host. */
  ghost predicate SortsFaithfully(host: Text) {
    forall other: Text, s1: Text, s2: Text {:trigger ServiceKey(other, s1), ServiceKey(host, s2)} |
      AboveSeparator(other) ::
      Less(ServiceKey(other, s1), ServiceKey(host, s2)) <==> PairLess(other, s1, host, s2)
  }

  /** A host byte at or below 0x1f breaks the order, and nothing else does. */
  lemma SortsFaithfullyIff(host: Text)
    ensures SortsFaithfully(host) <==> AboveSeparator(host)
  {
    if AboveSeparator(host) {
      forall other: Text, s1: Text, s2: Text | AboveSeparator(other)
        ensures Less(ServiceKey(other, s1), ServiceKey(host, s2)) <==> PairLess(other, s1, host, s2)
      {
        KeyOrderIsPairOrder(other, s1, host, s2);
      }
    } else {
      var other, s1 := LowHostMisorders(host);
      assert !(Less(ServiceKey(other, s1), ServiceKey(host, [])) <==> PairLess(other, s1, host, []));
    }
  }

  /** Cut the host before its first low byte: the cut host sorts first as a pair,
      yet with a suitable service its key does not sort before (host, ""). */
  lemma LowHostMisorders(host: Text) returns (other: Text, s1: Text)
    requires !AboveSeparator(host)
    ensures AboveSeparator(other) && PairLess(other, s1, host, []) && !Less(ServiceKey(other, s1), ServiceKey(host, []))
  {
    var i := FirstLow(host);
    var low, rest := host[i], host[i + 1..];
    other, s1 := host[..i], rest + [SEPARATOR, 0];
    assert host == other + host[i..] && other == other + [];
    LessSamePrefix(other, [], host[i..]);
    var x, y: Text := [SEPARATOR] + s1, [low] + rest + [SEPARATOR];
    assert ServiceKey(other, s1) == other + x && ServiceKey(host, []) == other + y;
    LessSamePrefix(other, x, y);
    assert x[0] == SEPARATOR && y[0] == low;
    if low == SEPARATOR {
      assert x == y + [0] && y == y + [];
      LessSamePrefix(y, [0], []);
    }
  }

  function FirstLow(host: Text): (i: nat)
    requires !AboveSeparator(host)
    ensures i < |host| && host[i] <= SEPARATOR && AboveSeparator(host[..i])
  {
    if host[0] <= SEPARATOR then 0
    else
      assert exists j :: 0 <= j < |host| && host[j] <= SEPARATOR && host[j] == host[1..][j - 1];
      var j := FirstLow(host[1..]);
      assert host[..j + 1] == [host[0]] + host[1..][..j];
      j + 1
  }

  // ---------------------------------------------------------------- the timed map

  predicate Live(e: Entry, ttl: int, now: int) {
    now - e.createdAt <= ttl
  }

  /** The one timed map that all readers observe. */
  function View(entries: Entries, ttl: int, now: int): map<Text, ServiceState> {
    map k | k in entries && Live(entries[k], ttl, now) :: entries[k].state
  }

  function Lookup(entries: Entries, ttl: int, now: int, key: Text): ServiceState {
    if key in entries && Live(entries[key], ttl, now) then entries[key].state else NotFound
  }

  function Evicted(entries: Entries, ttl: int, now: int): Entries {
    map k | k in entries && Live(entries[k], ttl, now) :: entries[k]
  }

  datatype Op = Put(key: Text, state: ServiceState) | Delete(key: Text) | Evict | Observe

  datatype TimedOp = At(time: int, op: Op)

  /** The answers given to the Observe operations of a run, in order. */
  function Answers(entries: Entries, ttl: int, ops: seq<TimedOp>): seq<map<Text, ServiceState>>
    decreases |ops|
  {
    if ops == [] then []
    else
      var t, rest := ops[0].time, ops[1..];
      match ops[0].op
      case Put(k, s) => Answers(entries[k := Entry(s, t)], ttl, rest)
      case Delete(k) => Answers(entries - {k}, ttl, rest)
      case Evict => Answers(Evicted(entries, ttl, t), ttl, rest)
      case Observe => [View(entries, ttl, t)] + Answers(entries, ttl, rest)
  }

  function WithoutEvictions(ops: seq<TimedOp>): seq<TimedOp> {
    if ops == [] then []
    else (if ops[0].op.Evict? then [] else [ops[0]]) + WithoutEvictions(ops[1..])
  }

  /** Times never go backwards, and none is before `start`. */
  predicate Monotone(ops: seq<TimedOp>, start: int) {
    ops == [] || (start <= ops[0].time && Monotone(ops[1..], ops[0].time))
  }

  /** Two caches that give the same answers at every time from `now` on. */
  ghost predicate Agree(a: Entries, b: Entries, ttl: int, now: int) {
    forall k :: && (k in a && Live(a[k], ttl, now) ==> k in b && b[k] == a[k])
                && (k in b && Live(b[k], ttl, now) ==> k in a && a[k] == b[k])
  }

  lemma {:induction false} AgreeingCachesAnswerAlike(a: Entries, b: Entries, ttl: int, ops: seq<TimedOp>, now: int)
    requires Agree(a, b, ttl, now) && Monotone(ops, now)
    ensures Answers(a, ttl, ops) == Answers(b, ttl, WithoutEvictions(ops))
    decreases |ops|
  {
    if ops != [] {
      var t, rest := ops[0].time, ops[1..];
      var kept := WithoutEvictions(ops);
      if !ops[0].op.Evict? {
        assert kept[0] == ops[0] && kept[1..] == WithoutEvictions(rest);
      } else {
        assert kept == WithoutEvictions(rest);
      }
      match ops[0].op
      case Put(k, s) => AgreeingCachesAnswerAlike(a[k := Entry(s, t)], b[k := Entry(s, t)], ttl, rest, t);
      case Delete(k) => AgreeingCachesAnswerAlike(a - {k}, b - {k}, ttl, rest, t);
      case Evict => AgreeingCachesAnswerAlike(Evicted(a, ttl, t), b, ttl, rest, t);
      case Observe =>
        AgreeingCachesAnswerAlike(a, b, ttl, rest, t);
        assert View(a, ttl, t) == View(b, ttl, t);
    }
  }

  /** Evictions, wherever they happen, change no later answer. */
  lemma EvictionUnobservable(entries: Entries, ttl: int, ops: seq<TimedOp>, start: int)
    requires Monotone(ops, start)
    ensures Answers(entries, ttl, ops) == Answers(entries, ttl, WithoutEvictions(ops))
  {
    AgreeingCachesAnswerAlike(entries, entries, ttl, ops, start);
  }

  // ---------------------------------------------------------------- freezing

  /** `None` is a permanent freeze. */
  type Freezes = map<Text, Option<int>>

  /** What GetFreezeInfo answers: a freeze is over strictly after its instant. */
  predicate FrozenInfo(freezes: Freezes, key: Text, now: int) {
    key in freezes && (freezes[key].Some? ==> now <= freezes[key].value)
  }

  /** What AllEntries reports: a freeze is over at its instant already. */
  predicate FrozenListed(freezes: Freezes, key: Text, now: int) {
    key in freezes && (freezes[key].Some? ==> now < freezes[key].value)
  }

  datatype CacheRow = CacheRow(key: Text, host: Text, service: Text, state: ServiceState, frozen: bool,
                               until: Option<int>)

  function Row(view: map<Text, ServiceState>, freezes: Freezes, now: int, key: Text): CacheRow
    requires key in view
  {
    var (host, service) := SplitServiceKey(key);
    var frozen := FrozenListed(freezes, key, now);
    CacheRow(key, host, service, view[key], frozen, if frozen then freezes[key] else None)
  }

  predicate SortedByKey(rows: seq<CacheRow>) {
    forall i, j :: 0 <= i < j < |rows| ==> Less(rows[i].key, rows[j].key)
  }

  /** `rows` holds exactly the rows of `keys`, each once, in key order. */
  ghost predicate Lists(rows: seq<CacheRow>, keys: set<Text>, view: map<Text, ServiceState>, freezes: Freezes, now: int)
    requires keys <= view.Keys
  {
    && SortedByKey(rows)
    && forall r: CacheRow :: r in rows <==> r.key in keys && r == Row(view, freezes, now, r.key)
  }

  /** Sorted listings with the same rows are the same listing. */
  lemma {:induction false} ListingUnique(a: seq<CacheRow>, b: seq<CacheRow>)
    requires SortedByKey(a) && SortedByKey(b)
    requires forall r: CacheRow :: r in a <==> r in b
    ensures a == b
  {
    if a != [] && b != [] {
      FirstIsLeast(a, b);
      FirstIsLeast(b, a);
      LessTotal(a[0].key, b[0].key);
      RestHasTheRest(a);
      RestHasTheRest(b);
      assert a[0] == b[0];
      ListingUnique(a[1..], b[1..]);
      assert a == [a[0]] + a[1..] && b == [b[0]] + b[1..];
    } else {
      SameEmptiness(a, b);
    }
  }

  lemma SameEmptiness(a: seq<CacheRow>, b: seq<CacheRow>)
    requires forall r: CacheRow :: r in a <==> r in b
    ensures a == [] <==> b == []
  {
    if a != [] {
      assert a[0] in a;
    }
    if b != [] {
      assert b[0] in b;
    }
  }

  lemma FirstIsLeast(a: seq<CacheRow>, b: seq<CacheRow>)
    requires a != [] && b != [] && SortedByKey(a) && b[0] in a
    ensures a[0] == b[0] || Less(a[0].key, b[0].key)
  {
    var j :| 0 <= j < |a| && a[j] == b[0];
  }

  lemma RestHasTheRest(a: seq<CacheRow>)
    requires a != [] && SortedByKey(a)
    ensures SortedByKey(a[1..])
    ensures forall r: CacheRow :: r in a[1..] <==> r in a && r != a[0]
  {
    LessTotal(a[0].key, a[0].key);
    assert forall r: CacheRow :: r in a <==> r == a[0] || r in a[1..];
    assert forall i :: 0 <= i < |a| - 1 ==> a[1..][i] == a[i + 1];
  }

  /** An entry is there from its writing to the end of its TTL. */
  lemma VisibleThroughTTL(entries: Entries, ttl: int, key: Text, state: ServiceState, at: int, now: int, other: Text)
    requires other != key
    ensures Lookup(entries[key := Entry(state, at)], ttl, now, key) == if now <= at + ttl then state else NotFound
    ensures Lookup(entries[key := Entry(state, at)], ttl, now, other) == Lookup(entries, ttl, now, other)
  {
  }

  /** The timed map holds exactly what can be looked up. */
  lemma ViewIsLookup(entries: Entries, ttl: int, now: int, key: Text)
    ensures var view := View(entries, ttl, now);
            if key in view then key in entries && view[key] == entries[key].state && now <= entries[key].createdAt + ttl
            else key !in entries || now > entries[key].createdAt + ttl
    ensures Lookup(entries, ttl, now, key)
            == if key in View(entries, ttl, now) then View(entries, ttl, now)[key] else NotFound
  {
  }

  /** A freeze lasts up to and including its instant, or for ever. */
  lemma FreezeLasts(freezes: Freezes, key: Text, until: Option<int>, now: int, other: Text)
    requires other != key
    ensures FrozenInfo(freezes[key := until], key, now) <==> until == None || now <= until.value
    ensures FrozenInfo(freezes[key := until], other, now) == FrozenInfo(freezes, other, now)
  {
  }

  /** The row of a registered pair shows the pair, its state and its freeze. */
  lemma RowShowsPair(view: map<Text, ServiceState>, freezes: Freezes, now: int, host: Text, service: Text)
    requires ServiceKey(host, service) in view && SEPARATOR !in host
    ensures var key := ServiceKey(host, service); var row := Row(view, freezes, now, key);
            && row.host == host && row.service == service && row.state == view[key]
            && (row.frozen <==> key in freezes && (freezes[key] == None || now < freezes[key].value))
            && row.until == if row.frozen then freezes[key] else None
  {
    SplitRecoversPair(host, service);
  }

  /** The two ways of asking agree except at the exact instant of expiry. */
  lemma FreezeViewsAgreeIff(freezes: Freezes, key: Text, now: int)
    ensures FrozenListed(freezes, key, now) == FrozenInfo(freezes, key, now)
            <==> !(key in freezes && freezes[key] == Some(now))
  {
  }

  class Cache {
    var entries: Entries
    var frozenUntil: Freezes
    const ttl: int

    constructor (ttlMinutes: int)
      ensures entries == map[] && frozenUntil == map[] && ttl == ttlMinutes * 60_000_000_000
    {
      entries, frozenUntil, ttl := map[], map[], ttlMinutes * 60_000_000_000;
    }

    method GetState(host: Text, name: Text, now: int) returns (s: ServiceState)
      ensures var view := View(entries, ttl, now); var k := ServiceKey(host, name);
              s == if k in view then view[k] else NotFound
    {
      var key := ServiceKey(host, name);
      if key !in entries {
        return NotFound;
      }
      if now - entries[key].createdAt > ttl {
        return NotFound;
      }
      return entries[key].state;
    }

    /** Register, SetPending and SetPendingDelete: overwrite and restart the clock. */
    method SetState(host: Text, name: Text, state: ServiceState, now: int)
      modifies this`entries
      ensures entries == old(entries)[ServiceKey(host, name) := Entry(state, now)]
      ensures ttl >= 0 ==> View(entries, ttl, now) == View(old(entries), ttl, now)[ServiceKey(host, name) := state]
    {
      entries := entries[ServiceKey(host, name) := Entry(state, now)];
    }

    method Remove(host: Text, name: Text)
      modifies this`entries
      ensures entries == old(entries) - {ServiceKey(host, name)}
      ensures forall now :: View(entries, ttl, now) == View(old(entries), ttl, now) - {ServiceKey(host, name)}
    {
      entries := entries - {ServiceKey(host, name)};
    }

    method All(now: int) returns (result: map<Text, ServiceState>)
      ensures result == View(entries, ttl, now)
    {
      result := map[];
      var todo := entries.Keys;
      while todo != {}
        invariant todo <= entries.Keys
        invariant result == map k | k in entries && k !in todo && Live(entries[k], ttl, now) :: entries[k].state
        decreases todo
      {
        var name :| name in todo;
        if now - entries[name].createdAt <= ttl {
          result := result[name := entries[name].state];
        }
        todo := todo - {name};
      }
    }

    method Len(now: int) returns (count: nat)
      ensures count == |View(entries, ttl, now)|
    {
      count := 0;
      var todo := entries.Keys;
      ghost var seen: set<Text> := {};
      while todo != {}
        invariant todo <= entries.Keys
        invariant seen == set k | k in entries && k !in todo && Live(entries[k], ttl, now)
        invariant count == |seen|
        decreases todo
      {
        var name :| name in todo;
        if now - entries[name].createdAt <= ttl {
          count := count + 1;
          seen := seen + {name};
        }
        todo := todo - {name};
      }
      assert View(entries, ttl, now).Keys == seen;
    }

    method EvictExpired(now: int) returns (evicted: nat)
      modifies this`entries
      ensures entries == Evicted(old(entries), ttl, now)
      ensures forall k :: k in entries <==> k in old(entries) && now <= old(entries)[k].createdAt + ttl
      ensures evicted == |old(entries)| - |entries|
    {
      evicted := 0;
      var todo := entries.Keys;
      ghost var all := entries;
      while todo != {}
        invariant todo <= entries.Keys
        invariant entries == map k | k in all && (k in todo || Live(all[k], ttl, now)) :: all[k]
        invariant evicted == |all| - |entries|
        decreases todo
      {
        var name :| name in todo;
        if now - entries[name].createdAt > ttl {
          assert (entries - {name}).Keys == entries.Keys - {name};
          assert |entries.Keys - {name}| == |entries.Keys| - 1;
          entries := entries - {name};
          evicted := evicted + 1;
        }
        todo := todo - {name};
      }
    }

    method Freeze(host: Text, name: Text, until: Option<int>)
      modifies this`frozenUntil
      ensures frozenUntil == old(frozenUntil)[ServiceKey(host, name) := until]
    {
      frozenUntil := frozenUntil[ServiceKey(host, name) := until];
    }

    method GetFreezeInfo(host: Text, name: Text, now: int) returns (frozen: bool, until: Option<int>)
      ensures frozen == FrozenInfo(frozenUntil, ServiceKey(host, name), now)
      ensures until == if frozen then frozenUntil[ServiceKey(host, name)] else None
    {
      var key := ServiceKey(host, name);
      if key !in frozenUntil {
        return false, None;
      }
      var t := frozenUntil[key];
      if t.Some? && now > t.value {
        return false, None;
      }
      return true, t;
    }

    /** The listing is the unique key-sorted table of the timed map's rows. */
    method AllEntries(now: int) returns (rows: seq<CacheRow>)
      ensures Lists(rows, View(entries, ttl, now).Keys, View(entries, ttl, now), frozenUntil, now)
    {
      rows := [];
      var todo := entries.Keys;
      ghost var view := View(entries, ttl, now);
      ghost var done: set<Text> := {};
      while todo != {}
        invariant todo <= entries.Keys && done <= view.Keys
        invariant done == set k | k in view && k !in todo
        invariant Lists(rows, done, view, frozenUntil, now)
        decreases todo
      {
        var key :| key in todo;
        todo := todo - {key};
        var e := entries[key];
        if now - e.createdAt > ttl {
          continue;
        }
        var (host, service) := SplitServiceKey(key);
        var frozen, until: Option<int> := false, None;
        if key in frozenUntil {
          var t := frozenUntil[key];
          if t == None || now < t.value {
            frozen, until := true, t;
          }
        }
        rows := InsertSorted(rows, CacheRow(key, host, service, e.state, frozen, until));
        done := done + {key};
      }
      assert done == view.Keys;
    }
  }

  /** One step of the sort: put a new row at its place among sorted rows. */
  method InsertSorted(rows: seq<CacheRow>, row: CacheRow) returns (out: seq<CacheRow>)
    requires SortedByKey(rows) && forall i :: 0 <= i < |rows| ==> rows[i].key != row.key
    ensures SortedByKey(out)
    ensures forall r: CacheRow :: r in out <==> r == row || r in rows
  {
    var i := 0;
    while i < |rows| && Less(rows[i].key, row.key)
      invariant 0 <= i <= |rows|
      invariant forall j :: 0 <= j < i ==> Less(rows[j].key, row.key)
    {
      i := i + 1;
    }
    forall j | i <= j < |rows|
      ensures Less(row.key, rows[j].key)
    {
      LessTotal(rows[i].key, row.key);
      if i < j {
        LessTransitive(row.key, rows[i].key, rows[j].key);
      }
    }
    assert rows == rows[..i] + rows[i..];
    out := rows[..i] + [row] + rows[i..];
  }
}
