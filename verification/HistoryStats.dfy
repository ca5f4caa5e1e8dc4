/** The statistics of the history (history/logger.go), accumulated in one scan
    of the file, oldest line first. */
module HistoryStats {
  import opened Common
  import opened HistoryLog
  import opened HistoryQuery

  const RECENT_ENTRIES: nat := 20
  const RECENT_ERRORS: nat := 10

  /** The zero time; timestamps count from there. */
  const ZERO_TIME: int := 0

  const FIRING: Text := [0x66, 0x69, 0x72, 0x69, 0x6E, 0x67]
  const CREATE: Text := [0x63, 0x72, 0x65, 0x61, 0x74, 0x65]

  /** A source and the address it was used from. */
  type Origin = (Text, Text)

  datatype Totals = Totals(
    entries: nat, byMode: map<Text, nat>, byAction: map<Text, nat>,
    bySeverity: map<Text, nat>, bySeverityFiring: map<Text, nat>,
    bySource: map<Text, nat>, bySourceIP: map<Origin, nat>, lastSeen: map<Origin, int>, errors: nat, durationMs: int)

  datatype Stats = Stats(totals: Totals, avgDurationMs: int, recentErrors: seq<Entry>, recentEntries: seq<Entry>)

  const NOTHING: Totals := Totals(0, map[], map[], map[], map[], map[], map[], map[], 0, 0)

  // ---------------------------------------------------------------- which entries, and by what

  predicate Any(e: Entry) {
    true
  }

  predicate Refused(e: Entry) {
    !e.icingaOK
  }

  predicate Failed(e: Entry) {
    !e.icingaOK || e.error != []
  }

  predicate Graded(e: Entry) {
    e.severity != []
  }

  predicate GradedFiring(e: Entry) {
    e.severity != [] && (e.action == FIRING || e.action == CREATE)
  }

  predicate Located(e: Entry) {
    e.remoteAddr != [] && e.sourceKey != []
  }

  function Mode(e: Entry): Text {
    e.mode
  }

  function Action(e: Entry): Text {
    e.action
  }

  function Severity(e: Entry): Text {
    e.severity
  }

  function Source(e: Entry): Text {
    e.sourceKey
  }

  /** `strip` removes the port from an address. */
  function OriginBy(strip: Text -> Text): Entry -> Origin {
    (e: Entry) => (e.sourceKey, strip(e.remoteAddr))
  }

  // ---------------------------------------------------------------- what the totals mean

  function Bump<K>(m: map<K, nat>, counts: bool, k: K): map<K, nat> {
    if counts then m[k := (if k in m then m[k] else 0) + 1] else m
  }

  /** How often each key occurs among the entries that count. */
  function Tally<K>(es: seq<Entry>, p: Entry -> bool, key: Entry -> K): map<K, nat> {
    if es == [] then map[] else Bump(Tally(es[..|es| - 1], p, key), p(es[|es| - 1]), key(es[|es| - 1]))
  }

  function CountIf(es: seq<Entry>, p: Entry -> bool): nat {
    if es == [] then 0 else CountIf(es[..|es| - 1], p) + (if p(es[|es| - 1]) then 1 else 0)
  }

  function Duration(es: seq<Entry>): int {
    if es == [] then 0 else Duration(es[..|es| - 1]) + Max(0, es[|es| - 1].durationMs)
  }

  function Saw(m: map<Origin, int>, counts: bool, k: Origin, at: int): map<Origin, int> {
    if counts && at > (if k in m then m[k] else ZERO_TIME) then m[k := at] else m
  }

  /** When each origin was seen last. */
  function Latest(es: seq<Entry>, key: Entry -> Origin): map<Origin, int> {
    if es == [] then map[]
    else
      var e := es[|es| - 1];
      Saw(Latest(es[..|es| - 1], key), Located(e), key(e), e.timestamp)
  }

  predicate Tallied(t: Totals, es: seq<Entry>) {
    && t.byMode == Tally(es, Any, Mode) && t.byAction == Tally(es, Any, Action) && t.bySource == Tally(es, Any, Source)
    && t.bySeverity == Tally(es, Graded, Severity) && t.bySeverityFiring == Tally(es, GradedFiring, Severity)
  }

  predicate Traced(t: Totals, es: seq<Entry>, strip: Text -> Text) {
    t.bySourceIP == Tally(es, Located, OriginBy(strip)) && t.lastSeen == Latest(es, OriginBy(strip))
  }

  predicate Summed(t: Totals, es: seq<Entry>) {
    t.entries == |es| && t.errors == CountIf(es, Refused) && t.durationMs == Duration(es)
  }

  predicate Sums(t: Totals, es: seq<Entry>, strip: Text -> Text) {
    Summed(t, es) && Tallied(t, es) && Traced(t, es, strip)
  }

  // ---------------------------------------------------------------- the scan

  function Add(t: Totals, e: Entry, strip: Text -> Text): Totals {
    var origin := (e.sourceKey, strip(e.remoteAddr));
    Totals(t.entries + 1, Bump(t.byMode, true, e.mode), Bump(t.byAction, true, e.action),
           Bump(t.bySeverity, e.severity != [], e.severity),
           Bump(t.bySeverityFiring, e.severity != [] && (e.action == FIRING || e.action == CREATE), e.severity),
           Bump(t.bySource, true, e.sourceKey),
           Bump(t.bySourceIP, e.remoteAddr != [] && e.sourceKey != [], origin),
           Saw(t.lastSeen, e.remoteAddr != [] && e.sourceKey != [], origin, e.timestamp),
           if e.icingaOK then t.errors else t.errors + 1,
           if e.durationMs > 0 then t.durationMs + e.durationMs else t.durationMs)
  }

  lemma TallyAdd<K>(es: seq<Entry>, e: Entry, p: Entry -> bool, key: Entry -> K)
    ensures Tally(es + [e], p, key) == Bump(Tally(es, p, key), p(e), key(e))
  {
    assert (es + [e])[..|es|] == es;
  }

  lemma TalliedAdd(t: Totals, es: seq<Entry>, e: Entry, strip: Text -> Text)
    requires Tallied(t, es)
    ensures Tallied(Add(t, e, strip), es + [e])
  {
    TallyAdd(es, e, Any, Mode);
    TallyAdd(es, e, Any, Action);
    TallyAdd(es, e, Any, Source);
    TallyAdd(es, e, Graded, Severity);
    TallyAdd(es, e, GradedFiring, Severity);
  }

  lemma TracedAdd(t: Totals, es: seq<Entry>, e: Entry, strip: Text -> Text)
    requires Traced(t, es, strip)
    ensures Traced(Add(t, e, strip), es + [e], strip)
  {
    TallyAdd(es, e, Located, OriginBy(strip));
    assert (es + [e])[..|es|] == es;
  }

  lemma SumsAdd(t: Totals, es: seq<Entry>, e: Entry, strip: Text -> Text)
    requires Sums(t, es, strip)
    ensures Sums(Add(t, e, strip), es + [e], strip)
  {
    TalliedAdd(t, es, e, strip);
    TracedAdd(t, es, e, strip);
    assert (es + [e])[..|es|] == es;
  }

  /** Truncating division of Go; the divisor is positive here. */
  function Quotient(a: int, b: int): int
    requires b > 0
  {
    if a >= 0 then a / b else -((-a) / b)
  }

  /** What Stats reports about a log with entries `es`, of which `fs` failed. */
  predicate Reports(st: Stats, es: seq<Entry>, fs: seq<Entry>, strip: Text -> Text) {
    && Sums(st.totals, es, strip)
    && st.avgDurationMs == (if es == [] then 0 else Quotient(Duration(es), |es|))
    && st.recentEntries == Newest(es, RECENT_ENTRIES)
    && st.recentErrors == Newest(fs, RECENT_ERRORS)
  }

  /** The callback of the scan. */
  method Account(t: Totals, e: Entry, entries: Ring, errors: Ring, strip: Text -> Text) returns (t': Totals)
    requires entries.Valid() && errors.Valid() && entries.Repr() !! errors.Repr() && Sums(t, entries.all, strip)
    modifies entries.Repr(), errors.Repr()
    ensures entries.Valid() && entries.all == old(entries.all) + [e]
    ensures errors.Valid() && errors.all == old(errors.all) + (if Failed(e) then [e] else [])
    ensures Sums(t', entries.all, strip)
  {
    SumsAdd(t, entries.all, e, strip);
    t' := Add(t, e, strip);
    entries.Push(e);
    if !e.icingaOK || e.error != [] {
      errors.Push(e);
    }
  }

  /** Both rings have seen the log up to line i. */
  ghost predicate Scanned(lines: seq<Line>, i: nat, t: Totals, entries: Ring, errors: Ring, strip: Text -> Text)
    reads entries, entries.buf, errors, errors.buf
  {
    && i <= |lines| && entries.Valid() && errors.Valid() && entries.Repr() !! errors.Repr()
    && entries.all == Select(lines[..i], Any) && errors.all == Select(lines[..i], Failed)
    && Sums(t, entries.all, strip)
  }

  method ScanLine(lines: seq<Line>, i: nat, t: Totals, entries: Ring, errors: Ring, strip: Text -> Text)
    returns (t': Totals)
    requires i < |lines| && Scanned(lines, i, t, entries, errors, strip)
    modifies entries.Repr(), errors.Repr()
    ensures Scanned(lines, i + 1, t', entries, errors, strip)
  {
    SelectNext(lines, i, Any);
    SelectNext(lines, i, Failed);
    if lines[i].Good? {
      t' := Account(t, lines[i].entry, entries, errors, strip);
    } else {
      t' := t;
    }
  }

  method GetStats(lines: seq<Line>, strip: Text -> Text) returns (st: Stats)
    ensures Reports(st, Select(lines, Any), Select(lines, Failed), strip)
  {
    var entries := new Ring(RECENT_ENTRIES);
    var errors := new Ring(RECENT_ERRORS);
    var t := NOTHING;
    var i := 0;
    while i < |lines|
      invariant 0 <= i <= |lines| && fresh(entries.Repr()) && fresh(errors.Repr())
      invariant Scanned(lines, i, t, entries, errors, strip)
    {
      t := ScanLine(lines, i, t, entries, errors, strip);
      i := i + 1;
    }
    assert lines[..|lines|] == lines;
    var recentEntries := entries.Unroll();
    var recentErrors := errors.Unroll();
    var avg := if t.entries > 0 then Quotient(t.durationMs, t.entries) else 0;
    st := Stats(t, avg, recentErrors, recentEntries);
  }

  lemma SelectNext(lines: seq<Line>, i: nat, p: Entry -> bool)
    requires i < |lines|
    ensures Select(lines[..i + 1], p)
            == Select(lines[..i], p) + (if lines[i].Good? && p(lines[i].entry) then [lines[i].entry] else [])
  {
    assert lines[..i + 1][..i] == lines[..i];
  }

  // ---------------------------------------------------------------- tallies are counts

  ghost function SumOver<K>(m: map<K, nat>, keys: set<K>): nat
    requires keys <= m.Keys
  {
    if keys == {} then 0 else var k :| k in keys; m[k] + SumOver(m, keys - {k})
  }

  lemma {:induction false} SumTake<K>(m: map<K, nat>, keys: set<K>, k: K)
    requires keys <= m.Keys && k in keys
    ensures SumOver(m, keys) == m[k] + SumOver(m, keys - {k})
    decreases |keys|
  {
    var j :| j in keys && SumOver(m, keys) == m[j] + SumOver(m, keys - {j});
    if j != k {
      SumTake(m, keys - {j}, k);
      SumTake(m, keys - {k}, j);
      assert keys - {j} - {k} == keys - {k} - {j};
    }
  }

  lemma {:induction false} SumSame<K>(a: map<K, nat>, b: map<K, nat>, keys: set<K>)
    requires keys <= a.Keys && keys <= b.Keys && forall k :: k in keys ==> a[k] == b[k]
    ensures SumOver(a, keys) == SumOver(b, keys)
    decreases |keys|
  {
    if keys != {} {
      var k :| k in keys;
      SumTake(a, keys, k);
      SumTake(b, keys, k);
      SumSame(a, b, keys - {k});
    }
  }

  lemma SumBump<K>(m: map<K, nat>, k: K)
    ensures SumOver(Bump(m, true, k), Bump(m, true, k).Keys) == SumOver(m, m.Keys) + 1
  {
    var m' := Bump(m, true, k);
    SumTake(m', m'.Keys, k);
    SumSame(m, m', m.Keys - {k});
    assert m'.Keys - {k} == m.Keys - {k};
    if k in m {
      SumTake(m, m.Keys, k);
    } else {
      assert m.Keys - {k} == m.Keys;
    }
  }

  /** Each breakdown adds up to the number of entries that count for it. */
  lemma {:induction false} TallySum<K>(es: seq<Entry>, p: Entry -> bool, key: Entry -> K)
    ensures SumOver(Tally(es, p, key), Tally(es, p, key).Keys) == CountIf(es, p)
  {
    if es != [] {
      var n := |es| - 1;
      TallySum(es[..n], p, key);
      SumBump(Tally(es[..n], p, key), key(es[n]));
    }
  }

  lemma {:induction false} CountAny(es: seq<Entry>)
    ensures CountIf(es, Any) == |es|
  {
    if es != [] {
      CountAny(es[..|es| - 1]);
    }
  }

  /** TotalEntries is the sum of the tallies by mode, by action and by source. */
  lemma BreakdownsAddUp(t: Totals, es: seq<Entry>)
    requires Summed(t, es) && Tallied(t, es)
    ensures SumOver(t.byMode, t.byMode.Keys) == t.entries
    ensures SumOver(t.byAction, t.byAction.Keys) == t.entries
    ensures SumOver(t.bySource, t.bySource.Keys) == t.entries
  {
    CountAny(es);
    TallySum(es, Any, Mode);
    TallySum(es, Any, Action);
    TallySum(es, Any, Source);
  }

  /** What a count says about a key: no entry means zero. */
  function CountOf<K>(m: map<K, nat>, k: K): nat {
    if k in m then m[k] else 0
  }

  /** Each count is the number of entries that count under that key, and only keys
      that occur are listed. */
  lemma {:induction false} TallyMeans<K>(es: seq<Entry>, p: Entry -> bool, key: Entry -> K, k: K, q: Entry -> bool)
    requires forall e :: q(e) <==> p(e) && key(e) == k
    ensures CountOf(Tally(es, p, key), k) == CountIf(es, q) && (k in Tally(es, p, key) <==> CountIf(es, q) > 0)
  {
    if es != [] {
      TallyMeans(es[..|es| - 1], p, key, k, q);
    }
  }

  function HasMode(k: Text): Entry -> bool {
    (e: Entry) => e.mode == k
  }

  function HasAction(k: Text): Entry -> bool {
    (e: Entry) => e.action == k
  }

  function HasSource(k: Text): Entry -> bool {
    (e: Entry) => e.sourceKey == k
  }

  function HasSeverity(k: Text): Entry -> bool {
    (e: Entry) => e.severity == k
  }

  function FiresWith(k: Text): Entry -> bool {
    (e: Entry) => e.severity == k && (e.action == FIRING || e.action == CREATE)
  }

  function CameFrom(k: Text, address: Text, strip: Text -> Text): Entry -> bool {
    (e: Entry) => e.sourceKey == k && e.remoteAddr != [] && strip(e.remoteAddr) == address
  }

  function NotOK(e: Entry): bool {
    e.icingaOK == false
  }

  lemma {:induction false} ErrorsCount(es: seq<Entry>)
    ensures CountIf(es, Refused) == CountIf(es, NotOK)
  {
    if es != [] {
      ErrorsCount(es[..|es| - 1]);
    }
  }

  /** Among the recent errors is what Icinga2 did not accept or what has an error text,
      and nothing else. */
  lemma RecentErrorsIff(st: Stats, lines: seq<Line>, strip: Text -> Text, e: Entry)
    requires Reports(st, Select(lines, Any), Select(lines, Failed), strip)
    ensures e in st.recentErrors ==> Good(e) in lines && (!e.icingaOK || e.error != [])
    ensures Good(e) in lines && (!e.icingaOK || e.error != []) ==> e in st.recentErrors || |st.recentErrors| == 10
    ensures e in st.recentEntries ==> Good(e) in lines
    ensures Good(e) in lines ==> e in st.recentEntries || |st.recentEntries| == 20
  {
    SelectIff(lines, Failed, e);
    SelectIff(lines, Any, e);
    NewestMember(Select(lines, Failed), RECENT_ERRORS, e);
    NewestMember(Select(lines, Any), RECENT_ENTRIES, e);
  }

  /** Each breakdown, said of the entries themselves. */
  lemma BreakdownsCount(t: Totals, es: seq<Entry>, strip: Text -> Text, k: Text, address: Text)
    requires Sums(t, es, strip)
    ensures CountOf(t.byMode, k) == CountIf(es, HasMode(k)) && CountOf(t.byAction, k) == CountIf(es, HasAction(k))
    ensures CountOf(t.bySource, k) == CountIf(es, HasSource(k)) && t.errors == CountIf(es, NotOK)
    ensures k != [] ==> CountOf(t.bySeverity, k) == CountIf(es, HasSeverity(k))
    ensures k != [] ==> CountOf(t.bySeverityFiring, k) == CountIf(es, FiresWith(k))
    ensures k != [] ==> CountOf(t.bySourceIP, (k, address)) == CountIf(es, CameFrom(k, address, strip))
  {
    ErrorsCount(es);
    TallyMeans(es, Any, Mode, k, HasMode(k));
    TallyMeans(es, Any, Action, k, HasAction(k));
    TallyMeans(es, Any, Source, k, HasSource(k));
    if k != [] {
      TallyMeans(es, Graded, Severity, k, HasSeverity(k));
      TallyMeans(es, GradedFiring, Severity, k, FiresWith(k));
      TallyMeans(es, Located, OriginBy(strip), (k, address), CameFrom(k, address, strip));
    }
  }

  /** Counting and adding up durations go entry by entry. */
  lemma {:induction false} SumsConcat(a: seq<Entry>, b: seq<Entry>, p: Entry -> bool)
    ensures CountIf(a + b, p) == CountIf(a, p) + CountIf(b, p) && Duration(a + b) == Duration(a) + Duration(b)
    decreases |b|
  {
    if b == [] {
      assert a + b == a;
    } else {
      var n := |b| - 1;
      assert (a + b)[..|a + b| - 1] == a + b[..n];
      SumsConcat(a, b[..n], p);
    }
  }

  /** One entry counts once, and its duration as it is if that is positive. */
  lemma SumsOfOne(e: Entry, p: Entry -> bool)
    ensures CountIf([e], p) == (if p(e) then 1 else 0)
    ensures Duration([e]) == if e.durationMs > 0 then e.durationMs else 0
  {
    assert [e][..0] == [];
  }

  predicate Sights(e: Entry, key: Entry -> Origin, k: Origin) {
    Located(e) && key(e) == k && e.timestamp > ZERO_TIME
  }

  /** The last sighting of an origin is the greatest of its timestamps; an origin
      without a timestamp after the zero time has none. */
  lemma {:induction false} LatestIsMax(es: seq<Entry>, key: Entry -> Origin, k: Origin)
    ensures k in Latest(es, key) ==>
            exists i :: 0 <= i < |es| && Sights(es[i], key, k) && es[i].timestamp == Latest(es, key)[k]
    ensures forall i :: 0 <= i < |es| && Sights(es[i], key, k) ==>
            k in Latest(es, key) && es[i].timestamp <= Latest(es, key)[k]
  {
    if es != [] {
      var n := |es| - 1;
      var front := es[..n];
      LatestIsMax(front, key, k);
      assert forall i :: 0 <= i < n ==> front[i] == es[i];
      if k in Latest(es, key) && k in Latest(front, key) && Latest(es, key)[k] == Latest(front, key)[k] {
        var i :| 0 <= i < |front| && Sights(front[i], key, k) && front[i].timestamp == Latest(front, key)[k];
        assert Sights(es[i], key, k);
      } else if k in Latest(es, key) {
        assert Sights(es[n], key, k);
      }
    }
  }
}
