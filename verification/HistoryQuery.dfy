/** Querying the history (history/logger.go): one scan of the file, oldest line
    first, through a ring buffer that keeps the newest matches. */
module HistoryQuery {
  import opened Common
  import opened HistoryLog

  const MAX_HISTORY_LIMIT: int := 10000

  // ---------------------------------------------------------------- ring buffers

  /** The modulus as used on ring positions: at most one wrap. */
  lemma Wrap(x: nat, n: nat)
    requires n > 0 && x < 2 * n
    ensures x % n == if x < n then x else x - n
  {
    if x >= n {
      assert x / n == 1;
    }
  }

  function Succ(pos: nat, n: nat): nat
    requires pos < n
  {
    if pos + 1 == n then 0 else pos + 1
  }

  /** Index of the i-th newest element when the next write goes to `pos`. */
  function RingIndex(pos: nat, i: nat, n: nat): (idx: nat)
    requires pos < n && i < n
    ensures idx < n
  {
    if pos >= 1 + i then pos - 1 - i else pos - 1 - i + n
  }

  /** The buffer holds the newest elements of `all`, newest just before `pos`. */
  ghost predicate Holds<T>(buf: seq<T>, pos: nat, all: seq<T>) {
    && pos < |buf|
    && (|all| < |buf| ==> pos == |all|)
    && forall i :: 0 <= i < Min(|all|, |buf|) ==> buf[RingIndex(pos, i, |buf|)] == all[|all| - 1 - i]
  }

  lemma RingPush<T>(buf: seq<T>, pos: nat, all: seq<T>, e: T)
    requires Holds(buf, pos, all)
    ensures Holds(buf[pos := e], Succ(pos, |buf|), all + [e])
  {
    var n, q := |buf|, Succ(pos, |buf|);
    var buf', all' := buf[pos := e], all + [e];
    forall i | 0 <= i < Min(|all'|, n)
      ensures buf'[RingIndex(q, i, n)] == all'[|all'| - 1 - i]
    {
      if i == 0 {
        assert RingIndex(q, 0, n) == pos;
      } else {
        assert RingIndex(q, i, n) == RingIndex(pos, i - 1, n);
      }
    }
  }

  /** The newest `limit` elements, newest first. */
  function Newest<T>(all: seq<T>, limit: nat): seq<T> {
    seq(Min(|all|, limit), i requires 0 <= i < Min(|all|, limit) => all[|all| - 1 - i])
  }

  const BLANK: Entry := Entry(0, [], [], [], [], [], [], [], 0, [], false, 0, [], [])

  /** A buffer, its write position and the number of writes so far; `all` is
      everything that was written. */
  class Ring {
    const buf: array<Entry>
    var pos: nat
    var total: nat
    ghost var all: seq<Entry>

    ghost function Repr(): set<object> {
      {this, buf}
    }

    ghost predicate Valid()
      reads this, buf
    {
      Holds(buf[..], pos, all) && total == |all|
    }

    constructor (limit: nat)
      requires limit > 0
      ensures Valid() && fresh(buf) && buf.Length == limit && all == []
    {
      buf := new Entry[limit](_ => BLANK);
      pos, total, all := 0, 0, [];
    }

    method Push(e: Entry)
      requires Valid()
      modifies this, buf
      ensures Valid() && all == old(all) + [e]
    {
      RingPush(buf[..], pos, all, e);
      ghost var before := buf[..];
      buf[pos] := e;
      assert buf[..] == before[pos := e];
      Wrap(pos + 1, buf.Length);
      pos := (pos + 1) % buf.Length;
      total, all := total + 1, all + [e];
    }

    /** Read the ring backwards from the write position. */
    method Unroll() returns (result: seq<Entry>)
      requires Valid()
      ensures result == Newest(all, buf.Length)
    {
      var count := if total > buf.Length then buf.Length else total;
      result := [];
      var i := 0;
      while i < count
        invariant 0 <= i <= count && result == Newest(all, buf.Length)[..i]
      {
        var idx := (pos - 1 - i + buf.Length) % buf.Length;
        Wrap(pos - 1 - i + buf.Length, buf.Length);
        assert buf[..][RingIndex(pos, i, buf.Length)] == all[|all| - 1 - i];
        result := result + [buf[idx]];
        i := i + 1;
      }
    }
  }

  // ---------------------------------------------------------------- Query

  datatype QueryFilter = QueryFilter(limit: int, service: Text, source: Text, host: Text, mode: Text,
                                     from: Option<int>, to: Option<int>)

  predicate Matches(f: QueryFilter, e: Entry) {
    && (f.service == [] || e.serviceName == f.service)
    && (f.source == [] || e.sourceKey == f.source)
    && (f.host == [] || e.hostName == f.host)
    && (f.mode == [] || e.mode == f.mode)
    && (f.from.Some? ==> e.timestamp >= f.from.value)
    && (f.to.Some? ==> e.timestamp <= f.to.value)
  }

  function Filter(f: QueryFilter): Entry -> bool {
    (e: Entry) => Matches(f, e)
  }

  /** The entries of the file that match, oldest first. */
  function Select(lines: seq<Line>, p: Entry -> bool): seq<Entry> {
    if lines == [] then []
    else
      var last := lines[|lines| - 1];
      Select(lines[..|lines| - 1], p) + (if last.Good? && p(last.entry) then [last.entry] else [])
  }

  /** The specification of Query: the newest matching entries, newest first, all
      of them if no positive limit is given. */
  function QuerySpec(lines: seq<Line>, f: QueryFilter): seq<Entry> {
    var matching := Select(lines, Filter(f));
    var limit := Min(f.limit, MAX_HISTORY_LIMIT);
    Newest(matching, if limit > 0 then limit else |matching|)
  }

  /** The conditions of a filter that are set, field by field. */
  predicate Meets(e: Entry, f: QueryFilter) {
    && e.serviceName == (if f.service == [] then e.serviceName else f.service)
    && e.sourceKey == (if f.source == [] then e.sourceKey else f.source)
    && e.hostName == (if f.host == [] then e.hostName else f.host)
    && e.mode == (if f.mode == [] then e.mode else f.mode)
    && (match f.from case None => true case Some(a) => a <= e.timestamp)
    && (match f.to case None => true case Some(b) => e.timestamp <= b)
  }

  method Query(lines: seq<Line>, f: QueryFilter) returns (result: seq<Entry>)
    ensures result == QuerySpec(lines, f)
    ensures forall e :: e in result ==> Good(e) in lines && Meets(e, f)
    ensures f.limit <= 0 ==> forall e :: Good(e) in lines && Meets(e, f) ==> e in result
    ensures f.limit > 0 ==> |result| <= Min(f.limit, 10000)
  {
    forall e
      ensures e in QuerySpec(lines, f) ==> Good(e) in lines && Meets(e, f)
      ensures f.limit <= 0 && Good(e) in lines && Meets(e, f) ==> e in QuerySpec(lines, f)
    {
      AnswersIff(lines, f, e);
    }
    var limit := if f.limit < MAX_HISTORY_LIMIT then f.limit else MAX_HISTORY_LIMIT;
    if limit > 0 {
      result := QueryRing(lines, f, limit);
    } else {
      result := QueryAll(lines, f);
    }
  }

  method QueryRing(lines: seq<Line>, f: QueryFilter, limit: nat) returns (result: seq<Entry>)
    requires limit > 0
    ensures result == Newest(Select(lines, Filter(f)), limit)
  {
    var ring := new Ring(limit);
    ghost var p := Filter(f);
    var i := 0;
    while i < |lines|
      invariant 0 <= i <= |lines| && fresh(ring.Repr()) && ring.buf.Length == limit
      invariant ring.Valid() && ring.all == Select(lines[..i], p)
    {
      assert lines[..i + 1][..i] == lines[..i];
      if lines[i].Good? && Matches(f, lines[i].entry) {
        ring.Push(lines[i].entry);
      }
      i := i + 1;
    }
    assert lines[..|lines|] == lines;
    result := ring.Unroll();
  }

  method QueryAll(lines: seq<Line>, f: QueryFilter) returns (result: seq<Entry>)
    ensures var m := Select(lines, Filter(f)); result == Newest(m, |m|)
  {
    ghost var p := Filter(f);
    var matched: seq<Entry> := [];
    var k := 0;
    while k < |lines|
      invariant 0 <= k <= |lines| && matched == Select(lines[..k], p)
    {
      assert lines[..k + 1][..k] == lines[..k];
      if lines[k].Good? && Matches(f, lines[k].entry) {
        matched := matched + [lines[k].entry];
      }
      k := k + 1;
    }
    assert lines[..|lines|] == lines;
    var a := new Entry[|matched|](i requires 0 <= i < |matched| => matched[i]);
    Reverse(a);
    result := a[..];
    assert result == Newest(matched, |matched|);
  }

  /** In-place reversal by swapping from both ends. */
  method Reverse(a: array<Entry>)
    modifies a
    ensures forall i :: 0 <= i < a.Length ==> a[i] == old(a[a.Length - 1 - i])
  {
    var i, j := 0, a.Length - 1;
    while i < j
      invariant 0 <= i <= a.Length && j == a.Length - 1 - i && i <= j + 1
      invariant forall k :: 0 <= k < a.Length && (k < i || k > j) ==> a[k] == old(a[a.Length - 1 - k])
      invariant forall k :: i <= k <= j ==> a[k] == old(a[k])
    {
      a[i], a[j] := a[j], a[i];
      i, j := i + 1, j - 1;
    }
  }

  lemma {:induction false} SelectConcat(a: seq<Line>, b: seq<Line>, p: Entry -> bool)
    ensures Select(a + b, p) == Select(a, p) + Select(b, p)
    decreases |b|
  {
    if b == [] {
      assert a + b == a;
    } else {
      var n := |b| - 1;
      assert (a + b)[..|a + b| - 1] == a + b[..n];
      SelectConcat(a, b[..n], p);
    }
  }

  lemma {:induction false} SelectIff(lines: seq<Line>, p: Entry -> bool, e: Entry)
    ensures e in Select(lines, p) <==> Good(e) in lines && p(e)
    decreases |lines|
  {
    if lines != [] {
      var n := |lines| - 1;
      SelectIff(lines[..n], p, e);
      assert lines == lines[..n] + [lines[n]];
    }
  }

  lemma NewestMember(all: seq<Entry>, limit: nat, e: Entry)
    ensures e in Newest(all, limit) ==> e in all
    ensures limit >= |all| && e in all ==> e in Newest(all, limit)
  {
    if limit >= |all| && e in all {
      var i :| 0 <= i < |all| && all[i] == e;
      assert Newest(all, limit)[|all| - 1 - i] == e;
    }
  }

  /** Every answer is an entry of the file that meets the filter; and without a limit
      there is no other such entry. */
  lemma AnswersIff(lines: seq<Line>, f: QueryFilter, e: Entry)
    ensures e in QuerySpec(lines, f) ==> Good(e) in lines && Meets(e, f)
    ensures f.limit <= 0 && Good(e) in lines && Meets(e, f) ==> e in QuerySpec(lines, f)
  {
    var matching := Select(lines, Filter(f));
    var limit := Min(f.limit, MAX_HISTORY_LIMIT);
    SelectIff(lines, Filter(f), e);
    NewestMember(matching, if limit > 0 then limit else |matching|, e);
  }

  /** A limit cuts the full answer after that many entries, but at most 10000. */
  lemma LimitCuts(lines: seq<Line>, f: QueryFilter)
    ensures var full := QuerySpec(lines, f.(limit := 0));
            QuerySpec(lines, f) == if f.limit <= 0 then full else full[..Min(|full|, Min(f.limit, 10000))]
  {
    SelectSame(lines, Filter(f), Filter(f.(limit := 0)));
    var matching := Select(lines, Filter(f));
    if f.limit > 0 {
      var n := Min(|matching|, Min(f.limit, 10000));
      assert Newest(matching, Min(f.limit, 10000)) == Newest(matching, |matching|)[..n];
    }
  }

  lemma {:induction false} SelectSame(lines: seq<Line>, p: Entry -> bool, q: Entry -> bool)
    requires forall e :: p(e) <==> q(e)
    ensures Select(lines, p) == Select(lines, q)
    decreases |lines|
  {
    if lines != [] {
      SelectSame(lines[..|lines| - 1], p, q);
    }
  }

  /** The full answer, line by line: a new entry that meets the filter comes first. */
  lemma NewestComesFirst(lines: seq<Line>, line: Line, f: QueryFilter)
    requires f.limit <= 0
    ensures QuerySpec([], f) == []
    ensures QuerySpec(lines + [line], f)
            == (if line.Good? && Meets(line.entry, f) then [line.entry] else []) + QuerySpec(lines, f)
  {
    assert (lines + [line])[..|lines|] == lines;
  }

  /** The filter made from an entry's own fields finds the entry, and otherwise only
      entries that agree with it in the fields that are not empty. */
  lemma OwnFilterFinds(lines: seq<Line>, e: Entry, other: Entry)
    requires Good(e) in lines
    ensures var f := QueryFilter(0, e.serviceName, e.sourceKey, e.hostName, e.mode, Some(e.timestamp),
                                 Some(e.timestamp));
            && e in QuerySpec(lines, f)
            && (other in QuerySpec(lines, f) && e.hostName != [] && e.sourceKey != [] && e.serviceName != []
                && e.mode != [] ==>
                  && other.hostName == e.hostName && other.sourceKey == e.sourceKey
                      && other.serviceName == e.serviceName
                  && other.mode == e.mode && other.timestamp == e.timestamp)
  {
    var f := QueryFilter(0, e.serviceName, e.sourceKey, e.hostName, e.mode, Some(e.timestamp), Some(e.timestamp));
    AnswersIff(lines, f, e);
    AnswersIff(lines, f, other);
  }

  /** Losing older lines, as rotation does, can only cut the answer at its old
      end: what remains is a prefix of the answer before. */
  lemma RotationShortensToPrefix(lines: seq<Line>, kept: seq<Line>, f: QueryFilter)
    requires IsSuffix(kept, lines)
    ensures QuerySpec(kept, f) <= QuerySpec(lines, f)
  {
    var gone := lines[..|lines| - |kept|];
    assert lines == gone + kept;
    SelectConcat(gone, kept, Filter(f));
  }
}
