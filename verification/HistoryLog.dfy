/** The JSONL history of history/logger.go: appending, counting and rotating.
    A file is a sequence of lines; a line is an entry or does not parse. */
module HistoryLog {
  import opened Common

  datatype Entry = Entry(
    timestamp: int, requestID: Text, sourceKey: Text, hostName: Text, mode: Text, action: Text, serviceName: Text,
    severity: Text, exitStatus: int, message: Text, icingaOK: bool, durationMs: int, error: Text, remoteAddr: Text)

  datatype Line = Good(entry: Entry) | Malformed

  const ROTATE_EVERY: nat := 100

  type Files = map<Text, seq<Line>>

  datatype Log = Log(files: Files, path: Text, maxEntries: int, appendCount: nat, entryCount: int) {
    /** A missing file reads as an empty one. */
    function Lines(): seq<Line> {
      if path in files then files[path] else []
    }
  }

  // ---------------------------------------------------------------- specification

  /** The last `max` lines (none, if the limit is negative). */
  function Tail(lines: seq<Line>, max: int): seq<Line> {
    if |lines| <= max then lines else lines[Min(|lines|, |lines| - max)..]
  }

  function Rotated(l: Log): Log {
    if l.entryCount <= l.maxEntries then l
    else
      var kept := Tail(l.Lines(), l.maxEntries);
      if |l.Lines()| <= l.maxEntries then l.(entryCount := |kept|)
      else if l.path !in l.files then l
      else l.(files := l.files[l.path := kept], entryCount := |kept|)
  }

  function Appended(l: Log, line: Line): Log {
    var written := Extended(l, line);
    if written.appendCount % ROTATE_EVERY == 0 then Rotated(written) else written
  }

  /** The log right after the write, before any rotation. */
  function Extended(l: Log, line: Line): Log {
    l.(files := l.files[l.path := l.Lines() + [line]], appendCount := l.appendCount + 1, entryCount := l.entryCount + 1)
  }

  function Cleared(l: Log): Log {
    if l.path in l.files then l.(files := l.files[l.path := []], appendCount := 0, entryCount := 0) else l
  }

  function Reconfigured(l: Log, path: Text, maxEntries: int): Log {
    Rotated(l.(path := path, maxEntries := maxEntries, appendCount := 0))
  }

  function Opened(files: Files, path: Text, maxEntries: int): Log {
    var l := Log(files, path, maxEntries, 0, 0);
    l.(entryCount := |l.Lines()|)
  }

  // ---------------------------------------------------------------- the object

  class Logger {
    var files: Files
    var path: Text
    var maxEntries: int
    var appendCount: nat
    var entryCount: int

    ghost function State(): Log
      reads this
    {
      Log(files, path, maxEntries, appendCount, entryCount)
    }

    constructor (files: Files, path: Text, maxEntries: int)
      ensures State() == Opened(files, path, maxEntries)
    {
      this.files, this.path, this.maxEntries, appendCount := files, path, maxEntries, 0;
      entryCount := if path in files then |files[path]| else 0;
    }

    method Append(entry: Entry)
      modifies this
      ensures State() == Appended(old(State()), Good(entry))
      ensures appendCount == old(appendCount) + 1 && path == old(path) && maxEntries == old(maxEntries)
      ensures appendCount % ROTATE_EVERY != 0 ==> State().Lines() == old(State().Lines()) + [Good(entry)]
    {
      var lines := if path in files then files[path] else [];
      files := files[path := lines + [Good(entry)]];
      appendCount := appendCount + 1;
      entryCount := entryCount + 1;
      if appendCount % ROTATE_EVERY == 0 {
        RotateLockedInline();
      }
    }

    method Clear() returns (ok: bool)
      modifies this
      ensures State() == Cleared(old(State())) && ok == (path in files)
      ensures ok ==> State().Lines() == [] && appendCount == 0 && entryCount == 0 && path == old(path)
    {
      if path !in files {
        return false;
      }
      files := files[path := []];
      appendCount, entryCount := 0, 0;
      return true;
    }

    method RotateLockedInline()
      modifies this
      ensures State() == Rotated(old(State()))
    {
      if entryCount <= maxEntries {
        return;
      }
      var lines := if path in files then files[path] else [];
      if |lines| <= maxEntries {
        entryCount := |lines|;
        return;
      }
      if path !in files {
        return;
      }
      var skip := |lines| - maxEntries;
      var skipped, i := 0, 0;
      var out: seq<Line> := [];
      while i < |lines|
        invariant 0 <= i <= |lines| && skipped == Min(i, skip)
        invariant out == lines[skipped..i]
      {
        if skipped < skip {
          skipped := skipped + 1;
        } else {
          out := out + [lines[i]];
        }
        i := i + 1;
      }
      assert out == Tail(lines, maxEntries);
      files := files[path := out];
      entryCount := |out|;
    }

    method UpdateConfig(newPath: Text, newMax: int)
      modifies this
      ensures State() == Reconfigured(old(State()), newPath, newMax)
      ensures path == newPath && maxEntries == newMax && appendCount == 0
    {
      path, maxEntries, appendCount := newPath, newMax, 0;
      RotateLockedInline();
    }
  }

  // ---------------------------------------------------------------- runs on one path

  datatype Op = Append(line: Line) | Clear | Rotate | Configure(maxEntries: int)

  function Step(l: Log, op: Op): Log {
    match op
    case Append(line) => Appended(l, line)
    case Clear => Cleared(l)
    case Rotate => Rotated(l)
    case Configure(max) => Reconfigured(l, l.path, max)
  }

  function Run(l: Log, ops: seq<Op>): Log
    decreases |ops|
  {
    if ops == [] then l else Run(Step(l, ops[0]), ops[1..])
  }

  /** What an operation would do to the lines if there were no rotation. */
  function WriteStep(lines: seq<Line>, op: Op): seq<Line> {
    match op
    case Append(line) => lines + [line]
    case Clear => []
    case _ => lines
  }

  /** Everything appended since the last Clear. */
  function Written(lines: seq<Line>, ops: seq<Op>): seq<Line>
    decreases |ops|
  {
    if ops == [] then lines else Written(WriteStep(lines, ops[0]), ops[1..])
  }

  /** The in-memory counter is the real number of lines. */
  predicate Counted(l: Log) {
    l.entryCount == |l.Lines()|
  }

  /** The file exceeds its limit by the appends since the last check at most. */
  predicate Bounded(l: Log) {
    |l.Lines()| <= Max(0, l.maxEntries) + l.appendCount % ROTATE_EVERY
  }

  predicate IsSuffix(a: seq<Line>, b: seq<Line>) {
    |a| <= |b| && a == b[|b| - |a|..]
  }

  /** Rotation counts right and keeps the last lines, as many as the limit allows. */
  lemma RotatedFacts(l: Log)
    requires Counted(l)
    ensures Counted(Rotated(l)) && IsSuffix(Rotated(l).Lines(), l.Lines())
    ensures |Rotated(l).Lines()| == Min(|l.Lines()|, Max(0, l.maxEntries))
  {
  }

  lemma SuffixTransitive(a: seq<Line>, b: seq<Line>, c: seq<Line>)
    requires IsSuffix(a, b) && IsSuffix(b, c)
    ensures IsSuffix(a, c)
  {
  }

  lemma RotateKeepsSuffix(l: Log, written: seq<Line>)
    requires Counted(l) && IsSuffix(l.Lines(), written)
    ensures Counted(Rotated(l)) && IsSuffix(Rotated(l).Lines(), written)
  {
    RotatedFacts(l);
    SuffixTransitive(Rotated(l).Lines(), l.Lines(), written);
  }

  lemma ExtendKeepsSuffix(l: Log, line: Line, written: seq<Line>)
    requires Counted(l) && IsSuffix(l.Lines(), written)
    ensures Counted(Extended(l, line)) && IsSuffix(Extended(l, line).Lines(), written + [line])
  {
    assert Extended(l, line).Lines() == l.Lines() + [line];
    SuffixAppend(l.Lines(), written, line);
  }

  lemma AppendKeepsSuffix(l: Log, line: Line, written: seq<Line>)
    requires Counted(l) && IsSuffix(l.Lines(), written)
    ensures Counted(Appended(l, line)) && IsSuffix(Appended(l, line).Lines(), written + [line])
  {
    ExtendKeepsSuffix(l, line, written);
    if Extended(l, line).appendCount % ROTATE_EVERY == 0 {
      RotateKeepsSuffix(Extended(l, line), written + [line]);
    }
  }

  lemma AppendKeepsBound(l: Log, line: Line)
    requires Counted(l) && Bounded(l)
    ensures Bounded(Appended(l, line))
  {
    var w := Extended(l, line);
    assert |w.Lines()| == |l.Lines()| + 1;
    if w.appendCount % ROTATE_EVERY == 0 {
      RotatedFacts(w);
    } else {
      assert w.appendCount % ROTATE_EVERY == l.appendCount % ROTATE_EVERY + 1;
    }
  }

  lemma SuffixAppend(a: seq<Line>, b: seq<Line>, line: Line)
    requires IsSuffix(a, b)
    ensures IsSuffix(a + [line], b + [line])
  {
  }

  /** One operation: the counter stays right, the bound is kept by all of them
      and established by a rotation or reconfiguration, and the file remains a
      suffix of what was written since the last Clear. */
  lemma StepFacts(l: Log, op: Op, written: seq<Line>)
    requires Counted(l) && IsSuffix(l.Lines(), written)
    ensures Counted(Step(l, op))
    ensures Bounded(l) || op.Rotate? || op.Configure? ==> Bounded(Step(l, op))
    ensures IsSuffix(Step(l, op).Lines(), WriteStep(written, op))
  {
    match op
    case Append(line) =>
      AppendKeepsSuffix(l, line, written);
      if Bounded(l) {
        AppendKeepsBound(l, line);
      }
    case Clear => assert Cleared(l).Lines() == [];
    case Rotate =>
      RotatedFacts(l);
      RotateKeepsSuffix(l, written);
    case Configure(max) =>
      var c := l.(maxEntries := max, appendCount := 0);
      RotatedFacts(c);
      RotateKeepsSuffix(c, written);
  }

  /** Rotation invariant over every run that keeps the path. */
  lemma {:induction false} RotationInvariant(l: Log, ops: seq<Op>, written: seq<Line>)
    requires Counted(l) && IsSuffix(l.Lines(), written)
    ensures Counted(Run(l, ops))
    ensures IsSuffix(Run(l, ops).Lines(), Written(written, ops))
    ensures Bounded(l) ==> Bounded(Run(l, ops))
    decreases |ops|
  {
    if ops != [] {
      StepFacts(l, ops[0], written);
      RotationInvariant(Step(l, ops[0]), ops[1..], WriteStep(written, ops[0]));
    }
  }

  // ---------------------------------------------------------------- nothing is lost too early

  /** The new line goes behind the old ones; and the old ones stay, up to the limit. */
  lemma AppendAdds(l: Log, line: Line)
    requires Counted(l)
    ensures var all, after := l.Lines() + [line], Appended(l, line).Lines();
            IsSuffix(after, all) && |after| == if (l.appendCount + 1) % ROTATE_EVERY != 0 then |all|
                                              else Min(|all|, Max(0, l.maxEntries))
  {
    var w := Extended(l, line);
    assert w.Lines() == l.Lines() + [line];
    RotatedFacts(w);
  }

  lemma AppendLength(l: Log, line: Line)
    requires Counted(l)
    ensures |Appended(l, line).Lines()| >= Min(|l.Lines()| + 1, l.maxEntries)
    ensures Appended(l, line).maxEntries == l.maxEntries
  {
    var w := Extended(l, line);
    assert |w.Lines()| == |l.Lines()| + 1;
    if w.appendCount % ROTATE_EVERY == 0 {
      RotatedLength(w);
    }
  }

  lemma RotatedLength(l: Log)
    requires Counted(l)
    ensures |Rotated(l).Lines()| >= Min(|l.Lines()|, l.maxEntries) && Rotated(l).maxEntries == l.maxEntries
  {
    RotatedFacts(l);
  }

  function LimitStep(max: int, op: Op): int {
    if op.Configure? then op.maxEntries else max
  }

  /** The limit in force after these operations. */
  function LimitAfter(max: int, ops: seq<Op>): int
    decreases |ops|
  {
    if ops == [] then max else LimitAfter(LimitStep(max, ops[0]), ops[1..])
  }

  function LeastStep(low: int, max: int, op: Op): int {
    match op
    case Clear => max
    case Configure(m) => Min(low, m)
    case _ => low
  }

  /** The least limit in force since the last Clear, if it was `low` so far. */
  function LeastLimit(low: int, max: int, ops: seq<Op>): int
    decreases |ops|
  {
    if ops == [] then low else LeastLimit(LeastStep(low, max, ops[0]), LimitStep(max, ops[0]), ops[1..])
  }

  lemma StepKeepsEnough(l: Log, op: Op, written: seq<Line>, low: int)
    requires Counted(l) && |l.Lines()| >= Min(|written|, low) && low <= l.maxEntries
    ensures |Step(l, op).Lines()| >= Min(|WriteStep(written, op)|, LeastStep(low, l.maxEntries, op))
    ensures Step(l, op).maxEntries == LimitStep(l.maxEntries, op) >= LeastStep(low, l.maxEntries, op)
  {
    match op
    case Append(line) => AppendLength(l, line);
    case Clear =>
    case Rotate => RotatedLength(l);
    case Configure(max) => RotatedLength(l.(maxEntries := max, appendCount := 0));
  }

  /** In every run that keeps the path, the file holds at least as many of the lines
      written since the last Clear as the least limit in force since then; together
      with the suffix, these are the last ones. The last limit given is in force. */
  lemma {:induction false} EnoughIsKept(l: Log, ops: seq<Op>, written: seq<Line>, low: int)
    requires Counted(l) && IsSuffix(l.Lines(), written) && |l.Lines()| >= Min(|written|, low) && low <= l.maxEntries
    ensures |Run(l, ops).Lines()| >= Min(|Written(written, ops)|, LeastLimit(low, l.maxEntries, ops))
    ensures Run(l, ops).maxEntries == LimitAfter(l.maxEntries, ops)
    decreases |ops|
  {
    if ops != [] {
      StepFacts(l, ops[0], written);
      StepKeepsEnough(l, ops[0], written, low);
      EnoughIsKept(Step(l, ops[0]), ops[1..], WriteStep(written, ops[0]), LeastStep(low, l.maxEntries, ops[0]));
    }
  }

  /** From a freshly opened log: nothing written is lost as long as the least limit
      since the last Clear is not exceeded. */
  lemma NothingLostBelowLimit(files: Files, path: Text, max: int, ops: seq<Op>)
    ensures var l := Opened(files, path, max);
            var written := Written(l.Lines(), ops);
            |written| <= LeastLimit(max, max, ops) ==> Run(l, ops).Lines() == written
  {
    var l := Opened(files, path, max);
    assert IsSuffix(l.Lines(), l.Lines());
    EnoughIsKept(l, ops, l.Lines(), max);
    RotationInvariant(l, ops, l.Lines());
  }

  /** Changing the path does not recount: the counter is right afterwards exactly
      if it happens to equal the new file's length, or was above the new limit and
      the rotation got as far as counting the lines kept (it gives up on a missing
      file if the limit is negative). */
  lemma PathChangeCountsIff(l: Log, path: Text, maxEntries: int)
    ensures var target := l.(path := path).Lines();
            Counted(Reconfigured(l, path, maxEntries))
            <==> (l.entryCount > maxEntries && (path in l.files || maxEntries >= 0)) || |target| == l.entryCount
  {
  }

  /** For instance a longer file under the new path is not trimmed at all. */
  lemma PathChangeCanMiss()
    ensures exists files: Files, path: Text, path': Text, max: int ::
              var l := Reconfigured(Opened(files, path, max), path', max);
              |l.Lines()| > max && !Counted(l)
  {
    var path, path': Text := [1], [2];
    var files: Files := map[path := [], path' := [Malformed, Malformed]];
    assert Opened(files, path, 1).entryCount == 0;
    assert Reconfigured(Opened(files, path, 1), path', 1).Lines() == [Malformed, Malformed];
  }

  // ---------------------------------------------------------------- how far the counter can be off

  /** How many lines the counter does not know of. */
  function Drift(l: Log): int {
    |l.Lines()| - l.entryCount
  }

  /** The counter exceeds the limit by the appends since the last check at most. */
  predicate CountBounded(l: Log) {
    l.entryCount <= Max(0, l.maxEntries) + l.appendCount % ROTATE_EVERY
  }

  /** A rotation bounds the counter or the file, whether the counter is right or
      not, and either keeps the drift or removes it. */
  lemma RotationDrift(l: Log)
    ensures CountBounded(Rotated(l)) || Bounded(Rotated(l))
    ensures Drift(Rotated(l)) == Drift(l) || Drift(Rotated(l)) == 0
  {
  }

  lemma ExtendDrift(l: Log, line: Line)
    ensures Drift(Extended(l, line)) == Drift(l)
    ensures var w := Extended(l, line); w.appendCount % ROTATE_EVERY != 0 ==>
              (CountBounded(l) ==> CountBounded(w)) && (Bounded(l) ==> Bounded(w))
  {
    var w := Extended(l, line);
    assert w.Lines() == l.Lines() + [line];
    if w.appendCount % ROTATE_EVERY != 0 {
      assert w.appendCount % ROTATE_EVERY == l.appendCount % ROTATE_EVERY + 1;
    }
  }

  lemma StepDrift(l: Log, op: Op)
    requires CountBounded(l) || Bounded(l)
    ensures CountBounded(Step(l, op)) || Bounded(Step(l, op))
    ensures Drift(Step(l, op)) == Drift(l) || Drift(Step(l, op)) == 0
  {
    match op
    case Append(line) =>
      ExtendDrift(l, line);
      RotationDrift(Extended(l, line));
    case Clear =>
      if l.path in l.files {
        assert Cleared(l).Lines() == [];
      }
    case Rotate => RotationDrift(l);
    case Configure(max) => RotationDrift(l.(maxEntries := max, appendCount := 0));
  }

  lemma {:induction false} RunDrift(l: Log, ops: seq<Op>)
    requires CountBounded(l) || Bounded(l)
    ensures CountBounded(Run(l, ops)) || Bounded(Run(l, ops))
    ensures Drift(Run(l, ops)) == Drift(l) || Drift(Run(l, ops)) == 0
    decreases |ops|
  {
    if ops != [] {
      StepDrift(l, ops[0]);
      RunDrift(Step(l, ops[0]), ops[1..]);
    }
  }

  /** After any change of path, whatever the counter says: the drift stays what it
      is right after the change until it vanishes, and the file exceeds its limit
      by that drift and the appends since the last check at most. */
  lemma PathChangeIsBounded(l: Log, path: Text, maxEntries: int, ops: seq<Op>)
    ensures var changed := Reconfigured(l, path, maxEntries);
            var after := Run(changed, ops);
            && (Drift(after) == Drift(changed) || Drift(after) == 0)
            && |after.Lines()| <= Max(0, after.maxEntries) + Max(0, Drift(changed)) + after.appendCount % ROTATE_EVERY
  {
    RotationDrift(l.(path := path, maxEntries := maxEntries, appendCount := 0));
    RunDrift(Reconfigured(l, path, maxEntries), ops);
  }
}
