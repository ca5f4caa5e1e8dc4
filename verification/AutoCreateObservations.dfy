/** What a request is told is what the history implies: cache answers, freeze
    checks and the queue check agree with the log at the moment they are given. */
module AutoCreateObservations {
  import opened Common
  import opened ServiceCache
  import opened AutoCreate
  import opened AutoCreateHistory

  /** The state of a service by the history of cache writes: the last one counts,
      for the length of the TTL. */
  function SeenBy(log: Log, k: Key, ttl: int, now: int): ServiceState {
    var m := LastWrite(log, k);
    if m < 0 || log[m].what.Removed? || now > log[m].at + ttl then NotFound
    else if log[m].what.Began? then Pending
    else Ready
  }

  /** Whether a service is frozen by the history of freezes: the last one counts. */
  predicate FrozenBy(log: Log, k: Key) {
    if log == [] then false
    else
      var last := log[|log| - 1];
      if last.key == k && last.what.Froze? then last.what.on else FrozenBy(log[..|log| - 1], k)
  }

  /** How many requests the history leaves in the status queue. */
  function QueuedBy(log: Log): int {
    if log == [] then 0
    else
      var last := log[|log| - 1].what;
      QueuedBy(log[..|log| - 1]) + (if last.Entered? then 1 else if last.Left? then -1 else 0)
  }

  /** Event e, after the history `log`, tells the truth. */
  predicate Truthful(cfg: Config, log: Log, e: Event) {
    match e.what
    case Looked(_, seen) => seen == SeenBy(log, e.key, cfg.ttl, e.at)
    case Checked(_, frozen) => frozen == FrozenBy(log, e.key)
    case Entered(_) => QueuedBy(log) < cfg.maxQueue
    case Rejected(_) => QueuedBy(log) >= cfg.maxQueue
    case _ => true
  }

  ghost predicate AllTruthful(cfg: Config, log: Log) {
    forall i :: 0 <= i < |log| ==> Truthful(cfg, log[..i], log[i])
  }

  ghost predicate Witnessed(cfg: Config, s: State) {
    && AllTruthful(cfg, s.log)
    && (forall k :: k in s.frozen <==> FrozenBy(s.log, k))
    && s.queued == QueuedBy(s.log)
  }

  lemma TruthfulAppend(cfg: Config, log: Log, e: Event)
    requires AllTruthful(cfg, log) && Truthful(cfg, log, e)
    ensures AllTruthful(cfg, log + [e])
  {
    var log' := log + [e];
    forall i | 0 <= i < |log'|
      ensures Truthful(cfg, log'[..i], log'[i])
    {
      assert i < |log| ==> log'[i] == log[i] && log'[..i] == log[..i];
      assert i == |log| ==> log'[..i] == log;
    }
  }

  lemma AppendedBy(log: Log, e: Event, k: Key)
    ensures FrozenBy(log + [e], k) == if e.key == k && e.what.Froze? then e.what.on else FrozenBy(log, k)
    ensures QueuedBy(log + [e]) == QueuedBy(log) + (if e.what.Entered? then 1 else if e.what.Left? then -1 else 0)
  {
    assert (log + [e])[..|log|] == log;
  }

  /** The cache answers what the history implies. */
  lemma CacheAgrees(cfg: Config, s: State, k: Key)
    requires Mirrors(cfg, s)
    ensures Lookup(s.entries, cfg.ttl, s.now, k) == SeenBy(s.log, k, cfg.ttl, s.now)
  {
    assert Mirrored(s.entries, s.log, k, cfg.ttl, s.now);
  }

  /** What the notes of a thread step record. */
  predicate Reads(cfg: Config, s: State, th: Thread, e: Effect) {
    match e.note
    case Some(Looked(_, seen)) => seen == Lookup(s.entries, cfg.ttl, s.now, th.key) && e.dQueued == 0
    case Some(Checked(_, frozen)) => (frozen <==> th.key in s.frozen) && e.dQueued == 0
    case Some(Entered(_)) => s.queued < cfg.maxQueue && e.dQueued == 1
    case Some(Rejected(_)) => s.queued >= cfg.maxQueue && e.dQueued == 0
    case Some(Left(_)) => e.dQueued == -1
    case Some(Froze(_)) => false
    case _ => e.dQueued == 0
  }

  lemma StepReads(cfg: Config, s: State, t: nat, c: Choice)
    requires t < |s.threads| && Step(cfg, s, t, c).Some?
    ensures Reads(cfg, s, s.threads[t], Step(cfg, s, t, c).value)
  {
    var th := s.threads[t];
    match PhaseOf(th.pc)
    case InStatus => assert StatusStep(cfg, s, t, th, c).Some?;
    case InNeeds => assert NeedsStep(cfg, s, t, th, c).Some?;
    case InMutate => assert MutateStep(cfg, s, t, th, c).Some?;
    case InForward => assert ForwardStep(cfg, s, t, th, c).Some?;
  }

  lemma WitnessedMove(cfg: Config, s: State, t: nat, e: Effect)
    requires Witnessed(cfg, s) && Mirrors(cfg, s) && t < |s.threads| && Reads(cfg, s, s.threads[t], e)
    ensures Witnessed(cfg, Apply(s, t, e))
  {
    if e.note.Some? {
      var ev := Event(s.now, s.threads[t].key, e.note.value);
      CacheAgrees(cfg, s, ev.key);
      TruthfulAppend(cfg, s.log, ev);
      forall k: Key
        ensures FrozenBy(s.log + [ev], k) == FrozenBy(s.log, k)
      {
        AppendedBy(s.log, ev, k);
      }
      AppendedBy(s.log, ev, ev.key);
    }
  }

  lemma WitnessedRecord(cfg: Config, s: State, key: Key, what: What, s': State)
    requires Witnessed(cfg, s) && (what.Listed? || what.Removed? || what.Froze?)
    requires s'.log == s.log + [Event(s.now, key, what)] && s'.queued == s.queued
    requires s'.frozen == if what.Froze? then (if what.on then s.frozen + {key} else s.frozen - {key}) else s.frozen
    ensures Witnessed(cfg, s')
  {
    var ev := Event(s.now, key, what);
    TruthfulAppend(cfg, s.log, ev);
    forall k: Key
      ensures k in s'.frozen <==> FrozenBy(s'.log, k)
    {
      AppendedBy(s.log, ev, k);
    }
    AppendedBy(s.log, ev, key);
  }

  lemma WitnessedStep(cfg: Config, s: State, a: Action, s': State)
    requires Witnessed(cfg, s) && Mirrors(cfg, s) && Next(cfg, s, a) == Some(s')
    ensures Witnessed(cfg, s')
  {
    match a
    case Move(t, c) =>
      StepReads(cfg, s, t, c);
      WitnessedMove(cfg, s, t, Step(cfg, s, t, c).value);
    case Resync(key) => WitnessedRecord(cfg, s, key, Listed, s');
    case AdminRemove(key) => WitnessedRecord(cfg, s, key, Removed(None), s');
    case SetFrozen(key, on) => WitnessedRecord(cfg, s, key, Froze(on), s');
    case _ =>
  }

  lemma {:induction false} WitnessedRun(cfg: Config, s: State, actions: seq<Action>, s': State)
    requires Witnessed(cfg, s) && Sound(cfg, s) && Run(cfg, s, actions) == Some(s')
    ensures Witnessed(cfg, s')
    decreases |actions|
  {
    if actions != [] {
      var s1 := Next(cfg, s, actions[0]).value;
      WitnessedStep(cfg, s, actions[0], s1);
      SoundStep(cfg, s, actions[0], s1);
      WitnessedRun(cfg, s1, actions[1..], s');
    }
  }

  /** In every run: a cache look sees the state that the writes so far imply, a freeze
      check finds what the last freeze or unfreeze said, and a request is turned away
      if and only if the queue is full at that moment. */
  lemma ObservationsAreTrue(cfg: Config, s: State, i: nat)
    requires Reachable(cfg, s) && i < |s.log|
    ensures var e, before := s.log[i], s.log[..i];
            && (e.what.Looked? ==> e.what.seen == SeenBy(before, e.key, cfg.ttl, e.at))
            && (e.what.Checked? ==> e.what.frozen == FrozenBy(before, e.key))
            && (e.what.Entered? ==> QueuedBy(before) < cfg.maxQueue)
            && (e.what.Rejected? ==> QueuedBy(before) >= cfg.maxQueue)
  {
    var start: int, actions: seq<Action> :| Run(cfg, Initial(start), actions) == Some(s);
    WitnessedRun(cfg, Initial(start), actions, s);
    assert Truthful(cfg, s.log[..i], s.log[i]);
  }

  /** What the history leaves in the queue is what the limiter counts. */
  lemma HistoryCounts(cfg: Config, s: State)
    requires Reachable(cfg, s)
    ensures s.queued == QueuedBy(s.log) && forall k :: k in s.frozen <==> FrozenBy(s.log, k)
  {
    var start: int, actions: seq<Action> :| Run(cfg, Initial(start), actions) == Some(s);
    WitnessedRun(cfg, Initial(start), actions, s);
  }

  /** What happens around the requests: time passes, a resync registers, prune and
      admin remove, freezes begin and end; and nothing else changes. */
  lemma Surroundings(cfg: Config, s: State, key: Key, d: nat, on: bool, other: Key)
    requires other != key
    ensures Next(cfg, s, Tick(d)) == Some(s.(now := s.now + d))
    ensures var s' := Next(cfg, s, Resync(key)).value;
            && (cfg.ttl >= 0 ==> Lookup(s'.entries, cfg.ttl, s.now, key) == Ready) && s'.threads == s.threads
            && Lookup(s'.entries, cfg.ttl, s.now, other) == Lookup(s.entries, cfg.ttl, s.now, other)
    ensures var s' := Next(cfg, s, AdminRemove(key)).value;
            && Lookup(s'.entries, cfg.ttl, s.now, key) == NotFound && s'.threads == s.threads
            && Lookup(s'.entries, cfg.ttl, s.now, other) == Lookup(s.entries, cfg.ttl, s.now, other)
    ensures var s' := Next(cfg, s, SetFrozen(key, on)).value;
            (key in s'.frozen <==> on) && (other in s'.frozen <==> other in s.frozen) && s'.entries == s.entries
    ensures var s' := Next(cfg, s, EvictExpired).value;
            forall k :: k in s'.entries <==> k in s.entries && s.now <= s.entries[k].createdAt + cfg.ttl
  {
  }
}
