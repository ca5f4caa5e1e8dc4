/** Mutual exclusion of service creation: when creating threads exclude each
    other, one key is never created twice without a reason in between. */
module AutoCreateExclusive {
  import opened Common
  import opened ServiceCache
  import opened AutoCreate
  import opened AutoCreateSlots
  import opened AutoCreateHistory

  predicate Begins(e: Event, k: Key) {
    e.key == k && e.what.Began?
  }

  /** At `m` the key was removed (a failed create ends in a removal too), or was
      registered and then left untouched for longer than the TTL. */
  ghost predicate SettledAt(log: Log, k: Key, m: int, ttl: int, now: int) {
    && 0 <= m < |log| && log[m].key == k
    && (|| log[m].what.Removed?
        || ((log[m].what.Registered? || log[m].what.Listed?) && log[m].at + ttl < now
            && forall n :: m < n < |log| && Writes(log[n], k) ==> log[m].at + ttl < log[n].at))
  }

  /** Every creation of `k` so far has been settled. */
  ghost predicate Cleared(log: Log, k: Key, ttl: int, now: int) {
    forall i :: 0 <= i < |log| && Begins(log[i], k) ==> exists m :: i < m && SettledAt(log, k, m, ttl, now)
  }

  /** The creation begun at `j` is separated from all earlier ones of its key. */
  ghost predicate SeparatedAt(log: Log, j: nat, ttl: int)
    requires j < |log|
  {
    Cleared(log[..j], log[j].key, ttl, log[j].at)
  }

  // ---------------------------------------------------------------- who excludes whom

  /** Configurations in which a creating thread has no rival: one mutate slot; no
      work request that could create; or, as long as nobody creates in test mode
      (`tests` is false), at most one work request served at a time. */
  predicate Lonely(cfg: Config, tests: bool) {
    cfg.limited && (|| cfg.mutateCap <= 1 || cfg.statusCap == 0 || cfg.maxQueue == 0
                    || (!tests && (cfg.statusCap <= 1 || cfg.maxQueue <= 1)))
  }

  /** Configurations that protect test creates too, which do not look at the
      cache again once they have the slot. */
  predicate TestsCovered(cfg: Config) {
    cfg.mutateCap == 0 || (cfg.mutateCap == 1 && cfg.ttl < 0)
  }

  predicate Covered(cfg: Config, th: Thread) {
    th.kind.Work? || TestsCovered(cfg)
  }

  /** Past the mutate slot on the way to a creation, or just behind it. */
  predicate Creator(th: Thread) {
    HoldsMutate(th) && !th.kind.Deletion?
  }

  ghost predicate Permitted(tests: bool, s: State) {
    !tests ==> forall t :: 0 <= t < |s.threads| ==> !s.threads[t].kind.TestCreate?
  }

  lemma AtMostOne(p: Thread -> bool, ts: seq<Thread>, t: nat, u: nat)
    requires t < |ts| && u < |ts| && p(ts[t]) && p(ts[u]) && Count(p, ts) <= 1
    ensures t == u && Count(p, ts) == 1
  {
    CountWitness(p, ts);
    if t < u {
      CountTwo(p, ts, t, u);
    } else if u < t {
      CountTwo(p, ts, u, t);
    }
  }

  lemma SoleCreator(cfg: Config, tests: bool, s: State, t: nat, u: nat)
    requires Lonely(cfg, tests) && Accounted(cfg, s) && Permitted(tests, s) && t < |s.threads| && u < |s.threads|
    requires Creator(s.threads[t]) && Covered(cfg, s.threads[t]) && Creator(s.threads[u])
    ensures t == u
  {
    if cfg.mutateCap <= 1 {
      AtMostOne(HoldsMutate, s.threads, t, u);
    } else if cfg.statusCap == 0 || (!tests && cfg.statusCap == 1) {
      AtMostOne(HoldsStatus, s.threads, t, if tests then t else u);
    } else {
      AtMostOne(Counted, s.threads, t, if tests then t else u);
    }
  }

  // ---------------------------------------------------------------- the invariant

  ghost predicate AllSeparated(cfg: Config, s: State) {
    forall j :: 0 <= j < |s.log| && s.log[j].what.Began? ==>
      && s.log[j].what.t < |s.threads| && !s.threads[s.log[j].what.t].kind.Deletion?
      && (Covered(cfg, s.threads[s.log[j].what.t]) ==> SeparatedAt(s.log, j, cfg.ttl))
  }

  ghost predicate Exclusive(cfg: Config, tests: bool, s: State) {
    && AllSeparated(cfg, s) && Permitted(tests, s)
    && forall t :: 0 <= t < |s.threads| ==>
         var th := s.threads[t];
         && !(th.pc.PollGuard? && th.pc.slotted) && !(th.pc.PollRead? && th.pc.slotted)
         && (th.pc.Mark? && Covered(cfg, th) ==> Cleared(s.log, th.key, cfg.ttl, s.now))
  }

  /** A creator that is not in flight itself sees no creation in flight. */
  lemma NoFlightForCreator(cfg: Config, tests: bool, s: State, t: nat)
    requires Lonely(cfg, tests) && Sound(cfg, s) && Permitted(tests, s) && t < |s.threads|
    requires Creator(s.threads[t]) && Covered(cfg, s.threads[t]) && !InFlight(s.threads[t])
    ensures var m := LastWrite(s.log, s.threads[t].key); m >= 0 ==> !s.log[m].what.Began?
  {
    var k := s.threads[t].key;
    assert Flying(s.threads, s.log, k);
    var m := LastWrite(s.log, k);
    if m >= 0 && s.log[m].what.Began? {
      var u := s.log[m].what.t;
      assert WellPlaced(cfg, s.threads[u]);
      SoleCreator(cfg, tests, s, t, u);
    }
  }

  /** If the last write of a key is a removal or an expired registration, every
      creation of the key has been settled. */
  lemma LastWriteSettles(log: Log, k: Key, ttl: int, now: int)
    requires var m := LastWrite(log, k);
             m >= 0 ==> log[m].what.Removed? || (!log[m].what.Began? && log[m].at + ttl < now)
    ensures Cleared(log, k, ttl, now)
  {
    var m := LastWrite(log, k);
    forall i | 0 <= i < |log| && Begins(log[i], k)
      ensures exists m :: i < m && SettledAt(log, k, m, ttl, now)
    {
      LastWriteIsLast(log, k, i);
      forall n | m < n < |log|
        ensures !Writes(log[n], k)
      {
        if Writes(log[n], k) {
          LastWriteIsLast(log, k, n);
        }
      }
      assert SettledAt(log, k, m, ttl, now);
    }
  }

  /** The re-check under the slot: not finding the service clears the key. */
  lemma RecheckClears(cfg: Config, tests: bool, s: State, t: nat)
    requires Lonely(cfg, tests) && Sound(cfg, s) && Permitted(tests, s) && t < |s.threads|
    requires s.threads[t].pc == Check(true)
    ensures var k := s.threads[t].key; var seen := Lookup(s.entries, cfg.ttl, s.now, k);
            seen != Pending && (seen == NotFound ==> Cleared(s.log, k, cfg.ttl, s.now))
  {
    var k := s.threads[t].key;
    assert WellPlaced(cfg, s.threads[t]);
    NoFlightForCreator(cfg, tests, s, t);
    assert Mirrored(s.entries, s.log, k, cfg.ttl, s.now);
    if Lookup(s.entries, cfg.ttl, s.now, k) == NotFound {
      LastWriteSettles(s.log, k, cfg.ttl, s.now);
    }
  }

  /** Under the only slot and a negative TTL nothing needs to be looked up. */
  lemma FreeSlotClears(cfg: Config, s: State, k: Key)
    requires cfg.limited && TestsCovered(cfg) && Sound(cfg, s) && s.mutateInUse < cfg.mutateCap
    ensures Cleared(s.log, k, cfg.ttl, s.now)
  {
    assert Flying(s.threads, s.log, k);
    CountWitness(HoldsMutate, s.threads);
    LastWriteSettles(s.log, k, cfg.ttl, s.now);
  }

  lemma ClearedLasts(s: State, k: Key, ttl: int, e: Event, now': int)
    requires Cleared(s.log, k, ttl, s.now) && e.at == s.now && !Begins(e, k) && now' >= s.now
    ensures Cleared(s.log + [e], k, ttl, now')
  {
    var log' := s.log + [e];
    forall i | 0 <= i < |log'| && Begins(log'[i], k)
      ensures exists m :: i < m && SettledAt(log', k, m, ttl, now')
    {
      assert log'[i] == s.log[i];
      var m :| i < m && SettledAt(s.log, k, m, ttl, s.now);
      assert SettledAt(log', k, m, ttl, now');
    }
  }

  lemma ClearedLater(log: Log, k: Key, ttl: int, now: int, now': int)
    requires Cleared(log, k, ttl, now) && now <= now'
    ensures Cleared(log, k, ttl, now')
  {
    forall i | 0 <= i < |log| && Begins(log[i], k)
      ensures exists m :: i < m && SettledAt(log, k, m, ttl, now')
    {
      var m :| i < m && SettledAt(log, k, m, ttl, now);
      assert SettledAt(log, k, m, ttl, now');
    }
  }

  lemma SeparatedAppend(cfg: Config, s: State, s': State, e: Event)
    requires AllSeparated(cfg, s) && s'.log == s.log + [e]
    requires |s.threads| == |s'.threads| && forall t :: 0 <= t < |s.threads| ==> s'.threads[t].kind == s.threads[t].kind
    requires e.what.Began? ==> e.what.t < |s.threads| && !s.threads[e.what.t].kind.Deletion?
    requires e.what.Began? && Covered(cfg, s.threads[e.what.t]) ==> Cleared(s.log, e.key, cfg.ttl, e.at)
    ensures AllSeparated(cfg, s')
  {
    forall j | 0 <= j < |s'.log| && s'.log[j].what.Began?
      ensures s'.log[j].what.t < |s'.threads| && !s'.threads[s'.log[j].what.t].kind.Deletion?
      ensures Covered(cfg, s'.threads[s'.log[j].what.t]) ==> SeparatedAt(s'.log, j, cfg.ttl)
    {
      assert j < |s.log| ==> s'.log[j] == s.log[j] && s'.log[..j] == s.log[..j];
      assert j == |s.log| ==> s'.log[..j] == s.log;
    }
  }

  /** Which thread steps lead to Mark or record a creation. */
  predicate Cautious(cfg: Config, s: State, t: nat, th: Thread, e: Effect) {
    && (e.note.Some? && e.note.value.Began? ==> th.pc.Mark? && e.note.value.t == t && !th.kind.Deletion?)
    && (e.pc.Mark? ==> !(e.note.Some? && e.note.value.Began?) && !th.kind.Deletion?)
    && (e.pc.Mark? && th.kind.Work? ==> th.pc == Check(true) && Lookup(s.entries, cfg.ttl, s.now, th.key) == NotFound)
    && (e.pc.Mark? && !th.kind.Work? ==> e.note.None? && s.mutateInUse < cfg.mutateCap)
    && (e.pc.PollGuard? && e.pc.slotted ==>
        th.pc == Check(true) && Lookup(s.entries, cfg.ttl, s.now, th.key) == Pending)
    && !(e.pc.PollRead? && e.pc.slotted)
  }

  lemma StepCautious(cfg: Config, s: State, t: nat, c: Choice)
    requires t < |s.threads| && Step(cfg, s, t, c).Some? && cfg.limited && WellPlaced(cfg, s.threads[t])
    requires !(s.threads[t].pc.PollGuard? && s.threads[t].pc.slotted)
    requires !(s.threads[t].pc.PollRead? && s.threads[t].pc.slotted)
    ensures Cautious(cfg, s, t, s.threads[t], Step(cfg, s, t, c).value)
  {
    var th := s.threads[t];
    match PhaseOf(th.pc)
    case InStatus => assert StatusStep(cfg, s, t, th, c).Some?;
    case InNeeds => assert NeedsStep(cfg, s, t, th, c).Some?;
    case InMutate => assert MutateStep(cfg, s, t, th, c).Some?;
    case InForward => assert ForwardStep(cfg, s, t, th, c).Some?;
  }

  /** What is cleared for a marking thread stays so when thread t takes a step. */
  lemma MarkStaysCleared(cfg: Config, tests: bool, s: State, t: nat, e: Effect, u: nat)
    requires Lonely(cfg, tests) && Sound(cfg, s) && Exclusive(cfg, tests, s)
    requires t < |s.threads| && Cautious(cfg, s, t, s.threads[t], e)
    requires u < |s.threads| && u != t && s.threads[u].pc.Mark? && Covered(cfg, s.threads[u])
    ensures Cleared(Apply(s, t, e).log, s.threads[u].key, cfg.ttl, s.now)
  {
    if e.note.Some? {
      var ev := Event(s.now, s.threads[t].key, e.note.value);
      if e.note.value.Began? {
        assert WellPlaced(cfg, s.threads[u]);
        SoleCreator(cfg, tests, s, u, t);
      }
      ClearedLasts(s, s.threads[u].key, cfg.ttl, ev, s.now);
    }
  }

  lemma ExclusiveApply(cfg: Config, tests: bool, s: State, t: nat, e: Effect)
    requires Lonely(cfg, tests) && Sound(cfg, s) && Exclusive(cfg, tests, s)
    requires t < |s.threads| && Cautious(cfg, s, t, s.threads[t], e)
    ensures Exclusive(cfg, tests, Apply(s, t, e))
  {
    var s' := Apply(s, t, e);
    var th := s.threads[t];
    if th.pc == Check(true) {
      RecheckClears(cfg, tests, s, t);
    }
    if e.note.Some? {
      SeparatedAppend(cfg, s, s', Event(s.now, th.key, e.note.value));
    }
    forall u | 0 <= u < |s'.threads| && s'.threads[u].pc.Mark? && Covered(cfg, s'.threads[u])
      ensures Cleared(s'.log, s'.threads[u].key, cfg.ttl, s'.now)
    {
      if u != t {
        MarkStaysCleared(cfg, tests, s, t, e, u);
      } else if !th.kind.Work? {
        FreeSlotClears(cfg, s, th.key);
      } else if e.note.Some? {
        ClearedLasts(s, th.key, cfg.ttl, Event(s.now, th.key, e.note.value), s.now);
      }
    }
  }

  lemma ExclusiveRecord(cfg: Config, tests: bool, s: State, key: Key, what: What)
    requires Exclusive(cfg, tests, s) && !what.Began?
    ensures Exclusive(cfg, tests, Record(s, key, what))
  {
    var s' := Record(s, key, what);
    var e := Event(s.now, key, what);
    SeparatedAppend(cfg, s, s', e);
    forall u | 0 <= u < |s'.threads| && s'.threads[u].pc.Mark? && Covered(cfg, s'.threads[u])
      ensures Cleared(s'.log, s'.threads[u].key, cfg.ttl, s'.now)
    {
      ClearedLasts(s, s.threads[u].key, cfg.ttl, e, s.now);
    }
  }

  predicate Permits(tests: bool, a: Action) {
    tests || !(a.Request? && a.kind.TestCreate?)
  }

  lemma ExclusiveStep(cfg: Config, tests: bool, s: State, a: Action, s': State)
    requires Lonely(cfg, tests) && Sound(cfg, s) && Exclusive(cfg, tests, s) && Permits(tests, a)
    requires Next(cfg, s, a) == Some(s')
    ensures Exclusive(cfg, tests, s')
  {
    match a
    case Move(t, c) =>
      StepCautious(cfg, s, t, c);
      ExclusiveApply(cfg, tests, s, t, Step(cfg, s, t, c).value);
    case Resync(key) => ExclusiveRecord(cfg, tests, s, key, Listed);
    case AdminRemove(key) => ExclusiveRecord(cfg, tests, s, key, Removed(None));
    case SetFrozen(key, on) => ExclusiveRecord(cfg, tests, s, key, Froze(on));
    case Tick(d) =>
      forall u | 0 <= u < |s.threads| && s.threads[u].pc.Mark? && Covered(cfg, s.threads[u])
        ensures Cleared(s.log, s.threads[u].key, cfg.ttl, s'.now)
      {
        ClearedLater(s.log, s.threads[u].key, cfg.ttl, s.now, s'.now);
      }
    case _ =>
  }

  /** A run from a fresh process; `tests` says whether test creates may occur. */
  ghost predicate RunsTo(cfg: Config, tests: bool, start: int, actions: seq<Action>, s: State) {
    Run(cfg, Initial(start), actions) == Some(s) && forall x :: 0 <= x < |actions| ==> Permits(tests, actions[x])
  }

  lemma {:induction false} ExclusiveRun(cfg: Config, tests: bool, s: State, actions: seq<Action>, s': State)
    requires Lonely(cfg, tests) && Sound(cfg, s) && Exclusive(cfg, tests, s)
    requires Run(cfg, s, actions) == Some(s') && forall x :: 0 <= x < |actions| ==> Permits(tests, actions[x])
    ensures Exclusive(cfg, tests, s')
    decreases |actions|
  {
    if actions != [] {
      var s1 := Next(cfg, s, actions[0]).value;
      SoundStep(cfg, s, actions[0], s1);
      ExclusiveStep(cfg, tests, s, actions[0], s1);
      ExclusiveRun(cfg, tests, s1, actions[1..], s');
    }
  }

  // ---------------------------------------------------------------- separation

  /** Between two creations of a key there is a removal, or a registration left
      alone for more than the TTL. */
  ghost predicate Apart(log: Log, ttl: int, i: nat, j: nat)
    requires i < j < |log|
  {
    exists m :: i < m < j && SettledAt(log[..j], log[j].key, m, ttl, log[j].at)
  }

  predicate ByWork(s: State, j: nat)
    requires j < |s.log| && s.log[j].what.Began?
  {
    s.log[j].what.t < |s.threads| && s.threads[s.log[j].what.t].kind.Work?
  }

  /** Every creation (`all`), or every one begun by a work request, is apart from
      all earlier creations of its key, whoever began those. */
  ghost predicate Separation(s: State, ttl: int, all: bool) {
    forall i, j :: 0 <= i < j < |s.log| && s.log[i].what.Began? && Begins(s.log[j], s.log[i].key)
        && (all || ByWork(s, j))
      ==> Apart(s.log, ttl, i, j)
  }

  lemma ExclusiveSeparates(cfg: Config, tests: bool, start: int, actions: seq<Action>, s: State, all: bool)
    requires Lonely(cfg, tests) && RunsTo(cfg, tests, start, actions, s)
    requires all && tests ==> TestsCovered(cfg)
    ensures Separation(s, cfg.ttl, all)
  {
    ExclusiveRun(cfg, tests, Initial(start), actions, s);
    forall i, j | 0 <= i < j < |s.log| && s.log[i].what.Began? && Begins(s.log[j], s.log[i].key)
        && (all || ByWork(s, j))
      ensures Apart(s.log, cfg.ttl, i, j)
    {
      assert Covered(cfg, s.threads[s.log[j].what.t]);
      assert SeparatedAt(s.log, j, cfg.ttl);
      assert Begins(s.log[..j][i], s.log[j].key);
    }
  }
}
